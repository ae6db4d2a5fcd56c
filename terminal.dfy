/**
 * The output stream as a trace of the commands queued on it. Writing to the
 * trace cannot fail in the model.
 */
module Terminal {
  import opened Optional
  import opened StyleOptions

  datatype Command =
    /** plain text */
    | Print(text: string)
    /** text with optional colours, as a styled-content print */
    | PrintStyled(text: string, fg: Option<Color>, bg: Option<Color>)
    | SetForegroundColor(color: Color)
    | SetBackgroundColor(color: Color)
    | ResetColor
    | Flush

  /** Standard output: everything queued on it so far, in order. */
  class Stdout {
    var trace: seq<Command>

    constructor ()
      ensures trace == []
    {
      trace := [];
    }

    /** `queue!(stdout, c)`, or `stdout.flush()` for `Flush`. */
    method Queue(c: Command)
      modifies this
      ensures trace == old(trace) + [c]
    {
      trace := trace + [c];
    }

    /** Several commands queued in one `queue!`. */
    method QueueAll(cs: seq<Command>)
      modifies this
      ensures trace == old(trace) + cs
    {
      trace := trace + cs;
    }
  }

  /** Every styled print is immediately followed by a colour reset. */
  predicate ResetAfterStyled(t: seq<Command>)
  {
    forall i :: 0 <= i < |t| && t[i].PrintStyled? ==> i + 1 < |t| && t[i + 1] == ResetColor
  }

  lemma ResetAfterStyledAppend(a: seq<Command>, b: seq<Command>)
    requires ResetAfterStyled(a) && ResetAfterStyled(b)
    ensures ResetAfterStyled(a + b)
  {
    forall i | 0 <= i < |a + b| && (a + b)[i].PrintStyled?
      ensures i + 1 < |a + b| && (a + b)[i + 1] == ResetColor
    {
      if i < |a| {
        assert a[i].PrintStyled?;
      } else {
        assert b[i - |a|].PrintStyled?;
      }
    }
  }

  /** The commands of several groups, one group after the other. */
  function Flatten(groups: seq<seq<Command>>): seq<Command>
  {
    if groups == [] then [] else Flatten(groups[..|groups| - 1]) + groups[|groups| - 1]
  }

  lemma {:induction false} FlattenAppend(a: seq<seq<Command>>, b: seq<seq<Command>>)
    ensures Flatten(a + b) == Flatten(a) + Flatten(b)
  {
    if b == [] {
      assert a + b == a;
    } else {
      var c := a + b;
      var init := b[..|b| - 1];
      var last := b[|b| - 1];
      assert c[..|c| - 1] == a + init && c[|c| - 1] == last;
      assert Flatten(c) == Flatten(a + init) + last;
      assert Flatten(b) == Flatten(init) + last;
      FlattenAppend(a, init);
    }
  }

  /** If every group resets after each styled print, so does their concatenation. */
  lemma {:induction false} ResetAfterStyledFlatten(groups: seq<seq<Command>>)
    requires forall i :: 0 <= i < |groups| ==> ResetAfterStyled(groups[i])
    ensures ResetAfterStyled(Flatten(groups))
  {
    if groups != [] {
      ResetAfterStyledFlatten(groups[..|groups| - 1]);
      ResetAfterStyledAppend(Flatten(groups[..|groups| - 1]), groups[|groups| - 1]);
    }
  }

  lemma Assoc(a: seq<Command>, b: seq<Command>, c: seq<Command>, d: seq<Command>)
    ensures a + b + c + d == a + (b + c + d)
  {
  }

  lemma Assoc3(a: seq<Command>, b: seq<Command>, c: seq<Command>)
    ensures a + b + c == a + (b + c)
  {
  }
}
