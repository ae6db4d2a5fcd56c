/**
 * The decision logic of `confirm`: characters are collected into a buffer
 * until Enter, Backspace deletes the last one, and the trimmed buffer
 * decides: empty gives the default, "yes" or "y" in any ASCII case gives
 * true, anything else false.
 */
module Confirm {
  import opened Optional
  import opened Strings
  import opened Keys

  /** The effect of one key other than Enter on the input buffer. */
  function ConfirmStep(input: string, k: Key): (r: string)
    ensures k.Char? ==> r == input + [k.c]
    ensures k.Backspace? && input != [] ==> r == input[..|input| - 1]
    ensures !k.Char? && !(k.Backspace? && input != []) ==> r == input
  {
    match k
    case Char(c, _) => input + [c]
    case Backspace => if input != [] then input[..|input| - 1] else input
    case _ => input
  }

  /** The answer once Enter is pressed. */
  function ConfirmDecision(input: string, default: bool): bool
  {
    var t := Trim(input);
    if t == [] then default
    else EqIgnoreAsciiCase(t, "yes") || EqIgnoreAsciiCase(t, "y")
  }

  /**
   * The answer is true exactly for an all-whitespace input when the default
   * is true, or for an input whose trimmed text lower-cases to "yes" or "y".
   */
  lemma ConfirmDecisionIff(input: string, default: bool)
    ensures ConfirmDecision(input, default)
        <==> (default && forall i :: 0 <= i < |input| ==> IsWhitespace(input[i]))
             || AsciiLower(Trim(input)) == "yes" || AsciiLower(Trim(input)) == "y"
  {
    TrimEmptyIff(input);
    DecisionOfTrimmed(Trim(input), default);
  }

  /** The decision on a trimmed text `t`, with the lower-cased literals worked out. */
  lemma DecisionOfTrimmed(t: string, default: bool)
    ensures (if t == [] then default else EqIgnoreAsciiCase(t, "yes") || EqIgnoreAsciiCase(t, "y"))
        <==> (default && t == []) || AsciiLower(t) == "yes" || AsciiLower(t) == "y"
  {
    AsciiLowerOfLower("yes");
    AsciiLowerOfLower("y");
    assert |AsciiLower(t)| == |t|;
  }

  /**
   * The answer after the keys `ks`: None while no Enter has been pressed,
   * otherwise the decision for the buffer at the first Enter.
   */
  function ConfirmOutcome(input: string, ks: seq<Key>, default: bool): Option<bool>
    decreases |ks|
  {
    if ks == [] then None
    else if ks[0] == Enter then Some(ConfirmDecision(input, default))
    else ConfirmOutcome(ConfirmStep(input, ks[0]), ks[1..], default)
  }

  /** Backspace right after a character undoes it. */
  lemma BackspaceUndoesChar(input: string, c: char, ctrl: bool)
    ensures ConfirmStep(ConfirmStep(input, Char(c, ctrl)), Backspace) == input
  {
  }

  /** Typing a text and pressing Enter decides on that text; later keys are never read. */
  lemma {:induction false} TypedThenEnter(input: string, w: string, later: seq<Key>, default: bool)
    ensures ConfirmOutcome(input, Typed(w) + [Enter] + later, default) == Some(ConfirmDecision(input + w, default))
    decreases |w|
  {
    var ks := Typed(w) + [Enter] + later;
    if w == [] {
      assert ks[0] == Enter;
      assert input + w == input;
    } else {
      assert ks[0] == Char(w[0], false);
      assert ks[1..] == Typed(w[1..]) + [Enter] + later;
      assert input + w == (input + [w[0]]) + w[1..];
      TypedThenEnter(input + [w[0]], w[1..], later, default);
    }
  }

  /** Enter alone, or after blanks only, takes the default. */
  lemma ConfirmBlankTakesDefault(input: string, default: bool)
    requires forall i :: 0 <= i < |input| ==> IsWhitespace(input[i])
    ensures ConfirmDecision(input, default) == default
  {
    TrimEmptyIff(input);
  }

  /** What `confirm` returns once Enter is read. */
  method Decide(input: string, default: bool) returns (r: bool)
    ensures r == ConfirmDecision(input, default)
  {
    var t := Trim(input);
    if t == [] {
      return default;
    } else if EqIgnoreAsciiCase(t, "yes") || EqIgnoreAsciiCase(t, "y") {
      return true;
    } else {
      return false;
    }
  }

  /**
   * The key loop of `confirm` over the keys pressed: Some(answer) once
   * Enter is read, None if the keys run out before it.
   */
  method ConfirmKeys(ks: seq<Key>, default: bool) returns (r: Option<bool>)
    ensures r == ConfirmOutcome("", ks, default)
  {
    var input := "";
    var i := 0;
    while i < |ks|
      invariant 0 <= i <= |ks|
      invariant ConfirmOutcome(input, ks[i..], default) == ConfirmOutcome("", ks, default)
    {
      assert ks[i..][0] == ks[i] && ks[i..][1..] == ks[i + 1..];
      match ks[i] {
        case Char(c, _) =>
          input := input + [c];
        case Enter =>
          var answer := Decide(input, default);
          return Some(answer);
        case Backspace =>
          if input != [] {
            input := input[..|input| - 1];
          }
        case _ =>
      }
      i := i + 1;
    }
    return None;
  }
}
