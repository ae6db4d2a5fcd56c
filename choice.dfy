/**
 * The decision logic of `choice`. A round starts with an empty buffer and
 * the default's position selected; each key edits the buffer or moves the
 * selection; Enter resolves the buffer to a choice, and an empty result
 * starts a new round. Ctrl-C ends the program. Drawing is not modelled.
 *
 * `to_lowercase` is taken as ASCII lower-casing.
 */
module Choice {
  import opened Optional
  import opened Strings
  import opened Keys

  // ---------------------------------------------------------------------
  // Searching the choices

  /** The tests the prompt searches the choices with. */
  datatype Criterion =
    /** `c == s` */
    | Equal(s: string)
    /** `c.to_lowercase().starts_with(&s.to_lowercase())` */
    | PrefixIgnoringCase(s: string)
    /** `c.to_lowercase() == s.to_lowercase()` */
    | EqualIgnoringCase(s: string)

  predicate Satisfies(c: string, crit: Criterion)
  {
    match crit
    case Equal(s) => c == s
    case PrefixIgnoringCase(s) => StartsWith(AsciiLower(c), AsciiLower(s))
    case EqualIgnoringCase(s) => EqIgnoreAsciiCase(c, s)
  }

  /** The index of the first choice that satisfies `crit`, if any. */
  function FirstIndex(choices: seq<string>, crit: Criterion): (r: Option<nat>)
    ensures r.Some? ==> r.value < |choices| && Satisfies(choices[r.value], crit)
    ensures r.Some? ==> forall j :: 0 <= j < r.value ==> !Satisfies(choices[j], crit)
    ensures r.None? ==> forall j :: 0 <= j < |choices| ==> !Satisfies(choices[j], crit)
    decreases |choices|
  {
    if choices == [] then None
    else if Satisfies(choices[0], crit) then Some(0)
    else
      match FirstIndex(choices[1..], crit)
      case Some(i) => Some(i + 1)
      case None => None
  }

  /** The search loop over the choices, leaving at the first hit. */
  method FindFirst(choices: seq<string>, crit: Criterion) returns (r: Option<nat>)
    ensures r == FirstIndex(choices, crit)
  {
    var i := 0;
    while i < |choices|
      invariant 0 <= i <= |choices|
      invariant forall j :: 0 <= j < i ==> !Satisfies(choices[j], crit)
    {
      if Satisfies(choices[i], crit) {
        return Some(i);
      }
      i := i + 1;
    }
    return None;
  }

  /** The selection a round starts with: the first choice equal to the default (or to "" without one), else 0. */
  function InitialSelection(choices: seq<string>, default: Option<string>): (r: nat)
    ensures |choices| > 0 ==> r < |choices|
    ensures default.GetOr("") in choices ==>
      choices[r] == default.GetOr("") && forall j :: 0 <= j < r ==> choices[j] != default.GetOr("")
    ensures (default.GetOr("") !in choices) ==> r == 0
  {
    match FirstIndex(choices, Equal(default.GetOr("")))
    case Some(i) => i
    case None => 0
  }

  // ---------------------------------------------------------------------
  // One key

  datatype ChoiceState = ChoiceState(buffer: string, selected: nat)

  predicate InRange(choices: seq<string>, st: ChoiceState)
  {
    st.selected < |choices|
  }

  function Initial(choices: seq<string>, default: Option<string>): ChoiceState
  {
    ChoiceState("", InitialSelection(choices, default))
  }

  /** The selection after Up: the previous choice, or the last one from the first. */
  function MoveUp(n: nat, selected: nat): (r: nat)
    requires selected < n
    ensures r < n && MoveDown(n, r) == selected
  {
    if selected == 0 then n - 1 else selected - 1
  }

  /** The selection after Down: the next choice, or the first one from the last. */
  function MoveDown(n: nat, selected: nat): (r: nat)
    requires selected < n
    ensures r == if selected + 1 == n then 0 else selected + 1
  {
    (selected + 1) % n
  }

  /**
   * The effect of a key other than Enter and Ctrl-C: Up and Down move the
   * selection round the list and clear the buffer, Tab copies the selected
   * choice into the buffer, Backspace drops the last character, and a
   * character is appended, after which the selection moves to the index
   * the buffer spells when it is in range, and then to the first choice
   * that starts with the buffer, ignoring case.
   */
  function ChoiceStep(choices: seq<string>, st: ChoiceState, k: Key): (r: ChoiceState)
    requires |choices| > 0 && InRange(choices, st)
    ensures InRange(choices, r)
  {
    var n := |choices|;
    match k
    case Tab => ChoiceState(choices[st.selected], st.selected)
    case Up => ChoiceState("", MoveUp(n, st.selected))
    case Down => ChoiceState("", MoveDown(n, st.selected))
    case Char(c, _) =>
      var buffer := st.buffer + [c];
      var byIndex := match ParseUsize(buffer)
        case Some(idx) => if idx < n then idx else st.selected
        case None => st.selected;
      var selected := match FirstIndex(choices, PrefixIgnoringCase(buffer))
        case Some(i) => i
        case None => byIndex;
      ChoiceState(buffer, selected)
    case Backspace => ChoiceState(if st.buffer == [] then [] else st.buffer[..|st.buffer| - 1], st.selected)
    case _ => st
  }

  /** The per-key update of `(input_buffer, selected_index)` in the key loop of `choice`. */
  method ApplyKey(choices: seq<string>, buffer: string, selected: nat, k: Key) returns (b: string, s: nat)
    requires |choices| > 0 && selected < |choices|
    ensures ChoiceState(b, s) == ChoiceStep(choices, ChoiceState(buffer, selected), k)
  {
    b, s := buffer, selected;
    match k {
      case Tab =>
        b := choices[selected];
      case Up =>
        s := if selected == 0 then |choices| - 1 else selected - 1;
        b := "";
      case Down =>
        s := (selected + 1) % |choices|;
        b := "";
      case Char(c, _) =>
        b := b + [c];
        var idx := ParseUsize(b);
        if idx.Some? && idx.value < |choices| {
          s := idx.value;
        }
        var hit := FindFirst(choices, PrefixIgnoringCase(b));
        if hit.Some? {
          s := hit.value;
        }
      case Backspace =>
        if b != [] {
          b := b[..|b| - 1];
        }
      case _ =>
    }
  }

  /** Up and Down undo each other. */
  lemma UpDownInverse(choices: seq<string>, st: ChoiceState)
    requires |choices| > 0 && InRange(choices, st)
    ensures ChoiceStep(choices, ChoiceStep(choices, st, Up), Down).selected == st.selected
    ensures ChoiceStep(choices, ChoiceStep(choices, st, Down), Up).selected == st.selected
  {
    var n := |choices|;
    var up := ChoiceStep(choices, st, Up);
    var down := ChoiceStep(choices, st, Down);
    assert up.selected == MoveUp(n, st.selected) && down.selected == MoveDown(n, st.selected);
  }

  /** Up from the first choice selects the last, and Down from the last selects the first. */
  lemma SelectionWraps(choices: seq<string>, buffer: string)
    requires |choices| > 0
    ensures ChoiceStep(choices, ChoiceState(buffer, 0), Up).selected == |choices| - 1
    ensures ChoiceStep(choices, ChoiceState(buffer, |choices| - 1), Down).selected == 0
  {
  }

  // ---------------------------------------------------------------------
  // Enter

  /**
   * The choice the buffer resolves to when Enter is pressed: the selected
   * choice for an empty buffer, the choice at the index the buffer spells
   * ("" out of range), else the first choice equal to the buffer ignoring
   * case ("" if there is none).
   */
  function FinalChoice(choices: seq<string>, st: ChoiceState): string
    requires InRange(choices, st)
  {
    if st.buffer == [] then choices[st.selected]
    else match ParseUsize(st.buffer)
      case Some(idx) => if idx < |choices| then choices[idx] else ""
      case None =>
        match FirstIndex(choices, EqualIgnoringCase(st.buffer))
        case Some(i) => choices[i]
        case None => ""
  }

  /** The new-round rule: an empty selection, or a selected index past the end. */
  predicate Restarts(choices: seq<string>, st: ChoiceState)
    requires InRange(choices, st)
  {
    FinalChoice(choices, st) == "" || st.selected > |choices|
  }

  /**
   * What Enter resolves to, case by case; whenever it is not "", it is
   * one of the choices.
   */
  lemma FinalChoiceCases(choices: seq<string>, st: ChoiceState)
    requires InRange(choices, st)
    ensures var r := FinalChoice(choices, st);
      && (st.buffer == [] ==> r == choices[st.selected])
      && (st.buffer != [] && ParseUsize(st.buffer).Some? ==>
            var idx := ParseUsize(st.buffer).value;
            r == if idx < |choices| then choices[idx] else "")
      && (st.buffer != [] && ParseUsize(st.buffer).None? ==>
            (r != "" ==> EqIgnoreAsciiCase(r, st.buffer))
            && ((forall j :: 0 <= j < |choices| ==> !EqIgnoreAsciiCase(choices[j], st.buffer)) ==> r == ""))
      && (r != "" ==> r in choices)
  {
  }

  /**
   * Since the selection always stays in range, the guard on the selected
   * index never fires: a round restarts exactly when Enter resolves to "".
   */
  lemma RestartsIffEmpty(choices: seq<string>, st: ChoiceState)
    requires InRange(choices, st)
    ensures Restarts(choices, st) <==> FinalChoice(choices, st) == ""
  {
  }

  // ---------------------------------------------------------------------
  // The prompt

  datatype ChoiceOutcome =
    /** `choice` returned this choice */
    | Chosen(choice: string)
    /** Ctrl-C ended the program */
    | Exited
    /** the keys ran out with the prompt still open */
    | Waiting

  /** The outcome of the keys `ks` pressed in the state `st` of a round. */
  function ContinueChoice(choices: seq<string>, default: Option<string>, st: ChoiceState, ks: seq<Key>): ChoiceOutcome
    requires |choices| > 0 && InRange(choices, st)
    decreases |ks|
  {
    if ks == [] then Waiting
    else match ks[0]
      case Enter =>
        if Restarts(choices, st) then ContinueChoice(choices, default, Initial(choices, default), ks[1..])
        else Chosen(FinalChoice(choices, st))
      case Char('c', true) => Exited
      case k => ContinueChoice(choices, default, ChoiceStep(choices, st, k), ks[1..])
  }

  /** The outcome of `choice` for the keys pressed. */
  function ChoiceOutcomeOf(choices: seq<string>, default: Option<string>, ks: seq<Key>): ChoiceOutcome
    requires |choices| > 0
  {
    ContinueChoice(choices, default, Initial(choices, default), ks)
  }

  /** `choice`, over the keys pressed. */
  method ChoiceKeys(choices: seq<string>, default: Option<string>, ks: seq<Key>) returns (r: ChoiceOutcome)
    requires |choices| > 0
    ensures r == ChoiceOutcomeOf(choices, default, ks)
  {
    var initial := FindFirst(choices, Equal(default.GetOr("")));
    var buffer := "";
    var selected: nat := initial.GetOr(0);
    var i := 0;
    while i < |ks|
      invariant 0 <= i <= |ks| && selected < |choices|
      invariant ContinueChoice(choices, default, ChoiceState(buffer, selected), ks[i..]) == ChoiceOutcomeOf(choices, default, ks)
    {
      var k := ks[i];
      assert ks[i..][0] == k && ks[i..][1..] == ks[i + 1..];
      if k == Enter {
        var finalChoice := FinalChoice(choices, ChoiceState(buffer, selected));
        if finalChoice == "" || selected > |choices| {
          buffer := "";
          selected := initial.GetOr(0);
        } else {
          return Chosen(finalChoice);
        }
      } else if k == Char('c', true) {
        return Exited;
      } else {
        buffer, selected := ApplyKey(choices, buffer, selected, k);
      }
      i := i + 1;
    }
    return Waiting;
  }

  // ---------------------------------------------------------------------
  // Whole rounds

  /** Enter right away returns the default when it is a (non-empty) choice. */
  lemma EnterTakesDefault(choices: seq<string>, d: string, later: seq<Key>)
    requires |choices| > 0 && d in choices && d != ""
    ensures ChoiceOutcomeOf(choices, Some(d), [Enter] + later) == Chosen(d)
  {
    assert ([Enter] + later)[0] == Enter;
  }

  /** The state after typing `w` without modifiers. */
  function TypeText(choices: seq<string>, st: ChoiceState, w: string): (r: ChoiceState)
    requires |choices| > 0 && InRange(choices, st)
    ensures InRange(choices, r) && r.buffer == st.buffer + w
    decreases |w|
  {
    if w == [] then st
    else
      assert st.buffer + w == (st.buffer + [w[0]]) + w[1..];
      TypeText(choices, ChoiceStep(choices, st, Char(w[0], false)), w[1..])
  }

  /** Typing a text only edits the state; nothing else happens before the next key. */
  lemma {:induction false} TypedKeys(choices: seq<string>, default: Option<string>, st: ChoiceState, w: string, rest: seq<Key>)
    requires |choices| > 0 && InRange(choices, st)
    ensures ContinueChoice(choices, default, st, Typed(w) + rest)
         == ContinueChoice(choices, default, TypeText(choices, st, w), rest)
    decreases |w|
  {
    if w == [] {
      assert Typed(w) + rest == rest;
    } else {
      var ks := Typed(w) + rest;
      assert ks[0] == Char(w[0], false);
      assert ks[1..] == Typed(w[1..]) + rest;
      TypedKeys(choices, default, ChoiceStep(choices, st, Char(w[0], false)), w[1..], rest);
    }
  }

  /** Enter either returns the resolved choice or starts a new round on the keys that follow. */
  lemma EnterStep(choices: seq<string>, default: Option<string>, st: ChoiceState, later: seq<Key>)
    requires |choices| > 0 && InRange(choices, st)
    ensures ContinueChoice(choices, default, st, [Enter] + later)
         == if FinalChoice(choices, st) == "" then ChoiceOutcomeOf(choices, default, later)
            else Chosen(FinalChoice(choices, st))
  {
    var ks := [Enter] + later;
    assert ks[0] == Enter && ks[1..] == later;
    RestartsIffEmpty(choices, st);
  }

  /** Typing a text and pressing Enter resolves that text. */
  lemma TypedThenEnter(choices: seq<string>, default: Option<string>, w: string, later: seq<Key>)
    requires |choices| > 0
    ensures var st := TypeText(choices, Initial(choices, default), w);
      && st.buffer == w
      && ChoiceOutcomeOf(choices, default, Typed(w) + [Enter] + later)
         == if FinalChoice(choices, st) == "" then ChoiceOutcomeOf(choices, default, later)
            else Chosen(FinalChoice(choices, st))
  {
    var st := Initial(choices, default);
    assert Typed(w) + [Enter] + later == Typed(w) + ([Enter] + later);
    TypedKeys(choices, default, st, w, [Enter] + later);
    EnterStep(choices, default, TypeText(choices, st, w), later);
  }

  /** Typing the index of a choice and pressing Enter returns that choice. */
  lemma TypedIndexSelects(choices: seq<string>, default: Option<string>, i: nat, later: seq<Key>)
    requires i < |choices| && i <= USIZE_MAX && choices[i] != ""
    ensures ChoiceOutcomeOf(choices, default, Typed(Decimal(i)) + [Enter] + later) == Chosen(choices[i])
  {
    TypedThenEnter(choices, default, Decimal(i), later);
    ParseDecimal(i);
  }

  /**
   * Typing a name that is no index and pressing Enter returns the first
   * choice equal to it ignoring case, when there is one.
   */
  lemma TypedNameSelects(choices: seq<string>, default: Option<string>, w: string, j: nat, later: seq<Key>)
    requires w != [] && ParseUsize(w).None?
    requires j < |choices| && EqIgnoreAsciiCase(choices[j], w)
    ensures var r := ChoiceOutcomeOf(choices, default, Typed(w) + [Enter] + later);
      && r.Chosen? && r.choice in choices && EqIgnoreAsciiCase(r.choice, w)
      && r.choice == choices[FirstIndex(choices, EqualIgnoringCase(w)).value]
  {
    TypedThenEnter(choices, default, w, later);
    var k := FirstIndex(choices, EqualIgnoringCase(w)).value;
    assert |AsciiLower(choices[k])| == |choices[k]| && |AsciiLower(w)| == |w|;
  }

  /** Typing a text that names no choice and pressing Enter starts again as if nothing had been typed. */
  lemma TypedUnknownRestarts(choices: seq<string>, default: Option<string>, w: string, later: seq<Key>)
    requires |choices| > 0 && w != [] && ParseUsize(w).None?
    requires forall j :: 0 <= j < |choices| ==> !EqIgnoreAsciiCase(choices[j], w)
    ensures ChoiceOutcomeOf(choices, default, Typed(w) + [Enter] + later) == ChoiceOutcomeOf(choices, default, later)
  {
    TypedThenEnter(choices, default, w, later);
  }

  /**
   * Tab then Enter on a selected choice that spells a number past the end
   * of the list does not return it: the buffer is read as an index and the
   * round starts again.
   */
  lemma TabOnNumericChoice(choices: seq<string>, default: Option<string>, st: ChoiceState, v: nat, later: seq<Key>)
    requires |choices| > 0 && InRange(choices, st)
    requires choices[st.selected] == Decimal(v) && |choices| <= v <= USIZE_MAX
    ensures ContinueChoice(choices, default, st, [Tab, Enter] + later) == ChoiceOutcomeOf(choices, default, later)
  {
    ParseDecimal(v);
    var ks := [Tab, Enter] + later;
    assert ks[0] == Tab && ks[1..][0] == Enter && ks[1..][1..] == later;
  }
}
