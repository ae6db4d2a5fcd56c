/**
 * The decision logic of `ask`: the line read is trimmed, an empty line
 * takes the default (or the empty string when there is none), and a
 * validator, when there is one, either accepts the answer or rejects it
 * with a message, in which case the question is asked again.
 */
module Ask {
  import opened Optional
  import opened Strings

  /** What a validator says about an answer: `Ok(())` or `Err(message)`. */
  datatype Verdict = Valid | Invalid(message: string)

  type Validator = string -> Verdict

  /** The answer taken from one line of input. */
  function AskAnswer(line: string, default: Option<string>): string
  {
    var input := Trim(line);
    if input == [] then default.GetOr("") else input
  }

  /** The number of whitespace characters `trim` removes from the start of `line`. */
  function LeadingBlanks(line: string): nat
  {
    |line| - |TrimStart(line)|
  }

  /** A blank line takes the default, or the empty string without one. */
  lemma AskBlankTakesDefault(line: string, default: Option<string>)
    requires forall i :: 0 <= i < |line| ==> IsWhitespace(line[i])
    ensures AskAnswer(line, default) == default.GetOr("")
  {
    TrimEmptyIff(line);
  }

  /**
   * A line with a non-blank character `line[j]` gives the part of the line
   * between its leading and its trailing whitespace, which neither starts
   * nor ends with whitespace.
   */
  lemma AskAnswerIsTrimmedLine(line: string, default: Option<string>, j: nat)
    requires j < |line| && !IsWhitespace(line[j])
    ensures var a := AskAnswer(line, default);
      var k := LeadingBlanks(line);
      && a != [] && !IsWhitespace(a[0]) && !IsWhitespace(a[|a| - 1])
      && k + |a| <= |line| && line[k..k + |a|] == a
      && (forall i :: 0 <= i < k ==> IsWhitespace(line[i]))
      && (forall i :: k + |a| <= i < |line| ==> IsWhitespace(line[i]))
  {
    TrimNonEmpty(line, j);
    TrimIdempotent(line);
    TrimSlice(line);
  }

  /** Asking again with the answer as the line gives the same answer. */
  lemma AskAnswerIdempotent(line: string, default: Option<string>)
    requires Trim(line) != []
    ensures AskAnswer(AskAnswer(line, default), default) == AskAnswer(line, default)
  {
    TrimIdempotent(line);
  }

  /**
   * The answer `ask` returns for the lines typed, one per round: the first
   * answer the validator accepts (the first answer at all without a
   * validator), None if the lines run out first.
   */
  function AskOutcome(lines: seq<string>, default: Option<string>, validator: Option<Validator>): Option<string>
    decreases |lines|
  {
    if lines == [] then None
    else
      var answer := AskAnswer(lines[0], default);
      if validator.None? || validator.value(answer).Valid? then Some(answer)
      else AskOutcome(lines[1..], default, validator)
  }

  /** Whatever `ask` returns was accepted by the validator and is the answer of one of the lines. */
  lemma {:induction false} AskOutcomeAccepted(lines: seq<string>, default: Option<string>, validator: Option<Validator>)
    ensures var r := AskOutcome(lines, default, validator);
      r.Some? ==>
        && (validator.Some? ==> validator.value(r.value).Valid?)
        && exists i :: 0 <= i < |lines| && r.value == AskAnswer(lines[i], default)
    decreases |lines|
  {
    if lines != [] {
      var answer := AskAnswer(lines[0], default);
      if !(validator.None? || validator.value(answer).Valid?) {
        AskOutcomeAccepted(lines[1..], default, validator);
        var r := AskOutcome(lines, default, validator);
        if r.Some? {
          var i :| 0 <= i < |lines[1..]| && r.value == AskAnswer(lines[1..][i], default);
          assert lines[1..][i] == lines[i + 1];
        }
      }
    }
  }

  /** Without a validator the first line decides. */
  lemma AskWithoutValidator(lines: seq<string>, default: Option<string>)
    requires lines != []
    ensures AskOutcome(lines, default, None) == Some(AskAnswer(lines[0], default))
  {
  }

  /** The messages `ask` prints, in order, for the answers the validator rejects before one is accepted. */
  function Rejections(lines: seq<string>, default: Option<string>, validator: Option<Validator>): seq<string>
    decreases |lines|
  {
    if lines == [] || validator.None? then []
    else
      var verdict := validator.value(AskAnswer(lines[0], default));
      if verdict.Valid? then [] else [verdict.message] + Rejections(lines[1..], default, validator)
  }

  /** One round of `ask` at line `i`: its answer is returned, or rejected with its message and the next line read. */
  lemma AskStep(lines: seq<string>, default: Option<string>, validator: Option<Validator>, i: nat, answer: string)
    requires i < |lines| && answer == AskAnswer(lines[i], default)
    ensures validator.None? || validator.value(answer).Valid? ==>
      && AskOutcome(lines[i..], default, validator) == Some(answer)
      && Rejections(lines[i..], default, validator) == []
    ensures validator.Some? && validator.value(answer).Invalid? ==>
      && AskOutcome(lines[i..], default, validator) == AskOutcome(lines[i + 1..], default, validator)
      && Rejections(lines[i..], default, validator)
         == [validator.value(answer).message] + Rejections(lines[i + 1..], default, validator)
  {
    assert lines[i..][0] == lines[i] && lines[i..][1..] == lines[i + 1..];
  }

  /** There is at most one message per line. */
  lemma {:induction false} RejectionsLength(lines: seq<string>, default: Option<string>, validator: Option<Validator>)
    ensures |Rejections(lines, default, validator)| <= |lines|
    decreases |lines|
  {
    if lines != [] {
      RejectionsLength(lines[1..], default, validator);
    }
  }

  /** Message `k` is the validator's verdict on the answer of line `k`. */
  lemma {:induction false} RejectionAt(lines: seq<string>, default: Option<string>, validator: Option<Validator>, k: nat)
    requires k < |Rejections(lines, default, validator)|
    ensures k < |lines| && validator.Some?
    ensures validator.value(AskAnswer(lines[k], default)) == Invalid(Rejections(lines, default, validator)[k])
    decreases k
  {
    var msgs := Rejections(lines, default, validator);
    assert lines != [] && validator.Some?;
    var verdict := validator.value(AskAnswer(lines[0], default));
    var tail := Rejections(lines[1..], default, validator);
    assert verdict.Invalid? && msgs == [verdict.message] + tail;
    if k > 0 {
      assert msgs[k] == tail[k - 1];
      RejectionAt(lines[1..], default, validator, k - 1);
      assert lines[1..][k - 1] == lines[k];
    }
  }

  /** The lines before the accepted one are rejected in order: message `k` is the verdict on line `k`. */
  lemma RejectionsAreVerdicts(lines: seq<string>, default: Option<string>, validator: Option<Validator>)
    ensures var msgs := Rejections(lines, default, validator);
      && |msgs| <= |lines|
      && forall k :: 0 <= k < |msgs| ==>
           validator.Some? && validator.value(AskAnswer(lines[k], default)) == Invalid(msgs[k])
  {
    RejectionsLength(lines, default, validator);
    forall k | 0 <= k < |Rejections(lines, default, validator)|
      ensures validator.Some? && validator.value(AskAnswer(lines[k], default)) == Invalid(Rejections(lines, default, validator)[k])
    {
      RejectionAt(lines, default, validator, k);
    }
  }

  /** When `ask` returns, the answer is that of the line right after the rejected ones. */
  lemma {:induction false} AcceptedAfterRejections(lines: seq<string>, default: Option<string>, validator: Option<Validator>)
    requires AskOutcome(lines, default, validator).Some?
    ensures var k := |Rejections(lines, default, validator)|;
      k < |lines| && AskOutcome(lines, default, validator) == Some(AskAnswer(lines[k], default))
    decreases |lines|
  {
    if validator.Some? && !validator.value(AskAnswer(lines[0], default)).Valid? {
      AcceptedAfterRejections(lines[1..], default, validator);
      var k := |Rejections(lines[1..], default, validator)|;
      assert lines[1..][k] == lines[k + 1];
    }
  }

  /**
   * One round of `ask`: the line trimmed, or the default when nothing but
   * whitespace was typed, and whether the validator, if any, accepts it;
   * a rejection carries the validator's message.
   */
  method AskRound(line: string, default: Option<string>, validator: Option<Validator>)
    returns (accepted: bool, answer: string, message: string)
    ensures answer == AskAnswer(line, default)
    ensures accepted <==> validator.None? || validator.value(answer).Valid?
    ensures !accepted ==> validator.Some? && validator.value(answer) == Invalid(message)
  {
    var input := Trim(line);
    answer := if input == [] then default.GetOr("") else input;
    message := "";
    accepted := true;
    if validator.Some? {
      var verdict := validator.value(answer);
      if verdict.Invalid? {
        accepted := false;
        message := verdict.message;
      }
    }
  }

  /** What the loop of `ask` keeps: the rounds from line `i` on decide the outcome and the messages still to come. */
  ghost predicate AskLoop(lines: seq<string>, default: Option<string>, validator: Option<Validator>, i: nat, rejections: seq<string>)
  {
    && i <= |lines|
    && AskOutcome(lines[i..], default, validator) == AskOutcome(lines, default, validator)
    && rejections + Rejections(lines[i..], default, validator) == Rejections(lines, default, validator)
  }

  lemma AskLoopStarts(lines: seq<string>, default: Option<string>, validator: Option<Validator>)
    ensures AskLoop(lines, default, validator, 0, [])
  {
    assert lines[0..] == lines;
  }

  lemma AskLoopAccepts(lines: seq<string>, default: Option<string>, validator: Option<Validator>, i: nat, rejections: seq<string>, answer: string)
    requires AskLoop(lines, default, validator, i, rejections) && i < |lines|
    requires answer == AskAnswer(lines[i], default)
    requires validator.None? || validator.value(answer).Valid?
    ensures Some(answer) == AskOutcome(lines, default, validator)
    ensures rejections == Rejections(lines, default, validator)
  {
    AskStep(lines, default, validator, i, answer);
    assert rejections + [] == rejections;
  }

  lemma AskLoopRejects(lines: seq<string>, default: Option<string>, validator: Option<Validator>, i: nat, rejections: seq<string>, answer: string, message: string)
    requires AskLoop(lines, default, validator, i, rejections) && i < |lines|
    requires answer == AskAnswer(lines[i], default)
    requires validator.Some? && validator.value(answer) == Invalid(message)
    ensures AskLoop(lines, default, validator, i + 1, rejections + [message])
  {
    AskStep(lines, default, validator, i, answer);
    assert rejections + ([message] + Rejections(lines[i + 1..], default, validator))
        == (rejections + [message]) + Rejections(lines[i + 1..], default, validator);
  }

  lemma AskLoopEnds(lines: seq<string>, default: Option<string>, validator: Option<Validator>, rejections: seq<string>)
    requires AskLoop(lines, default, validator, |lines|, rejections)
    ensures None == AskOutcome(lines, default, validator)
    ensures rejections == Rejections(lines, default, validator)
  {
    assert lines[|lines|..] == [];
    assert rejections + [] == rejections;
  }

  /**
   * The loop of `ask` over the lines typed: each rejected answer's message
   * is collected, in order, as `ask` prints it.
   */
  method AskLines(lines: seq<string>, default: Option<string>, validator: Option<Validator>)
    returns (r: Option<string>, rejections: seq<string>)
    ensures r == AskOutcome(lines, default, validator)
    ensures rejections == Rejections(lines, default, validator)
  {
    rejections := [];
    var i := 0;
    AskLoopStarts(lines, default, validator);
    while i < |lines|
      invariant AskLoop(lines, default, validator, i, rejections)
    {
      var accepted, answer, message := AskRound(lines[i], default, validator);
      if accepted {
        AskLoopAccepts(lines, default, validator, i, rejections, answer);
        return Some(answer), rejections;
      }
      AskLoopRejects(lines, default, validator, i, rejections, answer, message);
      rejections := rejections + [message];
      i := i + 1;
    }
    AskLoopEnds(lines, default, validator, rejections);
    return None, rejections;
  }
}
