/** Evaluating the charter's transition conditions (sidecar/internal/ihr/interpreter.go). */
module Interpreter {
  import opened Text

  /** What a stage reports when it completes. */
  datatype StageState = StageState(currentStage: string, planSubtaskCount: int, allSubtasksTerminal: bool,
                                   decision: string, reworkCount: int)

  datatype Transition = Transition(from: string, to: string, when_: string)

  datatype Charter = Charter(stages: seq<string>, maxReworkCount: int, transitions: seq<Transition>,
                             fallbacks: map<string, string>)

  datatype EvalError = UnrecognisedAtom(text: string) | NoMatch

  type Verdict = Result<bool, EvalError>

  predicate IsTerminalStage(stage: string) {
    stage == "human_review" || stage == "failed"
  }

  // ---- the evaluator ----

  /** The pieces of expr between the occurrences of op, found from the left. */
  function SplitOn(expr: string, op: string): (parts: seq<string>)
    requires op != ""
    ensures |parts| > 0
    decreases |expr|
  {
    var i := Index(expr, op);
    if i < 0 then [expr] else [expr[..i]] + SplitOn(expr[i + |op|..], op)
  }

  method SplitOp(expr: string, op: string) returns (parts: seq<string>)
    requires op != ""
    ensures parts == SplitOn(expr, op)
  {
    hide SplitOn;
    parts := [];
    var rest := expr;
    while true
      invariant parts + SplitOn(rest, op) == SplitOn(expr, op)
      decreases |rest|
    {
      var i := Index(rest, op);
      SplitOnNext(parts, rest, op);
      if i < 0 {
        parts := parts + [rest];
        break;
      }
      parts, rest := parts + [rest[..i]], rest[i + |op|..];
    }
  }

  lemma SplitOnNext(parts: seq<string>, rest: string, op: string)
    requires op != ""
    ensures var i := Index(rest, op);
      parts + SplitOn(rest, op) ==
        if i < 0 then parts + [rest] else parts + [rest[..i]] + SplitOn(rest[i + |op|..], op)
  {
    hide Index;
    var i := Index(rest, op);
    if i >= 0 {
      var more := SplitOn(rest[i + |op|..], op);
      assert SplitOn(rest, op) == [rest[..i]] + more;
      assert parts + ([rest[..i]] + more) == parts + [rest[..i]] + more;
    }
  }

  const PLAN_TEXT := "plan_json.subtasks.length > 0"
  const TERMINAL_TEXT := "all_subtasks_terminal"
  const APPROVE_TEXT := "decision == \"APPROVE\""
  const REWORK_TEXT := "decision == \"REWORK\""
  const BELOW_TEXT := "rework_count < max_rework_count"
  const AT_TEXT := "rework_count >= max_rework_count"

  function EvalAtom(atom: string, s: StageState, maxRework: int): Verdict {
    var a := TrimSpace(atom);
    if a == PLAN_TEXT then Ok(s.planSubtaskCount > 0)
    else if a == TERMINAL_TEXT then Ok(s.allSubtasksTerminal)
    else if a == APPROVE_TEXT then Ok(s.decision == "APPROVE")
    else if a == REWORK_TEXT then Ok(s.decision == "REWORK")
    else if a == BELOW_TEXT then Ok(s.reworkCount < maxRework)
    else if a == AT_TEXT then Ok(s.reworkCount >= maxRework)
    else Err(UnrecognisedAtom(a))
  }

  /** The atoms from i on, left to right: the first error or the first false decides. */
  function AndFrom(parts: seq<string>, i: nat, s: StageState, maxRework: int): Verdict
    requires i <= |parts|
    decreases |parts| - i
  {
    if i == |parts| then Ok(true)
    else
      var v := EvalAtom(TrimSpace(parts[i]), s, maxRework);
      if v == Ok(true) then AndFrom(parts, i + 1, s, maxRework) else v
  }

  function AndValue(expr: string, s: StageState, maxRework: int): Verdict {
    AndFrom(SplitOn(expr, "&&"), 0, s, maxRework)
  }

  /** The conjunctions from i on: the first error or the first true decides. */
  function OrFrom(parts: seq<string>, i: nat, s: StageState, maxRework: int): Verdict
    requires i <= |parts|
    decreases |parts| - i
  {
    if i == |parts| then Ok(false)
    else
      var v := AndValue(TrimSpace(parts[i]), s, maxRework);
      if v == Ok(false) then OrFrom(parts, i + 1, s, maxRework) else v
  }

  function WhenValue(expr: string, s: StageState, maxRework: int): Verdict {
    var e := TrimSpace(expr);
    if e == "" then Ok(false) else OrFrom(SplitOn(e, "||"), 0, s, maxRework)
  }

  method EvalAnd(expr: string, s: StageState, maxRework: int) returns (v: Verdict)
    ensures v == AndValue(expr, s, maxRework)
  {
    hide EvalAtom, TrimSpace, SplitOn;
    var parts := SplitOp(expr, "&&");
    for i := 0 to |parts|
      invariant AndFrom(parts, 0, s, maxRework) == AndFrom(parts, i, s, maxRework)
    {
      v := EvalAtom(TrimSpace(parts[i]), s, maxRework);
      if v.Err? || !v.value {
        return;
      }
    }
    v := Ok(true);
  }

  method EvalWhen(expr: string, s: StageState, maxRework: int) returns (v: Verdict)
    ensures v == WhenValue(expr, s, maxRework)
  {
    hide AndValue, TrimSpace, SplitOn;
    var e := TrimSpace(expr);
    if e == "" {
      return Ok(false);
    }
    var parts := SplitOp(e, "||");
    if |parts| > 1 {
      for i := 0 to |parts|
        invariant OrFrom(parts, 0, s, maxRework) == OrFrom(parts, i, s, maxRework)
      {
        v := EvalAnd(TrimSpace(parts[i]), s, maxRework);
        if v.Err? || v.value {
          return;
        }
      }
      return Ok(false);
    }
    WholeIsOnlyPart(expr, s, maxRework);
    v := EvalAnd(e, s, maxRework);
  }

  /** Without a top-level or, the whole condition is its only conjunction. */
  lemma WholeIsOnlyPart(expr: string, s: StageState, maxRework: int)
    requires TrimSpace(expr) != "" && |SplitOn(TrimSpace(expr), "||")| == 1
    ensures WhenValue(expr, s, maxRework) == AndValue(TrimSpace(expr), s, maxRework)
  {
    hide AndValue, TrimSpace;
    TrimSpaceIsTrimmed(expr);
    var parts := SplitOn(TrimSpace(expr), "||");
    assert parts[0] == TrimSpace(expr);
    assert OrFrom(parts, 1, s, maxRework) == Ok(false);
    assert AndValue(TrimSpace(expr), s, maxRework) == Ok(false) ==>
      OrFrom(parts, 0, s, maxRework) == OrFrom(parts, 1, s, maxRework);
  }

  // ---- NextStage ----

  /** Transition i applies: it starts at the current stage and its condition is as given. */
  ghost predicate Yields(c: Charter, s: StageState, i: nat, v: Verdict)
    requires i < |c.transitions|
  {
    c.transitions[i].from == s.currentStage && WhenValue(c.transitions[i].when_, s, c.maxReworkCount) == v
  }

  ghost predicate Skipped(c: Charter, s: StageState, n: nat)
    requires n <= |c.transitions|
  {
    forall i :: 0 <= i < n ==> c.transitions[i].from != s.currentStage || Yields(c, s, i, Ok(false))
  }

  /** The first transition out of the current stage whose condition holds decides, unless a condition before it is
      malformed. */
  method NextStage(c: Charter, s: StageState) returns (r: Result<(string, bool), EvalError>)
    ensures r.Ok? ==> r.value.1 == IsTerminalStage(r.value.0)
    ensures r.Ok? ==> exists i :: 0 <= i < |c.transitions| && Skipped(c, s, i) && Yields(c, s, i, Ok(true))
                                  && r.value.0 == c.transitions[i].to
    ensures r.Err? && r.error != NoMatch ==>
      exists i :: 0 <= i < |c.transitions| && Skipped(c, s, i) && Yields(c, s, i, Err(r.error))
    ensures r == Err(NoMatch) ==> Skipped(c, s, |c.transitions|)
  {
    hide WhenValue;
    for i := 0 to |c.transitions|
      invariant Skipped(c, s, i)
    {
      var tr := c.transitions[i];
      if tr.from != s.currentStage {
        continue;
      }
      var matched := EvalWhen(tr.when_, s, c.maxReworkCount);
      NeverNoMatch(tr.when_, s, c.maxReworkCount);
      assert Yields(c, s, i, matched);
      if matched.Err? {
        return Err(matched.error);
      }
      if matched.value {
        return Ok((tr.to, IsTerminalStage(tr.to)));
      }
    }
    r := Err(NoMatch);
  }

  lemma {:induction false} AndNeverNoMatch(parts: seq<string>, i: nat, s: StageState, maxRework: int)
    requires i <= |parts|
    ensures AndFrom(parts, i, s, maxRework) != Err(NoMatch)
    decreases |parts| - i
  {
    hide TrimSpace;
    if i < |parts| {
      AndNeverNoMatch(parts, i + 1, s, maxRework);
    }
  }

  lemma {:induction false} OrNeverNoMatch(parts: seq<string>, i: nat, s: StageState, maxRework: int)
    requires i <= |parts|
    ensures OrFrom(parts, i, s, maxRework) != Err(NoMatch)
    decreases |parts| - i
  {
    hide TrimSpace, AndFrom, SplitOn;
    if i < |parts| {
      AndNeverNoMatch(SplitOn(TrimSpace(parts[i]), "&&"), 0, s, maxRework);
      OrNeverNoMatch(parts, i + 1, s, maxRework);
    }
  }

  lemma NeverNoMatch(expr: string, s: StageState, maxRework: int)
    ensures WhenValue(expr, s, maxRework) != Err(NoMatch)
  {
    hide TrimSpace, OrFrom, SplitOn;
    if TrimSpace(expr) != "" {
      OrNeverNoMatch(SplitOn(TrimSpace(expr), "||"), 0, s, maxRework);
    }
  }
}
