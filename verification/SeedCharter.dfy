/** The charter the program is shipped with (sidecar/internal/harnessembed/seed/SKILL.md), under the evaluator and the
    validation of charters (sidecar/internal/ihr/interpreter.go, sidecar/internal/ihr/charter.go). */
module SeedCharter {
  import opened Text
  import opened Interpreter
  import opened Conditions
  import opened CharterCheck

  const SEED := Charter(
    ["plan", "code", "review"], 2,
    [Transition("plan", "code", PLAN_TEXT),
     Transition("code", "review", TERMINAL_TEXT),
     Transition("review", "code", REWORK_TEXT + " && " + BELOW_TEXT),
     Transition("review", "human_review", APPROVE_TEXT + " || " + AT_TEXT)],
    map["plan_parse_error" := "human_review", "subtask_timeout" := "failed", "review_marker_missing" := "human_review",
        "review_rework" := "code", "rework_cap_reached" := "human_review"])

  // ---- conditions of one and two atoms ----

  lemma OneAtom(a: Atom, s: StageState, cap: int)
    requires !a.UnknownAtom?
    ensures WhenValue(AtomText(a), s, cap) == AtomMeaning(a, s, cap)
  {
    hide WhenValue, AtomText, IsBlank;
    var o := Operand("", a, "");
    var cond: Condition := [[o]];
    assert OperandText(o) == AtomText(a);
    assert OperandTexts([o]) == [AtomText(a)];
    assert ConjunctionText([o]) == AtomText(a);
    assert ConjunctionTexts(cond) == [AtomText(a)];
    assert Print(cond) == AtomText(a);
    PrintedConditionEvaluates(cond, s, cap);
    assert !IsBlank(cond) by { KnownIsShown(cond); }
    MeaningOfOne(o, s, cap);
  }

  lemma KnownIsShown(cond: Condition)
    requires cond != [] && cond[0] != [] && !cond[0][0].atom.UnknownAtom?
    ensures !IsBlank(cond)
  {
    KnownTextsArePlain(cond[0][0].atom);
  }

  lemma MeaningOfOne(o: Operand, s: StageState, cap: int)
    requires !o.atom.UnknownAtom?
    ensures Meaning([[o]], 0, s, cap) == AtomMeaning(o.atom, s, cap)
  {
    assert ConjunctionMeaning([o], 1, s, cap) == Ok(true);
    assert Meaning([[o]], 1, s, cap) == Ok(false);
  }

  lemma AndOfTwo(a: Atom, b: Atom, s: StageState, cap: int)
    requires !a.UnknownAtom? && !b.UnknownAtom?
    ensures WhenValue(AtomText(a) + " && " + AtomText(b), s, cap) ==
      Ok(AtomMeaning(a, s, cap) == Ok(true) && AtomMeaning(b, s, cap) == Ok(true))
  {
    hide WhenValue, AtomText, IsBlank, AtomMeaning;
    var x, y := Operand("", a, " "), Operand(" ", b, "");
    var cond: Condition := [[x, y]];
    PaddedAtoms(a, b);
    assert OperandTexts([x, y]) == [AtomText(a) + " ", " " + AtomText(b)];
    JoinTwo(AtomText(a) + " ", "&&", " " + AtomText(b));
    var text := AtomText(a) + " && " + AtomText(b);
    assert ConjunctionText([x, y]) == text;
    assert ConjunctionTexts(cond) == [text];
    assert Print(cond) == text;
    PrintedConditionEvaluates(cond, s, cap);
    assert !IsBlank(cond) by { KnownIsShown(cond); }
    MeaningOfAnd(x, y, s, cap);
  }

  lemma PaddedAtoms(a: Atom, b: Atom)
    ensures OperandText(Operand("", a, " ")) == AtomText(a) + " "
    ensures OperandText(Operand(" ", b, "")) == " " + AtomText(b)
  {
    hide AtomText;
    assert "" + AtomText(a) + " " == AtomText(a) + " ";
    assert " " + AtomText(b) + "" == " " + AtomText(b);
  }

  lemma JoinTwo(x: string, op: string, y: string)
    ensures JoinOn([x, y], op) == x + op + y
  {
    assert [x, y][1..] == [y];
  }

  lemma MeaningOfAnd(x: Operand, y: Operand, s: StageState, cap: int)
    requires !x.atom.UnknownAtom? && !y.atom.UnknownAtom?
    ensures Meaning([[x, y]], 0, s, cap) ==
      Ok(AtomMeaning(x.atom, s, cap) == Ok(true) && AtomMeaning(y.atom, s, cap) == Ok(true))
  {
    hide AtomMeaning;
    assert Known([x, y]);
    ConjunctionTruth([x, y], 0, s, cap);
    assert AllHold([x, y], 0, s, cap) <==>
      AtomMeaning(x.atom, s, cap) == Ok(true) && AtomMeaning(y.atom, s, cap) == Ok(true) by {
        assert [x, y][0] == x && [x, y][1] == y;
      }
    assert Meaning([[x, y]], 1, s, cap) == Ok(false);
  }

  lemma OrOfTwo(a: Atom, b: Atom, s: StageState, cap: int)
    requires !a.UnknownAtom? && !b.UnknownAtom?
    ensures WhenValue(AtomText(a) + " || " + AtomText(b), s, cap) ==
      Ok(AtomMeaning(a, s, cap) == Ok(true) || AtomMeaning(b, s, cap) == Ok(true))
  {
    hide WhenValue, AtomText, IsBlank, AtomMeaning;
    var x, y := Operand("", a, " "), Operand(" ", b, "");
    var cond: Condition := [[x], [y]];
    PaddedAtoms(a, b);
    assert OperandTexts([x]) == [AtomText(a) + " "] && OperandTexts([y]) == [" " + AtomText(b)];
    assert ConjunctionTexts(cond) == [AtomText(a) + " ", " " + AtomText(b)];
    JoinTwo(AtomText(a) + " ", "||", " " + AtomText(b));
    assert Print(cond) == AtomText(a) + " || " + AtomText(b);
    PrintedConditionEvaluates(cond, s, cap);
    assert !IsBlank(cond) by { KnownIsShown(cond); }
    MeaningOfOr(x, y, s, cap);
  }

  lemma MeaningOfOr(x: Operand, y: Operand, s: StageState, cap: int)
    requires !x.atom.UnknownAtom? && !y.atom.UnknownAtom?
    ensures Meaning([[x], [y]], 0, s, cap) ==
      Ok(AtomMeaning(x.atom, s, cap) == Ok(true) || AtomMeaning(y.atom, s, cap) == Ok(true))
  {
    assert ConjunctionMeaning([x], 1, s, cap) == Ok(true) && ConjunctionMeaning([y], 1, s, cap) == Ok(true);
    assert Meaning([[x], [y]], 2, s, cap) == Ok(false);
    assert Meaning([[x], [y]], 1, s, cap) == ConjunctionMeaning([y], 0, s, cap);
  }

  // ---- the shipped conditions ----

  /** What the four shipped conditions say, from their texts. */
  lemma SeedConditions(s: StageState, cap: int)
    ensures WhenValue("plan_json.subtasks.length > 0", s, cap) == Ok(s.planSubtaskCount > 0)
    ensures WhenValue("all_subtasks_terminal", s, cap) == Ok(s.allSubtasksTerminal)
    ensures WhenValue("decision == \"REWORK\"" + " && " + "rework_count < max_rework_count", s, cap) ==
      Ok(s.decision == "REWORK" && s.reworkCount < cap)
    ensures WhenValue("decision == \"APPROVE\"" + " || " + "rework_count >= max_rework_count", s, cap) ==
      Ok(s.decision == "APPROVE" || s.reworkCount >= cap)
  {
    hide WhenValue;
    OneAtom(PlanHasSubtasks, s, cap);
    OneAtom(AllTerminal, s, cap);
    AndOfTwo(ReworkAsked, BelowCap, s, cap);
    OrOfTwo(Approved, CapReached, s, cap);
  }

  /** The transition that decides: the first one out of the current stage whose condition holds. */
  ghost predicate Decides(c: Charter, s: StageState, i: nat) {
    i < |c.transitions| && Skipped(c, s, i) && Yields(c, s, i, Ok(true))
  }

  /** Under the shipped charter a verdict always leads on: a rework below two rounds back to the code stage, and every
      approval and every verdict at the cap to the user. */
  lemma SeedVerdicts(s: StageState, i: nat)
    requires s.currentStage == "review" && s.decision in {"APPROVE", "REWORK"}
    ensures Decides(SEED, s, i) <==> i == if s.decision == "REWORK" && s.reworkCount < 2 then 2 else 3
    ensures SEED.transitions[2].to == "code" && SEED.transitions[3].to == "human_review"
  {
    hide WhenValue;
    SeedConditions(s, 2);
    assert SEED.transitions[2].when_ == "decision == \"REWORK\"" + " && " + "rework_count < max_rework_count";
    assert SEED.transitions[3].when_ == "decision == \"APPROVE\"" + " || " + "rework_count >= max_rework_count";
    assert SEED.transitions[0].from != "review" by { assert "plan"[0] != "review"[0]; }
    assert SEED.transitions[1].from != "review" by { assert "code"[0] != "review"[0]; }
    DifferentVerdicts(s);
  }

  lemma DifferentVerdicts(s: StageState)
    ensures s.decision == "REWORK" ==> s.decision != "APPROVE"
  {
    assert "REWORK"[0] != "APPROVE"[0];
  }

  lemma ThreeEdges(ts: seq<Transition>, a: string, b: string, c: string, d: string)
    requires IsEdge(ts, a, b) && IsEdge(ts, b, c) && IsEdge(ts, c, d)
    ensures Reaches(ts, a, d)
  {
    hide IsEdge;
    assert IsPath(ts, a, [a, b, c, d]);
  }

  lemma SeedRoute()
    ensures Reaches(SEED.transitions, "plan", "human_review")
  {
    hide Reaches;
    var ts := SEED.transitions;
    assert ts[0].from == "plan" && ts[0].to == "code";
    assert ts[1].from == "code" && ts[1].to == "review";
    assert ts[3].from == "review" && ts[3].to == "human_review";
    ThreeEdges(ts, "plan", "code", "review", "human_review");
  }

  lemma SeedStages()
    ensures RequiredPresent(SEED) && EndpointsDeclared(SEED)
  {
    assert SEED.stages[0] == "plan" && SEED.stages[1] == "code" && SEED.stages[2] == "review";
  }

  lemma SeedFallbacks()
    ensures FallbacksOk(SEED)
  {
    assert SEED.stages[1] == "code";
  }

  /** The shipped charter passes its own validation. */
  lemma SeedIsAcceptable()
    ensures IsAcceptable(SEED)
  {
    hide Reaches, RequiredPresent, EndpointsDeclared, FallbacksOk;
    SeedRoute();
    SeedStages();
    SeedFallbacks();
  }
}
