/** What a condition means, and that the evaluator finds it out from the printed text. */
module Conditions {
  import opened Text
  import opened Interpreter

  /** An atom of a condition; any other text is one the evaluator does not know. */
  datatype Atom = PlanHasSubtasks | AllTerminal | Approved | ReworkAsked | BelowCap | CapReached
    | UnknownAtom(text: string)

  /** An atom with the white space around it. */
  datatype Operand = Operand(left: string, atom: Atom, right: string)

  /** A disjunction of conjunctions. */
  type Condition = seq<seq<Operand>>

  // ---- printing ----

  function AtomText(a: Atom): string {
    match a
    case PlanHasSubtasks => PLAN_TEXT
    case AllTerminal => TERMINAL_TEXT
    case Approved => APPROVE_TEXT
    case ReworkAsked => REWORK_TEXT
    case BelowCap => BELOW_TEXT
    case CapReached => AT_TEXT
    case UnknownAtom(text) => text
  }

  function OperandText(o: Operand): string {
    o.left + AtomText(o.atom) + o.right
  }

  function JoinOn(parts: seq<string>, op: string): string
    requires parts != []
  {
    if |parts| == 1 then parts[0] else parts[0] + op + JoinOn(parts[1..], op)
  }

  function OperandTexts(conj: seq<Operand>): seq<string> {
    seq(|conj|, i requires 0 <= i < |conj| => OperandText(conj[i]))
  }

  function ConjunctionText(conj: seq<Operand>): string
    requires conj != []
  {
    JoinOn(OperandTexts(conj), "&&")
  }

  function ConjunctionTexts(cond: Condition): seq<string>
    requires forall i :: 0 <= i < |cond| ==> cond[i] != []
  {
    seq(|cond|, i requires 0 <= i < |cond| => ConjunctionText(cond[i]))
  }

  function Print(cond: Condition): string
    requires IsCondition(cond)
  {
    JoinOn(ConjunctionTexts(cond), "||")
  }

  // ---- well-formed conditions ----

  ghost predicate IsKnownText(text: string) {
    text in {PLAN_TEXT, TERMINAL_TEXT, APPROVE_TEXT, REWORK_TEXT, BELOW_TEXT, AT_TEXT}
  }

  /** White space around an atom; an unknown atom is any trimmed text without operator characters. */
  ghost predicate IsOperand(o: Operand) {
    && AllSpace(o.left) && AllSpace(o.right)
    && (o.atom.UnknownAtom? ==>
         IsTrimmed(o.atom.text) && '&' !in o.atom.text && '|' !in o.atom.text && !IsKnownText(o.atom.text))
  }

  ghost predicate IsConjunction(conj: seq<Operand>) {
    conj != [] && forall i :: 0 <= i < |conj| ==> IsOperand(conj[i])
  }

  ghost predicate IsCondition(cond: Condition) {
    cond != [] && forall i :: 0 <= i < |cond| ==> cond[i] != [] && IsConjunction(cond[i])
  }

  // ---- meaning ----

  function AtomMeaning(a: Atom, s: StageState, maxRework: int): Verdict {
    match a
    case PlanHasSubtasks => Ok(s.planSubtaskCount > 0)
    case AllTerminal => Ok(s.allSubtasksTerminal)
    case Approved => Ok(s.decision == "APPROVE")
    case ReworkAsked => Ok(s.decision == "REWORK")
    case BelowCap => Ok(s.reworkCount < maxRework)
    case CapReached => Ok(s.reworkCount >= maxRework)
    case UnknownAtom(text) => Err(UnrecognisedAtom(text))
  }

  function ConjunctionMeaning(conj: seq<Operand>, i: nat, s: StageState, maxRework: int): Verdict
    requires i <= |conj|
    decreases |conj| - i
  {
    if i == |conj| then Ok(true)
    else
      var v := AtomMeaning(conj[i].atom, s, maxRework);
      if v == Ok(true) then ConjunctionMeaning(conj, i + 1, s, maxRework) else v
  }

  function Meaning(cond: Condition, i: nat, s: StageState, maxRework: int): Verdict
    requires i <= |cond|
    decreases |cond| - i
  {
    if i == |cond| then Ok(false)
    else
      var v := ConjunctionMeaning(cond[i], 0, s, maxRework);
      if v == Ok(false) then Meaning(cond, i + 1, s, maxRework) else v
  }

  ghost predicate Known(conj: seq<Operand>) {
    forall i :: 0 <= i < |conj| ==> !conj[i].atom.UnknownAtom?
  }

  ghost predicate AllHold(conj: seq<Operand>, i: nat, s: StageState, maxRework: int)
    requires i <= |conj|
  {
    forall k :: i <= k < |conj| ==> AtomMeaning(conj[k].atom, s, maxRework) == Ok(true)
  }

  lemma {:induction false} ConjunctionTruth(conj: seq<Operand>, i: nat, s: StageState, maxRework: int)
    requires i <= |conj| && Known(conj)
    ensures ConjunctionMeaning(conj, i, s, maxRework) == Ok(AllHold(conj, i, s, maxRework))
    decreases |conj| - i
  {
    if i < |conj| {
      ConjunctionTruth(conj, i + 1, s, maxRework);
      assert AtomMeaning(conj[i].atom, s, maxRework).Ok?;
    }
  }

  ghost predicate SomeHolds(cond: Condition, i: nat, s: StageState, maxRework: int) {
    exists k :: i <= k < |cond| && AllHold(cond[k], 0, s, maxRework)
  }

  /** Without unknown atoms a condition is true exactly when all atoms of one of its conjunctions are: and binds tighter
      than or. */
  lemma {:induction false} MeaningIsTruth(cond: Condition, i: nat, s: StageState, maxRework: int)
    requires i <= |cond| && forall k :: 0 <= k < |cond| ==> Known(cond[k])
    ensures Meaning(cond, i, s, maxRework) == Ok(SomeHolds(cond, i, s, maxRework))
    decreases |cond| - i
  {
    hide AllHold, Known;
    if i < |cond| {
      MeaningIsTruth(cond, i + 1, s, maxRework);
      ConjunctionTruth(cond[i], 0, s, maxRework);
    }
  }

  // ---- splitting what was joined ----

  lemma IndexOfPair(part: string, rest: string, op: string, c: char)
    requires op == [c, c] && c !in part
    ensures Index(part + op + rest, op) == |part|
  {
    var s := part + op + rest;
    var i := Index(s, op);
    assert s[|part|..] == op + rest;
    assert OccursAt(s, op, |part|);
    assert s[i..][0] == c;
  }

  lemma IndexOfNothing(part: string, op: string, c: char)
    requires op == [c, c] && c !in part
    ensures Index(part, op) == -1
  {
    var i := Index(part, op);
    assert forall j :: 0 <= j < |part| ==> part[j..][0] == part[j];
  }

  lemma SplitOnFirst(part: string, rest: string, op: string, c: char)
    requires op == [c, c] && c !in part
    ensures SplitOn(part + op + rest, op) == [part] + SplitOn(rest, op)
  {
    IndexOfPair(part, rest, op, c);
    var s := part + op + rest;
    assert s[..|part|] == part && s[|part| + |op|..] == rest;
  }

  lemma SplitOnWhole(part: string, op: string, c: char)
    requires op == [c, c] && c !in part
    ensures SplitOn(part, op) == [part]
  {
    IndexOfNothing(part, op, c);
  }

  lemma {:induction false} SplitJoinOn(parts: seq<string>, op: string, c: char)
    requires op == [c, c] && parts != [] && forall i :: 0 <= i < |parts| ==> c !in parts[i]
    ensures SplitOn(JoinOn(parts, op), op) == parts
  {
    if |parts| == 1 {
      SplitOnWhole(parts[0], op, c);
    } else {
      SplitJoinOn(parts[1..], op, c);
      SplitOnFirst(parts[0], JoinOn(parts[1..], op), op, c);
    }
  }

  // ---- white space does not matter ----

  lemma {:induction false} TrimIgnoresRight(s: string, pad: string)
    requires AllSpace(pad)
    ensures TrimSpace(s + pad) == TrimSpace(s)
  {
    if s == "" {
      assert s + pad == pad + "";
      TrimLeftDropsPadding(pad, "");
    } else if IsSpace(s[0]) {
      assert (s + pad)[1..] == s[1..] + pad;
      TrimIgnoresRight(s[1..], pad);
    } else {
      assert TrimLeft(s) == s && TrimLeft(s + pad) == s + pad;
      TrimRightDropsPadding(s, pad);
    }
  }

  lemma TrimIgnoresLeft(pad: string, s: string)
    requires AllSpace(pad)
    ensures TrimSpace(pad + s) == TrimSpace(s)
  {
    TrimLeftDropsPadding(pad, s);
  }

  lemma {:induction false} TrimLeftPads(s: string) returns (pad: string)
    ensures AllSpace(pad) && s == pad + TrimLeft(s)
  {
    if s != "" && IsSpace(s[0]) {
      var rest := TrimLeftPads(s[1..]);
      pad := [s[0]] + rest;
    } else {
      pad := "";
    }
  }

  lemma {:induction false} TrimRightPads(s: string) returns (pad: string)
    ensures AllSpace(pad) && s == TrimRight(s) + pad
  {
    if s != "" && IsSpace(s[|s| - 1]) {
      var rest := TrimRightPads(s[..|s| - 1]);
      pad := rest + [s[|s| - 1]];
    } else {
      pad := "";
    }
  }

  lemma TrimPads(s: string) returns (left: string, right: string)
    ensures AllSpace(left) && AllSpace(right) && s == left + (TrimSpace(s) + right)
  {
    left := TrimLeftPads(s);
    right := TrimRightPads(TrimLeft(s));
  }

  /** Both splits have the same pieces, up to the white space around them. */
  ghost predicate SameParts(a: seq<string>, b: seq<string>) {
    |a| == |b| && forall i :: 0 <= i < |a| ==> TrimSpace(a[i]) == TrimSpace(b[i])
  }

  lemma IndexPadLeft(pad: string, e: string, op: string, c: char)
    requires op == [c, c] && c !in pad
    ensures Index(pad + e, op) == if Index(e, op) < 0 then -1 else |pad| + Index(e, op)
  {
    var s, i, j := pad + e, Index(pad + e, op), Index(e, op);
    assert forall k :: 0 <= k <= |e| ==> s[|pad| + k..] == e[k..];
    assert forall k :: OccursAt(e, op, k) ==> OccursAt(s, op, |pad| + k);
    if i >= 0 {
      assert s[i..][0] == c;
      assert OccursAt(e, op, i - |pad|);
    }
    if j >= 0 {
      assert OccursAt(s, op, |pad| + j);
    }
  }

  lemma SplitPadLeft(pad: string, e: string, op: string, c: char)
    requires op == [c, c] && c !in pad && AllSpace(pad)
    ensures SameParts(SplitOn(pad + e, op), SplitOn(e, op))
  {
    hide Index, TrimSpace;
    IndexPadLeft(pad, e, op, c);
    var i := Index(e, op);
    if i < 0 {
      TrimIgnoresLeft(pad, e);
    } else {
      assert (pad + e)[..|pad| + i] == pad + e[..i];
      assert (pad + e)[|pad| + i + |op|..] == e[i + |op|..];
      TrimIgnoresLeft(pad, e[..i]);
    }
  }

  lemma IndexPadRight(e: string, pad: string, op: string, c: char)
    requires op == [c, c] && c !in pad
    ensures Index(e + pad, op) == Index(e, op)
  {
    var s, i, j := e + pad, Index(e + pad, op), Index(e, op);
    if i >= 0 {
      assert s[i..][0] == c && s[i..][1] == c;
      assert s[i] == c && s[i + 1] == c;
      assert i + 1 < |e|;
      assert e[i..][..2] == op;
      assert OccursAt(e, op, i);
    }
    if j >= 0 {
      assert e[j..][..2] == op;
      assert s[j..][..2] == op;
      assert OccursAt(s, op, j);
    }
  }

  lemma {:induction false} SplitPadRight(e: string, pad: string, op: string, c: char)
    requires op == [c, c] && c !in pad && AllSpace(pad)
    ensures SameParts(SplitOn(e + pad, op), SplitOn(e, op))
    decreases |e|
  {
    hide Index, TrimSpace;
    IndexPadRight(e, pad, op, c);
    var i := Index(e, op);
    if i < 0 {
      TrimIgnoresRight(e, pad);
    } else {
      assert (e + pad)[..i] == e[..i];
      assert (e + pad)[i + |op|..] == e[i + |op|..] + pad;
      SplitPadRight(e[i + |op|..], pad, op, c);
    }
  }

  /** Trimming a text trims its pieces and nothing else. */
  lemma SplitTrimmed(e: string, op: string, c: char)
    requires op == [c, c] && !IsSpace(c)
    ensures SameParts(SplitOn(e, op), SplitOn(TrimSpace(e), op))
  {
    hide SplitOn, TrimSpace;
    var left, right := TrimPads(e);
    SplitPadLeft(left, TrimSpace(e) + right, op, c);
    SplitPadRight(TrimSpace(e), right, op, c);
  }

  lemma {:induction false} AndFromSame(a: seq<string>, b: seq<string>, i: nat, s: StageState, maxRework: int)
    requires SameParts(a, b) && i <= |a|
    ensures AndFrom(a, i, s, maxRework) == AndFrom(b, i, s, maxRework)
    decreases |a| - i
  {
    hide EvalAtom, TrimSpace;
    if i < |a| {
      AndFromSame(a, b, i + 1, s, maxRework);
    }
  }

  lemma AndValueTrimmed(e: string, s: StageState, maxRework: int)
    ensures AndValue(TrimSpace(e), s, maxRework) == AndValue(e, s, maxRework)
  {
    hide SplitOn, TrimSpace, AndFrom;
    SplitTrimmed(e, "&&", '&');
    AndFromSame(SplitOn(e, "&&"), SplitOn(TrimSpace(e), "&&"), 0, s, maxRework);
  }

  lemma {:induction false} OrFromSame(a: seq<string>, b: seq<string>, i: nat, s: StageState, maxRework: int)
    requires SameParts(a, b) && i <= |a|
    ensures OrFrom(a, i, s, maxRework) == OrFrom(b, i, s, maxRework)
    decreases |a| - i
  {
    hide AndValue, TrimSpace;
    if i < |a| {
      OrFromSame(a, b, i + 1, s, maxRework);
    }
  }

  // ---- evaluating a printed condition ----

  ghost predicate IsPlain(s: string) {
    IsTrimmed(s) && s != "" && '&' !in s && '|' !in s
  }

  lemma PlanTextIsPlain()
    ensures IsPlain(PLAN_TEXT)
  {
  }

  lemma TerminalTextIsPlain()
    ensures IsPlain(TERMINAL_TEXT)
  {
  }

  lemma ApproveTextIsPlain()
    ensures IsPlain(APPROVE_TEXT)
  {
  }

  lemma ReworkTextIsPlain()
    ensures IsPlain(REWORK_TEXT)
  {
  }

  lemma BelowTextIsPlain()
    ensures IsPlain(BELOW_TEXT)
  {
  }

  lemma AtTextIsPlain()
    ensures IsPlain(AT_TEXT)
  {
  }

  lemma KnownTextsArePlain(a: Atom)
    requires !a.UnknownAtom?
    ensures IsPlain(AtomText(a))
  {
    hide IsPlain;
    PlanTextIsPlain();
    TerminalTextIsPlain();
    ApproveTextIsPlain();
    ReworkTextIsPlain();
    BelowTextIsPlain();
    AtTextIsPlain();
  }

  lemma OperandTrims(o: Operand)
    requires IsOperand(o)
    ensures TrimSpace(OperandText(o)) == AtomText(o.atom) && IsTrimmed(AtomText(o.atom))
  {
    hide TrimSpace;
    if !o.atom.UnknownAtom? {
      KnownTextsArePlain(o.atom);
    }
    TrimPadded(o.left, AtomText(o.atom), o.right);
  }

  /** An operand evaluates to its atom's meaning. */
  lemma OperandEvaluates(o: Operand, s: StageState, maxRework: int)
    requires IsOperand(o)
    ensures EvalAtom(TrimSpace(OperandText(o)), s, maxRework) == AtomMeaning(o.atom, s, maxRework)
  {
    hide TrimSpace, OperandText;
    OperandTrims(o);
    TrimIdentity(AtomText(o.atom));
  }

  lemma {:induction false} ConjunctionEvaluates(conj: seq<Operand>, i: nat, s: StageState, maxRework: int)
    requires IsConjunction(conj) && i <= |conj|
    ensures AndFrom(OperandTexts(conj), i, s, maxRework) == ConjunctionMeaning(conj, i, s, maxRework)
    decreases |conj| - i
  {
    hide EvalAtom, TrimSpace, OperandText, AtomMeaning, IsOperand;
    if i < |conj| {
      OperandEvaluates(conj[i], s, maxRework);
      ConjunctionEvaluates(conj, i + 1, s, maxRework);
    }
  }

  /** No operator character inside an operand. */
  lemma OperandHasNoOperator(o: Operand)
    requires IsOperand(o)
    ensures '&' !in OperandText(o) && '|' !in OperandText(o)
  {
    if !o.atom.UnknownAtom? {
      KnownTextsArePlain(o.atom);
    }
  }

  lemma {:induction false} JoinOnAvoids(parts: seq<string>, op: string, c: char)
    requires parts != [] && c !in op && forall i :: 0 <= i < |parts| ==> c !in parts[i]
    ensures c !in JoinOn(parts, op)
  {
    if |parts| > 1 {
      JoinOnAvoids(parts[1..], op, c);
    }
  }

  lemma ConjunctionValue(conj: seq<Operand>, s: StageState, maxRework: int)
    requires IsConjunction(conj)
    ensures AndValue(TrimSpace(ConjunctionText(conj)), s, maxRework) == ConjunctionMeaning(conj, 0, s, maxRework)
    ensures '|' !in ConjunctionText(conj)
  {
    hide TrimSpace, SplitOn, OperandText, IsOperand, JoinOn;
    forall i | 0 <= i < |conj|
      ensures '&' !in OperandTexts(conj)[i] && '|' !in OperandTexts(conj)[i]
    {
      OperandHasNoOperator(conj[i]);
    }
    AndValueTrimmed(ConjunctionText(conj), s, maxRework);
    SplitJoinOn(OperandTexts(conj), "&&", '&');
    JoinOnAvoids(OperandTexts(conj), "&&", '|');
    ConjunctionEvaluates(conj, 0, s, maxRework);
  }

  lemma {:induction false} ConjunctionsEvaluate(cond: Condition, i: nat, s: StageState, maxRework: int)
    requires IsCondition(cond) && i <= |cond|
    ensures OrFrom(ConjunctionTexts(cond), i, s, maxRework) == Meaning(cond, i, s, maxRework)
    decreases |cond| - i
  {
    hide AndValue, TrimSpace, ConjunctionText, ConjunctionMeaning, IsConjunction;
    if i < |cond| {
      ConjunctionValue(cond[i], s, maxRework);
      ConjunctionsEvaluate(cond, i + 1, s, maxRework);
    }
  }

  /** A condition with nothing in it. */
  ghost predicate IsBlank(cond: Condition) {
    |cond| == 1 && |cond[0]| == 1 && AtomText(cond[0][0].atom) == ""
  }

  lemma TrimsToNothing(s: string)
    ensures TrimSpace(s) == "" ==> AllSpace(s)
  {
    hide TrimSpace;
    var left, right := TrimPads(s);
  }

  lemma OperatorShows(parts: seq<string>, op: string)
    requires |parts| > 1 && op != "" && !IsSpace(op[0])
    ensures !AllSpace(JoinOn(parts, op))
  {
    var s := JoinOn(parts, op);
    assert s[|parts[0]|] == op[0];
  }

  lemma BlankIff(cond: Condition)
    requires IsCondition(cond)
    ensures TrimSpace(Print(cond)) == "" <==> IsBlank(cond)
  {
    hide TrimSpace, OperandText, IsOperand, AtomText;
    TrimsToNothing(Print(cond));
    if |cond| > 1 {
      OperatorShows(ConjunctionTexts(cond), "||");
    } else if |cond[0]| > 1 {
      OperatorShows(OperandTexts(cond[0]), "&&");
    } else {
      assert IsConjunction(cond[0]);
      OperandTrims(cond[0][0]);
    }
  }

  /** Evaluating the printed form of a condition gives its meaning; only a blank condition, which is false, is not an
      unknown atom. */
  lemma PrintedConditionEvaluates(cond: Condition, s: StageState, maxRework: int)
    requires IsCondition(cond)
    ensures WhenValue(Print(cond), s, maxRework) == if IsBlank(cond) then Ok(false) else Meaning(cond, 0, s, maxRework)
  {
    hide TrimSpace, SplitOn, ConjunctionText, OrFrom, Meaning, IsConjunction, IsBlank;
    BlankIff(cond);
    if !IsBlank(cond) {
      forall i | 0 <= i < |cond| ensures '|' !in ConjunctionTexts(cond)[i] { ConjunctionValue(cond[i], s, maxRework); }
      SplitJoinOn(ConjunctionTexts(cond), "||", '|');
      SplitTrimmed(Print(cond), "||", '|');
      OrFromSame(SplitOn(Print(cond), "||"), SplitOn(TrimSpace(Print(cond)), "||"), 0, s, maxRework);
      ConjunctionsEvaluate(cond, 0, s, maxRework);
    }
  }

  // ---- the reading with one precedence ----

  ghost predicate Holds(o: Operand, s: StageState, maxRework: int) {
    AtomMeaning(o.atom, s, maxRework) == Ok(true)
  }

  /** v, and-ed with the atoms of the conjunction from k on. */
  ghost function Chained(v: bool, conj: seq<Operand>, k: nat, s: StageState, maxRework: int): bool
    requires k <= |conj|
    decreases |conj| - k
  {
    if k == |conj| then v
    else if v then Chained(Holds(conj[k], s, maxRework), conj, k + 1, s, maxRework)
    else Chained(false, conj, k + 1, s, maxRework)
  }

  /** The operators from conjunction i on applied strictly from left to right, starting with v: or the first atom of a
      conjunction, then and its others. */
  ghost function LeftToRight(v: bool, cond: Condition, i: nat, s: StageState, maxRework: int): bool
    requires i <= |cond| && IsCondition(cond)
    decreases |cond| - i
  {
    if i == |cond| then v
    else if v then LeftToRight(Chained(true, cond[i], 1, s, maxRework), cond, i + 1, s, maxRework)
    else LeftToRight(Chained(Holds(cond[i][0], s, maxRework), cond[i], 1, s, maxRework), cond, i + 1, s, maxRework)
  }

  /** In every conjunction from i on, all atoms after the first hold. */
  ghost predicate TailsHold(cond: Condition, i: nat, s: StageState, maxRework: int)
    requires IsCondition(cond)
  {
    forall k :: i <= k < |cond| ==> AllHold(cond[k], 1, s, maxRework)
  }

  /** Some conjunction from i on holds and every later one has such a tail. */
  ghost predicate HoldsToTheEnd(cond: Condition, i: nat, s: StageState, maxRework: int)
    requires IsCondition(cond)
  {
    exists k :: i <= k < |cond| && AllHold(cond[k], 0, s, maxRework) && TailsHold(cond, k + 1, s, maxRework)
  }

  lemma {:induction false} ChainedIff(v: bool, conj: seq<Operand>, k: nat, s: StageState, maxRework: int)
    requires k <= |conj|
    ensures Chained(v, conj, k, s, maxRework) <==> v && AllHold(conj, k, s, maxRework)
    decreases |conj| - k
  {
    hide AtomMeaning;
    if k < |conj| {
      ChainedIff(if v then Holds(conj[k], s, maxRework) else false, conj, k + 1, s, maxRework);
    }
  }

  lemma AllHoldSplit(conj: seq<Operand>, s: StageState, maxRework: int)
    requires conj != []
    ensures AllHold(conj, 0, s, maxRework) <==> Holds(conj[0], s, maxRework) && AllHold(conj, 1, s, maxRework)
  {
    hide AtomMeaning;
  }

  lemma TailsSplit(cond: Condition, i: nat, s: StageState, maxRework: int)
    requires IsCondition(cond) && i < |cond|
    ensures TailsHold(cond, i, s, maxRework) <==>
      AllHold(cond[i], 1, s, maxRework) && TailsHold(cond, i + 1, s, maxRework)
  {
    hide AllHold, IsConjunction;
  }

  lemma EndSplit(cond: Condition, i: nat, s: StageState, maxRework: int)
    requires IsCondition(cond) && i < |cond|
    ensures HoldsToTheEnd(cond, i, s, maxRework) <==>
      || (AllHold(cond[i], 0, s, maxRework) && TailsHold(cond, i + 1, s, maxRework))
      || HoldsToTheEnd(cond, i + 1, s, maxRework)
  {
    hide AllHold, IsConjunction, TailsHold;
  }

  lemma {:induction false} LeftToRightIff(v: bool, cond: Condition, i: nat, s: StageState, maxRework: int)
    requires IsCondition(cond) && i <= |cond|
    ensures LeftToRight(v, cond, i, s, maxRework) <==>
      (v && TailsHold(cond, i, s, maxRework)) || HoldsToTheEnd(cond, i, s, maxRework)
    decreases |cond| - i
  {
    hide AllHold, Holds, Chained, IsConjunction;
    if i < |cond| {
      var first := if v then true else Holds(cond[i][0], s, maxRework);
      hide TailsHold, HoldsToTheEnd;
      ChainedIff(first, cond[i], 1, s, maxRework);
      LeftToRightIff(Chained(first, cond[i], 1, s, maxRework), cond, i + 1, s, maxRework);
      AllHoldSplit(cond[i], s, maxRework);
      TailsSplit(cond, i, s, maxRework);
      EndSplit(cond, i, s, maxRework);
    }
  }

  ghost predicate AllKnown(cond: Condition) {
    forall i :: 0 <= i < |cond| ==> Known(cond[i])
  }

  lemma KnownIsNotBlank(cond: Condition)
    requires IsCondition(cond) && AllKnown(cond)
    ensures !IsBlank(cond)
  {
    assert Known(cond[0]);
    assert !cond[0][0].atom.UnknownAtom?;
  }

  /** Read from left to right with one precedence, a condition is true exactly when some conjunction holds and all atoms
      but the first of every later one do; the evaluator departs from that reading exactly when some conjunction holds
      and none holds to the end. */
  lemma EqualPrecedenceDiffersIff(cond: Condition, s: StageState, maxRework: int)
    requires IsCondition(cond) && AllKnown(cond)
    ensures LeftToRight(false, cond, 0, s, maxRework) <==> HoldsToTheEnd(cond, 0, s, maxRework)
    ensures WhenValue(Print(cond), s, maxRework) == Ok(SomeHolds(cond, 0, s, maxRework))
    ensures WhenValue(Print(cond), s, maxRework) != Ok(LeftToRight(false, cond, 0, s, maxRework)) <==>
      SomeHolds(cond, 0, s, maxRework) && !HoldsToTheEnd(cond, 0, s, maxRework)
  {
    hide Print, WhenValue, Meaning, LeftToRight, AllHold, IsBlank, IsConjunction, TailsHold;
    LeftToRightIff(false, cond, 0, s, maxRework);
    KnownIsNotBlank(cond);
    PrintedConditionEvaluates(cond, s, maxRework);
    MeaningIsTruth(cond, 0, s, maxRework);
  }

  /** The shortest such condition is "a || b && c" with a true and c false. */
  lemma NotEqualPrecedence(a: Operand, b: Operand, c: Operand, s: StageState, maxRework: int)
    requires IsOperand(a) && IsOperand(b) && IsOperand(c) && Known([a, b, c])
    requires Holds(a, s, maxRework) && !Holds(c, s, maxRework)
    ensures IsCondition([[a], [b, c]])
    ensures WhenValue(Print([[a], [b, c]]), s, maxRework) == Ok(true)
    ensures !LeftToRight(false, [[a], [b, c]], 0, s, maxRework)
  {
    hide Print, WhenValue, IsOperand, AtomMeaning, LeftToRight;
    var cond: Condition := [[a], [b, c]];
    assert Known([a]) && Known([b, c]) by { assert [a, b, c][0] == a && [a, b, c][1] == b && [a, b, c][2] == c; }
    assert cond[0] == [a] && cond[1] == [b, c];
    assert AllHold(cond[0], 0, s, maxRework);
    assert Holds(cond[1][1], s, maxRework) == Holds(c, s, maxRework);
    assert !AllHold(cond[1], 1, s, maxRework) && !AllHold(cond[1], 0, s, maxRework);
    EqualPrecedenceDiffersIff(cond, s, maxRework);
  }
}
