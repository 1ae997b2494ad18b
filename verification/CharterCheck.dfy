/** Validation of a charter's stage graph (sidecar/internal/ihr/charter.go, Validate and reachable). */
module CharterCheck {
  import opened Interpreter

  datatype CharterFault =
    | MissingStage(stage: string) | UnknownFrom(index: nat) | UnknownTo(index: nat)
    | NoRoute | BadReworkCap | BadFallback(failureClass: string)

  const REQUIRED_STAGES := ["plan", "code", "review"]

  // ---- paths ----

  ghost predicate IsEdge(transitions: seq<Transition>, from: string, to: string) {
    exists i :: 0 <= i < |transitions| && transitions[i].from == from && transitions[i].to == to
  }

  /** p leads from start along the transitions. */
  ghost predicate IsPath(transitions: seq<Transition>, start: string, p: seq<string>) {
    && p != [] && p[0] == start
    && forall i, j :: 0 <= i && j == i + 1 && j < |p| ==> IsEdge(transitions, p[i], p[j])
  }

  ghost predicate Reaches(transitions: seq<Transition>, start: string, stage: string) {
    exists p :: IsPath(transitions, start, p) && p[|p| - 1] == stage
  }

  ghost predicate ReachesTerminal(transitions: seq<Transition>, start: string) {
    exists stage :: IsTerminalStage(stage) && Reaches(transitions, start, stage)
  }

  lemma ReachesStart(transitions: seq<Transition>, start: string)
    ensures Reaches(transitions, start, start)
  {
    assert IsPath(transitions, start, [start]);
  }

  lemma ReachesNext(transitions: seq<Transition>, start: string, stage: string, next: string)
    requires Reaches(transitions, start, stage) && IsEdge(transitions, stage, next)
    ensures Reaches(transitions, start, next)
  {
    var p :| IsPath(transitions, start, p) && p[|p| - 1] == stage;
    assert IsPath(transitions, start, p + [next]);
  }

  /** A set that contains the start and is closed under the transitions contains every path. */
  lemma {:induction false} PathStaysInside(transitions: seq<Transition>, start: string, p: seq<string>,
                                           inside: set<string>, n: nat)
    requires IsPath(transitions, start, p) && start in inside && n < |p|
    requires forall i :: 0 <= i < |transitions| && transitions[i].from in inside ==> transitions[i].to in inside
    ensures p[n] in inside
  {
    if n > 0 {
      PathStaysInside(transitions, start, p, inside, n - 1);
      var i, j := n - 1, n;
      assert IsEdge(transitions, p[i], p[j]);
    }
  }

  // ---- the search ----

  ghost function Stages(transitions: seq<Transition>, start: string): set<string> {
    {start} + set i | 0 <= i < |transitions| :: transitions[i].to
  }

  /** The search from the visited stages has the queued ones still to do. */
  ghost predicate SearchState(transitions: seq<Transition>, start: string, visited: set<string>, queue: seq<string>) {
    && visited <= Stages(transitions, start)
    && (start in visited || start in queue)
    && (forall x :: x in visited ==> !IsTerminalStage(x))
    && (forall x :: x in queue ==> Reaches(transitions, start, x))
    && forall i :: 0 <= i < |transitions| && transitions[i].from in visited ==>
      transitions[i].to in visited || transitions[i].to in queue
  }

  /** Breadth-first search: true exactly when a path of transitions leads from start to a terminal. */
  method Reachable(transitions: seq<Transition>, start: string) returns (found: bool)
    ensures found <==> ReachesTerminal(transitions, start)
  {
    hide Reaches, Stages, IsEdge;
    var visited: set<string> := {};
    var queue := [start];
    ReachesStart(transitions, start);
    while queue != []
      invariant SearchState(transitions, start, visited, queue)
      decreases Stages(transitions, start) - visited, |queue|
    {
      var cur := queue[0];
      var rest := queue[1..];
      assert queue == [cur] + rest;
      if cur in visited {
        queue := rest;
        continue;
      }
      if IsTerminalStage(cur) {
        return true;
      }
      InStages(transitions, start, cur);
      var more := Successors(transitions, start, visited + {cur}, cur);
      assert forall x :: x in queue ==> x == cur || x in rest;
      visited := visited + {cur};
      queue := rest + more;
    }
    found := false;
    NothingFound(transitions, start, visited);
  }

  lemma InStages(transitions: seq<Transition>, start: string, stage: string)
    requires Reaches(transitions, start, stage)
    ensures stage in Stages(transitions, start)
  {
    var p :| IsPath(transitions, start, p) && p[|p| - 1] == stage;
    if |p| > 1 {
      var i, j := |p| - 2, |p| - 1;
      assert IsEdge(transitions, p[i], p[j]);
    }
  }

  /** The unvisited stages the transitions of cur lead to. */
  method Successors(transitions: seq<Transition>, start: string, visited: set<string>, cur: string)
    returns (more: seq<string>)
    requires Reaches(transitions, start, cur)
    ensures forall x :: x in more ==> Reaches(transitions, start, x)
    ensures forall i :: 0 <= i < |transitions| && transitions[i].from == cur ==>
      transitions[i].to in visited || transitions[i].to in more
  {
    hide Reaches;
    more := [];
    for k := 0 to |transitions|
      invariant forall x :: x in more ==> Reaches(transitions, start, x)
      invariant forall i :: 0 <= i < k && transitions[i].from == cur ==>
        transitions[i].to in visited || transitions[i].to in more
    {
      var tr := transitions[k];
      if tr.from == cur && tr.to !in visited {
        assert IsEdge(transitions, cur, tr.to);
        ReachesNext(transitions, start, cur, tr.to);
        more := more + [tr.to];
      }
    }
  }

  lemma NothingFound(transitions: seq<Transition>, start: string, visited: set<string>)
    requires SearchState(transitions, start, visited, [])
    ensures !ReachesTerminal(transitions, start)
  {
    forall stage | Reaches(transitions, start, stage)
      ensures !IsTerminalStage(stage)
    {
      var p :| IsPath(transitions, start, p) && p[|p| - 1] == stage;
      PathStaysInside(transitions, start, p, visited, |p| - 1);
    }
  }

  // ---- validation ----

  predicate IsDeclared(c: Charter, stage: string) {
    stage in c.stages || IsTerminalStage(stage)
  }

  ghost predicate RequiredPresent(c: Charter) {
    forall i :: 0 <= i < |REQUIRED_STAGES| ==> REQUIRED_STAGES[i] in c.stages
  }

  ghost predicate EndpointsDeclared(c: Charter) {
    forall i :: 0 <= i < |c.transitions| ==> IsDeclared(c, c.transitions[i].from) && IsDeclared(c, c.transitions[i].to)
  }

  ghost predicate FallbacksOk(c: Charter) {
    forall k :: k in c.fallbacks ==> c.fallbacks[k] == "" || IsDeclared(c, c.fallbacks[k])
  }

  /** What an accepted charter guarantees. */
  ghost predicate IsAcceptable(c: Charter) {
    && RequiredPresent(c) && EndpointsDeclared(c) && ReachesTerminal(c.transitions, "plan")
    && c.maxReworkCount > 0 && FallbacksOk(c)
  }

  /** What each error says about the charter. */
  ghost predicate IsFault(c: Charter, f: CharterFault) {
    match f
    case MissingStage(stage) => stage in {"plan", "code", "review"} && stage !in c.stages
    case UnknownFrom(i) => i < |c.transitions| && !IsDeclared(c, c.transitions[i].from)
    case UnknownTo(i) => i < |c.transitions| && !IsDeclared(c, c.transitions[i].to)
    case NoRoute => RequiredPresent(c) && EndpointsDeclared(c) && !ReachesTerminal(c.transitions, "plan")
    case BadReworkCap => c.maxReworkCount <= 0
    case BadFallback(k) => k in c.fallbacks && c.fallbacks[k] != "" && !IsDeclared(c, c.fallbacks[k])
  }

  method CheckStages(c: Charter) returns (faults: seq<CharterFault>)
    ensures forall f :: f in faults <==> f.MissingStage? && IsFault(c, f)
    ensures faults == [] <==> RequiredPresent(c)
  {
    faults := [];
    for i := 0 to |REQUIRED_STAGES|
      invariant forall f :: f in faults <==> f.MissingStage? && f.stage in REQUIRED_STAGES[..i] && f.stage !in c.stages
      invariant faults == [] <==> forall k :: 0 <= k < i ==> REQUIRED_STAGES[k] in c.stages
    {
      assert REQUIRED_STAGES[..i + 1] == REQUIRED_STAGES[..i] + [REQUIRED_STAGES[i]];
      if REQUIRED_STAGES[i] !in c.stages {
        faults := faults + [MissingStage(REQUIRED_STAGES[i])];
      }
    }
    assert REQUIRED_STAGES[..|REQUIRED_STAGES|] == REQUIRED_STAGES;
  }

  method CheckTransitions(c: Charter) returns (faults: seq<CharterFault>)
    ensures forall f :: f in faults <==> (f.UnknownFrom? || f.UnknownTo?) && IsFault(c, f)
    ensures faults == [] <==> EndpointsDeclared(c)
  {
    hide IsDeclared, ReachesTerminal, RequiredPresent;
    faults := [];
    for i := 0 to |c.transitions|
      invariant forall f :: f in faults <==> (f.UnknownFrom? || f.UnknownTo?) && f.index < i && IsFault(c, f)
      invariant faults == [] <==>
        forall k :: 0 <= k < i ==> IsDeclared(c, c.transitions[k].from) && IsDeclared(c, c.transitions[k].to)
    {
      if !IsDeclared(c, c.transitions[i].from) {
        faults := faults + [UnknownFrom(i)];
      }
      if !IsDeclared(c, c.transitions[i].to) {
        faults := faults + [UnknownTo(i)];
      }
    }
  }

  method CheckFallbacks(c: Charter) returns (faults: seq<CharterFault>)
    ensures forall f :: f in faults <==> f.BadFallback? && IsFault(c, f)
    ensures faults == [] <==> FallbacksOk(c)
  {
    hide IsDeclared, ReachesTerminal, RequiredPresent, EndpointsDeclared;
    faults := [];
    var rest := c.fallbacks.Keys;
    while rest != {}
      invariant rest <= c.fallbacks.Keys
      invariant forall f :: f in faults <==> f.BadFallback? && f.failureClass !in rest && IsFault(c, f)
      invariant faults == [] <==>
        forall k :: k in c.fallbacks && k !in rest ==> c.fallbacks[k] == "" || IsDeclared(c, c.fallbacks[k])
      decreases rest
    {
      var k :| k in rest;
      if c.fallbacks[k] != "" && !IsDeclared(c, c.fallbacks[k]) {
        faults := faults + [BadFallback(k)];
      }
      rest := rest - {k};
    }
  }

  /** Exactly the errors of a charter. Reachability is checked only when nothing before it failed. */
  method Validate(c: Charter) returns (faults: seq<CharterFault>)
    ensures forall f :: f in faults <==> IsFault(c, f)
    ensures faults == [] <==> IsAcceptable(c)
  {
    hide RequiredPresent, EndpointsDeclared, FallbacksOk, ReachesTerminal, IsDeclared;
    var stageFaults := CheckStages(c);
    var transitionFaults := CheckTransitions(c);
    faults := stageFaults + transitionFaults;
    if |faults| == 0 {
      var routed := Reachable(c.transitions, "plan");
      if !routed {
        faults := faults + [NoRoute];
      }
    }
    if c.maxReworkCount <= 0 {
      faults := faults + [BadReworkCap];
    }
    var fallbackFaults := CheckFallbacks(c);
    faults := faults + fallbackFaults;
  }

  // ---- what acceptance gives ----

  /** Every stage a path meets is declared. */
  lemma {:induction false} PathIsDeclared(c: Charter, p: seq<string>, n: nat)
    requires RequiredPresent(c) && EndpointsDeclared(c) && IsPath(c.transitions, "plan", p) && n < |p|
    ensures IsDeclared(c, p[n])
  {
    if n > 0 {
      var i, j := n - 1, n;
      assert IsEdge(c.transitions, p[i], p[j]);
    } else {
      assert REQUIRED_STAGES[0] == "plan";
    }
  }

  /** An accepted charter has a path from plan to a terminal through declared stages only. */
  lemma AcceptedCharterHasRoute(c: Charter)
    requires IsAcceptable(c)
    ensures exists p :: IsPath(c.transitions, "plan", p) && IsTerminalStage(p[|p| - 1])
                        && forall n :: 0 <= n < |p| ==> IsDeclared(c, p[n])
  {
    hide IsDeclared, RequiredPresent, EndpointsDeclared;
    var stage :| IsTerminalStage(stage) && Reaches(c.transitions, "plan", stage);
    var p :| IsPath(c.transitions, "plan", p) && p[|p| - 1] == stage;
    forall n | 0 <= n < |p| ensures IsDeclared(c, p[n]) { PathIsDeclared(c, p, n); }
  }
}
