/** Validation of the planner's output into an ordered subtask plan
    (sidecar/internal/copilot/planner.go, normalisePlan). */
module Planner {
  import opened Text
  import opened DepGraph
  import TopoSort

  const MAX_PLANNER_SUBTASKS := 40

  /** One node as the model emitted it, under a name of its own choosing. */
  datatype RawSubtask = RawSubtask(id: string, title: string, agentRole: string,
                                   dependsOn: seq<string>, writePaths: seq<string>, prompt: string)

  datatype SubtaskStatus = Pending | Doing | Done | Failed

  datatype Subtask = Subtask(id: Id, taskId: string, title: string, agentRole: string,
                             dependsOn: seq<Id>, writePaths: seq<string>, status: SubtaskStatus,
                             orderIdx: int, round: int, prompt: string)

  datatype PlanError =
    | EmptyPlan | OversizedPlan
    | MissingId | DuplicateId(id: string)
    | MissingTitle | MissingRole | ForbiddenRole
    | SelfDependency | UnknownDependency(name: string)
    | DependencyCycle

  // ---- text clean-up ----

  /** The first n texts of s, trimmed, without the blank ones. */
  function NonBlank(s: seq<string>, n: nat): seq<string>
    requires n <= |s|
  {
    if n == 0 then []
    else NonBlank(s, n - 1) + if TrimSpace(s[n - 1]) == "" then [] else [TrimSpace(s[n - 1])]
  }

  /** The declared write paths: trimmed, blanks dropped, each path once, in order of first mention. */
  function CleanPaths(paths: seq<string>, n: nat): (r: seq<string>)
    requires n <= |paths|
    ensures NoDuplicates(r)
    ensures forall x :: x in r <==> x in NonBlank(paths, n)
  {
    if n == 0 then []
    else
      var r := CleanPaths(paths, n - 1);
      var p := TrimSpace(paths[n - 1]);
      if p == "" || p in r then r else r + [p]
  }

  method CleanWritePaths(paths: seq<string>) returns (r: seq<string>)
    ensures r == CleanPaths(paths, |paths|)
  {
    hide TrimSpace, NoDuplicates, NonBlank;
    r := [];
    var seen: set<string> := {};
    for i := 0 to |paths|
      invariant r == CleanPaths(paths, i)
      invariant seen == Elements(r)
    {
      var p := TrimSpace(paths[i]);
      if p == "" {
        continue;
      }
      OneMoreElement(r, p);
      if p in seen {
        continue;
      }
      seen := seen + {p};
      r := r + [p];
    }
  }

  lemma OneMoreElement(s: seq<string>, x: string)
    ensures x in Elements(s) <==> x in s
    ensures Elements(s + [x]) == Elements(s) + {x}
  {
  }

  /** strings.ToLower on the letters that can yield a letter of the forbidden role names. */
  function LowerChar(c: char): char {
    if 'A' <= c <= 'Z' then c - 'A' + 'a'
    else if c == '\U{0130}' then 'i'
    else c
  }

  function ToLower(s: string): string {
    seq(|s|, i requires 0 <= i < |s| => LowerChar(s[i]))
  }

  predicate IsForbiddenRole(role: string) {
    ToLower(role) in {"reviewer", "ai_reviewer", "ai-reviewer"}
  }

  // ---- the validation rules ----

  function Names(raw: seq<RawSubtask>, n: nat): set<string>
    requires n <= |raw|
  {
    if n == 0 then {} else Names(raw, n - 1) + {TrimSpace(raw[n - 1].id)}
  }

  /** What is wrong with the name of raw[k], given the names before it. */
  function IdFault(raw: seq<RawSubtask>, k: nat): Option<PlanError>
    requires k < |raw|
  {
    var id := TrimSpace(raw[k].id);
    if id == "" then Some(MissingId)
    else if id in Names(raw, k) then Some(DuplicateId(id))
    else None
  }

  /** What is wrong with one dependency of r, among subtasks named names. */
  function DependencyFault(r: RawSubtask, names: set<string>, dep: string): Option<PlanError> {
    if dep == r.id then Some(SelfDependency)
    else if dep !in names then Some(UnknownDependency(dep))
    else None
  }

  /** The first fault among the first n entries of the dependency list; blank entries are skipped. */
  function FirstDependencyFault(r: RawSubtask, names: set<string>, n: nat): (f: Option<PlanError>)
    requires n <= |r.dependsOn|
    ensures f == None <==> forall i :: 0 <= i < n ==> DependencyOk(r, names, i)
  {
    if n == 0 then None
    else
      var fault := FirstDependencyFault(r, names, n - 1);
      var dep := TrimSpace(r.dependsOn[n - 1]);
      assert DependencyOk(r, names, n - 1) <==> dep == "" || DependencyFault(r, names, dep) == None;
      if fault.Some? || dep == "" then fault else DependencyFault(r, names, dep)
  }

  predicate DependencyOk(r: RawSubtask, names: set<string>, i: nat)
    requires i < |r.dependsOn|
  {
    var dep := TrimSpace(r.dependsOn[i]);
    dep == "" || (dep != r.id && dep in names)
  }

  function RowFault(r: RawSubtask, names: set<string>): Option<PlanError> {
    if TrimSpace(r.title) == "" then Some(MissingTitle)
    else if TrimSpace(r.agentRole) == "" then Some(MissingRole)
    else if IsForbiddenRole(TrimSpace(r.agentRole)) then Some(ForbiddenRole)
    else FirstDependencyFault(r, names, |r.dependsOn|)
  }

  /** The first fault of a plan, in the order the checks run; the graph is checked last. */
  function FirstIdFault(raw: seq<RawSubtask>, n: nat): Option<PlanError>
    requires n <= |raw|
  {
    if n == 0 then None
    else
      var fault := FirstIdFault(raw, n - 1);
      if fault.Some? then fault else IdFault(raw, n - 1)
  }

  function FirstRowFault(raw: seq<RawSubtask>, names: set<string>, n: nat): Option<PlanError>
    requires n <= |raw|
  {
    if n == 0 then None
    else
      var fault := FirstRowFault(raw, names, n - 1);
      if fault.Some? then fault else RowFault(raw[n - 1], names)
  }

  function PlanFault(raw: seq<RawSubtask>): Option<PlanError> {
    if raw == [] then Some(EmptyPlan)
    else if |raw| > MAX_PLANNER_SUBTASKS then Some(OversizedPlan)
    else if FirstIdFault(raw, |raw|).Some? then FirstIdFault(raw, |raw|)
    else FirstRowFault(raw, Names(raw, |raw|), |raw|)
  }

  // ---- the nodes ----

  /** The registry of names: each trimmed name and the id minted for it. */
  function Registry(raw: seq<RawSubtask>, ulids: seq<Id>, n: nat): (r: map<string, Id>)
    requires n <= |raw| && |ulids| == |raw|
    ensures r.Keys == Names(raw, n)
  {
    if n == 0 then map[] else Registry(raw, ulids, n - 1)[TrimSpace(raw[n - 1].id) := ulids[n - 1]]
  }

  /** Go's map lookup: the zero value for a missing key. */
  function Lookup(registry: map<string, Id>, name: string): Id {
    if name in registry then registry[name] else Id(0)
  }

  ghost predicate NamesDependency(registry: map<string, Id>, deps: seq<string>, i: nat, id: Id)
    requires i < |deps|
  {
    TrimSpace(deps[i]) != "" && Lookup(registry, TrimSpace(deps[i])) == id
  }

  /** The ids of the first n entries of a dependency list. */
  function MapNames(registry: map<string, Id>, deps: seq<string>, n: nat): (r: seq<Id>)
    requires n <= |deps|
    ensures forall id :: id in r <==> exists i :: 0 <= i < n && NamesDependency(registry, deps, i, id)
  {
    if n == 0 then []
    else
      var r := MapNames(registry, deps, n - 1);
      if TrimSpace(deps[n - 1]) == "" then r
      else
        var id := Lookup(registry, TrimSpace(deps[n - 1]));
        assert NamesDependency(registry, deps, n - 1, id);
        r + [id]
  }

  /** The working-set entry built from r. Names are registered trimmed but looked up as written. */
  function NodeOf(parent: string, r: RawSubtask, registry: map<string, Id>): Subtask {
    Subtask(Lookup(registry, r.id), parent, TrimSpace(r.title), TrimSpace(r.agentRole),
            MapNames(registry, r.dependsOn, |r.dependsOn|),
            CleanPaths(r.writePaths, |r.writePaths|), Pending, 0, 0, TrimSpace(r.prompt))
  }

  function NodesOf(parent: string, raw: seq<RawSubtask>, registry: map<string, Id>, n: nat): (r: map<Id, Subtask>)
    requires n <= |raw|
    ensures forall id :: id in r ==> r[id].id == id
  {
    if n == 0 then map[]
    else
      var node := NodeOf(parent, raw[n - 1], registry);
      NodesOf(parent, raw, registry, n - 1)[node.id := node]
  }

  function GraphOf(nodes: map<Id, Subtask>): (g: Graph)
    ensures g.Keys == nodes.Keys
  {
    map id | id in nodes :: nodes[id].dependsOn
  }

  /** The nodes of a plan whose ids were minted as ulids. */
  function PlanNodes(parent: string, raw: seq<RawSubtask>, ulids: seq<Id>): map<Id, Subtask>
    requires |ulids| == |raw|
  {
    NodesOf(parent, raw, Registry(raw, ulids, |raw|), |raw|)
  }

  // ---- normalisePlan ----

  method RegisterIds(raw: seq<RawSubtask>, ulids: seq<Id>) returns (r: Result<map<string, Id>, PlanError>)
    requires |ulids| == |raw|
    ensures r == match FirstIdFault(raw, |raw|) { case Some(e) => Err(e) case None => Ok(Registry(raw, ulids, |raw|)) }
  {
    hide TrimSpace;
    var registry: map<string, Id> := map[];
    for i := 0 to |raw|
      invariant registry == Registry(raw, ulids, i)
      invariant FirstIdFault(raw, i) == None
    {
      var id := TrimSpace(raw[i].id);
      if id == "" {
        FirstIdFaultStays(raw, i + 1, |raw|);
        return Err(MissingId);
      }
      if id in registry {
        FirstIdFaultStays(raw, i + 1, |raw|);
        return Err(DuplicateId(id));
      }
      registry := registry[id := ulids[i]];
    }
    r := Ok(registry);
  }

  lemma {:induction false} FirstIdFaultStays(raw: seq<RawSubtask>, m: nat, n: nat)
    requires m <= n <= |raw| && FirstIdFault(raw, m).Some?
    ensures FirstIdFault(raw, n) == FirstIdFault(raw, m)
  {
    hide IdFault;
    if m < n {
      FirstIdFaultStays(raw, m, n - 1);
    }
  }

  lemma {:induction false} FirstRowFaultStays(raw: seq<RawSubtask>, names: set<string>, m: nat, n: nat)
    requires m <= n <= |raw| && FirstRowFault(raw, names, m).Some?
    ensures FirstRowFault(raw, names, n) == FirstRowFault(raw, names, m)
  {
    hide RowFault;
    if m < n {
      FirstRowFaultStays(raw, names, m, n - 1);
    }
  }

  lemma {:induction false} FirstDependencyFaultStays(r: RawSubtask, names: set<string>, m: nat, n: nat)
    requires m <= n <= |r.dependsOn| && FirstDependencyFault(r, names, m).Some?
    ensures FirstDependencyFault(r, names, n) == FirstDependencyFault(r, names, m)
  {
    hide TrimSpace;
    if m < n {
      FirstDependencyFaultStays(r, names, m, n - 1);
    }
  }

  method MapDependencies(r: RawSubtask, registry: map<string, Id>) returns (deps: Result<seq<Id>, PlanError>)
    ensures deps == match FirstDependencyFault(r, registry.Keys, |r.dependsOn|) {
      case Some(e) => Err(e)
      case None => Ok(MapNames(registry, r.dependsOn, |r.dependsOn|))
    }
  {
    hide TrimSpace;
    var out: seq<Id> := [];
    for i := 0 to |r.dependsOn|
      invariant FirstDependencyFault(r, registry.Keys, i) == None
      invariant out == MapNames(registry, r.dependsOn, i)
    {
      var dep := TrimSpace(r.dependsOn[i]);
      if dep == "" {
        continue;
      }
      if dep == r.id {
        FirstDependencyFaultStays(r, registry.Keys, i + 1, |r.dependsOn|);
        return Err(SelfDependency);
      }
      if dep !in registry {
        FirstDependencyFaultStays(r, registry.Keys, i + 1, |r.dependsOn|);
        return Err(UnknownDependency(dep));
      }
      out := out + [registry[dep]];
    }
    deps := Ok(out);
  }

  method BuildNode(parent: string, r: RawSubtask, registry: map<string, Id>) returns (node: Result<Subtask, PlanError>)
    ensures node ==
      match RowFault(r, registry.Keys) { case Some(e) => Err(e) case None => Ok(NodeOf(parent, r, registry)) }
  {
    var title := TrimSpace(r.title);
    if title == "" {
      return Err(MissingTitle);
    }
    var role := TrimSpace(r.agentRole);
    if role == "" {
      return Err(MissingRole);
    }
    if IsForbiddenRole(role) {
      return Err(ForbiddenRole);
    }
    var deps := MapDependencies(r, registry);
    if deps.Err? {
      return Err(deps.error);
    }
    var writePaths := CleanWritePaths(r.writePaths);
    node := Ok(Subtask(Lookup(registry, r.id), parent, title, role, deps.value, writePaths, Pending, 0, 0,
                       TrimSpace(r.prompt)));
  }

  /** Go's iteration over a map: the keys in some order. */
  method Iterate(keys: set<Id>) returns (order: seq<Id>)
    ensures NoDuplicates(order) && Elements(order) == keys
  {
    order := [];
    var rest := keys;
    while rest != {}
      invariant NoDuplicates(order) && Elements(order) == keys - rest && rest <= keys
      decreases rest
    {
      var k :| k in rest;
      assert k !in Elements(order);
      assert Elements(order + [k]) == Elements(order) + {k};
      order := order + [k];
      rest := rest - {k};
    }
  }

  ghost function Ids(subs: seq<Subtask>): seq<Id> {
    seq(|subs|, i requires 0 <= i < |subs| => subs[i].id)
  }

  /** subs are the given nodes in dependency order, numbered by position. */
  ghost predicate IsOrderedPlan(nodes: map<Id, Subtask>, subs: seq<Subtask>) {
    && IsTopologicalOrder(GraphOf(nodes), Ids(subs))
    && forall i :: 0 <= i < |subs| ==> subs[i].id in nodes && subs[i] == nodes[subs[i].id].(orderIdx := i)
  }

  method BuildNodes(parent: string, raw: seq<RawSubtask>, registry: map<string, Id>)
    returns (r: Result<map<Id, Subtask>, PlanError>)
    ensures r == match FirstRowFault(raw, registry.Keys, |raw|) {
      case Some(e) => Err(e)
      case None => Ok(NodesOf(parent, raw, registry, |raw|))
    }
  {
    hide RowFault, NodeOf;
    var nodes: map<Id, Subtask> := map[];
    for i := 0 to |raw|
      invariant nodes == NodesOf(parent, raw, registry, i)
      invariant FirstRowFault(raw, registry.Keys, i) == None
    {
      var node := BuildNode(parent, raw[i], registry);
      if node.Err? {
        FirstRowFaultStays(raw, registry.Keys, i + 1, |raw|);
        return Err(node.error);
      }
      nodes := nodes[node.value.id := node.value];
    }
    r := Ok(nodes);
  }

  method Number(nodes: map<Id, Subtask>, ordered: seq<Id>) returns (out: seq<Subtask>)
    requires IsTopologicalOrder(GraphOf(nodes), ordered)
    requires forall id :: id in nodes ==> nodes[id].id == id
    ensures IsOrderedPlan(nodes, out) && Ids(out) == ordered
  {
    out := [];
    for i := 0 to |ordered|
      invariant |out| == i
      invariant forall k :: 0 <= k < i ==> ordered[k] in nodes && out[k] == nodes[ordered[k]].(orderIdx := k)
    {
      assert ordered[i] in Elements(ordered);
      out := out + [nodes[ordered[i]].(orderIdx := i)];
    }
    assert Ids(out) == ordered;
  }

  method NormalisePlan(parent: string, raw: seq<RawSubtask>, ulids: seq<Id>)
    returns (r: Result<seq<Subtask>, PlanError>)
    requires |ulids| == |raw|
    ensures PlanFault(raw).Some? ==> r == Err(PlanFault(raw).value)
    ensures PlanFault(raw).None? ==>
      var nodes := PlanNodes(parent, raw, ulids);
      if Closed(GraphOf(nodes)) && Acyclic(GraphOf(nodes)) then
        && r.Ok? && IsOrderedPlan(nodes, r.value)
        && exists iteration :: NoDuplicates(iteration) && Elements(iteration) == nodes.Keys
                               && TopoSort.IsKahnOrder(GraphOf(nodes), TopoSort.SortStrings(iteration), Ids(r.value))
      else r == Err(DependencyCycle)
  {
    hide Closed, Acyclic, IsTopologicalOrder, IsOrderedPlan, TopoSort.IsKahnOrder, FirstIdFault, FirstRowFault;
    hide NodesOf, NoDuplicates, TopoSort.Sorted, Ids;
    if |raw| == 0 {
      return Err(EmptyPlan);
    }
    if |raw| > MAX_PLANNER_SUBTASKS {
      return Err(OversizedPlan);
    }
    var registry := RegisterIds(raw, ulids);
    if registry.Err? {
      return Err(registry.error);
    }
    var built := BuildNodes(parent, raw, registry.value);
    if built.Err? {
      return Err(built.error);
    }
    var nodes := built.value;
    var iteration := Iterate(nodes.Keys);
    var ordered := TopoSort.TopoSort(GraphOf(nodes), iteration);
    if ordered.None? {
      return Err(DependencyCycle);
    }
    var out := Number(nodes, ordered.value);
    r := Ok(out);
  }
}
