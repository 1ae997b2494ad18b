/** What an accepted plan guarantees, stated on the names the model used. */
module PlanTheorems {
  import opened Text
  import opened DepGraph
  import opened Planner

  // ---- which inputs pass the checks ----

  ghost predicate NamesDistinct(raw: seq<RawSubtask>, n: nat)
    requires n <= |raw|
  {
    && (forall k :: 0 <= k < n ==> TrimSpace(raw[k].id) != "")
    && forall j, k :: 0 <= j < k < n ==> TrimSpace(raw[j].id) != TrimSpace(raw[k].id)
  }

  ghost predicate RowOk(raw: seq<RawSubtask>, k: nat)
    requires k < |raw|
  {
    var r := raw[k];
    && TrimSpace(r.title) != "" && TrimSpace(r.agentRole) != "" && !IsForbiddenRole(TrimSpace(r.agentRole))
    && forall i :: 0 <= i < |r.dependsOn| ==> DependencyOk(r, Names(raw, |raw|), i)
  }

  lemma {:induction false} NameRegistered(raw: seq<RawSubtask>, n: nat, k: nat)
    requires k < n <= |raw|
    ensures TrimSpace(raw[k].id) in Names(raw, n)
  {
    if k < n - 1 {
      NameRegistered(raw, n - 1, k);
    }
  }

  lemma {:induction false} NameHasOwner(raw: seq<RawSubtask>, n: nat, name: string) returns (k: nat)
    requires n <= |raw| && name in Names(raw, n)
    ensures k < n && TrimSpace(raw[k].id) == name
  {
    if TrimSpace(raw[n - 1].id) == name {
      k := n - 1;
    } else {
      k := NameHasOwner(raw, n - 1, name);
    }
  }

  lemma {:induction false} IdsPass(raw: seq<RawSubtask>, n: nat)
    requires n <= |raw|
    ensures FirstIdFault(raw, n) == None <==> NamesDistinct(raw, n)
  {
    hide TrimSpace;
    if n > 0 {
      IdsPass(raw, n - 1);
      var name := TrimSpace(raw[n - 1].id);
      if name in Names(raw, n - 1) {
        var k := NameHasOwner(raw, n - 1, name);
      } else {
        forall k | 0 <= k < n - 1
          ensures TrimSpace(raw[k].id) != name
        {
          NameRegistered(raw, n - 1, k);
        }
      }
    }
  }

  lemma {:induction false} RowsPass(raw: seq<RawSubtask>, n: nat)
    requires n <= |raw|
    ensures FirstRowFault(raw, Names(raw, |raw|), n) == None <==> forall k :: 0 <= k < n ==> RowOk(raw, k)
  {
    hide TrimSpace, IsForbiddenRole, Names, DependencyOk;
    if n > 0 {
      RowsPass(raw, n - 1);
      assert RowOk(raw, n - 1) <==> RowFault(raw[n - 1], Names(raw, |raw|)) == None;
    }
  }

  /** The checks before the graph sort pass exactly when names are distinct and not blank, titles and
      roles present and allowed, and every dependency names another subtask of the plan. */
  lemma ChecksPassIff(raw: seq<RawSubtask>)
    ensures PlanFault(raw) == None <==>
              && 0 < |raw| <= MAX_PLANNER_SUBTASKS
              && NamesDistinct(raw, |raw|)
              && forall k :: 0 <= k < |raw| ==> RowOk(raw, k)
  {
    IdsPass(raw, |raw|);
    RowsPass(raw, |raw|);
  }

  // ---- the nodes of a plan ----

  predicate IsTrimmedName(r: RawSubtask) {
    TrimSpace(r.id) == r.id
  }

  /** The key under which raw[k] ends up in the node map. */
  function NodeKey(raw: seq<RawSubtask>, ulids: seq<Id>, k: nat): Id
    requires |ulids| == |raw| && k < |raw|
  {
    if IsTrimmedName(raw[k]) then ulids[k] else Id(0)
  }

  lemma {:induction false} RegistryAt(raw: seq<RawSubtask>, ulids: seq<Id>, n: nat, k: nat)
    requires k < n <= |raw| && |ulids| == |raw| && NamesDistinct(raw, n)
    ensures TrimSpace(raw[k].id) in Registry(raw, ulids, n)
    ensures Registry(raw, ulids, n)[TrimSpace(raw[k].id)] == ulids[k]
  {
    if k < n - 1 {
      RegistryAt(raw, ulids, n - 1, k);
    }
  }

  lemma KeyLookup(raw: seq<RawSubtask>, ulids: seq<Id>, k: nat)
    requires k < |raw| && |ulids| == |raw| && NamesDistinct(raw, |raw|)
    ensures Lookup(Registry(raw, ulids, |raw|), raw[k].id) == NodeKey(raw, ulids, k)
  {
    hide TrimSpace;
    if IsTrimmedName(raw[k]) {
      RegistryAt(raw, ulids, |raw|, k);
    } else if raw[k].id in Names(raw, |raw|) {
      var j := NameHasOwner(raw, |raw|, raw[k].id);
      TrimSpaceIsTrimmed(raw[j].id);
    }
  }

  /** keys[j] is the id under which raw[j] is filed. */
  ghost predicate Files(raw: seq<RawSubtask>, registry: map<string, Id>, keys: seq<Id>) {
    |keys| == |raw| && forall j :: 0 <= j < |raw| ==> Lookup(registry, raw[j].id) == keys[j]
  }

  function KeySet(keys: seq<Id>, n: nat): set<Id>
    requires n <= |keys|
  {
    if n == 0 then {} else KeySet(keys, n - 1) + {keys[n - 1]}
  }

  lemma {:induction false} KeySetElements(keys: seq<Id>, n: nat)
    requires n <= |keys|
    ensures KeySet(keys, n) == Elements(keys[..n])
  {
    if n == 0 {
      assert Elements(keys[..0]) == {};
    } else {
      KeySetElements(keys, n - 1);
      assert keys[..n] == keys[..n - 1] + [keys[n - 1]];
    }
  }

  lemma {:induction false} NodeKeys(parent: string, raw: seq<RawSubtask>, registry: map<string, Id>, keys: seq<Id>,
                                    n: nat)
    requires n <= |raw| && Files(raw, registry, keys)
    ensures NodesOf(parent, raw, registry, n).Keys == KeySet(keys, n)
  {
    hide TrimSpace, MapNames, CleanPaths;
    if n > 0 {
      NodeKeys(parent, raw, registry, keys, n - 1);
      assert NodeOf(parent, raw[n - 1], registry).id == keys[n - 1];
    }
  }

  lemma {:induction false} NodeAt(parent: string, raw: seq<RawSubtask>, registry: map<string, Id>, keys: seq<Id>,
                                  n: nat, k: nat)
    requires k < n <= |raw| && Files(raw, registry, keys) && NoDuplicates(keys)
    ensures var nodes := NodesOf(parent, raw, registry, n);
            keys[k] in nodes && nodes[keys[k]] == NodeOf(parent, raw[k], registry)
  {
    hide TrimSpace, MapNames, CleanPaths;
    assert NodeOf(parent, raw[n - 1], registry).id == keys[n - 1];
    assert NodeOf(parent, raw[k], registry).id == keys[k];
    if k < n - 1 {
      NodeAt(parent, raw, registry, keys, n - 1, k);
    }
  }

  lemma PlanFiles(raw: seq<RawSubtask>, ulids: seq<Id>)
    requires |ulids| == |raw| && NamesDistinct(raw, |raw|)
    ensures Files(raw, Registry(raw, ulids, |raw|), Keys(raw, ulids))
  {
    forall k | 0 <= k < |raw| { KeyLookup(raw, ulids, k); }
  }

  function Keys(raw: seq<RawSubtask>, ulids: seq<Id>): seq<Id>
    requires |ulids| == |raw|
  {
    seq(|raw|, k requires 0 <= k < |raw| => NodeKey(raw, ulids, k))
  }

  ghost predicate AllTrimmed(raw: seq<RawSubtask>) {
    forall k :: 0 <= k < |raw| ==> IsTrimmedName(raw[k])
  }

  lemma KeysAreIds(raw: seq<RawSubtask>, ulids: seq<Id>)
    requires |ulids| == |raw| && AllTrimmed(raw)
    ensures Keys(raw, ulids) == ulids
  {
    hide IsTrimmedName;
    forall k | 0 <= k < |raw|
      ensures NodeKey(raw, ulids, k) == ulids[k]
    {
      assert IsTrimmedName(raw[k]);
    }
  }

  /** Freshly minted ids: pairwise distinct and none of them the empty string. */
  ghost predicate Minted(ulids: seq<Id>) {
    NoDuplicates(ulids) && forall k :: 0 <= k < |ulids| ==> ulids[k] != Id(0)
  }

  /** When every name is written without padding, the node map holds every subtask of the
      input under its own id, with its dependencies translated. */
  lemma EverySubtaskHasItsNode(parent: string, raw: seq<RawSubtask>, ulids: seq<Id>)
    requires |ulids| == |raw| && Minted(ulids) && NamesDistinct(raw, |raw|) && AllTrimmed(raw)
    ensures PlanNodes(parent, raw, ulids).Keys == Elements(ulids)
    ensures forall k :: 0 <= k < |raw| ==>
              && ulids[k] in PlanNodes(parent, raw, ulids)
              && PlanNodes(parent, raw, ulids)[ulids[k]] == NodeOf(parent, raw[k], Registry(raw, ulids, |raw|))
  {
    hide Registry, NodeOf, TrimSpace, NamesDistinct, IsTrimmedName, Keys, AllTrimmed, NodesOf, Files;
    var registry := Registry(raw, ulids, |raw|);
    PlanFiles(raw, ulids);
    KeysAreIds(raw, ulids);
    NodeKeys(parent, raw, registry, ulids, |raw|);
    KeySetElements(ulids, |raw|);
    assert ulids[..|raw|] == ulids;
    forall k | 0 <= k < |raw|
      ensures ulids[k] in PlanNodes(parent, raw, ulids)
      ensures PlanNodes(parent, raw, ulids)[ulids[k]] == NodeOf(parent, raw[k], registry)
    {
      NodeAt(parent, raw, registry, ulids, |raw|, k);
    }
  }

  // ---- cycles among the model's own names ----

  /** raw[k] names raw[j] as a dependency. */
  ghost predicate NamesAsDependency(raw: seq<RawSubtask>, k: nat, j: nat) {
    && k < |raw| && j < |raw|
    && exists i :: 0 <= i < |raw[k].dependsOn| && TrimSpace(raw[k].dependsOn[i]) == TrimSpace(raw[j].id)
  }

  ghost predicate IsNameCycle(raw: seq<RawSubtask>, p: seq<nat>) {
    && |p| >= 2 && p[0] == p[|p| - 1]
    && forall i, j :: 0 <= i && j == i + 1 && j < |p| ==> NamesAsDependency(raw, p[i], p[j])
  }

  /** Dependency edges between nodes are the dependencies between names. */
  lemma EdgeIff(parent: string, raw: seq<RawSubtask>, ulids: seq<Id>, k: nat, j: nat)
    requires |ulids| == |raw| && Minted(ulids) && NamesDistinct(raw, |raw|) && AllTrimmed(raw)
    requires forall i :: 0 <= i < |raw| ==> RowOk(raw, i)
    requires k < |raw| && j < |raw|
    ensures DependsOn(GraphOf(PlanNodes(parent, raw, ulids)), ulids[k], ulids[j]) <==> NamesAsDependency(raw, k, j)
  {
    hide TrimSpace, IsForbiddenRole, Names, Registry, CleanPaths;
    var registry := Registry(raw, ulids, |raw|);
    EverySubtaskHasItsNode(parent, raw, ulids);
    RegistryAt(raw, ulids, |raw|, j);
    var deps := raw[k].dependsOn;
    assert RowOk(raw, k);
    forall i | 0 <= i < |deps|
      ensures NamesDependency(registry, deps, i, ulids[j]) <==> TrimSpace(deps[i]) == TrimSpace(raw[j].id)
    {
      var name := TrimSpace(deps[i]);
      assert DependencyOk(raw[k], Names(raw, |raw|), i);
      if name != "" {
        var m := NameHasOwner(raw, |raw|, name);
        RegistryAt(raw, ulids, |raw|, m);
      }
    }
  }

  lemma {:induction false} IndicesOf(ulids: seq<Id>, q: seq<Id>) returns (p: seq<nat>)
    requires forall i :: 0 <= i < |q| ==> q[i] in ulids
    ensures |p| == |q| && forall i :: 0 <= i < |q| ==> p[i] < |ulids| && ulids[p[i]] == q[i]
  {
    if q == [] {
      p := [];
    } else {
      var rest := IndicesOf(ulids, q[..|q| - 1]);
      var k :| 0 <= k < |ulids| && ulids[k] == q[|q| - 1];
      p := rest + [k];
    }
  }

  lemma CycleIff(parent: string, raw: seq<RawSubtask>, ulids: seq<Id>)
    requires |ulids| == |raw| && Minted(ulids) && NamesDistinct(raw, |raw|) && AllTrimmed(raw)
    requires forall k :: 0 <= k < |raw| ==> RowOk(raw, k)
    ensures Acyclic(GraphOf(PlanNodes(parent, raw, ulids))) <==> !exists p :: IsNameCycle(raw, p)
  {
    hide PlanNodes, RowOk, Minted, NamesDistinct, AllTrimmed, NamesAsDependency;
    var g := GraphOf(PlanNodes(parent, raw, ulids));
    EverySubtaskHasItsNode(parent, raw, ulids);
    if p :| IsNameCycle(raw, p) {
      var q := NameCycleToCycle(parent, raw, ulids, p);
    }
    if q :| IsCycle(g, q) {
      var p := CycleToNameCycle(parent, raw, ulids, q);
    }
  }

  lemma NameCycleToCycle(parent: string, raw: seq<RawSubtask>, ulids: seq<Id>, p: seq<nat>) returns (q: seq<Id>)
    requires |ulids| == |raw| && Minted(ulids) && NamesDistinct(raw, |raw|) && AllTrimmed(raw)
    requires forall k :: 0 <= k < |raw| ==> RowOk(raw, k)
    requires IsNameCycle(raw, p)
    ensures IsCycle(GraphOf(PlanNodes(parent, raw, ulids)), q)
  {
    hide PlanNodes, RowOk, Minted, NamesDistinct, AllTrimmed, DependsOn;
    assert NamesAsDependency(raw, p[0], p[1]);
    forall i | 0 <= i < |p|
      ensures p[i] < |raw|
    {
      if i > 0 { assert NamesAsDependency(raw, p[i - 1], p[i]); }
    }
    q := seq(|p|, i requires 0 <= i < |p| => ulids[p[i]]);
    forall i, j | 0 <= i && j == i + 1 && j < |q|
      ensures DependsOn(GraphOf(PlanNodes(parent, raw, ulids)), q[i], q[j])
    {
      assert NamesAsDependency(raw, p[i], p[j]);
      EdgeIff(parent, raw, ulids, p[i], p[j]);
    }
  }

  lemma CycleToNameCycle(parent: string, raw: seq<RawSubtask>, ulids: seq<Id>, q: seq<Id>) returns (p: seq<nat>)
    requires |ulids| == |raw| && Minted(ulids) && NamesDistinct(raw, |raw|) && AllTrimmed(raw)
    requires forall k :: 0 <= k < |raw| ==> RowOk(raw, k)
    requires IsCycle(GraphOf(PlanNodes(parent, raw, ulids)), q)
    ensures IsNameCycle(raw, p)
  {
    hide PlanNodes, RowOk, NamesDistinct, AllTrimmed, NamesAsDependency;
    EverySubtaskHasItsNode(parent, raw, ulids);
    forall i | 0 <= i < |q|
      ensures q[i] in ulids
    {
      if i < |q| - 1 {
        assert DependsOn(GraphOf(PlanNodes(parent, raw, ulids)), q[i], q[i + 1]);
      } else {
        assert DependsOn(GraphOf(PlanNodes(parent, raw, ulids)), q[0], q[1]);
      }
      assert q[i] in Elements(ulids);
    }
    p := IndicesOf(ulids, q);
    forall i, j | 0 <= i && j == i + 1 && j < |p|
      ensures NamesAsDependency(raw, p[i], p[j])
    {
      assert DependsOn(GraphOf(PlanNodes(parent, raw, ulids)), q[i], q[j]);
      EdgeIff(parent, raw, ulids, p[i], p[j]);
    }
  }

  lemma PlanGraphClosed(parent: string, raw: seq<RawSubtask>, ulids: seq<Id>)
    requires |ulids| == |raw| && Minted(ulids) && NamesDistinct(raw, |raw|) && AllTrimmed(raw)
    requires forall k :: 0 <= k < |raw| ==> RowOk(raw, k)
    ensures Closed(GraphOf(PlanNodes(parent, raw, ulids)))
  {
    hide TrimSpace, IsForbiddenRole, Names, Registry, CleanPaths, PlanNodes;
    var registry := Registry(raw, ulids, |raw|);
    var g := GraphOf(PlanNodes(parent, raw, ulids));
    EverySubtaskHasItsNode(parent, raw, ulids);
    forall x, d | x in g && d in g[x]
      ensures d in g
    {
      assert x in Elements(ulids);
      var k :| 0 <= k < |ulids| && ulids[k] == x;
      var deps := raw[k].dependsOn;
      var i :| 0 <= i < |deps| && NamesDependency(registry, deps, i, d);
      assert RowOk(raw, k) && DependencyOk(raw[k], Names(raw, |raw|), i);
      var m := NameHasOwner(raw, |raw|, TrimSpace(deps[i]));
      RegistryAt(raw, ulids, |raw|, m);
      assert d == ulids[m] && d in Elements(ulids);
    }
  }

  /** For names written without padding: a plan that passes the checks is accepted exactly when the
      model's names have no dependency cycle. */
  lemma AcceptedIffNoNameCycle(parent: string, raw: seq<RawSubtask>, ulids: seq<Id>)
    requires |ulids| == |raw| && Minted(ulids) && AllTrimmed(raw) && PlanFault(raw) == None
    ensures var g := GraphOf(PlanNodes(parent, raw, ulids));
            Closed(g) && Acyclic(g) <==> !exists p :: IsNameCycle(raw, p)
  {
    ChecksPassIff(raw);
    PlanGraphClosed(parent, raw, ulids);
    CycleIff(parent, raw, ulids);
  }

  // ---- padded names ----

  /** How many of the first n subtasks carry padding in their name. */
  ghost function PaddedCount(raw: seq<RawSubtask>, n: nat): nat
    requires n <= |raw|
  {
    if n == 0 then 0 else PaddedCount(raw, n - 1) + if IsTrimmedName(raw[n - 1]) then 0 else 1
  }

  lemma {:induction false} NoPadding(raw: seq<RawSubtask>, n: nat)
    requires n <= |raw|
    ensures PaddedCount(raw, n) == 0 <==> forall k :: 0 <= k < n ==> IsTrimmedName(raw[k])
  {
    hide IsTrimmedName;
    if n > 0 {
      NoPadding(raw, n - 1);
    }
  }

  lemma {:induction false} KeyCount(raw: seq<RawSubtask>, ulids: seq<Id>, keys: seq<Id>, n: nat)
    requires n <= |raw| == |ulids| && Minted(ulids) && keys == Keys(raw, ulids)
    ensures |KeySet(keys, n)| == n - PaddedCount(raw, n) + (if PaddedCount(raw, n) == 0 then 0 else 1)
    ensures Id(0) in KeySet(keys, n) <==> PaddedCount(raw, n) > 0
  {
    hide IsTrimmedName, Minted, Keys;
    if n > 0 {
      KeyCount(raw, ulids, keys, n - 1);
      if IsTrimmedName(raw[n - 1]) {
        TrimmedKeyIsNew(raw, ulids, keys, n - 1);
      } else {
        PaddedKeyIsEmpty(raw, ulids, keys, n - 1);
      }
    }
  }

  lemma TrimmedKeyIsNew(raw: seq<RawSubtask>, ulids: seq<Id>, keys: seq<Id>, n: nat)
    requires n < |raw| == |ulids| && Minted(ulids) && keys == Keys(raw, ulids) && IsTrimmedName(raw[n])
    ensures keys[n] != Id(0) && keys[n] !in KeySet(keys, n)
  {
    hide IsTrimmedName;
    KeySetElements(keys, n);
    forall i | 0 <= i < n
      ensures keys[i] != keys[n]
    {
    }
  }

  lemma PaddedKeyIsEmpty(raw: seq<RawSubtask>, ulids: seq<Id>, keys: seq<Id>, n: nat)
    requires n < |raw| == |ulids| && keys == Keys(raw, ulids) && !IsTrimmedName(raw[n])
    ensures keys[n] == Id(0)
  {
    assert keys[n] == NodeKey(raw, ulids, n);
  }

  lemma PlanSize(parent: string, raw: seq<RawSubtask>, ulids: seq<Id>)
    requires |ulids| == |raw| && Minted(ulids) && NamesDistinct(raw, |raw|)
    ensures var keys := PlanNodes(parent, raw, ulids).Keys;
            && |keys| == |raw| - PaddedCount(raw, |raw|) + (if PaddedCount(raw, |raw|) == 0 then 0 else 1)
            && (Id(0) in keys <==> PaddedCount(raw, |raw|) > 0)
  {
    hide NamesDistinct, Minted, Registry, PaddedCount, Files;
    var keys := Keys(raw, ulids);
    PlanFiles(raw, ulids);
    NodeKeys(parent, raw, Registry(raw, ulids, |raw|), keys, |raw|);
    KeyCount(raw, ulids, keys, |raw|);
  }

  /** Names are trimmed when registered but not when looked up, so subtasks with padded names all land
      on the empty id. The plan keeps one subtask per input exactly when at most one name is padded,
      and gives every subtask an id of its own exactly when none is. */
  lemma PaddedNamesCollapse(parent: string, raw: seq<RawSubtask>, ulids: seq<Id>)
    requires |ulids| == |raw| && Minted(ulids) && PlanFault(raw) == None
    ensures |PlanNodes(parent, raw, ulids).Keys| == |raw| <==> PaddedCount(raw, |raw|) <= 1
    ensures Id(0) !in PlanNodes(parent, raw, ulids) <==> AllTrimmed(raw)
  {
    hide PlanFault, NamesDistinct, Minted, PlanNodes, IsTrimmedName;
    ChecksPassIff(raw);
    PlanSize(parent, raw, ulids);
    NoPadding(raw, |raw|);
  }

  /** A loss: two independent subtasks become one when each name starts with a space. */
  lemma PaddedPlanLosesASubtask(parent: string, a: RawSubtask, b: RawSubtask, ulids: seq<Id>)
    requires IsPlainSubtask(a) && IsPlainSubtask(b) && a.id != b.id && |ulids| == 2 && Minted(ulids)
    ensures var raw := [WithSpace(a), WithSpace(b)];
            PlanFault(raw) == None && |PlanNodes(parent, raw, ulids).Keys| == 1
  {
    hide PlanFault, Minted, PlanNodes, IsPlainSubtask, PaddedCount;
    var raw := [WithSpace(a), WithSpace(b)];
    PaddedPairPasses(a, b, raw);
    PlanSize(parent, raw, ulids);
  }

  function WithSpace(r: RawSubtask): RawSubtask {
    r.(id := " " + r.id)
  }

  lemma PaddedPairPasses(a: RawSubtask, b: RawSubtask, raw: seq<RawSubtask>)
    requires IsPlainSubtask(a) && IsPlainSubtask(b) && a.id != b.id && raw == [WithSpace(a), WithSpace(b)]
    ensures NamesDistinct(raw, 2) && PlanFault(raw) == None && PaddedCount(raw, 2) == 2
  {
    Unpad(raw[0].id, a.id);
    Unpad(raw[1].id, b.id);
    PlainRowOk(raw, 0);
    PlainRowOk(raw, 1);
    hide TrimSpace, RowOk, PlanFault;
    ChecksPassIff(raw);
    assert PaddedCount(raw, 1) == 1;
  }

  ghost predicate IsPlainSubtask(r: RawSubtask) {
    && r.id != "" && IsTrimmed(r.id) && r.title != "" && IsTrimmed(r.title)
    && r.agentRole == "coder" && r.dependsOn == []
  }

  lemma Unpad(padded: string, s: string)
    requires padded == " " + s && IsTrimmed(s)
    ensures TrimSpace(padded) == s
  {
    TrimPadded(" ", s, "");
    assert " " + s + "" == padded;
  }

  lemma PlainRowOk(raw: seq<RawSubtask>, k: nat)
    requires k < |raw| && raw[k].dependsOn == [] && raw[k].agentRole == "coder"
    requires raw[k].title != "" && IsTrimmed(raw[k].title)
    ensures RowOk(raw, k)
  {
    TrimIdentity(raw[k].title);
    TrimIdentity("coder");
    CoderAllowed();
  }

  lemma CoderAllowed()
    ensures !IsForbiddenRole("coder")
  {
    assert |ToLower("coder")| == 5;
  }
}
