/** Kahn's algorithm as the planner runs it on the subtask graph
    (sidecar/internal/copilot/planner.go, topoSort). */
module TopoSort {
  import opened Text
  import opened DepGraph

  // ---- sort.Strings ----

  ghost predicate Sorted(s: seq<Id>) {
    forall i, j :: 0 <= i < j < |s| ==> s[i].rank <= s[j].rank
  }

  ghost predicate StrictlySorted(s: seq<Id>) {
    Sorted(s) && NoDuplicates(s)
  }

  function Insert(x: Id, s: seq<Id>): (r: seq<Id>)
    ensures multiset(r) == multiset(s) + multiset{x}
  {
    if s == [] then [x]
    else if x.rank <= s[0].rank then [x] + s
    else
      assert s == [s[0]] + s[1..];
      [s[0]] + Insert(x, s[1..])
  }

  ghost predicate NoneBelow(s: seq<Id>, bound: nat) {
    forall i :: 0 <= i < |s| ==> bound <= s[i].rank
  }

  lemma InsertKeepsBound(x: Id, s: seq<Id>, bound: nat)
    requires NoneBelow(s, bound) && bound <= x.rank
    ensures NoneBelow(Insert(x, s), bound)
  {
    hide Insert;
    var r := Insert(x, s);
    forall i | 0 <= i < |r|
      ensures bound <= r[i].rank
    {
      assert r[i] in multiset(r);
      assert r[i] == x || r[i] in s;
    }
  }

  lemma ConsSorted(x: Id, s: seq<Id>)
    ensures Sorted([x] + s) <==> NoneBelow(s, x.rank) && Sorted(s)
  {
    var all := [x] + s;
    assert forall i :: 0 <= i < |s| ==> all[i + 1] == s[i];
    if Sorted(all) {
      forall i | 0 <= i < |s| ensures x.rank <= s[i].rank { assert all[0].rank <= all[i + 1].rank; }
      forall i, j | 0 <= i < j < |s| ensures s[i].rank <= s[j].rank { assert all[i + 1].rank <= all[j + 1].rank; }
    }
  }

  lemma {:induction false} InsertSorted(x: Id, s: seq<Id>)
    requires Sorted(s)
    ensures Sorted(Insert(x, s))
  {
    hide Sorted, NoneBelow;
    if s == [] {
      OneSorted(x);
    } else {
      assert s == [s[0]] + s[1..];
      ConsSorted(s[0], s[1..]);
      if x.rank <= s[0].rank {
        ConsSorted(x, s);
        LowerBound(s, x.rank);
      } else {
        InsertSorted(x, s[1..]);
        InsertKeepsBound(x, s[1..], s[0].rank);
        ConsSorted(s[0], Insert(x, s[1..]));
      }
    }
  }

  lemma OneSorted(x: Id)
    ensures Sorted([x])
  {
  }

  lemma LowerBound(s: seq<Id>, bound: nat)
    requires Sorted(s) && s != [] && bound <= s[0].rank
    ensures NoneBelow(s, bound)
  {
  }

  /** sort.Strings on ids. */
  function SortStrings(s: seq<Id>): (r: seq<Id>)
    ensures Sorted(r) && multiset(r) == multiset(s)
  {
    if s == [] then []
    else
      assert s == [s[0]] + s[1..];
      InsertSorted(s[0], SortStrings(s[1..]));
      Insert(s[0], SortStrings(s[1..]))
  }

  /** Sorting does not see the order of its input: a sorted list without repetitions is determined by its elements. */
  lemma {:induction false} SortedListUnique(a: seq<Id>, b: seq<Id>)
    requires StrictlySorted(a) && StrictlySorted(b) && Elements(a) == Elements(b)
    ensures a == b
  {
    if a == [] {
      DistinctLength(a);
      DistinctLength(b);
    } else {
      assert a[0] in Elements(b);
      assert b[0] in Elements(a);
      HeadIsLeast(a, b[0]);
      HeadIsLeast(b, a[0]);
      TailElements(a);
      TailElements(b);
      SortedListUnique(a[1..], b[1..]);
      assert a == [a[0]] + a[1..] && b == [b[0]] + b[1..];
    }
  }

  lemma HeadIsLeast(a: seq<Id>, x: Id)
    requires Sorted(a) && x in a
    ensures a[0].rank <= x.rank
  {
  }

  lemma TailElements(a: seq<Id>)
    requires a != [] && NoDuplicates(a)
    ensures Elements(a[1..]) == Elements(a) - {a[0]}
  {
    assert a == [a[0]] + a[1..];
  }

  lemma SortKeepsDistinct(s: seq<Id>)
    requires NoDuplicates(s)
    ensures StrictlySorted(SortStrings(s)) && Elements(SortStrings(s)) == Elements(s)
  {
    DistinctCount(s);
    DistinctCount(SortStrings(s));
    MultisetElements(s);
    MultisetElements(SortStrings(s));
  }

  lemma {:induction false} DistinctCount(s: seq<Id>)
    ensures NoDuplicates(s) <==> forall x :: multiset(s)[x] <= 1
  {
    if s != [] {
      var n := |s| - 1;
      assert s == s[..n] + [s[n]];
      DistinctCount(s[..n]);
      if s[n] in s[..n] {
        var i :| 0 <= i < n && s[i] == s[n];
        assert multiset(s)[s[n]] >= 2;
      } else if NoDuplicates(s[..n]) {
        forall x ensures multiset(s)[x] <= 1 { }
      } else {
        var x :| multiset(s[..n])[x] > 1;
        assert multiset(s)[x] > 1;
      }
    }
  }

  lemma MultisetElements(s: seq<Id>)
    ensures forall x :: x in multiset(s) <==> x in Elements(s)
  {
  }

  // ---- the order in which nodes become ready ----

  ghost function Select(ids: seq<Id>, keep: Id -> bool): seq<Id> {
    if ids == [] then []
    else (if keep(ids[0]) then [ids[0]] else []) + Select(ids[1..], keep)
  }

  lemma {:induction false} SelectSorted(ids: seq<Id>, keep: Id -> bool)
    requires StrictlySorted(ids)
    ensures StrictlySorted(Select(ids, keep))
    ensures Elements(Select(ids, keep)) == set x | x in ids && keep(x)
  {
    if ids != [] {
      SelectSorted(ids[1..], keep);
      var rest := Select(ids[1..], keep);
      forall i | 0 <= i < |rest|
        ensures ids[0].rank <= rest[i].rank && ids[0] != rest[i]
      {
        assert rest[i] in Elements(rest);
      }
      assert ids == [ids[0]] + ids[1..];
      var head := if keep(ids[0]) then [ids[0]] else [];
      assert forall x :: x in head + rest <==> x in head || x in rest;
      assert forall x :: x in rest <==> x in Elements(rest);
    }
  }

  /** Finishing id makes x ready: id was the last dependency x was waiting for. */
  ghost predicate IsReleased(g: Graph, done: set<Id>, id: Id, x: Id) {
    x in g && id in g[x] && forall d :: d in g[x] ==> d in done || d == id
  }

  ghost function Roots(g: Graph, ids: seq<Id>): seq<Id> {
    Select(ids, x => x in g && g[x] == [])
  }

  ghost function Released(g: Graph, ids: seq<Id>, done: set<Id>, id: Id): seq<Id> {
    Select(ids, x => IsReleased(g, done, id, x))
  }

  /** Everything that has entered the ready queue once the nodes of out were processed in order:
      the nodes without dependencies in id order, then for each processed node those it released, in id order. */
  ghost function Queued(g: Graph, ids: seq<Id>, out: seq<Id>): seq<Id> {
    if out == [] then Roots(g, ids)
    else
      var n := |out| - 1;
      Queued(g, ids, out[..n]) + Released(g, ids, Elements(out[..n]), out[n])
  }

  /** out processes the queue first in, first out, until it is empty. */
  ghost predicate IsKahnOrder(g: Graph, ids: seq<Id>, out: seq<Id>) {
    && (forall k :: 0 <= k < |out| ==> TakesNext(g, ids, out, k))
    && |Queued(g, ids, out)| == |out|
  }

  ghost predicate TakesNext(g: Graph, ids: seq<Id>, out: seq<Id>, k: int)
    requires 0 <= k < |out|
  {
    k < |Queued(g, ids, out[..k])| && Queued(g, ids, out[..k])[k] == out[k]
  }

  lemma {:induction false} SamePrefix(g: Graph, ids: seq<Id>, a: seq<Id>, b: seq<Id>, k: nat)
    requires IsKahnOrder(g, ids, a) && IsKahnOrder(g, ids, b)
    requires k <= |a| && k <= |b|
    ensures a[..k] == b[..k]
  {
    if k > 0 {
      SamePrefix(g, ids, a, b, k - 1);
      assert TakesNext(g, ids, a, k - 1) && TakesNext(g, ids, b, k - 1);
      assert a[..k] == a[..k - 1] + [a[k - 1]];
      assert b[..k] == b[..k - 1] + [b[k - 1]];
    }
  }

  lemma StillQueued(g: Graph, ids: seq<Id>, out: seq<Id>, k: nat)
    requires IsKahnOrder(g, ids, out) && k < |out|
    ensures k < |Queued(g, ids, out[..k])|
  {
    assert TakesNext(g, ids, out, k);
  }

  lemma NotLonger(g: Graph, ids: seq<Id>, a: seq<Id>, b: seq<Id>)
    requires IsKahnOrder(g, ids, a) && IsKahnOrder(g, ids, b)
    ensures |b| <= |a|
  {
    if |a| < |b| {
      StillQueued(g, ids, b, |a|);
      assert a[..|a|] == a;
      SamePrefix(g, ids, a, b, |a|);
    }
  }

  /** The graph alone determines the order. */
  lemma KahnOrderUnique(g: Graph, ids: seq<Id>, a: seq<Id>, b: seq<Id>)
    requires IsKahnOrder(g, ids, a) && IsKahnOrder(g, ids, b)
    ensures a == b
  {
    NotLonger(g, ids, a, b);
    NotLonger(g, ids, b, a);
    SamePrefix(g, ids, a, b, |a|);
    assert a[..|a|] == a && b[..|b|] == b;
  }

  // ---- the in-degree bookkeeping ----

  /** How many entries of deps are not done yet: what the in-degree counts. */
  ghost function Pending(deps: seq<Id>, done: set<Id>): nat {
    if deps == [] then 0
    else (if deps[0] in done then 0 else 1) + Pending(deps[1..], done)
  }

  lemma {:induction false} PendingZero(deps: seq<Id>, done: set<Id>)
    ensures Pending(deps, done) == 0 <==> forall d :: d in deps ==> d in done
    ensures done == {} ==> Pending(deps, done) == |deps|
  {
    if deps != [] {
      PendingZero(deps[1..], done);
      assert deps == [deps[0]] + deps[1..];
    }
  }

  lemma {:induction false} PendingDone(deps: seq<Id>, done: set<Id>, id: Id)
    requires id !in done
    ensures Pending(deps, done) == Pending(deps, done + {id}) + Occurrences(deps, id)
  {
    if deps != [] {
      PendingDone(deps[1..], done, id);
      assert deps == [deps[0]] + deps[1..];
    }
  }

  function Get(m: map<Id, seq<Id>>, k: Id): seq<Id> {
    if k in m then m[k] else []
  }

  /** The successor lists invert the dependency lists, multiplicities included. */
  ghost predicate Inverts(g: Graph, successors: map<Id, seq<Id>>, visited: set<Id>) {
    forall d, x :: Occurrences(Get(successors, d), x) == if x in visited && x in g then Occurrences(g[x], d) else 0
  }

  function Occurrences(s: seq<Id>, x: Id): nat {
    multiset(s)[x]
  }

  lemma OccurrencesSnoc(s: seq<Id>, y: Id, x: Id)
    ensures Occurrences(s + [y], x) == Occurrences(s, x) + if x == y then 1 else 0
  {
  }

  lemma AddOne(m: map<Id, seq<Id>>, id: Id, dep: Id, d: Id, x: Id)
    ensures Occurrences(Get(m[dep := Get(m, dep) + [id]], d), x)
            == Occurrences(Get(m, d), x) + if d == dep && x == id then 1 else 0
  {
    OccurrencesSnoc(Get(m, dep), id, x);
  }

  /** successors[d] gains one entry id per occurrence of d in deps. */
  method AddSuccessors(before: map<Id, seq<Id>>, id: Id, deps: seq<Id>) returns (successors: map<Id, seq<Id>>)
    ensures forall d, x :: Occurrences(Get(successors, d), x)
                           == Occurrences(Get(before, d), x) + if x == id then Occurrences(deps, d) else 0
  {
    successors := before;
    assert deps[..0] == [];
    assert forall d :: Occurrences([], d) == 0;
    for j := 0 to |deps|
      invariant forall d, x :: Occurrences(Get(successors, d), x)
                               == Occurrences(Get(before, d), x) + if x == id then Occurrences(deps[..j], d) else 0
    {
      ghost var was := successors;
      successors := successors[deps[j] := Get(successors, deps[j]) + [id]];
      assert deps[..j + 1] == deps[..j] + [deps[j]];
      forall d, x
        ensures Occurrences(Get(successors, d), x)
                == Occurrences(Get(before, d), x) + if x == id then Occurrences(deps[..j + 1], d) else 0
      {
        AddOne(was, id, deps[j], d, x);
        OccurrencesSnoc(deps[..j], deps[j], d);
      }
    }
    assert deps[..|deps|] == deps;
  }

  method CountEdges(nodes: Graph, iteration: seq<Id>) returns (indeg: map<Id, int>, successors: map<Id, seq<Id>>)
    requires NoDuplicates(iteration) && Elements(iteration) == nodes.Keys
    ensures indeg.Keys == nodes.Keys && forall x :: x in nodes ==> indeg[x] == |nodes[x]|
    ensures Inverts(nodes, successors, nodes.Keys)
  {
    indeg, successors := map[], map[];
    for i := 0 to |iteration|
      invariant indeg.Keys == Elements(iteration[..i])
      invariant forall x :: x in indeg ==> x in nodes && indeg[x] == |nodes[x]|
      invariant Inverts(nodes, successors, Elements(iteration[..i]))
    {
      var id := iteration[i];
      ghost var visited := Elements(iteration[..i]);
      assert id in Elements(iteration) && id !in visited;
      indeg := indeg[id := |nodes[id]|];
      ghost var was := successors;
      successors := AddSuccessors(successors, id, nodes[id]);
      InvertsStep(nodes, was, successors, visited, id);
      assert Elements(iteration[..i + 1]) == visited + {id};
    }
    assert iteration[..|iteration|] == iteration;
  }

  lemma InvertsStep(g: Graph, before: map<Id, seq<Id>>, after: map<Id, seq<Id>>, visited: set<Id>, id: Id)
    requires Inverts(g, before, visited) && id in g && id !in visited
    requires forall d, x :: Occurrences(Get(after, d), x)
                            == Occurrences(Get(before, d), x) + if x == id then Occurrences(g[id], d) else 0
    ensures Inverts(g, after, visited + {id})
  {
  }

  /** What the in-degrees count after decrementing the first j successors. */
  ghost predicate Counts(g: Graph, done: set<Id>, succs: seq<Id>, j: nat, indeg: map<Id, int>)
    requires j <= |succs|
  {
    indeg.Keys == g.Keys && forall x :: x in g ==> indeg[x] == Pending(g[x], done) + Occurrences(succs[j..], x)
  }

  lemma CountsStep(g: Graph, done: set<Id>, succs: seq<Id>, j: nat, indeg: map<Id, int>)
    requires j < |succs| && succs[j] in g && Counts(g, done, succs, j, indeg)
    ensures succs[j] in indeg && indeg[succs[j]] > 0
    ensures Counts(g, done, succs, j + 1, indeg[succs[j] := indeg[succs[j]] - 1])
  {
    assert succs[j..] == [succs[j]] + succs[j + 1..];
    SplitOccurrences(succs[j], succs[j + 1..]);
  }

  /** freed lists, in order, those of the first j successors that have reached zero. */
  ghost predicate Freed(succs: seq<Id>, j: nat, indeg: map<Id, int>, freed: seq<Id>)
    requires j <= |succs|
  {
    StrictlySorted(freed) && forall x :: x in freed <==> x in succs[..j] && x in indeg && indeg[x] == 0
  }

  lemma FreedStep(succs: seq<Id>, j: nat, indeg: map<Id, int>, freed: seq<Id>, n: int)
    requires j < |succs| && Sorted(succs)
    requires succs[j] in indeg && indeg[succs[j]] > 0
    requires Freed(succs, j, indeg, freed)
    ensures Freed(succs, j + 1, indeg[succs[j] := n], if n == 0 then freed + [succs[j]] else freed)
  {
    assert succs[..j + 1] == succs[..j] + [succs[j]];
    assert succs[j] !in freed;
    ExtendSorted(succs, j, freed);
  }

  /** Decrements every successor of id and queues those that reach zero. */
  method Release(g: Graph, ids: seq<Id>, id: Id, succs: seq<Id>, indegBefore: map<Id, int>, readyBefore: seq<Id>,
                 ghost done: set<Id>)
    returns (indeg: map<Id, int>, ready: seq<Id>)
    requires StrictlySorted(ids) && Elements(ids) == g.Keys && id !in done
    requires Sorted(succs) && forall x :: Occurrences(succs, x) == if x in g then Occurrences(g[x], id) else 0
    requires indegBefore.Keys == g.Keys && forall x :: x in g ==> indegBefore[x] == Pending(g[x], done)
    ensures indeg.Keys == g.Keys && forall x :: x in g ==> indeg[x] == Pending(g[x], done + {id})
    ensures ready == readyBefore + Released(g, ids, done, id)
  {
    hide Counts, Freed, Released, Pending;
    indeg, ready := indegBefore, readyBefore;
    ghost var freed: seq<Id> := [];
    StartCounts(g, done, id, succs, indeg);
    for j := 0 to |succs|
      invariant ready == readyBefore + freed
      invariant Counts(g, done + {id}, succs, j, indeg)
      invariant Freed(succs, j, indeg, freed)
    {
      var succ := succs[j];
      assert Occurrences(succs, succ) > 0;
      CountsStep(g, done + {id}, succs, j, indeg);
      FreedStep(succs, j, indeg, freed, indeg[succ] - 1);
      indeg := indeg[succ := indeg[succ] - 1];
      if indeg[succ] == 0 {
        ready := ready + [succ];
        freed := freed + [succ];
      }
    }
    FreedAreReleased(g, ids, id, succs, done, indeg, freed);
  }

  lemma StartCounts(g: Graph, done: set<Id>, id: Id, succs: seq<Id>, indeg: map<Id, int>)
    requires id !in done
    requires forall x :: Occurrences(succs, x) == if x in g then Occurrences(g[x], id) else 0
    requires indeg.Keys == g.Keys && forall x :: x in g ==> indeg[x] == Pending(g[x], done)
    ensures Counts(g, done + {id}, succs, 0, indeg) && Freed(succs, 0, indeg, [])
  {
    assert succs[0..] == succs;
    forall x | x in g { PendingDone(g[x], done, id); }
  }

  lemma ExtendSorted(succs: seq<Id>, j: nat, freed: seq<Id>)
    requires Sorted(succs) && j < |succs|
    requires StrictlySorted(freed)
    requires forall x :: x in freed ==> x in succs[..j]
    ensures succs[j] !in freed ==> StrictlySorted(freed + [succs[j]])
  {
    forall k | 0 <= k < |freed|
      ensures freed[k].rank <= succs[j].rank
    {
      assert freed[k] in freed;
      assert freed[k] in succs[..j];
    }
  }

  lemma SplitOccurrences(x: Id, rest: seq<Id>)
    ensures forall y :: Occurrences([x] + rest, y) == Occurrences(rest, y) + if y == x then 1 else 0
  {
  }

  lemma FreedAreReleased(g: Graph, ids: seq<Id>, id: Id, succs: seq<Id>, done: set<Id>, indeg: map<Id, int>,
                         freed: seq<Id>)
    requires StrictlySorted(ids) && Elements(ids) == g.Keys
    requires forall x :: Occurrences(succs, x) == if x in g then Occurrences(g[x], id) else 0
    requires Counts(g, done + {id}, succs, |succs|, indeg) && Freed(succs, |succs|, indeg, freed)
    ensures indeg.Keys == g.Keys && forall x :: x in g ==> indeg[x] == Pending(g[x], done + {id})
    ensures freed == Released(g, ids, done, id)
  {
    assert succs[..|succs|] == succs && succs[|succs|..] == [];
    SelectSorted(ids, x => IsReleased(g, done, id, x));
    forall x
      ensures x in freed <==> x in ids && IsReleased(g, done, id, x)
    {
      assert x in succs <==> Occurrences(succs, x) > 0;
      assert x in ids <==> x in Elements(ids);
      if x in g {
        assert id in g[x] <==> Occurrences(g[x], id) > 0;
        PendingZero(g[x], done + {id});
      }
    }
    SortedListUnique(freed, Released(g, ids, done, id));
  }

  // ---- the main loop ----

  /** Between two iterations: what has been output, what is queued, and what the in-degrees say about the rest. */
  ghost predicate LoopState(g: Graph, ids: seq<Id>, indeg: map<Id, int>, out: seq<Id>, ready: seq<Id>) {
    && indeg.Keys == g.Keys
    && (forall x :: x in g ==> indeg[x] == Pending(g[x], Elements(out)))
    && NoDuplicates(out + ready)
    && (forall x :: x in out + ready <==> x in g && indeg[x] == 0)
    && out + ready == Queued(g, ids, out)
    && InOrder(g, ids, out)
  }

  ghost predicate InOrder(g: Graph, ids: seq<Id>, out: seq<Id>) {
    && (forall k :: 0 <= k < |out| ==> TakesNext(g, ids, out, k))
    && (forall i, d :: 0 <= i < |out| && d in Get(g, out[i]) ==> d in out[..i])
  }

  lemma InOrderStep(g: Graph, ids: seq<Id>, out: seq<Id>, ready: seq<Id>)
    requires InOrder(g, ids, out) && ready != [] && Queued(g, ids, out) == out + ready
    requires forall d :: d in Get(g, ready[0]) ==> d in Elements(out)
    ensures InOrder(g, ids, out + [ready[0]])
  {
    var out' := out + [ready[0]];
    assert out'[..|out|] == out;
    forall k | 0 <= k < |out'|
      ensures TakesNext(g, ids, out', k)
    {
      assert out'[..k] == out[..k];
      if k < |out| {
        assert TakesNext(g, ids, out, k);
      }
    }
    forall i, d | 0 <= i < |out'| && d in Get(g, out'[i])
      ensures d in out'[..i]
    {
      assert out'[..i] == out[..i];
      if i == |out| {
        assert d in Elements(out);
      } else {
        assert out'[i] == out[i];
      }
    }
  }

  lemma RootsAreRoots(g: Graph, ids: seq<Id>)
    requires StrictlySorted(ids) && Elements(ids) == g.Keys
    ensures NoDuplicates(Roots(g, ids))
    ensures forall x :: x in Roots(g, ids) <==> x in g && g[x] == []
  {
    hide Sorted, NoDuplicates, Select;
    SelectSorted(ids, x => x in g && g[x] == []);
    forall x
      ensures x in Roots(g, ids) <==> x in g && g[x] == []
    {
      assert x in Roots(g, ids) <==> x in Elements(Roots(g, ids));
      assert x in ids <==> x in Elements(ids);
    }
  }

  lemma StartState(g: Graph, ids: seq<Id>, indeg: map<Id, int>)
    requires StrictlySorted(ids) && Elements(ids) == g.Keys
    requires indeg.Keys == g.Keys && forall x :: x in g ==> indeg[x] == |g[x]|
    ensures LoopState(g, ids, indeg, [], Roots(g, ids))
  {
    hide StrictlySorted, Roots, NoDuplicates, Pending;
    RootsAreRoots(g, ids);
    assert [] + Roots(g, ids) == Roots(g, ids);
    assert Elements<Id>([]) == {};
    forall x | x in g ensures Pending(g[x], {}) == |g[x]| { NothingDone(g[x]); }
  }

  lemma NothingDone(deps: seq<Id>)
    ensures Pending(deps, {}) == |deps|
  {
    PendingZero(deps, {});
  }

  lemma ReadyHasNoPending(g: Graph, ids: seq<Id>, indeg: map<Id, int>, out: seq<Id>, ready: seq<Id>)
    requires LoopState(g, ids, indeg, out, ready) && ready != []
    ensures ready[0] in g && ready[0] !in Elements(out)
    ensures forall d :: d in g[ready[0]] ==> d in Elements(out)
    ensures |out| < |g.Keys|
  {
    assert (out + ready)[|out|] == ready[0];
    forall i | 0 <= i < |out| ensures out[i] != ready[0] { assert (out + ready)[i] == out[i]; }
    assert ready[0] in out + ready;
    PendingZero(g[ready[0]], Elements(out));
    var s := out + [ready[0]];
    assert forall i :: 0 <= i < |s| ==> s[i] == (out + ready)[i];
    DistinctLength(s);
    assert Elements(s) <= g.Keys by {
      forall x | x in s ensures x in g { assert x in out + ready; }
    }
    SubsetLength(Elements(s), g.Keys);
  }

  lemma {:induction false} SubsetLength<T>(a: set<T>, b: set<T>)
    requires a <= b
    ensures |a| <= |b|
  {
    if a != {} {
      var x :| x in a;
      SubsetLength(a - {x}, b - {x});
    }
  }

  lemma ReadyAfterRelease(g: Graph, ids: seq<Id>, indeg: map<Id, int>, out: seq<Id>, ready: seq<Id>,
                          indeg': map<Id, int>)
    requires LoopState(g, ids, indeg, out, ready) && ready != []
    requires StrictlySorted(ids) && Elements(ids) == g.Keys
    requires indeg'.Keys == g.Keys && forall x :: x in g ==> indeg'[x] == Pending(g[x], Elements(out) + {ready[0]})
    ensures var freed := Released(g, ids, Elements(out), ready[0]);
            && NoDuplicates(out + ready + freed)
            && forall x :: x in out + ready + freed <==> x in g && indeg'[x] == 0
  {
    hide InOrder, Queued, NoDuplicates;
    var done, id := Elements(out), ready[0];
    var freed := Released(g, ids, done, id);
    SelectSorted(ids, x => IsReleased(g, done, id, x));
    ReadyHasNoPending(g, ids, indeg, out, ready);
    forall x
      ensures x in freed ==> x !in out + ready
      ensures x in out + ready + freed <==> x in g && indeg'[x] == 0
    {
      assert x in freed <==> x in Elements(freed);
      assert x in ids <==> x in Elements(ids);
      if x in g {
        PendingZero(g[x], done);
        PendingZero(g[x], done + {id});
      }
    }
    ConcatDistinct(out + ready, freed);
  }

  lemma ConcatDistinct(a: seq<Id>, b: seq<Id>)
    requires NoDuplicates(a) && NoDuplicates(b) && forall x :: x in b ==> x !in a
    ensures NoDuplicates(a + b)
  {
    forall i, j | 0 <= i < |a| <= j < |a + b|
      ensures (a + b)[i] != (a + b)[j]
    {
      assert a[i] in a && b[j - |a|] in b;
    }
  }

  /** The queue after an iteration is the one the order of releases prescribes. */
  lemma QueueStep(g: Graph, ids: seq<Id>, out: seq<Id>, ready: seq<Id>)
    requires ready != [] && out + ready == Queued(g, ids, out)
    ensures var freed := Released(g, ids, Elements(out), ready[0]); var out' := out + [ready[0]];
      && out' + (ready[1..] + freed) == out + ready + freed
      && Elements(out') == Elements(out) + {ready[0]}
      && out' + (ready[1..] + freed) == Queued(g, ids, out')
  {
    hide Released, Roots, NoDuplicates;
    var id, out' := ready[0], out + [ready[0]];
    var freed := Released(g, ids, Elements(out), id);
    assert out' + (ready[1..] + freed) == out + ready + freed;
    assert Elements(out') == Elements(out) + {id};
    assert out'[..|out|] == out;
  }

  lemma LoopStep(g: Graph, ids: seq<Id>, indeg: map<Id, int>, out: seq<Id>, ready: seq<Id>, indeg': map<Id, int>)
    requires LoopState(g, ids, indeg, out, ready) && ready != []
    requires StrictlySorted(ids) && Elements(ids) == g.Keys
    requires indeg'.Keys == g.Keys && forall x :: x in g ==> indeg'[x] == Pending(g[x], Elements(out) + {ready[0]})
    ensures LoopState(g, ids, indeg', out + [ready[0]], ready[1..] + Released(g, ids, Elements(out), ready[0]))
  {
    hide Released, Roots, NoDuplicates, Pending, InOrder, Queued, Elements, StrictlySorted;
    ReadyAfterRelease(g, ids, indeg, out, ready, indeg');
    ReadyHasNoPending(g, ids, indeg, out, ready);
    InOrderStep(g, ids, out, ready);
    QueueStep(g, ids, out, ready);
  }

  lemma Finish(g: Graph, ids: seq<Id>, indeg: map<Id, int>, out: seq<Id>)
    requires LoopState(g, ids, indeg, out, [])
    ensures |out| == |g.Keys| ==> IsTopologicalOrder(g, out) && IsKahnOrder(g, ids, out)
    ensures |out| != |g.Keys| ==> !(Closed(g) && Acyclic(g))
  {
    assert out + [] == out;
    DistinctLength(out);
    var stuck := g.Keys - Elements(out);
    forall x | x in out ensures x in g { assert x in out + []; }
    if stuck == {} {
      assert Elements(out) == g.Keys by {
        forall x | x in g ensures x in Elements(out) { assert x !in stuck; }
      }
    } else {
      assert |out| != |g.Keys| by {
        SubsetLength(Elements(out), g.Keys);
        assert |stuck| == |g.Keys| - |Elements(out)|;
      }
      if Closed(g) {
        forall x | x in stuck
          ensures Waits(g, x, stuck)
        {
          PendingZero(g[x], Elements(out));
          var d :| d in g[x] && d !in Elements(out);
          assert DependsOn(g, x, d);
        }
        StuckSetHasCycle(g, stuck);
      }
    }
  }

  lemma {:induction false} SelectSnoc(ids: seq<Id>, x: Id, keep: Id -> bool)
    ensures Select(ids + [x], keep) == Select(ids, keep) + if keep(x) then [x] else []
  {
    if ids != [] {
      assert (ids + [x])[1..] == ids[1..] + [x];
      SelectSnoc(ids[1..], x, keep);
    }
  }

  method InitialReady(g: Graph, ids: seq<Id>, indeg: map<Id, int>) returns (ready: seq<Id>)
    requires Elements(ids) == g.Keys
    requires indeg.Keys == g.Keys && forall x :: x in g ==> indeg[x] == |g[x]|
    ensures ready == Roots(g, ids)
  {
    ready := [];
    ghost var isRoot := x => x in g && g[x] == [];
    for i := 0 to |ids|
      invariant ready == Select(ids[..i], isRoot)
    {
      assert ids[i] in Elements(ids);
      assert ids[..i + 1] == ids[..i] + [ids[i]];
      SelectSnoc(ids[..i], ids[i], isRoot);
      if indeg[ids[i]] == 0 {
        ready := ready + [ids[i]];
      }
    }
    assert ids[..|ids|] == ids;
  }

  /** The nodes in dependency order, or None when there is a cycle. The order in which Go's map
      iteration happens to visit the nodes is the parameter iteration. */
  method TopoSort(nodes: Graph, iteration: seq<Id>) returns (r: Option<seq<Id>>)
    requires NoDuplicates(iteration) && Elements(iteration) == nodes.Keys
    ensures r.Some? <==> Closed(nodes) && Acyclic(nodes)
    ensures r.Some? ==> IsTopologicalOrder(nodes, r.value)
    ensures r.Some? ==> IsKahnOrder(nodes, SortStrings(iteration), r.value)
  {
    hide IsKahnOrder, Closed, Acyclic, Released, Sorted, NoDuplicates, Pending, Roots, Inverts;
    var indeg, successors := CountEdges(nodes, iteration);
    var ids := SortStrings(iteration);
    SortKeepsDistinct(iteration);
    ghost var unsorted := successors;
    successors := map d | d in successors :: SortStrings(successors[d]);
    var ready := InitialReady(nodes, ids, indeg);
    StartState(nodes, ids, indeg);
    var out: seq<Id> := [];
    while ready != []
      invariant LoopState(nodes, ids, indeg, out, ready)
      decreases |nodes.Keys| - |out|
    {
      var id := ready[0];
      ReadyHasNoPending(nodes, ids, indeg, out, ready);
      InverseOf(nodes, unsorted, id);
      SortedSuccessors(nodes, Get(unsorted, id), id);
      assert Get(successors, id) == SortStrings(Get(unsorted, id));
      ghost var was := indeg;
      ghost var ready0 := ready;
      indeg, ready := Release(nodes, ids, id, Get(successors, id), indeg, ready[1..], Elements(out));
      LoopStep(nodes, ids, was, out, ready0, indeg);
      out := out + [id];
    }
    Finish(nodes, ids, indeg, out);
    if |out| != |nodes| {
      return None;
    }
    OrderedGraphIsAcyclic(nodes, out);
    return Some(out);
  }

  lemma SortedSuccessors(g: Graph, plain: seq<Id>, id: Id)
    requires forall x :: Occurrences(plain, x) == if x in g then Occurrences(g[x], id) else 0
    ensures Sorted(SortStrings(plain))
    ensures forall x :: Occurrences(SortStrings(plain), x) == if x in g then Occurrences(g[x], id) else 0
  {
    var sorted := SortStrings(plain);
    assert multiset(sorted) == multiset(plain);
    forall x
      ensures Occurrences(sorted, x) == if x in g then Occurrences(g[x], id) else 0
    {
      assert Occurrences(sorted, x) == Occurrences(plain, x);
    }
  }

  lemma InverseOf(g: Graph, successors: map<Id, seq<Id>>, id: Id)
    requires Inverts(g, successors, g.Keys)
    ensures forall x :: Occurrences(Get(successors, id), x) == if x in g then Occurrences(g[x], id) else 0
  {
  }

  /** Two runs over the same nodes agree, however their maps were iterated. */
  lemma IterationOrderIrrelevant(nodes: Graph, iteration1: seq<Id>, iteration2: seq<Id>, a: seq<Id>, b: seq<Id>)
    requires NoDuplicates(iteration1) && Elements(iteration1) == nodes.Keys
    requires NoDuplicates(iteration2) && Elements(iteration2) == nodes.Keys
    requires IsKahnOrder(nodes, SortStrings(iteration1), a)
    requires IsKahnOrder(nodes, SortStrings(iteration2), b)
    ensures a == b
  {
    SortKeepsDistinct(iteration1);
    SortKeepsDistinct(iteration2);
    SortedListUnique(SortStrings(iteration1), SortStrings(iteration2));
    KahnOrderUnique(nodes, SortStrings(iteration1), a, b);
  }
}
