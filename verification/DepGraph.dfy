/** Dependency graphs: every node lists the nodes it depends on (duplicates allowed,
    and a dependency need not be a node). Shared by the planner and the subtask loop. */
module DepGraph {

  /** A ULID, as the number its text encodes: the texts sort as the numbers do.
      Rank zero is the empty string, Go's zero value, which sorts first. */
  datatype Id = Id(rank: nat)

  type Graph = map<Id, seq<Id>>

  ghost function Elements<T>(s: seq<T>): set<T> {
    set x | x in s
  }

  ghost predicate NoDuplicates<T>(s: seq<T>) {
    forall i, j :: 0 <= i < j < |s| ==> s[i] != s[j]
  }

  /** Every dependency is itself a node. */
  ghost predicate Closed(g: Graph) {
    forall x, d :: x in g && d in g[x] ==> d in g
  }

  ghost predicate DependsOn(g: Graph, x: Id, d: Id) {
    x in g && d in g[x]
  }

  /** p walks from each node to one of its dependencies. */
  ghost predicate IsWalk(g: Graph, p: seq<Id>) {
    forall i, j :: 0 <= i && j == i + 1 && j < |p| ==> DependsOn(g, p[i], p[j])
  }

  ghost predicate IsCycle(g: Graph, p: seq<Id>) {
    |p| >= 2 && p[0] == p[|p| - 1] && IsWalk(g, p)
  }

  ghost predicate Acyclic(g: Graph) {
    !exists p :: IsCycle(g, p)
  }

  /** s lists every node exactly once, each one after all of its dependencies. */
  ghost predicate IsTopologicalOrder(g: Graph, s: seq<Id>) {
    && NoDuplicates(s)
    && Elements(s) == g.Keys
    && forall i, d :: 0 <= i < |s| && d in g[s[i]] ==> d in s[..i]
  }

  // ---- a set in which nobody is free contains a cycle ----

  ghost predicate Waits(g: Graph, x: Id, stuck: set<Id>) {
    exists d :: d in stuck && DependsOn(g, x, d)
  }

  /** Every member of the set depends on some member of the set. */
  ghost predicate Stuck(g: Graph, stuck: set<Id>) {
    forall x {:trigger Waits(g, x, stuck)} :: x in stuck ==> Waits(g, x, stuck)
  }

  lemma {:induction false} WalkFrom(g: Graph, stuck: set<Id>, start: Id, n: nat) returns (p: seq<Id>)
    requires Stuck(g, stuck) && start in stuck
    ensures |p| == n + 1 && IsWalk(g, p)
    ensures forall i :: 0 <= i < |p| ==> p[i] in stuck
  {
    p := [start];
    while |p| < n + 1
      invariant 1 <= |p| <= n + 1 && IsWalk(g, p)
      invariant forall i :: 0 <= i < |p| ==> p[i] in stuck
    {
      var last := p[|p| - 1];
      assert Waits(g, last, stuck);
      var d :| d in stuck && DependsOn(g, last, d);
      p := p + [d];
    }
  }

  lemma {:induction false} Pigeonhole(p: seq<Id>, holes: set<Id>) returns (i: nat, j: nat)
    requires |p| > |holes|
    requires forall k :: 0 <= k < |p| ==> p[k] in holes
    ensures i < j < |p| && p[i] == p[j]
  {
    var n := |p| - 1;
    if k :| 0 <= k < n && p[k] == p[n] {
      i, j := k, n;
    } else {
      i, j := Pigeonhole(p[..n], holes - {p[n]});
    }
  }

  lemma StuckSetHasCycle(g: Graph, stuck: set<Id>)
    requires stuck != {} && Stuck(g, stuck)
    ensures !Acyclic(g)
  {
    var start :| start in stuck;
    var p := WalkFrom(g, stuck, start, |stuck|);
    var i, j := Pigeonhole(p, stuck);
    var cycle := p[i..j + 1];
    assert IsWalk(g, cycle);
    assert IsCycle(g, cycle);
  }

  // ---- a topological order rules cycles out ----

  /** A walk of k steps leaves its start at least k places behind. */
  lemma {:induction false} WalkDescends(g: Graph, s: seq<Id>, p: seq<Id>, k: nat) returns (at: nat, here: nat)
    requires IsTopologicalOrder(g, s) && IsWalk(g, p) && k < |p| && |p| > 1
    ensures at < |s| && here < |s| && s[at] == p[0] && s[here] == p[k] && here + k <= at
  {
    if k == 0 {
      assert DependsOn(g, p[0], p[1]);
      assert p[0] in Elements(s);
      at :| 0 <= at < |s| && s[at] == p[0];
      here := at;
    } else {
      var prev;
      at, prev := WalkDescends(g, s, p, k - 1);
      assert DependsOn(g, p[k - 1], p[k]);
      assert p[k] in s[..prev];
      here :| 0 <= here < prev && s[here] == p[k];
    }
  }

  lemma OrderedGraphIsAcyclic(g: Graph, s: seq<Id>)
    requires IsTopologicalOrder(g, s)
    ensures Acyclic(g) && Closed(g)
  {
    forall p | IsCycle(g, p)
      ensures false
    {
      var at, here := WalkDescends(g, s, p, |p| - 1);
    }
    forall x, d | x in g && d in g[x]
      ensures d in g
    {
      assert x in Elements(s);
      var i :| 0 <= i < |s| && s[i] == x;
      assert d in s[..i];
      assert d in Elements(s);
    }
  }

  /** A list without repetitions is as long as its set of elements. */
  lemma {:induction false} DistinctLength<T>(s: seq<T>)
    requires NoDuplicates(s)
    ensures |Elements(s)| == |s|
  {
    if s == [] {
      assert Elements(s) == {};
    } else {
      var n := |s| - 1;
      DistinctLength(s[..n]);
      assert Elements(s) == Elements(s[..n]) + {s[n]};
      assert s[n] !in Elements(s[..n]);
    }
  }
}
