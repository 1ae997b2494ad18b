/** The subtask table, which hands a plan from the planner to the subtask loop
    (sidecar/internal/store/subtask_store.go). */
module SubtaskStore {
  import opened Text
  import opened DepGraph
  import opened Planner
  import opened PlanTheorems

  datatype StoreError =
    | NoParent | WrongParent
    | NoId | NoTaskId | NoTitle | EmptyDependency | OwnDependency
    | DuplicateKey | NotFound

  // ---- row checks ----

  function DependencyFault(sub: Subtask, n: nat): Option<StoreError>
    requires n <= |sub.dependsOn|
  {
    if n == 0 then None
    else if DependencyFault(sub, n - 1).Some? then DependencyFault(sub, n - 1)
    else if sub.dependsOn[n - 1] == Id(0) then Some(EmptyDependency)
    else if sub.dependsOn[n - 1] == sub.id then Some(OwnDependency)
    else None
  }

  function SubtaskFault(sub: Subtask): Option<StoreError> {
    if sub.id == Id(0) then Some(NoId)
    else if sub.taskId == "" then Some(NoTaskId)
    else if sub.title == "" then Some(NoTitle)
    else DependencyFault(sub, |sub.dependsOn|)
  }

  ghost predicate IsStorable(sub: Subtask) {
    && sub.id != Id(0) && sub.taskId != "" && sub.title != ""
    && forall d :: d in sub.dependsOn ==> d != Id(0) && d != sub.id
  }

  lemma {:induction false} DependencyFaultIff(sub: Subtask, n: nat)
    requires n <= |sub.dependsOn|
    ensures DependencyFault(sub, n) == None <==>
      forall i :: 0 <= i < n ==> sub.dependsOn[i] != Id(0) && sub.dependsOn[i] != sub.id
  {
    if n > 0 {
      DependencyFaultIff(sub, n - 1);
    }
  }

  lemma SubtaskFaultIff(sub: Subtask)
    ensures SubtaskFault(sub) == None <==> IsStorable(sub)
  {
    DependencyFaultIff(sub, |sub.dependsOn|);
    assert forall i :: 0 <= i < |sub.dependsOn| ==> sub.dependsOn[i] in sub.dependsOn;
  }

  // ---- rounds ----

  /** COALESCE(MAX(round), 0) over the first n rows of the task. */
  function MaxRound(rows: seq<Subtask>, parent: string, n: nat): int
    requires n <= |rows|
  {
    if n == 0 then 0
    else
      var m := MaxRound(rows, parent, n - 1);
      if rows[n - 1].taskId == parent && (!HasRow(rows, parent, n - 1) || rows[n - 1].round > m) then rows[n - 1].round
      else m
  }

  predicate HasRow(rows: seq<Subtask>, parent: string, n: nat)
    requires n <= |rows|
  {
    exists i :: 0 <= i < n && rows[i].taskId == parent
  }

  function InsertByOrder(sorted: seq<Subtask>, sub: Subtask): seq<Subtask> {
    if sorted == [] || sorted[|sorted| - 1].orderIdx <= sub.orderIdx then sorted + [sub]
    else InsertByOrder(sorted[..|sorted| - 1], sub) + [sorted[|sorted| - 1]]
  }

  /** The rows of one round among the first n, ordered by order_idx. */
  function RoundRows(rows: seq<Subtask>, parent: string, round: int, n: nat): seq<Subtask>
    requires n <= |rows|
  {
    if n == 0 then []
    else
      var before := RoundRows(rows, parent, round, n - 1);
      if rows[n - 1].taskId == parent && rows[n - 1].round == round then InsertByOrder(before, rows[n - 1]) else before
  }

  function LatestRound(rows: seq<Subtask>, parent: string): seq<Subtask> {
    RoundRows(rows, parent, MaxRound(rows, parent, |rows|), |rows|)
  }

  /** Every row comes no later than those with a higher place. */
  ghost predicate InExecutionOrder(subs: seq<Subtask>) {
    forall i, j :: 0 <= i < j < |subs| ==> subs[i].orderIdx <= subs[j].orderIdx
  }

  lemma {:induction false} InsertKeepsRows(sorted: seq<Subtask>, sub: Subtask, x: Subtask)
    ensures x in InsertByOrder(sorted, sub) <==> x in sorted || x == sub
    decreases |sorted|
  {
    if sorted != [] && sorted[|sorted| - 1].orderIdx > sub.orderIdx {
      InsertKeepsRows(sorted[..|sorted| - 1], sub, x);
      assert sorted == sorted[..|sorted| - 1] + [sorted[|sorted| - 1]];
    }
  }

  lemma {:induction false} InsertKeepsOrder(sorted: seq<Subtask>, sub: Subtask)
    requires InExecutionOrder(sorted)
    ensures InExecutionOrder(InsertByOrder(sorted, sub))
    decreases |sorted|
  {
    if sorted != [] && sorted[|sorted| - 1].orderIdx > sub.orderIdx {
      var rest, last := sorted[..|sorted| - 1], sorted[|sorted| - 1];
      InsertKeepsOrder(rest, sub);
      var inserted := InsertByOrder(rest, sub);
      forall i | 0 <= i < |inserted| ensures inserted[i].orderIdx <= last.orderIdx {
        InsertKeepsRows(rest, sub, inserted[i]);
        assert inserted[i] in inserted;
      }
    }
  }

  lemma {:induction false} InsertKeepsDistinct(sorted: seq<Subtask>, sub: Subtask)
    requires NoDuplicates(sorted) && sub !in sorted
    ensures NoDuplicates(InsertByOrder(sorted, sub))
    decreases |sorted|
  {
    if sorted != [] && sorted[|sorted| - 1].orderIdx > sub.orderIdx {
      var rest, last := sorted[..|sorted| - 1], sorted[|sorted| - 1];
      InsertKeepsDistinct(rest, sub);
      InsertKeepsRows(rest, sub, last);
    }
  }

  /** x is one of the first n rows, of this task and round. */
  ghost predicate IsOfRound(rows: seq<Subtask>, parent: string, round: int, n: nat, x: Subtask)
    requires n <= |rows|
  {
    x.taskId == parent && x.round == round && x in rows[..n]
  }

  lemma {:induction false} RoundRowsAre(rows: seq<Subtask>, parent: string, round: int, n: nat)
    requires n <= |rows|
    ensures InExecutionOrder(RoundRows(rows, parent, round, n))
    ensures forall x :: x in RoundRows(rows, parent, round, n) <==> IsOfRound(rows, parent, round, n, x)
    ensures NoDuplicates(rows) ==> NoDuplicates(RoundRows(rows, parent, round, n))
  {
    hide InsertByOrder, InExecutionOrder;
    if n == 0 {
      assert InExecutionOrder([]) by { NoRowsInOrder(); }
    } else {
      RoundRowsAre(rows, parent, round, n - 1);
      var before, row := RoundRows(rows, parent, round, n - 1), rows[n - 1];
      assert rows[..n] == rows[..n - 1] + [row];
      if row.taskId == parent && row.round == round {
        InsertKeepsOrder(before, row);
        forall x ensures x in InsertByOrder(before, row) <==> x in before || x == row {
          InsertKeepsRows(before, row, x);
        }
        if NoDuplicates(rows) {
          assert row !in rows[..n - 1];
          InsertKeepsDistinct(before, row);
        }
      }
    }
  }

  lemma NoRowsInOrder()
    ensures InExecutionOrder([])
  {
  }

  function Stamped(subs: seq<Subtask>, round: int): seq<Subtask> {
    seq(|subs|, i requires 0 <= i < |subs| => subs[i].(round := round))
  }

  // ---- the table ----

  ghost predicate Fresh(rows: seq<Subtask>, id: Id) {
    forall i :: 0 <= i < |rows| ==> rows[i].id != id
  }

  /** The plan passes every check of CreatePlan. */
  ghost predicate CanCreate(rows: seq<Subtask>, parent: string, subs: seq<Subtask>) {
    && parent != ""
    && (forall i :: 0 <= i < |subs| ==> subs[i].taskId == parent && IsStorable(subs[i]))
    && (forall i :: 0 <= i < |subs| ==> Fresh(rows, subs[i].id))
    && NoDuplicates(Ids(subs))
  }

  method IdTaken(table: seq<Subtask>, id: Id) returns (taken: bool)
    ensures taken <==> !Fresh(table, id)
  {
    for i := 0 to |table|
      invariant Fresh(table[..i], id)
    {
      if table[i].id == id {
        return true;
      }
    }
    assert table[..|table|] == table;
    taken := false;
  }

  method CheckRows(parent: string, subs: seq<Subtask>) returns (fault: Option<StoreError>)
    ensures fault == None <==> forall i :: 0 <= i < |subs| ==> subs[i].taskId == parent && IsStorable(subs[i])
  {
    hide SubtaskFault, IsStorable;
    for i := 0 to |subs|
      invariant forall k :: 0 <= k < i ==> subs[k].taskId == parent && IsStorable(subs[k])
    {
      if subs[i].taskId != parent {
        return Some(WrongParent);
      }
      SubtaskFaultIff(subs[i]);
      fault := SubtaskFault(subs[i]);
      if fault.Some? {
        return;
      }
    }
    fault := None;
  }

  /** The insertions of one transaction, stopping at a primary-key clash. */
  method InsertRows(table: seq<Subtask>, subs: seq<Subtask>, round: int) returns (tx: Option<seq<Subtask>>)
    requires NoDuplicates(Ids(table))
    ensures tx.Some? <==> (forall i :: 0 <= i < |subs| ==> Fresh(table, subs[i].id)) && NoDuplicates(Ids(subs))
    ensures tx.Some? ==> tx.value == table + Stamped(subs, round) && NoDuplicates(Ids(tx.value))
  {
    hide Fresh, NoDuplicates, Stamped, Ids;
    var pending := table;
    assert pending == table + Stamped([], round) by { StampedNothing(round); }
    assert NoDuplicates(Ids(subs[..0])) by {
      StampedNothing(round);
      assert subs[..0] == [];
    }
    for i := 0 to |subs|
      invariant pending == table + Stamped(subs[..i], round)
      invariant NoDuplicates(Ids(pending)) && NoDuplicates(Ids(subs[..i]))
      invariant forall k :: 0 <= k < i ==> Fresh(table, subs[k].id)
    {
      var taken := IdTaken(pending, subs[i].id);
      TakenMeans(table, subs, round, i, pending);
      if taken {
        return None;
      }
      InsertKeeps(pending, subs[i].(round := round));
      InsertKeeps(subs[..i], subs[i]);
      StampedSnoc(subs, round, i);
      pending := pending + [subs[i].(round := round)];
    }
    assert subs[..|subs|] == subs;
    tx := Some(pending);
  }

  lemma StampedNothing(round: int)
    ensures Stamped([], round) == [] && NoDuplicates(Ids([]))
  {
  }

  class SubtaskTable {
    var rows: seq<Subtask>

    /** id is the primary key. */
    ghost predicate Valid()
      reads this
    {
      NoDuplicates(Ids(rows))
    }

    constructor ()
      ensures Valid() && rows == []
    {
      rows := [];
    }

    /** All the subtasks of a plan as a new round, or none of them. */
    method CreatePlan(parent: string, subs: seq<Subtask>) returns (r: Result<int, StoreError>)
      requires Valid()
      modifies this
      ensures Valid()
      ensures r.Ok? <==> CanCreate(old(rows), parent, subs)
      ensures r.Ok? ==>
        r.value == MaxRound(old(rows), parent, |old(rows)|) + 1 && rows == old(rows) + Stamped(subs, r.value)
      ensures r.Err? ==> rows == old(rows)
    {
      hide IsStorable, MaxRound, Fresh, NoDuplicates, Stamped, Ids;
      if parent == "" {
        return Err(NoParent);
      }
      var fault := CheckRows(parent, subs);
      if fault.Some? {
        return Err(fault.value);
      }
      var round := MaxRound(rows, parent, |rows|) + 1;
      var tx := InsertRows(rows, subs, round);
      if tx.None? {
        return Err(DuplicateKey);
      }
      rows := tx.value;
      r := Ok(round);
    }

    /** The rows of a task's highest round, all of them and each once, by their places, however they were inserted. */
    method ListLatestRound(parent: string) returns (out: seq<Subtask>)
      requires Valid()
      ensures out == LatestRound(rows, parent)
      ensures InExecutionOrder(out) && NoDuplicates(out)
      ensures forall x :: x in out <==>
        x in rows && x.taskId == parent && x.round == MaxRound(rows, parent, |rows|)
    {
      hide InExecutionOrder, RoundRows, MaxRound;
      out := LatestRound(rows, parent);
      RoundRowsAre(rows, parent, MaxRound(rows, parent, |rows|), |rows|);
      assert rows[..|rows|] == rows;
      DistinctRows(rows);
    }

    /** Overwrites a row, except its task and its round. */
    method Update(sub: Subtask) returns (fault: Option<StoreError>)
      requires Valid()
      modifies this
      ensures Valid() && |rows| == |old(rows)|
      ensures fault == None <==> IsStorable(sub) && !Fresh(old(rows), sub.id)
      ensures forall i :: 0 <= i < |rows| ==>
        rows[i] == if fault == None && old(rows)[i].id == sub.id
                   then sub.(taskId := old(rows)[i].taskId, round := old(rows)[i].round) else old(rows)[i]
    {
      hide SubtaskFault, IsStorable;
      SubtaskFaultIff(sub);
      fault := SubtaskFault(sub);
      if fault.Some? {
        return;
      }
      for i := 0 to |rows|
        invariant rows == old(rows) && Fresh(rows[..i], sub.id)
      {
        if rows[i].id == sub.id {
          assert Ids(rows)[i] == sub.id;
          assert forall k :: 0 <= k < |rows| && k != i ==> rows[k].id != rows[i].id by {
            assert forall k :: 0 <= k < |rows| ==> Ids(rows)[k] == rows[k].id;
          }
          rows := rows[i := sub.(taskId := rows[i].taskId, round := rows[i].round)];
          assert Ids(rows) == Ids(old(rows));
          return None;
        }
      }
      assert rows[..|rows|] == rows;
      fault := Some(NotFound);
    }
  }

  lemma DistinctRows(rows: seq<Subtask>)
    requires NoDuplicates(Ids(rows))
    ensures NoDuplicates(rows)
  {
    forall i, j | 0 <= i < j < |rows| ensures rows[i] != rows[j] {
      assert Ids(rows)[i] != Ids(rows)[j];
    }
  }

  lemma StampedSnoc(subs: seq<Subtask>, round: int, i: nat)
    requires i < |subs|
    ensures Stamped(subs[..i + 1], round) == Stamped(subs[..i], round) + [subs[i].(round := round)]
    ensures subs[..i + 1] == subs[..i] + [subs[i]]
  {
  }

  lemma TakenMeans(rows: seq<Subtask>, subs: seq<Subtask>, round: int, i: nat, tx: seq<Subtask>)
    requires i < |subs| && tx == rows + Stamped(subs[..i], round)
    ensures Fresh(tx, subs[i].id) ==> Fresh(rows, subs[i].id) && Fresh(subs[..i], subs[i].id)
    ensures !Fresh(tx, subs[i].id) ==> !Fresh(rows, subs[i].id) || !NoDuplicates(Ids(subs))
  {
    if Fresh(tx, subs[i].id) {
      forall k | 0 <= k < |rows| ensures rows[k].id != subs[i].id { assert tx[k].id != subs[i].id; }
      forall k | 0 <= k < i ensures subs[..i][k].id != subs[i].id { assert tx[|rows| + k].id != subs[i].id; }
    } else {
      var k :| 0 <= k < |tx| && tx[k].id == subs[i].id;
      if k >= |rows| {
        assert Ids(subs)[k - |rows|] == Ids(subs)[i];
      }
    }
  }

  lemma InsertKeeps(table: seq<Subtask>, sub: Subtask)
    requires NoDuplicates(Ids(table)) && Fresh(table, sub.id)
    ensures NoDuplicates(Ids(table + [sub]))
  {
    assert Ids(table + [sub]) == Ids(table) + [sub.id];
  }

  // ---- what the next reader finds ----

  /** Among rows that all belong to lower rounds or other tasks, the maximum is as stated. */
  lemma {:induction false} MaxRoundIs(rows: seq<Subtask>, parent: string, n: nat)
    requires n <= |rows|
    ensures forall i :: 0 <= i < n && rows[i].taskId == parent ==> rows[i].round <= MaxRound(rows, parent, n)
    ensures HasRow(rows, parent, n) ==>
      exists i :: 0 <= i < n && rows[i].taskId == parent && rows[i].round == MaxRound(rows, parent, n)
    ensures !HasRow(rows, parent, n) ==> MaxRound(rows, parent, n) == 0
  {
    if n > 0 {
      MaxRoundIs(rows, parent, n - 1);
    }
  }

  lemma {:induction false} RoundRowsPrefix(rows: seq<Subtask>, more: seq<Subtask>, parent: string, round: int, n: nat)
    requires n <= |rows|
    ensures RoundRows(rows + more, parent, round, n) == RoundRows(rows, parent, round, n)
  {
    hide InsertByOrder;
    if n > 0 {
      RoundRowsPrefix(rows, more, parent, round, n - 1);
    }
  }

  lemma {:induction false} NoRoundRows(rows: seq<Subtask>, parent: string, round: int, n: nat)
    requires n <= |rows|
    requires forall i :: 0 <= i < n && rows[i].taskId == parent ==> rows[i].round != round
    ensures RoundRows(rows, parent, round, n) == []
  {
    hide InsertByOrder;
    if n > 0 {
      NoRoundRows(rows, parent, round, n - 1);
    }
  }

  lemma {:induction false} AppendedRound(rows: seq<Subtask>, parent: string, subs: seq<Subtask>, round: int, n: nat)
    requires n <= |subs| && InExecutionOrder(subs)
    requires forall i :: 0 <= i < |rows| && rows[i].taskId == parent ==> rows[i].round != round
    requires forall i :: 0 <= i < |subs| ==> subs[i].taskId == parent
    ensures RoundRows(rows + Stamped(subs, round), parent, round, |rows| + n) == Stamped(subs, round)[..n]
  {
    var all, stamped := rows + Stamped(subs, round), Stamped(subs, round);
    if n == 0 {
      RoundRowsPrefix(rows, stamped, parent, round, |rows|);
      NoRoundRows(rows, parent, round, |rows|);
    } else {
      AppendedRound(rows, parent, subs, round, n - 1);
      assert all[|rows| + n - 1] == stamped[n - 1];
      assert stamped[..n] == stamped[..n - 1] + [stamped[n - 1]];
    }
  }

  /** After a plan is stored, the loop reads back exactly that plan, in execution order, whatever earlier rounds are. */
  lemma PlanHandOff(rows: seq<Subtask>, parent: string, subs: seq<Subtask>)
    requires CanCreate(rows, parent, subs) && InExecutionOrder(subs) && subs != []
    ensures var round := MaxRound(rows, parent, |rows|) + 1;
      LatestRound(rows + Stamped(subs, round), parent) == Stamped(subs, round)
  {
    hide IsStorable, MaxRound, RoundRows, Fresh;
    var round := MaxRound(rows, parent, |rows|) + 1;
    var all := rows + Stamped(subs, round);
    MaxRoundIs(rows, parent, |rows|);
    MaxRoundIs(all, parent, |all|);
    assert all[|rows|] == Stamped(subs, round)[0];
    assert forall i :: 0 <= i < |all| ==> all[i] == if i < |rows| then rows[i] else Stamped(subs, round)[i - |rows|];
    assert MaxRound(all, parent, |all|) == round;
    AppendedRound(rows, parent, subs, round, |subs|);
    assert Stamped(subs, round)[..|subs|] == Stamped(subs, round);
  }

  lemma {:induction false} OtherRowsIgnored(rows: seq<Subtask>, subs: seq<Subtask>, parent: string, other: string,
                                            round: int, n: nat)
    requires other != parent && |rows| <= n <= |rows + subs|
    requires forall i :: 0 <= i < |subs| ==> subs[i].taskId == parent
    ensures MaxRound(rows + subs, other, n) == MaxRound(rows, other, |rows|)
    ensures RoundRows(rows + subs, other, round, n) == RoundRows(rows, other, round, |rows|)
    decreases n
  {
    hide InsertByOrder;
    if n == |rows| {
      RoundRowsPrefix(rows, subs, other, round, n);
      MaxRoundPrefix(rows, subs, other, n);
    } else {
      OtherRowsIgnored(rows, subs, parent, other, round, n - 1);
      assert (rows + subs)[n - 1] == subs[n - 1 - |rows|];
    }
  }

  lemma {:induction false} MaxRoundPrefix(rows: seq<Subtask>, more: seq<Subtask>, parent: string, n: nat)
    requires n <= |rows|
    ensures MaxRound(rows + more, parent, n) == MaxRound(rows, parent, n)
  {
    if n > 0 {
      MaxRoundPrefix(rows, more, parent, n - 1);
      assert HasRow(rows + more, parent, n - 1) <==> HasRow(rows, parent, n - 1) by {
        assert forall i :: 0 <= i < n - 1 ==> (rows + more)[i] == rows[i];
      }
    }
  }

  /** Storing a plan of one task leaves what every other task's loop reads as it was. */
  lemma OtherTasksUndisturbed(rows: seq<Subtask>, parent: string, subs: seq<Subtask>, other: string, round: int)
    requires other != parent && forall i :: 0 <= i < |subs| ==> subs[i].taskId == parent
    ensures LatestRound(rows + Stamped(subs, round), other) == LatestRound(rows, other)
  {
    var all := rows + Stamped(subs, round);
    OtherRowsIgnored(rows, Stamped(subs, round), parent, other, MaxRound(rows, other, |rows|), |all|);
  }

  // ---- from the planner to the table ----

  lemma {:induction false} NodeRows(parent: string, raw: seq<RawSubtask>, registry: map<string, Id>, n: nat, id: Id)
    requires n <= |raw| && FirstRowFault(raw, registry.Keys, n) == None && id in NodesOf(parent, raw, registry, n)
    ensures NodesOf(parent, raw, registry, n)[id].taskId == parent && NodesOf(parent, raw, registry, n)[id].title != ""
  {
    hide TrimSpace, FirstDependencyFault, MapNames, CleanPaths;
    if NodeOf(parent, raw[n - 1], registry).id != id {
      NodeRows(parent, raw, registry, n - 1, id);
    }
  }

  /** A plan the planner accepts, with newly minted ids, is stored exactly when no name in it is padded. */
  lemma AcceptedPlanIsStoredIff(rows: seq<Subtask>, parent: string, raw: seq<RawSubtask>, ulids: seq<Id>,
                                subs: seq<Subtask>)
    requires |ulids| == |raw| && Minted(ulids) && PlanFault(raw) == None && parent != ""
    requires IsOrderedPlan(PlanNodes(parent, raw, ulids), subs)
    requires forall id :: id in ulids ==> Fresh(rows, id)
    ensures InExecutionOrder(subs)
    ensures CanCreate(rows, parent, subs) <==> AllTrimmed(raw)
  {
    hide PlanFault, Minted, PlanNodes, AllTrimmed, NamesDistinct, Fresh, IsStorable;
    PaddedNamesCollapse(parent, raw, ulids);
    if !AllTrimmed(raw) {
      EmptyIdIsRejected(rows, parent, PlanNodes(parent, raw, ulids), subs);
    } else {
      ChecksPassIff(raw);
      EverySubtaskHasItsNode(parent, raw, ulids);
      forall i | 0 <= i < |subs|
        ensures subs[i].taskId == parent && IsStorable(subs[i]) && Fresh(rows, subs[i].id)
      {
        PlanRowStorable(parent, raw, ulids, subs, i);
        assert subs[i].id in Elements(ulids);
      }
    }
  }

  lemma EmptyIdIsRejected(rows: seq<Subtask>, parent: string, nodes: map<Id, Subtask>, subs: seq<Subtask>)
    requires IsOrderedPlan(nodes, subs) && Id(0) in nodes
    ensures !CanCreate(rows, parent, subs)
  {
    hide Fresh;
    assert Id(0) in Elements(Ids(subs));
    var i :| 0 <= i < |subs| && Ids(subs)[i] == Id(0);
    assert !IsStorable(subs[i]);
  }

  lemma PlanRowStorable(parent: string, raw: seq<RawSubtask>, ulids: seq<Id>, subs: seq<Subtask>, i: nat)
    requires |ulids| == |raw| && PlanFault(raw) == None && parent != "" && i < |subs|
    requires IsOrderedPlan(PlanNodes(parent, raw, ulids), subs) && Id(0) !in PlanNodes(parent, raw, ulids)
    ensures subs[i].taskId == parent && IsStorable(subs[i])
  {
    hide NodesOf, FirstIdFault, FirstRowFault, Registry;
    var nodes := PlanNodes(parent, raw, ulids);
    NodeRows(parent, raw, Registry(raw, ulids, |raw|), |raw|, subs[i].id);
    var ids := Ids(subs);
    forall d | d in subs[i].dependsOn
      ensures d != Id(0) && d != subs[i].id
    {
      assert d in GraphOf(nodes)[ids[i]];
      assert d in ids[..i];
      assert d in Elements(ids);
    }
  }
}
