/** A plan on its whole way: from the planner's output through the subtask table to the end of the subtask loop. */
module PlanToRun {
  import opened Text
  import opened DepGraph
  import opened Planner
  import opened PlanRows
  import opened PlanTheorems
  import opened SubtaskStore
  import opened SubtaskLoop
  import opened SubtaskLoopTheorems

  /** The nodes of a plan once their round is known. */
  ghost function WithRound(nodes: map<Id, Subtask>, round: int): map<Id, Subtask> {
    map id | id in nodes :: nodes[id].(round := round)
  }

  lemma StampingKeepsOrder(nodes: map<Id, Subtask>, subs: seq<Subtask>, round: int)
    requires IsOrderedPlan(nodes, subs)
    ensures IsOrderedPlan(WithRound(nodes, round), Stamped(subs, round))
    ensures GraphOf(WithRound(nodes, round)) == GraphOf(nodes)
  {
    hide IsTopologicalOrder;
    assert GraphOf(WithRound(nodes, round)) == GraphOf(nodes);
    assert Ids(Stamped(subs, round)) == Ids(subs);
  }

  lemma PlanHasOneSubtaskEach(parent: string, raw: seq<RawSubtask>, ulids: seq<Id>, subs: seq<Subtask>)
    requires |ulids| == |raw| && Minted(ulids) && PlanFault(raw) == None && AllTrimmed(raw)
    requires IsOrderedPlan(PlanNodes(parent, raw, ulids), subs)
    ensures |subs| == |raw|
  {
    hide PlanFault, PlanNodes, IsTrimmedName, NamesDistinct;
    ChecksPassIff(raw);
    EverySubtaskHasItsNode(parent, raw, ulids);
    DistinctLength(Ids(subs));
    DistinctLength(ulids);
  }

  lemma StoredPlan(rows: seq<Subtask>, parent: string, raw: seq<RawSubtask>, ulids: seq<Id>, subs: seq<Subtask>)
    requires |ulids| == |raw| && Minted(ulids) && PlanFault(raw) == None && AllTrimmed(raw) && parent != ""
    requires IsOrderedPlan(PlanNodes(parent, raw, ulids), subs)
    requires forall id :: id in ulids ==> Fresh(rows, id)
    ensures var round := MaxRound(rows, parent, |rows|) + 1;
      LatestRound(rows + Stamped(subs, round), parent) == Stamped(subs, round)
    ensures |subs| == |raw|
  {
    hide Minted, AllTrimmed, PlanNodes, IsOrderedPlan, Fresh, LatestRound, CanCreate, InExecutionOrder, MaxRound;
    AcceptedPlanIsStoredIff(rows, parent, raw, ulids, subs);
    PlanHasOneSubtaskEach(parent, raw, ulids, subs);
    PlanHandOff(rows, parent, subs);
  }

  /** If every session of the loop succeeds, a plan that was accepted and stored completes: every subtask the planner
      named runs exactly once, after its dependencies; the waves share the subtasks out, at most as many waves as there
      are subtasks, and exactly the sessions of the last one are told that they are final. Earlier rounds and other
      tasks in the table do not matter. */
  lemma AcceptedPlanRunsToCompletion(rows: seq<Subtask>, parent: string, raw: seq<RawSubtask>, ulids: seq<Id>,
                                     subs: seq<Subtask>, table: Table, statuses: Statuses, slots: nat,
                                     starts: seq<Start>, waves: seq<Wave>, left: set<Id>)
    requires |ulids| == |raw| && Minted(ulids) && PlanFault(raw) == None && AllTrimmed(raw) && parent != ""
    requires IsOrderedPlan(PlanNodes(parent, raw, ulids), subs)
    requires forall id :: id in ulids ==> Fresh(rows, id)
    requires IsTableOf(table, LatestRound(rows + Stamped(subs, MaxRound(rows, parent, |rows|) + 1), parent))
    requires LogOk(table, slots, starts) && CleanExit(table, statuses, starts)
    requires WavesOk(table, waves, left) && left == Unstarted(table, starts) && StartsFit(starts, waves)
    ensures forall x :: x in table ==> statuses[x] == SubtaskStatus.Done
    ensures IsTopologicalOrder(GraphOf(table), StartIds(starts))
    ensures |StartIds(starts)| == |raw| && |waves| <= |raw|
    ensures NoDuplicates(Members(waves)) && Elements(Members(waves)) == Elements(StartIds(starts))
    ensures ToldWhenLast(starts, waves)
  {
    hide *;
    StoredPlan(rows, parent, raw, ulids, subs);
    var round := MaxRound(rows, parent, |rows|) + 1;
    var nodes := PlanNodes(parent, raw, ulids);
    StampingKeepsOrder(nodes, subs, round);
    StampedLength(subs, round);
    AcceptedPlanCompletes(WithRound(nodes, round), Stamped(subs, round), table, statuses, slots, starts, waves, left);
  }

  lemma StampedLength(subs: seq<Subtask>, round: int)
    ensures |Stamped(subs, round)| == |subs|
  {
  }

  // ---- the whole way, as one call ----

  datatype PlanRunError = PlannerFailed(reason: PlanError) | StoreFailed(refusal: StoreError)

  method IndexById(subs: seq<Subtask>) returns (table: Table)
    requires NoDuplicates(Ids(subs))
    ensures IsTableOf(table, subs)
  {
    table := map[];
    for i := 0 to |subs|
      invariant table.Keys == Elements(Ids(subs)[..i])
      invariant forall k :: 0 <= k < i ==> subs[k].id in table && table[subs[k].id] == subs[k]
    {
      assert Ids(subs)[..i + 1] == Ids(subs)[..i] + [subs[i].id];
      assert forall k :: 0 <= k < i ==> Ids(subs)[k] != Ids(subs)[i];
      table := table[subs[i].id := subs[i]];
    }
    assert Ids(subs)[..|subs|] == Ids(subs);
  }

  /** What the planner and the store together accept. */
  ghost predicate IsRunnable(parent: string, raw: seq<RawSubtask>, ulids: seq<Id>)
    requires |ulids| == |raw|
  {
    && PlanFault(raw) == None && parent != "" && AllTrimmed(raw)
    && Closed(GraphOf(PlanNodes(parent, raw, ulids))) && Acyclic(GraphOf(PlanNodes(parent, raw, ulids)))
  }

  /** Every subtask of the plan has its row in the table, in this round. */
  ghost predicate HoldsPlan(table: Table, parent: string, raw: seq<RawSubtask>, ulids: seq<Id>, round: int)
    requires |ulids| == |raw|
  {
    forall k :: 0 <= k < |raw| ==>
      && ulids[k] in table && table[ulids[k]].round == round
      && IsRowOf(table[ulids[k]], parent, raw, ulids, k)
  }

  /** A run in which every subtask was done, once, in waves that know which of them is the last. */
  ghost predicate IsComplete(table: Table, statuses: Statuses, starts: seq<Start>, waves: seq<Wave>, n: nat) {
    && table.Keys <= statuses.Keys && (forall x :: x in table ==> statuses[x] == SubtaskStatus.Done)
    && IsTopologicalOrder(GraphOf(table), StartIds(starts))
    && |StartIds(starts)| == n && |waves| <= n
    && NoDuplicates(Members(waves)) && Elements(Members(waves)) == Elements(StartIds(starts))
    && ToldWhenLast(starts, waves)
  }

  /** Plans, stores, reads back and runs. It gets to the run exactly for the plans that planner and store accept, then
      with every subtask as the planner put it, in a new round; and if every session succeeds the run is complete,
      whatever else the table holds. */
  method PlanAndRun(store: SubtaskTable, parent: string, raw: seq<RawSubtask>, ulids: seq<Id>, outcome: Id -> Outcome,
                    slots: nat, accepts: Store)
    returns (refused: Option<PlanRunError>, table: Table, statuses: Statuses, runErr: Option<Outcome>,
             stored: Statuses, ghost starts: seq<Start>, ghost waves: seq<Wave>)
    requires |ulids| == |raw| && Minted(ulids) && slots > 0
    requires store.Valid() && forall id :: id in ulids ==> Fresh(store.rows, id)
    modifies store
    ensures store.Valid()
    ensures refused == None <==> IsRunnable(parent, raw, ulids)
    ensures refused != None ==> store.rows == old(store.rows)
    ensures refused == None ==>
      && table.Keys == Elements(ulids) && GraphOf(table) == GraphOf(PlanNodes(parent, raw, ulids))
      && HoldsPlan(table, parent, raw, ulids, MaxRound(old(store.rows), parent, |old(store.rows)|) + 1)
      && StoredExit(table, outcome, accepts, waves, runErr.Some?, stored)
    ensures refused == None && (forall x :: x in table ==> outcome(x) == Success) ==>
      runErr == None && IsComplete(table, statuses, starts, waves, |raw|)
  {
    hide *;
    table, statuses, runErr, stored, starts, waves := map[], map[], None, map[], [], [];
    ghost var nodes := PlanNodes(parent, raw, ulids);
    assert IsRunnable(parent, raw, ulids) <==>
      PlanFault(raw) == None && parent != "" && AllTrimmed(raw) && Closed(GraphOf(nodes)) && Acyclic(GraphOf(nodes))
      by { RunnableMeans(parent, raw, ulids); }
    var plan := NormalisePlan(parent, raw, ulids);
    if plan.Err? {
      return Some(PlannerFailed(plan.error)), table, statuses, runErr, stored, starts, waves;
    }
    ghost var before := store.rows;
    StoredIff(before, parent, raw, ulids, plan.value);
    var created := store.CreatePlan(parent, plan.value);
    if created.Err? {
      return Some(StoreFailed(created.error)), table, statuses, runErr, stored, starts, waves;
    }
    var subs := store.ListLatestRound(parent);
    ReadBack(before, parent, raw, ulids, plan.value);
    table := IndexById(subs);
    refused := None;
    TableIsPlan(before, parent, raw, ulids, plan.value, table);
    TableHoldsPlan(before, parent, raw, ulids, plan.value, table);
    statuses, runErr, stored, starts, waves := RunSubtaskLoop(table, outcome, slots, accepts);
    if runErr == None {
      ghost var left :| WavesOk(table, waves, left) && left == Unstarted(table, starts);
      AcceptedPlanRunsToCompletion(before, parent, raw, ulids, plan.value, table, statuses, slots, starts, waves, left);
      CompleteMeans(table, statuses, slots, starts, waves, |raw|);
    }
  }

  lemma RunnableMeans(parent: string, raw: seq<RawSubtask>, ulids: seq<Id>)
    requires |ulids| == |raw|
    ensures var nodes := PlanNodes(parent, raw, ulids);
      IsRunnable(parent, raw, ulids) <==>
        PlanFault(raw) == None && parent != "" && AllTrimmed(raw) && Closed(GraphOf(nodes)) && Acyclic(GraphOf(nodes))
  {
  }

  lemma CompleteMeans(table: Table, statuses: Statuses, slots: nat, starts: seq<Start>, waves: seq<Wave>, n: nat)
    requires CleanExit(table, statuses, starts)
    requires forall x :: x in table ==> statuses[x] == SubtaskStatus.Done
    requires IsTopologicalOrder(GraphOf(table), StartIds(starts)) && |StartIds(starts)| == n && |waves| <= n
    requires NoDuplicates(Members(waves)) && Elements(Members(waves)) == Elements(StartIds(starts))
    requires ToldWhenLast(starts, waves)
    ensures IsComplete(table, statuses, starts, waves, n)
  {
    hide IsTopologicalOrder, NoDuplicates, Members, ToldWhenLast, StartIds;
  }

  lemma StoredIff(rows: seq<Subtask>, parent: string, raw: seq<RawSubtask>, ulids: seq<Id>, subs: seq<Subtask>)
    requires |ulids| == |raw| && Minted(ulids) && PlanFault(raw) == None
    requires IsOrderedPlan(PlanNodes(parent, raw, ulids), subs)
    requires forall id :: id in ulids ==> Fresh(rows, id)
    ensures CanCreate(rows, parent, subs) <==> parent != "" && AllTrimmed(raw)
  {
    hide PlanFault, Minted, AllTrimmed, PlanNodes, IsOrderedPlan, Fresh, IsStorable;
    if parent != "" {
      AcceptedPlanIsStoredIff(rows, parent, raw, ulids, subs);
    }
  }

  /** The table is the plan the planner named: its ids, and its dependencies. */
  lemma TableIsPlan(rows: seq<Subtask>, parent: string, raw: seq<RawSubtask>, ulids: seq<Id>, subs: seq<Subtask>,
                    table: Table)
    requires |ulids| == |raw| && Minted(ulids) && PlanFault(raw) == None && AllTrimmed(raw) && parent != ""
    requires IsOrderedPlan(PlanNodes(parent, raw, ulids), subs)
    requires forall id :: id in ulids ==> Fresh(rows, id)
    requires IsTableOf(table, LatestRound(rows + Stamped(subs, MaxRound(rows, parent, |rows|) + 1), parent))
    ensures table.Keys == Elements(ulids) && GraphOf(table) == GraphOf(PlanNodes(parent, raw, ulids))
  {
    hide *;
    var round, nodes := MaxRound(rows, parent, |rows|) + 1, PlanNodes(parent, raw, ulids);
    StoredPlan(rows, parent, raw, ulids, subs);
    StampingKeepsOrder(nodes, subs, round);
    TableGraph(WithRound(nodes, round), Stamped(subs, round), table);
    assert NamesDistinct(raw, |raw|) by { ChecksPassIff(raw); }
    EverySubtaskHasItsNode(parent, raw, ulids);
    GraphKeys(table, nodes);
  }

  /** What the planner said of a subtask is what the loop finds in its row. */
  lemma TableHoldsPlan(rows: seq<Subtask>, parent: string, raw: seq<RawSubtask>, ulids: seq<Id>, subs: seq<Subtask>,
                       table: Table)
    requires |ulids| == |raw| && Minted(ulids) && PlanFault(raw) == None && AllTrimmed(raw) && parent != ""
    requires IsOrderedPlan(PlanNodes(parent, raw, ulids), subs)
    requires forall id :: id in ulids ==> Fresh(rows, id)
    requires IsTableOf(table, LatestRound(rows + Stamped(subs, MaxRound(rows, parent, |rows|) + 1), parent))
    ensures HoldsPlan(table, parent, raw, ulids, MaxRound(rows, parent, |rows|) + 1)
  {
    hide *;
    var round := MaxRound(rows, parent, |rows|) + 1;
    StoredPlan(rows, parent, raw, ulids, subs);
    AcceptedRows(parent, raw, ulids, subs);
    StampedTableHolds(table, parent, raw, ulids, subs, round);
  }

  lemma StampedTableHolds(table: Table, parent: string, raw: seq<RawSubtask>, ulids: seq<Id>, subs: seq<Subtask>,
                          round: int)
    requires |ulids| == |raw| && IsTableOf(table, Stamped(subs, round))
    requires forall k :: 0 <= k < |raw| ==> HasRowFor(subs, parent, raw, ulids, k)
    ensures HoldsPlan(table, parent, raw, ulids, round)
  {
    hide IsRowOf;
    forall k | 0 <= k < |raw|
      ensures ulids[k] in table && table[ulids[k]].round == round
      ensures IsRowOf(table[ulids[k]], parent, raw, ulids, k)
    {
      assert HasRowFor(subs, parent, raw, ulids, k);
      var i :| 0 <= i < |subs| && IsRowOf(subs[i], parent, raw, ulids, k);
      RowId(subs[i], parent, raw, ulids, k);
      assert Stamped(subs, round)[i] == subs[i].(round := round);
      RowKeepsColumns(subs[i], parent, raw, ulids, k, 0, round);
    }
  }

  lemma RowId(row: Subtask, parent: string, raw: seq<RawSubtask>, ulids: seq<Id>, k: nat)
    requires |ulids| == |raw| && k < |raw| && IsRowOf(row, parent, raw, ulids, k)
    ensures row.id == ulids[k]
  {
  }

  lemma GraphKeys(a: map<Id, Subtask>, b: map<Id, Subtask>)
    requires GraphOf(a) == GraphOf(b)
    ensures a.Keys == b.Keys
  {
    assert GraphOf(a).Keys == a.Keys && GraphOf(b).Keys == b.Keys;
  }

  lemma ReadBack(rows: seq<Subtask>, parent: string, raw: seq<RawSubtask>, ulids: seq<Id>, subs: seq<Subtask>)
    requires |ulids| == |raw| && Minted(ulids) && PlanFault(raw) == None && AllTrimmed(raw) && parent != ""
    requires IsOrderedPlan(PlanNodes(parent, raw, ulids), subs)
    requires forall id :: id in ulids ==> Fresh(rows, id)
    ensures NoDuplicates(Ids(LatestRound(rows + Stamped(subs, MaxRound(rows, parent, |rows|) + 1), parent)))
  {
    hide *;
    var round := MaxRound(rows, parent, |rows|) + 1;
    StoredPlan(rows, parent, raw, ulids, subs);
    StampingKeepsOrder(PlanNodes(parent, raw, ulids), subs, round);
    PlanIdsDistinct(WithRound(PlanNodes(parent, raw, ulids), round), Stamped(subs, round));
  }
}
