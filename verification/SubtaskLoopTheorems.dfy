/** What a run of the subtask loop guarantees, from the plan to the files it may touch. */
module SubtaskLoopTheorems {
  import opened DepGraph
  import opened Planner
  import opened WritePaths
  import opened FileIdentity
  import opened SubtaskLoop

  /** If every subtask ran, the order of the sessions is a dependency order. */
  lemma FullLogIsTopologicalOrder(table: Table, statuses: Statuses, slots: nat, starts: seq<Start>)
    requires LogOk(table, slots, starts) && CleanExit(table, statuses, starts)
    requires forall x :: x in table ==> statuses[x] == Done
    ensures IsTopologicalOrder(GraphOf(table), StartIds(starts))
  {
    hide Justified;
    var g, ids := GraphOf(table), StartIds(starts);
    assert forall x :: x in ids <==> x in table;
    forall i, d | 0 <= i < |ids| && d in g[ids[i]]
      ensures d in ids[..i]
    {
      assert d in Dependencies(table, starts[i].id);
    }
  }

  /** After a run without errors, every subtask is done exactly when the dependencies are known and acyclic.
      Otherwise the run still reports success, with subtasks left pending. */
  lemma DrainsIffAcyclic(table: Table, statuses: Statuses, slots: nat, starts: seq<Start>)
    requires LogOk(table, slots, starts) && CleanExit(table, statuses, starts)
    ensures (forall x :: x in table ==> statuses[x] == Done) <==> Closed(GraphOf(table)) && Acyclic(GraphOf(table))
  {
    hide LogOk, Acyclic;
    var g := GraphOf(table);
    if forall x :: x in table ==> statuses[x] == Done {
      FullLogIsTopologicalOrder(table, statuses, slots, starts);
      OrderedGraphIsAcyclic(g, StartIds(starts));
    } else if Closed(g) {
      var stuck := set x | x in table && statuses[x] == Pending;
      forall x | x in stuck
        ensures Waits(g, x, stuck)
      {
        var d :| d in Dependencies(table, x) && d !in StartIds(starts);
        assert d in g[x] && d in g;
        assert DependsOn(g, x, d) && d in stuck;
      }
      var x :| x in table && statuses[x] != Done;
      assert x in stuck;
      StuckSetHasCycle(g, stuck);
    }
  }

  /** The rows of a plan, keyed by id. */
  ghost predicate IsTableOf(table: Table, subs: seq<Subtask>) {
    && table.Keys == Elements(Ids(subs))
    && forall i :: 0 <= i < |subs| ==> subs[i].id in table && table[subs[i].id] == subs[i]
  }

  lemma TableGraph(nodes: map<Id, Subtask>, subs: seq<Subtask>, table: Table)
    requires IsOrderedPlan(nodes, subs) && IsTableOf(table, subs)
    ensures GraphOf(table) == GraphOf(nodes)
  {
    var ids := Ids(subs);
    assert table.Keys == nodes.Keys;
    forall id | id in table
      ensures table[id].dependsOn == nodes[id].dependsOn
    {
      assert id in Elements(ids);
      var i :| 0 <= i < |ids| && ids[i] == id;
      assert subs[i] == nodes[subs[i].id].(orderIdx := i);
    }
  }

  lemma AcceptedPlanIsAcyclic(nodes: map<Id, Subtask>, subs: seq<Subtask>, table: Table)
    requires IsOrderedPlan(nodes, subs) && IsTableOf(table, subs)
    ensures Closed(GraphOf(table)) && Acyclic(GraphOf(table))
  {
    TableGraph(nodes, subs, table);
    OrderedGraphIsAcyclic(GraphOf(nodes), Ids(subs));
  }

  /** Every session of a run is told whether its wave is the last. */
  ghost predicate ToldWhenLast(starts: seq<Start>, waves: seq<Wave>) {
    forall i :: 0 <= i < |starts| ==> starts[i].wave < |waves| && (starts[i].isFinal <==> starts[i].wave == |waves| - 1)
  }

  /** An accepted plan whose subtasks all succeed runs every subtask exactly once, in at most as many waves as there
      are subtasks; the waves share the subtasks out, and the sessions of the last wave and no others are told it is
      final. */
  lemma AcceptedPlanCompletes(nodes: map<Id, Subtask>, subs: seq<Subtask>, table: Table, statuses: Statuses, slots: nat,
                              starts: seq<Start>, waves: seq<Wave>, left: set<Id>)
    requires IsOrderedPlan(nodes, subs) && IsTableOf(table, subs)
    requires LogOk(table, slots, starts) && CleanExit(table, statuses, starts)
    requires WavesOk(table, waves, left) && left == Unstarted(table, starts) && StartsFit(starts, waves)
    ensures forall x :: x in table ==> statuses[x] == Done
    ensures IsTopologicalOrder(GraphOf(table), StartIds(starts))
    ensures |StartIds(starts)| == |subs|
    ensures |waves| <= |subs| && NoDuplicates(Members(waves)) && Elements(Members(waves)) == Elements(StartIds(starts))
    ensures forall i :: 0 <= i < |waves| ==> (waves[i].isFinal <==> i == |waves| - 1)
    ensures ToldWhenLast(starts, waves)
  {
    hide IsOrderedPlan, Closed, Acyclic, LogOk, CleanExit, WavesOk, StartsFit, Members, NoDuplicates,
         IsTopologicalOrder, IsTableOf;
    hide Elements, Unstarted, ToldWhenLast;
    AcceptedPlanIsAcyclic(nodes, subs, table);
    DrainsIffAcyclic(table, statuses, slots, starts);
    FullLogIsTopologicalOrder(table, statuses, slots, starts);
    NobodyLeft(table, statuses, starts);
    WavesWithNobodyLeft(table, waves);
    LogIsDistinct(table, slots, starts);
    DistinctLength(StartIds(starts));
    PlanIdsDistinct(nodes, subs);
    DistinctLength(Ids(subs));
    TableKeys(table, subs);
    AllTold(starts, waves);
  }

  lemma NobodyLeft(table: Table, statuses: Statuses, starts: seq<Start>)
    requires CleanExit(table, statuses, starts) && forall x :: x in table ==> statuses[x] == Done
    ensures Unstarted(table, starts) == {} && Elements(StartIds(starts)) == table.Keys
  {
  }

  lemma WavesWithNobodyLeft(table: Table, waves: seq<Wave>)
    requires WavesOk(table, waves, {})
    ensures |waves| <= |table.Keys| && NoDuplicates(Members(waves)) && Elements(Members(waves)) == table.Keys
    ensures forall i :: 0 <= i < |waves| ==> (waves[i].isFinal <==> i == |waves| - 1)
  {
    hide IsDisjointBatch, Members;
  }

  lemma LogIsDistinct(table: Table, slots: nat, starts: seq<Start>)
    requires LogOk(table, slots, starts)
    ensures NoDuplicates(StartIds(starts))
  {
  }

  lemma TableKeys(table: Table, subs: seq<Subtask>)
    requires IsTableOf(table, subs)
    ensures table.Keys == Elements(Ids(subs)) && |Ids(subs)| == |subs|
  {
  }

  lemma AllTold(starts: seq<Start>, waves: seq<Wave>)
    requires StartsFit(starts, waves)
    requires forall i :: 0 <= i < |waves| ==> (waves[i].isFinal <==> i == |waves| - 1)
    ensures ToldWhenLast(starts, waves)
  {
    forall i | 0 <= i < |starts|
      ensures starts[i].wave < |waves| && (starts[i].isFinal <==> starts[i].wave == |waves| - 1)
    {
      assert FitsItsWave(starts[i], waves);
    }
  }

  lemma PlanIdsDistinct(nodes: map<Id, Subtask>, subs: seq<Subtask>)
    requires IsOrderedPlan(nodes, subs)
    ensures NoDuplicates(Ids(subs))
  {
  }

  /** Two subtasks of one wave never declare a common file, for plain paths and for wildcards that start a component. */
  lemma WaveMembersShareNoFile(table: Table, batch: seq<Id>, x: Id, y: Id, a: string, b: string, file: string)
    requires IsDisjointBatch(table, batch) && x in batch && y in batch && x != y && x in table && y in table
    requires a in table[x].writePaths && b in table[y].writePaths
    requires WildcardStartsComponent(a) && WildcardStartsComponent(b)
    ensures !(MayCover(NormaliseWritePath(a), file) && MayCover(NormaliseWritePath(b), file))
  {
    hide IsDisjointBatch, PathsIntersect, MayCover, WildcardStartsComponent, NormaliseWritePath;
    BatchSafeTogether(table, batch, x, y);
    assert !PathsIntersect(a, b);
    DisjointTokensShareNoFile(a, b, file);
  }

  /** On disk, where the file system may take several spellings for one file, the same holds of paths written in folded
      form; a wave may hold paths that are one file only in another form. */
  lemma WaveMembersShareNoFileOnDisk(table: Table, batch: seq<Id>, x: Id, y: Id, a: string, b: string,
                                     fold: char -> char)
    requires IsDisjointBatch(table, batch) && x in batch && y in batch && x != y && x in table && y in table
    requires a in table[x].writePaths && b in table[y].writePaths && IsCaseFold(fold)
    ensures var na, nb := NormaliseWritePath(a), NormaliseWritePath(b);
      ShareOnDisk(fold, na, nb) ==>
        Folded(fold, na) != na || Folded(fold, nb) != nb || !WildcardStartsComponent(a) || !WildcardStartsComponent(b)
  {
    hide IsDisjointBatch, PathsIntersect, MayCover, WildcardStartsComponent, NormaliseWritePath, Folded, IsCaseFold;
    hide ShareOnDisk;
    BatchSafeTogether(table, batch, x, y);
    assert !PathsIntersect(a, b);
    var na, nb := NormaliseWritePath(a), NormaliseWritePath(b);
    if Folded(fold, na) == na && Folded(fold, nb) == nb && WildcardStartsComponent(a) && WildcardStartsComponent(b) {
      DisjointFoldedTokensShareNoFile(fold, a, b);
    }
  }

  /** When a session is opened, no other subtask that is doing may write one of its files. */
  lemma RunningSessionsShareNoFile(table: Table, slots: nat, starts: seq<Start>, i: nat, r: Id, a: string, b: string,
                                   file: string)
    requires LogOk(table, slots, starts) && i < |starts| && r != starts[i].id
    requires r in starts[i].statuses && starts[i].statuses[r] == Doing
    requires r in table && starts[i].id in table
    requires a in table[starts[i].id].writePaths && b in table[r].writePaths
    requires WildcardStartsComponent(a) && WildcardStartsComponent(b)
    ensures !(MayCover(NormaliseWritePath(a), file) && MayCover(NormaliseWritePath(b), file))
  {
    hide PathsIntersect, MayCover, WildcardStartsComponent, NormaliseWritePath;
    assert Justified(table, slots, starts[i]);
    assert r in starts[i].running;
    assert !PathsIntersect(a, b);
    DisjointTokensShareNoFile(a, b, file);
  }

  /** In memory: after an error, no subtask is left pending or doing exactly when every member of the last wave got its
      slot. */
  lemma NothingLeftOpen(table: Table, outcome: Id -> Outcome, statuses: Statuses, starts: seq<Start>, waves: seq<Wave>,
                        err: Outcome)
    requires ErrorExit(table, outcome, statuses, starts, waves, err)
    ensures (forall x :: x in table ==> statuses[x] in {Done, Failed})
            <==> forall b :: b in waves[|waves| - 1].batch && b in table ==> outcome(b) != NoSlot
  {
    forall b | b in waves[|waves| - 1].batch && b in table
      ensures statuses[b] == Pending <==> outcome(b) == NoSlot
    {
    }
  }

  /** What a row reads after the run. Had the subtask its turn: done after a success and failed after an error when the
      store took that update; still doing when it took only the first one; as it was reset when it took neither or there
      was no slot. Had it no turn: failed after an error, otherwise as it was reset. The reset itself may be refused. */
  lemma RowReads(table: Table, outcome: Id -> Outcome, accepts: Store, waves: seq<Wave>, failed: bool, stored: Statuses,
                 x: Id)
    requires StoredExit(table, outcome, accepts, waves, failed, stored) && x in table
    ensures var reset := if accepts(x, Pending) then Pending else table[x].status;
      var doing := if accepts(x, Doing) then Doing else reset;
      stored[x] ==
        if x in Members(waves) then
          (match outcome(x)
           case Success => if accepts(x, Done) then Done else doing
           case RunError => if accepts(x, Failed) then Failed else doing
           case NoSlot => reset)
        else if failed then Failed
        else reset
  {
    hide Members;
  }

  /** The store takes the last update of the subtask's turn. */
  ghost predicate LastUpdateAccepted(outcome: Id -> Outcome, accepts: Store, x: Id) {
    outcome(x) != NoSlot && accepts(x, AfterTurn(outcome(x)))
  }

  /** In the store, for a plan whose rows start out pending: after an error, no row is left pending or doing exactly
      when every subtask that was in a wave got its slot and had its last update accepted. */
  lemma NoRowLeftOpenIff(table: Table, outcome: Id -> Outcome, accepts: Store, waves: seq<Wave>, stored: Statuses)
    requires StoredExit(table, outcome, accepts, waves, true, stored)
    requires forall x :: x in table ==> table[x].status == Pending
    ensures (forall x :: x in table ==> stored[x] in {Done, Failed})
            <==> forall x :: x in table && x in Members(waves) ==> LastUpdateAccepted(outcome, accepts, x)
  {
    hide Members;
    forall x | x in table && x in Members(waves)
      ensures stored[x] in {Done, Failed} <==> LastUpdateAccepted(outcome, accepts, x)
    {
      ClosedIff(table, outcome, accepts, x);
    }
  }

  lemma ClosedIff(table: Table, outcome: Id -> Outcome, accepts: Store, x: Id)
    requires x in table && table[x].status == Pending
    ensures StoredRun(table, outcome, accepts, x) in {Done, Failed} <==> LastUpdateAccepted(outcome, accepts, x)
  {
  }

  /** A subtask that was running when its task was cancelled stays doing in the store, although it got its slot and is
      failed in memory: its last update comes with a context that is done, and the cleanup skips it. */
  lemma CancelledSessionStaysDoing(table: Table, outcome: Id -> Outcome, accepts: Store, waves: seq<Wave>, failed: bool,
                                   stored: Statuses, x: Id)
    requires StoredExit(table, outcome, accepts, waves, failed, stored) && x in table && x in Members(waves)
    requires outcome(x) == RunError && accepts(x, Doing) && !accepts(x, Failed)
    ensures stored[x] == Doing
  {
    hide Members;
  }
}
