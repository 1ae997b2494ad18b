/** Running a subtask plan in waves (sidecar/internal/orchestrator/orchestrator.go, runSubtaskLoop). */
module SubtaskLoop {
  import opened Text
  import opened DepGraph
  import opened Planner
  import opened WritePaths

  type Table = map<Id, Subtask>

  type Statuses = map<Id, SubtaskStatus>

  /** How one subtask's turn ends: the runner returns nil, the runner returns an error, or the task is
      cancelled while the subtask still waits for a slot. */
  datatype Outcome = Success | RunError | NoSlot

  /** Whether the store accepts the write of a status; it refuses every write once the task's context is done. */
  type Store = (Id, SubtaskStatus) -> bool

  /** One call of RunSubtask: the subtask, the statuses at that moment (its own is Doing), the sessions already running,
      and the wave it belongs to with the final flag it is told. */
  datatype Start = Start(id: Id, statuses: Statuses, running: set<Id>, wave: nat, isFinal: bool)

  datatype Wave = Wave(batch: seq<Id>, isFinal: bool)

  // ---- the ready set ----

  ghost predicate AllIn(deps: seq<Id>, s: set<Id>) {
    forall d :: d in deps ==> d in s
  }

  ghost predicate AnyIn(deps: seq<Id>, s: set<Id>) {
    exists d :: d in deps && d in s
  }

  method ScanDependencies(deps: seq<Id>, done: set<Id>, failed: set<Id>) returns (allResolved: bool, anyFailed: bool)
    ensures allResolved <==> AllIn(deps, done + failed)
    ensures allResolved ==> (anyFailed <==> AnyIn(deps, failed))
  {
    allResolved, anyFailed := true, false;
    for i := 0 to |deps|
      invariant allResolved && AllIn(deps[..i], done + failed)
      invariant anyFailed <==> AnyIn(deps[..i], failed)
    {
      var dep := deps[i];
      assert deps[..i + 1] == deps[..i] + [dep];
      if dep in failed {
        anyFailed := true;
      }
      if dep !in done && dep !in failed {
        allResolved := false;
        assert dep in deps;
        break;
      }
    }
    assert allResolved ==> deps[..|deps|] == deps;
  }

  lemma ScanFacts(deps: seq<Id>, done: set<Id>, failed: set<Id>, id: Id)
    ensures AllIn(deps, done) ==> AllIn(deps, done + failed)
    ensures AllIn(deps, done + failed) && !AnyIn(deps, failed) ==> AllIn(deps, done)
    ensures AnyIn(deps, failed) ==> AnyIn(deps, failed + {id})
    ensures !AnyIn(deps, {})
  {
  }

  /** The scan of the remaining subtasks, with some of them still unvisited. */
  ghost predicate ReadySoFar(table: Table, before: Statuses, done: set<Id>, failedBefore: set<Id>,
                             remainingBefore: set<Id>, unvisited: set<Id>, ready: seq<Id>, statuses: Statuses,
                             failed: set<Id>, remaining: set<Id>)
    requires before.Keys == table.Keys && remainingBefore <= table.Keys
  {
    && unvisited <= remaining <= remainingBefore
    && statuses.Keys == table.Keys
    && failedBefore <= failed && failed - failedBefore <= remainingBefore
    && remaining == remainingBefore - (failed - failedBefore)
    && (forall x :: x in table ==> statuses[x] == if x in failed && x !in failedBefore then Failed else before[x])
    && (forall x :: x in failed && x !in failedBefore ==> AnyIn(table[x].dependsOn, failed))
    && (failedBefore == {} ==> failed == {})
    && NoDuplicates(ready)
    && (forall x :: x in ready ==> x in remaining && x !in unvisited && AllIn(table[x].dependsOn, done))
    && (forall x :: x in remaining - unvisited ==>
          AllIn(table[x].dependsOn, done) && !AnyIn(table[x].dependsOn, failed) ==> x in ready)
  }

  /** One subtask scanned: failed with its dependency, ready, or left for a later wave. */
  lemma ScanOneMore(table: Table, before: Statuses, done: set<Id>, failedBefore: set<Id>, remainingBefore: set<Id>,
                    unvisited: set<Id>, ready: seq<Id>, statuses: Statuses, failed: set<Id>, remaining: set<Id>, id: Id)
    requires before.Keys == table.Keys && remainingBefore <= table.Keys && remainingBefore !! failedBefore
    requires ReadySoFar(table, before, done, failedBefore, remainingBefore, unvisited, ready, statuses, failed,
                        remaining)
    requires id in unvisited
    ensures var deps := table[id].dependsOn; var left := unvisited - {id};
      if !AllIn(deps, done + failed) then
        ReadySoFar(table, before, done, failedBefore, remainingBefore, left, ready, statuses, failed, remaining)
      else if AnyIn(deps, failed) then
        ReadySoFar(table, before, done, failedBefore, remainingBefore, left, ready,
                   statuses[id := Failed], failed + {id}, remaining - {id})
      else
        ReadySoFar(table, before, done, failedBefore, remainingBefore, left, ready + [id], statuses, failed, remaining)
  {
    hide AllIn, AnyIn;
    var deps := table[id].dependsOn;
    ScanFacts(deps, done, failed, id);
    if AllIn(deps, done + failed) && AnyIn(deps, failed) {
      forall x | x in table { ScanFacts(table[x].dependsOn, done, failed, id); }
    }
  }

  /** Collects the subtasks whose dependencies are all done, in whatever order the map is visited, and
      fails those that depend on a failed one. */
  method BuildReady(table: Table, before: Statuses, done: set<Id>, failedBefore: set<Id>, remainingBefore: set<Id>)
    returns (ready: seq<Id>, statuses: Statuses, failed: set<Id>, remaining: set<Id>)
    requires before.Keys == table.Keys && remainingBefore <= table.Keys && remainingBefore !! failedBefore
    ensures statuses.Keys == table.Keys
    ensures failedBefore <= failed && failed - failedBefore <= remainingBefore
    ensures remaining == remainingBefore - (failed - failedBefore)
    ensures forall x :: x in table ==> statuses[x] == if x in failed && x !in failedBefore then Failed else before[x]
    ensures forall x :: x in failed && x !in failedBefore ==> AnyIn(table[x].dependsOn, failed)
    ensures failedBefore == {} ==> failed == {}
    ensures NoDuplicates(ready)
    ensures forall x :: x in ready ==> x in remaining && AllIn(table[x].dependsOn, done)
    ensures forall x :: x in remaining && AllIn(table[x].dependsOn, done) && !AnyIn(table[x].dependsOn, failed) ==>
      x in ready
  {
    hide AllIn, AnyIn, NoDuplicates;
    ready, statuses, failed, remaining := [], before, failedBefore, remainingBefore;
    var unvisited := remainingBefore;
    assert NoDuplicates(ready) by { NoneIsDistinct(); }
    while unvisited != {}
      invariant ReadySoFar(table, before, done, failedBefore, remainingBefore, unvisited, ready, statuses, failed,
                           remaining)
      decreases unvisited
    {
      hide ReadySoFar;
      var id :| id in unvisited;
      VisitedInTable(table, before, done, failedBefore, remainingBefore, unvisited, ready, statuses, failed, remaining);
      ScanOneMore(table, before, done, failedBefore, remainingBefore, unvisited, ready, statuses, failed, remaining,
                  id);
      unvisited := unvisited - {id};
      var allResolved, anyFailed := ScanDependencies(table[id].dependsOn, done, failed);
      if !allResolved {
        continue;
      }
      if anyFailed {
        statuses := statuses[id := Failed];
        failed := failed + {id};
        remaining := remaining - {id};
        continue;
      }
      ready := ready + [id];
    }
  }

  lemma VisitedInTable(table: Table, before: Statuses, done: set<Id>, failedBefore: set<Id>, remainingBefore: set<Id>,
                       unvisited: set<Id>, ready: seq<Id>, statuses: Statuses, failed: set<Id>, remaining: set<Id>)
    requires before.Keys == table.Keys && remainingBefore <= table.Keys
    requires ReadySoFar(table, before, done, failedBefore, remainingBefore, unvisited, ready, statuses, failed,
                        remaining)
    ensures unvisited <= table.Keys
  {
  }

  lemma NoneIsDistinct()
    ensures NoDuplicates<Id>([])
  {
  }

  // ---- packing order: sort.Slice by OrderIdx ----

  function OrderOf(table: Table, x: Id): int {
    if x in table then table[x].orderIdx else 0
  }

  ghost predicate SortedByOrder(table: Table, s: seq<Id>) {
    forall i, j :: 0 <= i < j < |s| ==> OrderOf(table, s[i]) <= OrderOf(table, s[j])
  }

  method SortByOrder(table: Table, s: seq<Id>) returns (r: seq<Id>)
    requires NoDuplicates(s)
    ensures SortedByOrder(table, r) && NoDuplicates(r) && Elements(r) == Elements(s)
    ensures forall i, j :: 0 <= i < j < |r| && r[i] in table && r[j] in table ==>
      table[r[i]].orderIdx <= table[r[j]].orderIdx
  {
    hide OrderOf;
    r := [];
    for i := 0 to |s|
      invariant SortedByOrder(table, r) && NoDuplicates(r) && Elements(r) == Elements(s[..i])
    {
      var k := |r|;
      while k > 0 && OrderOf(table, r[k - 1]) > OrderOf(table, s[i])
        invariant 0 <= k <= |r|
        invariant forall m :: k <= m < |r| ==> OrderOf(table, r[m]) > OrderOf(table, s[i])
      {
        k := k - 1;
      }
      assert s[..i + 1] == s[..i] + [s[i]];
      assert s[i] !in Elements(s[..i]);
      InsertSorted(table, r, k, s[i]);
      InsertDistinct(r, k, s[i]);
      InsertElements(r, k, s[i]);
      r := r[..k] + [s[i]] + r[k..];
    }
    assert s[..|s|] == s;
    SortedMeans(table, r);
  }

  lemma SortedMeans(table: Table, r: seq<Id>)
    requires SortedByOrder(table, r)
    ensures forall i, j :: 0 <= i < j < |r| && r[i] in table && r[j] in table ==>
      table[r[i]].orderIdx <= table[r[j]].orderIdx
  {
    forall i, j | 0 <= i < j < |r| && r[i] in table && r[j] in table
      ensures table[r[i]].orderIdx <= table[r[j]].orderIdx
    {
      assert OrderOf(table, r[i]) <= OrderOf(table, r[j]);
    }
  }

  lemma InsertSorted(table: Table, r: seq<Id>, k: nat, x: Id)
    requires k <= |r| && SortedByOrder(table, r)
    requires forall m :: k <= m < |r| ==> OrderOf(table, r[m]) > OrderOf(table, x)
    requires k > 0 ==> OrderOf(table, r[k - 1]) <= OrderOf(table, x)
    ensures SortedByOrder(table, r[..k] + [x] + r[k..])
  {
    hide OrderOf;
    var s := r[..k] + [x] + r[k..];
    forall i, j | 0 <= i < j < |s|
      ensures OrderOf(table, s[i]) <= OrderOf(table, s[j])
    {
      InsertIndex(r, k, x, i);
      InsertIndex(r, k, x, j);
      if j == k && i < k - 1 {
        assert OrderOf(table, r[i]) <= OrderOf(table, r[k - 1]);
      }
    }
  }

  lemma InsertElements(r: seq<Id>, k: nat, x: Id)
    requires k <= |r|
    ensures Elements(r[..k] + [x] + r[k..]) == Elements(r) + {x}
  {
    assert r == r[..k] + r[k..];
  }

  lemma InsertIndex(r: seq<Id>, k: nat, x: Id, i: nat)
    requires k <= |r| && i <= |r|
    ensures (r[..k] + [x] + r[k..])[i] == if i < k then r[i] else if i == k then x else r[i - 1]
  {
  }

  lemma InsertDistinct(r: seq<Id>, k: nat, x: Id)
    requires k <= |r| && NoDuplicates(r) && x !in r
    ensures NoDuplicates(r[..k] + [x] + r[k..])
  {
    var s := r[..k] + [x] + r[k..];
    forall i, j | 0 <= i < j < |s|
      ensures s[i] != s[j]
    {
      InsertIndex(r, k, x, i);
      InsertIndex(r, k, x, j);
    }
  }

  // ---- path-disjoint batches ----

  ghost predicate Conflict(a: seq<string>, b: seq<string>) {
    exists x, y :: x in a && y in b && PathsIntersect(x, y)
  }

  /** No two members of the batch declare overlapping write paths; a member that declares none is alone. */
  ghost predicate IsDisjointBatch(table: Table, batch: seq<Id>) {
    && (forall x :: x in batch ==> x in table)
    && (|batch| > 1 ==> forall x :: x in batch && x in table ==> table[x].writePaths != [])
    && forall i, j :: 0 <= i < j < |batch| && batch[i] in table && batch[j] in table ==>
         !Conflict(table[batch[j]].writePaths, table[batch[i]].writePaths)
  }

  /** Why a ready subtask waits for the next wave: the batch touches everything, the subtask does, or their paths
      overlap. */
  ghost predicate HasToWait(table: Table, batch: seq<Id>, x: Id)
    requires x in table
  {
    || (|batch| == 1 && batch[0] in table && table[batch[0]].writePaths == [])
    || (table[x].writePaths == [] && batch != [])
    || exists b :: b in batch && b in table && Conflict(table[x].writePaths, table[b].writePaths)
  }

  /** The paths collected while packing: those of the whole batch; solo says its one member declares none. */
  ghost predicate Collected(table: Table, batch: seq<Id>, paths: seq<string>, solo: bool) {
    && IsDisjointBatch(table, batch)
    && (solo <==> |batch| == 1 && batch[0] in table && table[batch[0]].writePaths == [])
    && (forall p :: p in paths ==> exists b :: b in batch && b in table && p in table[b].writePaths)
    && (forall b, p :: b in batch && b in table && p in table[b].writePaths ==> p in paths)
    && (!solo && batch != [] ==> paths != [])
    && (batch == [] ==> paths == [])
  }

  lemma AdmitKeepsDisjoint(table: Table, batch: seq<Id>, paths: seq<string>, id: Id)
    requires id in table && Collected(table, batch, paths, false)
    requires !PathsIntersectAny(table[id].writePaths, paths)
    ensures Collected(table, batch + [id], paths + table[id].writePaths, table[id].writePaths == [])
  {
    var next := batch + [id];
    assert forall b :: b in next <==> b in batch || b == id;
    assert batch != [] ==> paths != [] && table[id].writePaths != [];
    assert |batch| == 1 ==> batch[0] in batch;
    forall i | 0 <= i < |batch|
      ensures !Conflict(table[id].writePaths, table[batch[i]].writePaths)
    {
      assert batch[i] in batch;
    }
  }

  lemma RefusedHasToWait(table: Table, batch: seq<Id>, paths: seq<string>, id: Id)
    requires id in table && Collected(table, batch, paths, false)
    requires PathsIntersectAny(table[id].writePaths, paths)
    ensures HasToWait(table, batch, id)
  {
    if table[id].writePaths == [] {
      assert paths[0] in paths;
    } else {
      var x, y :| x in table[id].writePaths && y in paths && PathsIntersect(x, y);
      var b :| b in batch && b in table && y in table[b].writePaths;
      assert Conflict(table[id].writePaths, table[b].writePaths);
    }
  }

  lemma StillHasToWait(table: Table, batch: seq<Id>, id: Id, x: Id)
    requires x in table && HasToWait(table, batch, x)
    requires !(|batch| == 1 && batch[0] in table && table[batch[0]].writePaths == [])
    ensures HasToWait(table, batch + [id], x)
  {
    if b :| b in batch && b in table && Conflict(table[x].writePaths, table[b].writePaths) {
      assert b in batch + [id];
    }
  }

  /** Greedy packing in order. */
  method PackBatch(table: Table, ready: seq<Id>) returns (batch: seq<Id>)
    requires NoDuplicates(ready) && forall x :: x in ready ==> x in table
    ensures NoDuplicates(batch) && forall x :: x in batch ==> x in ready
    ensures ready != [] ==> batch != [] && batch[0] == ready[0]
    ensures IsDisjointBatch(table, batch)
    ensures forall x :: x in ready && x !in batch ==> HasToWait(table, batch, x)
  {
    hide PathsIntersectAny, HasToWait;
    batch := [];
    var batchPaths: seq<string> := [];
    var conservativeTaken := false;
    for i := 0 to |ready|
      invariant NoDuplicates(batch) && forall x :: x in batch ==> x in ready[..i]
      invariant if i == 0 then batch == [] else batch != [] && batch[0] == ready[0]
      invariant Collected(table, batch, batchPaths, conservativeTaken)
      invariant forall x :: x in ready[..i] && x !in batch ==> HasToWait(table, batch, x)
    {
      var id := ready[i];
      assert ready[..i + 1] == ready[..i] + [id];
      if conservativeTaken {
        SoloMakesWait(table, batch);
        break;
      }
      if PathsIntersectAny(table[id].writePaths, batchPaths) {
        NothingOverlapsEmpty(table[id].writePaths, batchPaths);
        RefusedHasToWait(table, batch, batchPaths, id);
        continue;
      }
      AdmitKeepsDisjoint(table, batch, batchPaths, id);
      forall x | x in ready[..i] && x !in batch { StillHasToWait(table, batch, id, x); }
      assert id !in batch;
      batch := batch + [id];
      if table[id].writePaths == [] {
        conservativeTaken := true;
        assert batchPaths + [] == batchPaths;
        continue;
      }
      batchPaths := batchPaths + table[id].writePaths;
    }
    assert ready[..|ready|] == ready;
  }

  lemma SoloMakesWait(table: Table, batch: seq<Id>)
    requires |batch| == 1 && batch[0] in table && table[batch[0]].writePaths == []
    ensures forall x :: x in table ==> HasToWait(table, batch, x)
  {
  }

  lemma NothingOverlapsEmpty(group: seq<string>, paths: seq<string>)
    requires PathsIntersectAny(group, paths)
    ensures paths != []
  {
  }

  // ---- one wave ----

  function AfterTurn(o: Outcome): SubtaskStatus {
    match o
    case Success => Done
    case RunError => Failed
    case NoSlot => Pending
  }

  ghost function StartIds(starts: seq<Start>): seq<Id> {
    seq(|starts|, i requires 0 <= i < |starts| => starts[i].id)
  }

  /** A session opened during a wave: nobody outside the batch has changed, and a slot was free. */
  ghost predicate StartsInWave(s: Start, before: Statuses, batch: seq<Id>, slots: nat) {
    && s.statuses.Keys == before.Keys
    && s.id in batch && s.id in s.statuses && s.statuses[s.id] == Doing
    && (forall x :: x in before && x !in batch ==> s.statuses[x] == before[x])
    && |s.running| < slots && (forall x :: x in s.running ==> x in batch)
    && s.running == DoingBut(s.statuses, s.id)
  }

  /** Who is doing, apart from one. */
  ghost function DoingBut(statuses: Statuses, id: Id): set<Id> {
    set x | x in statuses && statuses[x] == Doing && x != id
  }

  /** All sessions of one wave carry its number and flag. */
  ghost predicate StampedWith(starts: seq<Start>, wave: nat, isFinal: bool) {
    forall i :: 0 <= i < |starts| ==> starts[i].wave == wave && starts[i].isFinal == isFinal
  }

  lemma NothingStamped(wave: nat, isFinal: bool)
    ensures StampedWith([], wave, isFinal)
  {
  }

  lemma StampedMore(starts: seq<Start>, wave: nat, isFinal: bool, start: Start)
    requires StampedWith(starts, wave, isFinal) && start.wave == wave && start.isFinal == isFinal
    ensures StampedWith(starts + [start], wave, isFinal)
  {
  }

  /** Midway through a wave: pending members have not finished, running ones hold a slot. */
  ghost predicate MidWave(before: Statuses, batch: seq<Id>, outcome: Id -> Outcome, pending: set<Id>, running: set<Id>,
                          statuses: Statuses) {
    && running <= pending
    && (forall x :: x in pending ==> x in batch && x in before && before[x] == Pending)
    && (forall x :: x in running ==> outcome(x) != NoSlot)
    && statuses.Keys == before.Keys && (forall x :: x in before ==> before[x] != Doing)
    && forall x :: x in before ==> statuses[x] == MidStatus(before[x], x, batch, outcome, pending, running)
  }

  ghost function MidStatus(was: SubtaskStatus, x: Id, batch: seq<Id>, outcome: Id -> Outcome, pending: set<Id>,
                           running: set<Id>): SubtaskStatus {
    if x in running then Doing else if x in pending || x !in batch then was else AfterTurn(outcome(x))
  }

  ghost predicate ErrorSoFar(batch: seq<Id>, outcome: Id -> Outcome, pending: set<Id>, err: Option<Outcome>) {
    && (err.None? <==> forall b :: b in batch && b !in pending ==> outcome(b) == Success)
    && (err.Some? ==> exists b :: b in batch && outcome(b) == err.value && err.value != Success)
  }

  /** The first error of a wave. */
  function ErrorAfter(err: Option<Outcome>, o: Outcome): Option<Outcome> {
    if err.None? && o != Success then Some(o) else err
  }

  /** Every session that got a slot has been logged once. */
  ghost predicate LoggedSoFar(before: Statuses, batch: seq<Id>, outcome: Id -> Outcome, slots: nat, waiting: set<Id>,
                              starts: seq<Start>) {
    && NoDuplicates(StartIds(starts))
    && (forall x :: x in StartIds(starts) <==> x in batch && x !in waiting && outcome(x) != NoSlot)
    && forall i :: 0 <= i < |starts| ==> StartsInWave(starts[i], before, batch, slots)
  }

  lemma BeginWave(before: Statuses, batch: seq<Id>, outcome: Id -> Outcome, slots: nat, pending: set<Id>)
    requires pending == set b | b in batch
    requires forall b :: b in batch ==> b in before && before[b] == Pending
    requires forall x :: x in before ==> before[x] != Doing
    ensures MidWave(before, batch, outcome, pending, {}, before)
    ensures ErrorSoFar(batch, outcome, pending, None)
    ensures LoggedSoFar(before, batch, outcome, slots, pending - {}, [])
  {
  }

  lemma StartStep(before: Statuses, batch: seq<Id>, outcome: Id -> Outcome, slots: nat, pending: set<Id>,
                  running: set<Id>, statuses: Statuses, starts: seq<Start>, start: Start)
    requires MidWave(before, batch, outcome, pending, running, statuses)
    requires LoggedSoFar(before, batch, outcome, slots, pending - running, starts)
    requires var id := start.id; id in pending && id !in running && outcome(id) != NoSlot && |running| < slots
    requires start.statuses == statuses[start.id := Doing] && start.running == running
    ensures MidWave(before, batch, outcome, pending, running + {start.id}, start.statuses)
    ensures LoggedSoFar(before, batch, outcome, slots, pending - (running + {start.id}), starts + [start])
  {
    hide LoggedSoFar, StartsInWave, MidWave;
    var id := start.id;
    MidStart(before, batch, outcome, slots, pending, running, statuses, start);
    LogStart(before, batch, outcome, slots, pending - running, starts, start);
    assert pending - running - {id} == pending - (running + {id});
  }

  lemma MidStart(before: Statuses, batch: seq<Id>, outcome: Id -> Outcome, slots: nat, pending: set<Id>,
                 running: set<Id>, statuses: Statuses, start: Start)
    requires MidWave(before, batch, outcome, pending, running, statuses)
    requires var id := start.id; id in pending && id !in running && outcome(id) != NoSlot && |running| < slots
    requires start.statuses == statuses[start.id := Doing] && start.running == running
    ensures MidWave(before, batch, outcome, pending, running + {start.id}, start.statuses)
    ensures StartsInWave(start, before, batch, slots)
  {
    RunningAreDoing(before, batch, outcome, pending, running, statuses);
    assert DoingBut(start.statuses, start.id) == running;
  }

  /** The sessions that hold a slot are exactly the subtasks that are doing. */
  lemma RunningAreDoing(before: Statuses, batch: seq<Id>, outcome: Id -> Outcome, pending: set<Id>, running: set<Id>,
                        statuses: Statuses)
    requires MidWave(before, batch, outcome, pending, running, statuses)
    ensures forall x :: x in running <==> x in statuses && statuses[x] == Doing
  {
    forall x | x in running ensures x in before { assert x in pending; }
  }

  lemma LogStart(before: Statuses, batch: seq<Id>, outcome: Id -> Outcome, slots: nat, waiting: set<Id>,
                 starts: seq<Start>, start: Start)
    requires LoggedSoFar(before, batch, outcome, slots, waiting, starts)
    requires start.id in waiting && outcome(start.id) != NoSlot && StartsInWave(start, before, batch, slots)
    ensures LoggedSoFar(before, batch, outcome, slots, waiting - {start.id}, starts + [start])
  {
    assert StartIds(starts + [start]) == StartIds(starts) + [start.id];
    assert start.id !in StartIds(starts);
  }

  lemma FinishStep(before: Statuses, batch: seq<Id>, outcome: Id -> Outcome, slots: nat, pending: set<Id>,
                   running: set<Id>, statuses: Statuses, starts: seq<Start>, err: Option<Outcome>, id: Id)
    requires MidWave(before, batch, outcome, pending, running, statuses)
    requires LoggedSoFar(before, batch, outcome, slots, pending - running, starts)
    requires ErrorSoFar(batch, outcome, pending, err)
    requires id in pending && (id in running || outcome(id) == NoSlot)
    ensures MidWave(before, batch, outcome, pending - {id}, running - {id}, statuses[id := AfterTurn(outcome(id))])
    ensures LoggedSoFar(before, batch, outcome, slots, pending - {id} - (running - {id}), starts)
    ensures ErrorSoFar(batch, outcome, pending - {id}, ErrorAfter(err, outcome(id)))
  {
    hide LoggedSoFar, ErrorSoFar, AfterTurn;
    ErrorStep(batch, outcome, pending, err, id);
    if id in running {
      assert pending - {id} - (running - {id}) == pending - running;
    } else {
      assert pending - {id} - (running - {id}) == pending - running - {id};
      NoSlotIsNotLogged(before, batch, outcome, slots, pending - running, starts, id);
    }
  }

  lemma NoSlotIsNotLogged(before: Statuses, batch: seq<Id>, outcome: Id -> Outcome, slots: nat, waiting: set<Id>,
                          starts: seq<Start>, id: Id)
    requires LoggedSoFar(before, batch, outcome, slots, waiting, starts) && outcome(id) == NoSlot
    ensures LoggedSoFar(before, batch, outcome, slots, waiting - {id}, starts)
  {
  }

  lemma ErrorStep(batch: seq<Id>, outcome: Id -> Outcome, pending: set<Id>, err: Option<Outcome>, id: Id)
    requires ErrorSoFar(batch, outcome, pending, err) && id in batch && id in pending
    ensures ErrorSoFar(batch, outcome, pending - {id}, ErrorAfter(err, outcome(id)))
  {
  }

  lemma EndWave(before: Statuses, batch: seq<Id>, outcome: Id -> Outcome, statuses: Statuses)
    requires MidWave(before, batch, outcome, {}, {}, statuses)
    ensures statuses.Keys == before.Keys
    ensures forall x :: x in before ==> statuses[x] == if x in batch then AfterTurn(outcome(x)) else before[x]
  {
  }

  lemma RunningArePending(before: Statuses, batch: seq<Id>, outcome: Id -> Outcome, pending: set<Id>, running: set<Id>,
                          statuses: Statuses)
    requires MidWave(before, batch, outcome, pending, running, statuses)
    ensures running <= pending && pending <= statuses.Keys
    ensures |running| <= |pending|
  {
    assert |pending| == |running| + |pending - running|;
  }

  // ---- the stored rows ----

  /** What the row of x reads once its session is open: the update to doing may be refused. */
  function StoredDoing(was: SubtaskStatus, x: Id, accepts: Store): SubtaskStatus {
    if accepts(x, Doing) then Doing else was
  }

  /** What the row of x reads after its turn. Without a slot nothing is written. */
  function StoredTurn(was: SubtaskStatus, x: Id, o: Outcome, accepts: Store): SubtaskStatus {
    if o == NoSlot then was
    else if accepts(x, AfterTurn(o)) then AfterTurn(o)
    else StoredDoing(was, x, accepts)
  }

  ghost function MidStored(was: SubtaskStatus, x: Id, batch: seq<Id>, outcome: Id -> Outcome, accepts: Store,
                           pending: set<Id>, running: set<Id>): SubtaskStatus {
    if x in running then StoredDoing(was, x, accepts)
    else if x in pending || x !in batch then was
    else StoredTurn(was, x, outcome(x), accepts)
  }

  ghost predicate MidStore(before: Statuses, batch: seq<Id>, outcome: Id -> Outcome, accepts: Store, pending: set<Id>,
                           running: set<Id>, stored: Statuses) {
    && running <= pending && (forall x :: x in pending ==> x in batch && x in before)
    && (forall x :: x in running ==> outcome(x) != NoSlot)
    && stored.Keys == before.Keys
    && forall x :: x in before ==> stored[x] == MidStored(before[x], x, batch, outcome, accepts, pending, running)
  }

  lemma StoreFinish(before: Statuses, batch: seq<Id>, outcome: Id -> Outcome, accepts: Store, pending: set<Id>,
                    running: set<Id>, stored: Statuses, id: Id, after: Statuses)
    requires MidStore(before, batch, outcome, accepts, pending, running, stored)
    requires id in pending && (id in running || outcome(id) == NoSlot)
    requires after == if outcome(id) != NoSlot && accepts(id, AfterTurn(outcome(id)))
                      then stored[id := AfterTurn(outcome(id))] else stored
    ensures MidStore(before, batch, outcome, accepts, pending - {id}, running - {id}, after)
  {
  }

  /** Everything RunWave keeps while sessions are in flight. */
  ghost predicate InFlight(before: Statuses, storedBefore: Statuses, batch: seq<Id>, outcome: Id -> Outcome, slots: nat,
                           accepts: Store, pending: set<Id>, running: set<Id>, statuses: Statuses, stored: Statuses,
                           err: Option<Outcome>, starts: seq<Start>) {
    && MidWave(before, batch, outcome, pending, running, statuses)
    && ErrorSoFar(batch, outcome, pending, err)
    && LoggedSoFar(before, batch, outcome, slots, pending - running, starts)
    && MidStore(storedBefore, batch, outcome, accepts, pending, running, stored)
  }

  lemma InFlightStart(before: Statuses, storedBefore: Statuses, batch: seq<Id>, outcome: Id -> Outcome, slots: nat,
                      accepts: Store, pending: set<Id>, running: set<Id>, statuses: Statuses, stored: Statuses,
                      err: Option<Outcome>, starts: seq<Start>, start: Start)
    requires InFlight(before, storedBefore, batch, outcome, slots, accepts, pending, running, statuses, stored, err,
                      starts)
    requires start.id in pending && start.id !in running && outcome(start.id) != NoSlot && |running| < slots
    requires start.statuses == statuses[start.id := Doing] && start.running == running
    ensures start.id in stored
    ensures InFlight(before, storedBefore, batch, outcome, slots, accepts, pending, running + {start.id},
                     start.statuses,
                     stored[start.id := StoredDoing(stored[start.id], start.id, accepts)], err, starts + [start])
  {
    hide MidWave, ErrorSoFar, LoggedSoFar, MidStore, StoredDoing;
    StartStep(before, batch, outcome, slots, pending, running, statuses, starts, start);
    StoreStart(storedBefore, batch, outcome, accepts, pending, running, stored, start.id);
  }

  lemma InFlightFinish(before: Statuses, storedBefore: Statuses, batch: seq<Id>, outcome: Id -> Outcome, slots: nat,
                       accepts: Store, pending: set<Id>, running: set<Id>, statuses: Statuses, stored: Statuses,
                       err: Option<Outcome>, starts: seq<Start>, id: Id, storedAfter: Statuses)
    requires InFlight(before, storedBefore, batch, outcome, slots, accepts, pending, running, statuses, stored, err,
                      starts)
    requires id in pending && (id in running || outcome(id) == NoSlot)
    requires storedAfter == if outcome(id) != NoSlot && accepts(id, AfterTurn(outcome(id)))
                            then stored[id := AfterTurn(outcome(id))] else stored
    ensures InFlight(before, storedBefore, batch, outcome, slots, accepts, pending - {id}, running - {id},
                     statuses[id := AfterTurn(outcome(id))], storedAfter, ErrorAfter(err, outcome(id)), starts)
  {
    hide MidWave, ErrorSoFar, LoggedSoFar, MidStore, ErrorAfter, AfterTurn;
    FinishStep(before, batch, outcome, slots, pending, running, statuses, starts, err, id);
    StoreFinish(storedBefore, batch, outcome, accepts, pending, running, stored, id, storedAfter);
  }

  lemma InFlightFacts(before: Statuses, storedBefore: Statuses, batch: seq<Id>, outcome: Id -> Outcome, slots: nat,
                      accepts: Store, pending: set<Id>, running: set<Id>, statuses: Statuses, stored: Statuses,
                      err: Option<Outcome>, starts: seq<Start>)
    requires InFlight(before, storedBefore, batch, outcome, slots, accepts, pending, running, statuses, stored, err,
                      starts)
    ensures running <= pending && pending <= statuses.Keys && |running| <= |pending|
    ensures stored.Keys == storedBefore.Keys
  {
    hide ErrorSoFar, LoggedSoFar;
    RunningArePending(before, batch, outcome, pending, running, statuses);
  }

  /** Runs the batch concurrently with at most slots sessions at a time, in any interleaving of starts and finishes. */
  method RunWave(before: Statuses, batch: seq<Id>, outcome: Id -> Outcome, slots: nat, accepts: Store,
                 storedBefore: Statuses, ghost wave: nat, isFinal: bool)
    returns (statuses: Statuses, err: Option<Outcome>, stored: Statuses, ghost starts: seq<Start>)
    requires slots > 0 && storedBefore.Keys == before.Keys
    requires forall b :: b in batch ==> b in before && before[b] == Pending
    requires forall x :: x in before ==> before[x] != Doing
    ensures StampedWith(starts, wave, isFinal)
    ensures stored.Keys == before.Keys
    ensures forall x :: x in before ==>
      stored[x] == if x in batch then StoredTurn(storedBefore[x], x, outcome(x), accepts) else storedBefore[x]
    ensures statuses.Keys == before.Keys
    ensures forall x :: x in before ==> statuses[x] == if x in batch then AfterTurn(outcome(x)) else before[x]
    ensures ErrorSoFar(batch, outcome, {}, err)
    ensures LoggedSoFar(before, batch, outcome, slots, {}, starts)
  {
    hide InFlight, AfterTurn, StoredTurn, StoredDoing, ErrorAfter, ErrorSoFar, LoggedSoFar, MidWave, MidStore,
         StampedWith;
    statuses, err, stored, starts := before, None, storedBefore, [];
    NothingStamped(wave, isFinal);
    var pending: set<Id>, running: set<Id> := set b | b in batch, {};
    TakeOff(before, storedBefore, batch, outcome, slots, accepts, pending);
    while pending != {}
      invariant |running| <= slots && StampedWith(starts, wave, isFinal)
      invariant InFlight(before, storedBefore, batch, outcome, slots, accepts, pending, running, statuses, stored,
                         err, starts)
      decreases 2 * |pending| - |running|
    {
      InFlightFacts(before, storedBefore, batch, outcome, slots, accepts, pending, running, statuses, stored, err,
                    starts);
      var id :| id in pending;
      if id !in running && outcome(id) != NoSlot && |running| < slots {
        ghost var start := Start(id, statuses[id := Doing], running, wave, isFinal);
        InFlightStart(before, storedBefore, batch, outcome, slots, accepts, pending, running, statuses, stored, err,
                      starts, start);
        statuses := statuses[id := Doing];
        stored := stored[id := StoredDoing(stored[id], id, accepts)];
        StampedMore(starts, wave, isFinal, start);
        starts := starts + [start];
        running := running + {id};
        continue;
      }
      if id !in running && outcome(id) != NoSlot {
        id :| id in running;
      }
      ghost var storedWas := stored;
      if outcome(id) != NoSlot && accepts(id, AfterTurn(outcome(id))) {
        stored := stored[id := AfterTurn(outcome(id))];
      }
      InFlightFinish(before, storedBefore, batch, outcome, slots, accepts, pending, running, statuses, storedWas, err,
                     starts,
                     id, stored);
      statuses := statuses[id := AfterTurn(outcome(id))];
      pending, running := pending - {id}, running - {id};
      err := ErrorAfter(err, outcome(id));
    }
    InFlightFacts(before, storedBefore, batch, outcome, slots, accepts, pending, running, statuses, stored, err,
                  starts);
    assert running == {};
    Landed(before, storedBefore, batch, outcome, slots, accepts, statuses, stored, err, starts);
  }

  lemma TakeOff(before: Statuses, storedBefore: Statuses, batch: seq<Id>, outcome: Id -> Outcome, slots: nat,
                accepts: Store, pending: set<Id>)
    requires pending == (set b | b in batch) && storedBefore.Keys == before.Keys
    requires forall b :: b in batch ==> b in before && before[b] == Pending
    requires forall x :: x in before ==> before[x] != Doing
    ensures InFlight(before, storedBefore, batch, outcome, slots, accepts, pending, {}, before, storedBefore, None, [])
  {
    hide MidWave, ErrorSoFar, LoggedSoFar, MidStore;
    BeginWave(before, batch, outcome, slots, pending);
    StoreBegins(storedBefore, batch, outcome, accepts, pending);
  }

  lemma Landed(before: Statuses, storedBefore: Statuses, batch: seq<Id>, outcome: Id -> Outcome, slots: nat,
               accepts: Store, statuses: Statuses, stored: Statuses, err: Option<Outcome>, starts: seq<Start>)
    requires storedBefore.Keys == before.Keys
    requires InFlight(before, storedBefore, batch, outcome, slots, accepts, {}, {}, statuses, stored, err, starts)
    ensures statuses.Keys == before.Keys == stored.Keys
    ensures forall x :: x in before ==> statuses[x] == if x in batch then AfterTurn(outcome(x)) else before[x]
    ensures forall x :: x in before ==>
      stored[x] == if x in batch then StoredTurn(storedBefore[x], x, outcome(x), accepts) else storedBefore[x]
    ensures ErrorSoFar(batch, outcome, {}, err) && LoggedSoFar(before, batch, outcome, slots, {}, starts)
  {
    hide MidWave, ErrorSoFar, LoggedSoFar, MidStore, AfterTurn, StoredTurn;
    var none: set<Id> := {};
    assert none - none == {};
    EndWave(before, batch, outcome, statuses);
    StoreEnds(storedBefore, batch, outcome, accepts, stored);
  }

  lemma StoreBegins(before: Statuses, batch: seq<Id>, outcome: Id -> Outcome, accepts: Store, pending: set<Id>)
    requires pending == (set b | b in batch) && forall b :: b in batch ==> b in before
    ensures MidStore(before, batch, outcome, accepts, pending, {}, before)
  {
  }

  lemma StoreStart(before: Statuses, batch: seq<Id>, outcome: Id -> Outcome, accepts: Store, pending: set<Id>,
                   running: set<Id>, stored: Statuses, id: Id)
    requires MidStore(before, batch, outcome, accepts, pending, running, stored)
    requires id in pending && id !in running && outcome(id) != NoSlot
    ensures id in stored
    ensures var after := stored[id := StoredDoing(stored[id], id, accepts)];
      MidStore(before, batch, outcome, accepts, pending, running + {id}, after)
  {
  }

  lemma StoreEnds(before: Statuses, batch: seq<Id>, outcome: Id -> Outcome, accepts: Store, stored: Statuses)
    requires MidStore(before, batch, outcome, accepts, {}, {}, stored)
    ensures stored.Keys == before.Keys
    ensures forall x :: x in before ==>
      stored[x] == if x in batch then StoredTurn(before[x], x, outcome(x), accepts) else before[x]
  {
  }

  // ---- the log of sessions ----

  /** When the session was opened its dependencies were done, and no running session may write its files. */
  ghost predicate Justified(table: Table, slots: nat, s: Start) {
    && s.id in table && s.statuses.Keys == table.Keys && s.statuses[s.id] == Doing
    && (forall d :: d in table[s.id].dependsOn ==> d in table && s.statuses[d] == Done)
    && |s.running| < slots && s.running == DoingBut(s.statuses, s.id)
    && forall r :: r in s.running ==> r in table && SafeTogether(table[s.id].writePaths, table[r].writePaths)
  }

  ghost predicate SafeTogether(a: seq<string>, b: seq<string>) {
    a != [] && b != [] && !Conflict(a, b) && !Conflict(b, a)
  }

  ghost predicate LogOk(table: Table, slots: nat, starts: seq<Start>) {
    && NoDuplicates(StartIds(starts))
    && (forall i :: 0 <= i < |starts| ==> Justified(table, slots, starts[i]))
    && forall i, d :: 0 <= i < |starts| && d in Dependencies(table, starts[i].id) ==> d in StartIds(starts)[..i]
  }

  function Dependencies(table: Table, id: Id): seq<Id> {
    if id in table then table[id].dependsOn else []
  }

  lemma ConflictSymmetric(a: seq<string>, b: seq<string>)
    requires Conflict(a, b)
    ensures Conflict(b, a)
  {
    var x, y :| x in a && y in b && PathsIntersect(x, y);
    assert PathsIntersect(y, x);
  }

  lemma BatchSafeTogether(table: Table, batch: seq<Id>, x: Id, y: Id)
    requires IsDisjointBatch(table, batch) && x in batch && y in batch && x != y
    ensures x in table && y in table && SafeTogether(table[x].writePaths, table[y].writePaths)
  {
    hide PathsIntersect, Conflict;
    var i :| 0 <= i < |batch| && batch[i] == x;
    var j :| 0 <= j < |batch| && batch[j] == y;
    var a, b := table[x].writePaths, table[y].writePaths;
    if Conflict(a, b) { ConflictSymmetric(a, b); }
    if Conflict(b, a) { ConflictSymmetric(b, a); }
  }

  lemma JustifyStart(table: Table, slots: nat, before: Statuses, batch: seq<Id>, s: Start)
    requires before.Keys == table.Keys && IsDisjointBatch(table, batch)
    requires forall b, d :: b in batch && d in Dependencies(table, b) ==> d in table && before[d] == Done
    requires forall b :: b in batch ==> before[b] == Pending
    requires StartsInWave(s, before, batch, slots)
    ensures Justified(table, slots, s)
  {
    hide Conflict, SafeTogether, IsDisjointBatch;
    forall r | r in s.running { BatchSafeTogether(table, batch, s.id, r); }
    BatchInTable(table, batch, s.id);
    forall d | d in table[s.id].dependsOn
      ensures d in table && s.statuses[d] == Done
    {
      assert d in Dependencies(table, s.id);
    }
  }

  lemma BatchInTable(table: Table, batch: seq<Id>, x: Id)
    requires IsDisjointBatch(table, batch) && x in batch
    ensures x in table
  {
  }

  lemma StartIdsConcat(a: seq<Start>, b: seq<Start>)
    ensures StartIds(a + b) == StartIds(a) + StartIds(b)
  {
  }

  /** A wave whose members depend only on finished subtasks extends the log correctly. */
  lemma ExtendLog(table: Table, slots: nat, starts: seq<Start>, before: Statuses, batch: seq<Id>, wave: seq<Start>)
    requires LogOk(table, slots, starts)
    requires before.Keys == table.Keys && IsDisjointBatch(table, batch)
    requires forall b, d :: b in batch && d in Dependencies(table, b) ==>
      d in table && before[d] == Done && d in StartIds(starts)
    requires forall b :: b in batch ==> before[b] == Pending && b !in StartIds(starts)
    requires NoDuplicates(StartIds(wave))
    requires forall i :: 0 <= i < |wave| ==> StartsInWave(wave[i], before, batch, slots)
    ensures LogOk(table, slots, starts + wave)
  {
    hide Justified, IsDisjointBatch, Conflict;
    var all, ids := starts + wave, StartIds(starts + wave);
    StartIdsConcat(starts, wave);
    forall i | 0 <= i < |all|
      ensures Justified(table, slots, all[i])
    {
      if i >= |starts| { JustifyStart(table, slots, before, batch, wave[i - |starts|]); }
    }
    forall i | 0 <= i < |wave| ensures wave[i].id in batch { assert StartsInWave(wave[i], before, batch, slots); }
    ConcatStartsDistinct(starts, wave, batch);
    forall i, d | 0 <= i < |all| && d in Dependencies(table, all[i].id)
      ensures d in ids[..i]
    {
      if i < |starts| {
        assert ids[..i] == StartIds(starts)[..i];
      } else {
        assert ids[..i] == StartIds(starts) + StartIds(wave)[..i - |starts|];
      }
    }
  }

  lemma ConcatStartsDistinct(starts: seq<Start>, wave: seq<Start>, batch: seq<Id>)
    requires NoDuplicates(StartIds(starts)) && NoDuplicates(StartIds(wave))
    requires forall i :: 0 <= i < |wave| ==> wave[i].id in batch
    requires forall b :: b in batch ==> b !in StartIds(starts)
    ensures NoDuplicates(StartIds(starts + wave))
  {
    StartIdsConcat(starts, wave);
    forall i, j | 0 <= i < |starts| && 0 <= j < |wave|
      ensures starts[i].id != wave[j].id
    {
      assert StartIds(starts)[i] in StartIds(starts);
    }
  }

  // ---- bookkeeping after a wave ----

  ghost function EndedAs(statuses: Statuses, batch: seq<Id>, isFailed: bool): set<Id>
    requires forall b :: b in batch ==> b in statuses
  {
    set b | b in batch && (statuses[b] == Failed) == isFailed
  }

  method Reconcile(statuses: Statuses, batch: seq<Id>, doneBefore: set<Id>, failedBefore: set<Id>,
                   remainingBefore: set<Id>)
    returns (done: set<Id>, failed: set<Id>, remaining: set<Id>)
    requires forall b :: b in batch ==> b in statuses
    ensures remaining == remainingBefore - Elements(batch)
    ensures failed == failedBefore + EndedAs(statuses, batch, true)
    ensures done == doneBefore + EndedAs(statuses, batch, false)
  {
    done, failed, remaining := doneBefore, failedBefore, remainingBefore;
    for i := 0 to |batch|
      invariant remaining == remainingBefore - Elements(batch[..i])
      invariant failed == failedBefore + EndedAs(statuses, batch[..i], true)
      invariant done == doneBefore + EndedAs(statuses, batch[..i], false)
    {
      assert batch[..i + 1] == batch[..i] + [batch[i]];
      remaining := remaining - {batch[i]};
      if statuses[batch[i]] == Failed {
        failed := failed + {batch[i]};
      } else {
        done := done + {batch[i]};
      }
    }
    assert batch[..|batch|] == batch;
  }

  /** After an error: everything still remaining that has not finished is marked failed. */
  method CancelRemaining(before: Statuses, remaining: set<Id>, storedBefore: Statuses)
    returns (statuses: Statuses, stored: Statuses)
    requires remaining <= before.Keys && storedBefore.Keys == before.Keys
    ensures statuses.Keys == before.Keys && stored.Keys == before.Keys
    ensures forall x :: x in before ==>
      statuses[x] == if x in remaining && before[x] != Done then Failed else before[x]
    ensures forall x :: x in before ==>
      stored[x] == if x in remaining && before[x] != Done && before[x] != Failed then Failed else storedBefore[x]
  {
    statuses, stored := before, storedBefore;
    var rest := remaining;
    while rest != {}
      invariant rest <= remaining && statuses.Keys == before.Keys && stored.Keys == before.Keys
      invariant forall x :: x in before ==>
        statuses[x] == if x in remaining && x !in rest && before[x] != Done then Failed else before[x]
      invariant forall x :: x in before ==>
        stored[x] == if x in remaining && x !in rest && before[x] != Done && before[x] != Failed
                     then Failed else storedBefore[x]
      decreases rest
    {
      var id :| id in rest;
      rest := rest - {id};
      if statuses[id] == Done || statuses[id] == Failed {
        continue;
      }
      statuses, stored := statuses[id := Failed], stored[id := Failed];
    }
  }

  /** The row of a subtask after the reset at the start of a run. */
  function StoredReset(was: SubtaskStatus, x: Id, accepts: Store): SubtaskStatus {
    if was != Pending && !accepts(x, Pending) then was else Pending
  }

  method ResetStatuses(table: Table, accepts: Store) returns (statuses: Statuses, stored: Statuses)
    ensures statuses.Keys == table.Keys && forall x :: x in table ==> statuses[x] == Pending
    ensures stored.Keys == table.Keys
    ensures forall x :: x in table ==> stored[x] == StoredReset(table[x].status, x, accepts)
  {
    statuses := map x | x in table :: table[x].status;
    stored := statuses;
    var rest := table.Keys;
    while rest != {}
      invariant rest <= table.Keys && statuses.Keys == table.Keys && stored.Keys == table.Keys
      invariant forall x :: x in table ==> statuses[x] == if x in rest then table[x].status else Pending
      invariant forall x :: x in table ==>
        stored[x] == if x in rest then table[x].status else StoredReset(table[x].status, x, accepts)
      decreases rest
    {
      var id :| id in rest;
      rest := rest - {id};
      if statuses[id] != Pending {
        statuses := statuses[id := Pending];
        if accepts(id, Pending) {
          stored := stored[id := Pending];
        }
      }
    }
  }

  // ---- the loop ----

  /** The members of all waves, in order. */
  ghost function Members(waves: seq<Wave>): seq<Id> {
    if waves == [] then [] else Members(waves[..|waves| - 1]) + waves[|waves| - 1].batch
  }

  /** The waves take the subtasks out of remaining one by one; each is a path-disjoint batch, and only a last wave that
      leaves nothing is flagged final. */
  ghost predicate WavesOk(table: Table, waves: seq<Wave>, remaining: set<Id>) {
    && |waves| + |remaining| <= |table.Keys| && remaining <= table.Keys
    && NoDuplicates(Members(waves)) && Elements(Members(waves)) == table.Keys - remaining
    && forall i :: 0 <= i < |waves| ==>
         && IsDisjointBatch(table, waves[i].batch)
         && (waves[i].isFinal <==> i == |waves| - 1 && remaining == {})
  }

  ghost predicate FitsItsWave(s: Start, waves: seq<Wave>) {
    s.wave < |waves| && s.id in waves[s.wave].batch && s.isFinal == waves[s.wave].isFinal
  }

  /** Each session belongs to its wave and is told that wave's flag; the waves come one after the other. */
  ghost predicate StartsFit(starts: seq<Start>, waves: seq<Wave>) {
    && (forall i :: 0 <= i < |starts| ==> FitsItsWave(starts[i], waves))
    && forall i, j :: 0 <= i < j < |starts| ==> starts[i].wave <= starts[j].wave
  }

  lemma StartsFitStep(starts: seq<Start>, waves: seq<Wave>, more: seq<Start>, wave: Wave)
    requires StartsFit(starts, waves) && StampedWith(more, |waves|, wave.isFinal)
    requires forall i :: 0 <= i < |more| ==> more[i].id in wave.batch
    ensures StartsFit(starts + more, waves + [wave])
  {
    var all, longer := starts + more, waves + [wave];
    assert longer[|waves|] == wave;
    forall i | 0 <= i < |all|
      ensures FitsItsWave(all[i], longer)
    {
      if i < |starts| {
        assert FitsItsWave(starts[i], waves);
        assert longer[all[i].wave] == waves[all[i].wave];
      } else {
        assert all[i] == more[i - |starts|];
      }
    }
  }

  lemma WaveIds(before: Statuses, batch: seq<Id>, outcome: Id -> Outcome, slots: nat, starts: seq<Start>)
    requires LoggedSoFar(before, batch, outcome, slots, {}, starts)
    ensures forall i :: 0 <= i < |starts| ==> starts[i].id in batch
  {
    forall i | 0 <= i < |starts| ensures starts[i].id in batch { assert StartsInWave(starts[i], before, batch, slots); }
  }

  lemma MembersSnoc(waves: seq<Wave>, wave: Wave)
    ensures Members(waves + [wave]) == Members(waves) + wave.batch
  {
    assert (waves + [wave])[..|waves|] == waves;
  }

  /** The rows between two waves. */
  ghost predicate StoredBetween(table: Table, outcome: Id -> Outcome, accepts: Store, remaining: set<Id>,
                                stored: Statuses) {
    && stored.Keys == table.Keys
    && forall x :: x in table ==>
         stored[x] == if x in remaining then StoredReset(table[x].status, x, accepts)
                      else StoredRun(table, outcome, accepts, x)
  }

  /** The row of a subtask that had its turn. */
  ghost function StoredRun(table: Table, outcome: Id -> Outcome, accepts: Store, x: Id): SubtaskStatus
    requires x in table
  {
    StoredTurn(StoredReset(table[x].status, x, accepts), x, outcome(x), accepts)
  }

  /** The rows after the run: those that had a turn as their updates left them; after an error the others failed. */
  ghost predicate StoredExit(table: Table, outcome: Id -> Outcome, accepts: Store, waves: seq<Wave>, failed: bool,
                             stored: Statuses) {
    && stored.Keys == table.Keys
    && forall x :: x in table ==>
         stored[x] == if x in Members(waves) then StoredRun(table, outcome, accepts, x)
                      else if failed then Failed
                      else StoredReset(table[x].status, x, accepts)
  }

  lemma StoredStep(table: Table, outcome: Id -> Outcome, accepts: Store, remaining: set<Id>, before: Statuses,
                   batch: seq<Id>, after: Statuses)
    requires StoredBetween(table, outcome, accepts, remaining, before) && remaining <= table.Keys
    requires forall b :: b in batch ==> b in remaining
    requires after.Keys == before.Keys
    requires forall x :: x in before ==>
      after[x] == if x in batch then StoredTurn(before[x], x, outcome(x), accepts) else before[x]
    ensures StoredBetween(table, outcome, accepts, remaining - Elements(batch), after)
  {
    hide StoredTurn, StoredReset;
  }

  lemma StoredAtEnd(table: Table, outcome: Id -> Outcome, accepts: Store, waves: seq<Wave>, remaining: set<Id>,
                    stored: Statuses, final: Statuses, failed: bool)
    requires StoredBetween(table, outcome, accepts, remaining, stored) && WavesOk(table, waves, remaining)
    requires final.Keys == table.Keys
    requires forall x :: x in table ==> final[x] == if failed && x in remaining then Failed else stored[x]
    ensures StoredExit(table, outcome, accepts, waves, failed, final)
  {
    hide IsDisjointBatch;
    forall x | x in table
      ensures x in Members(waves) <==> x !in remaining
    {
      assert x in Elements(Members(waves)) <==> x !in remaining;
    }
  }

  /** Between two waves nothing is running or failed: the finished subtasks are done, the others pending. */
  ghost predicate Between(table: Table, outcome: Id -> Outcome, slots: nat, statuses: Statuses, done: set<Id>,
                          remaining: set<Id>, starts: seq<Start>) {
    && remaining <= table.Keys && done == table.Keys - remaining
    && statuses.Keys == table.Keys
    && (forall x :: x in table ==> statuses[x] == if x in remaining then Pending else Done)
    && (forall x :: x in done ==> outcome(x) == Success)
    && LogOk(table, slots, starts)
    && (forall x :: x in done <==> x in StartIds(starts))
  }

  /** Nil error: what ran is done, and whatever is still pending waits for something that will never be done. */
  ghost predicate CleanExit(table: Table, statuses: Statuses, starts: seq<Start>) {
    && statuses.Keys == table.Keys
    && (forall x :: x in table ==> statuses[x] == if x in StartIds(starts) then Done else Pending)
    && (forall x :: x in StartIds(starts) ==> x in table)
    && forall x :: x in table && statuses[x] == Pending ==>
         exists d :: d in Dependencies(table, x) && d !in StartIds(starts)
  }

  /** Error: nothing is left running, and pending are exactly those of the last wave that never got a slot. */
  ghost predicate ErrorExit(table: Table, outcome: Id -> Outcome, statuses: Statuses, starts: seq<Start>,
                            waves: seq<Wave>, err: Outcome) {
    && statuses.Keys == table.Keys && |waves| > 0 && err != Success
    && (exists b :: b in waves[|waves| - 1].batch && outcome(b) == err)
    && (forall x :: x in table ==> statuses[x] != Doing)
    && (forall x :: x in table ==>
          (statuses[x] == Pending <==> x in waves[|waves| - 1].batch && outcome(x) == NoSlot))
    && (forall x :: x in table ==> (statuses[x] == Done <==> x in StartIds(starts) && outcome(x) == Success))
  }

  lemma BatchSize(batch: seq<Id>, remaining: set<Id>)
    requires NoDuplicates(batch) && forall b :: b in batch ==> b in remaining
    ensures |batch| == |remaining| <==> remaining - Elements(batch) == {}
    ensures |remaining - Elements(batch)| == |remaining| - |batch|
  {
    var members := Elements(batch);
    DistinctLength(batch);
    assert |remaining| == |members| + |remaining - members|;
  }

  lemma MembersStep(all: set<Id>, waves: seq<Wave>, remaining: set<Id>, wave: Wave)
    requires NoDuplicates(Members(waves)) && Elements(Members(waves)) == all - remaining && remaining <= all
    requires NoDuplicates(wave.batch) && forall b :: b in wave.batch ==> b in remaining
    ensures NoDuplicates(Members(waves + [wave]))
    ensures Elements(Members(waves + [wave])) == all - (remaining - Elements(wave.batch))
  {
    hide Members, NoDuplicates;
    MembersSnoc(waves, wave);
    forall x | x in wave.batch
      ensures x !in Members(waves)
    {
      assert x !in Elements(Members(waves));
    }
    JoinDistinct(Members(waves), wave.batch);
  }

  lemma WavesStep(table: Table, waves: seq<Wave>, remaining: set<Id>, batch: seq<Id>, isFinal: bool)
    requires WavesOk(table, waves, remaining) && remaining != {} && batch != []
    requires NoDuplicates(batch) && forall b :: b in batch ==> b in remaining
    requires IsDisjointBatch(table, batch) && (isFinal <==> |batch| == |remaining|)
    ensures WavesOk(table, waves + [Wave(batch, isFinal)], remaining - Elements(batch))
  {
    hide IsDisjointBatch, Members, NoDuplicates, Elements;
    BatchSize(batch, remaining);
    MembersStep(table.Keys, waves, remaining, Wave(batch, isFinal));
  }

  lemma JoinDistinct(a: seq<Id>, b: seq<Id>)
    requires NoDuplicates(a) && NoDuplicates(b) && forall x :: x in b ==> x !in a
    ensures NoDuplicates(a + b) && Elements(a + b) == Elements(a) + Elements(b)
  {
    assert forall i :: 0 <= i < |a| ==> a[i] in a;
    assert forall i :: 0 <= i < |b| ==> b[i] in b;
  }

  /** The subtasks of a batch drawn from the ready set, before it runs. */
  ghost predicate IsReadyBatch(table: Table, done: set<Id>, remaining: set<Id>, batch: seq<Id>) {
    && IsDisjointBatch(table, batch)
    && forall b :: b in batch ==> b in remaining && AllIn(Dependencies(table, b), done)
  }

  lemma LogStep(table: Table, outcome: Id -> Outcome, slots: nat, before: Statuses, done: set<Id>, remaining: set<Id>,
                starts: seq<Start>, batch: seq<Id>, wave: seq<Start>)
    requires Between(table, outcome, slots, before, done, remaining, starts)
    requires IsReadyBatch(table, done, remaining, batch)
    requires LoggedSoFar(before, batch, outcome, slots, {}, wave)
    ensures LogOk(table, slots, starts + wave)
    ensures forall x :: x in StartIds(starts + wave) <==> x in done || (x in batch && outcome(x) != NoSlot)
  {
    hide LogOk, StartsInWave, IsDisjointBatch;
    ExtendLog(table, slots, starts, before, batch, wave);
    StartIdsConcat(starts, wave);
  }

  lemma BetweenStep(table: Table, outcome: Id -> Outcome, slots: nat, before: Statuses, done: set<Id>,
                    remaining: set<Id>, starts: seq<Start>, batch: seq<Id>, after: Statuses, wave: seq<Start>)
    requires Between(table, outcome, slots, before, done, remaining, starts)
    requires IsReadyBatch(table, done, remaining, batch)
    requires LoggedSoFar(before, batch, outcome, slots, {}, wave)
    requires after.Keys == before.Keys
    requires forall x :: x in before ==> after[x] == if x in batch then AfterTurn(outcome(x)) else before[x]
    requires forall b :: b in batch ==> outcome(b) == Success
    ensures Between(table, outcome, slots, after, done + Elements(batch), remaining - Elements(batch), starts + wave)
  {
    hide LogOk, LoggedSoFar, IsDisjointBatch, AllIn;
    LogStep(table, outcome, slots, before, done, remaining, starts, batch, wave);
  }

  lemma NobodyReady(table: Table, outcome: Id -> Outcome, slots: nat, statuses: Statuses, done: set<Id>,
                    remaining: set<Id>, starts: seq<Start>)
    requires Between(table, outcome, slots, statuses, done, remaining, starts)
    requires forall x :: x in remaining ==> !AllIn(Dependencies(table, x), done)
    ensures CleanExit(table, statuses, starts)
  {
    hide LogOk;
    forall x | x in table && statuses[x] == Pending
      ensures exists d :: d in Dependencies(table, x) && d !in StartIds(starts)
    {
      assert !AllIn(Dependencies(table, x), done);
    }
  }

  /** What a failed wave leaves, once the cleanup has run. */
  lemma FailedExit(table: Table, outcome: Id -> Outcome, done: set<Id>, remaining: set<Id>, batch: seq<Id>,
                   before: Statuses, after: Statuses, final: Statuses, ids: seq<Id>)
    requires remaining <= table.Keys && done == table.Keys - remaining && before.Keys == after.Keys == table.Keys
    requires forall x :: x in table ==> before[x] == if x in remaining then Pending else Done
    requires forall x :: x in done ==> outcome(x) == Success
    requires forall x :: x in table ==> after[x] == if x in batch then AfterTurn(outcome(x)) else before[x]
    requires forall b :: b in batch ==> b in remaining
    requires forall x :: x in ids <==> x in done || (x in batch && outcome(x) != NoSlot)
    requires Cancelled(after, remaining - Elements(batch), final)
    ensures forall x :: x in table ==> final[x] != Doing
    ensures forall x :: x in table ==> (final[x] == Pending <==> x in batch && outcome(x) == NoSlot)
    ensures forall x :: x in table ==> (final[x] == Done <==> x in ids && outcome(x) == Success)
  {
  }

  lemma FailedWave(table: Table, outcome: Id -> Outcome, slots: nat, before: Statuses, done: set<Id>,
                   remaining: set<Id>, starts: seq<Start>, batch: seq<Id>, after: Statuses, wave: seq<Start>,
                   waves: seq<Wave>, err: Outcome)
    requires Between(table, outcome, slots, before, done, remaining, starts)
    requires IsReadyBatch(table, done, remaining, batch)
    requires LoggedSoFar(before, batch, outcome, slots, {}, wave)
    requires after.Keys == before.Keys
    requires forall x :: x in before ==> after[x] == if x in batch then AfterTurn(outcome(x)) else before[x]
    requires |waves| > 0 && waves[|waves| - 1].batch == batch
    requires err != Success && exists b :: b in batch && outcome(b) == err
    ensures forall final :: Cancelled(after, remaining - Elements(batch), final) ==>
      ErrorExit(table, outcome, final, starts + wave, waves, err)
  {
    hide LogOk, LoggedSoFar, IsDisjointBatch, AllIn, AfterTurn, StartIds;
    LogStep(table, outcome, slots, before, done, remaining, starts, batch, wave);
    forall final | Cancelled(after, remaining - Elements(batch), final)
      ensures ErrorExit(table, outcome, final, starts + wave, waves, err)
    {
      FailedExit(table, outcome, done, remaining, batch, before, after, final, StartIds(starts + wave));
    }
  }

  lemma StartBetween(table: Table, outcome: Id -> Outcome, slots: nat, statuses: Statuses)
    requires statuses.Keys == table.Keys && forall x :: x in table ==> statuses[x] == Pending
    ensures Between(table, outcome, slots, statuses, {}, table.Keys, []) && WavesOk(table, [], table.Keys)
    ensures StartsFit([], [])
  {
  }

  lemma BetweenFacts(table: Table, outcome: Id -> Outcome, slots: nat, statuses: Statuses, done: set<Id>,
                     remaining: set<Id>, starts: seq<Start>)
    requires Between(table, outcome, slots, statuses, done, remaining, starts)
    ensures remaining <= table.Keys && statuses.Keys == table.Keys && LogOk(table, slots, starts)
    ensures forall x :: x in remaining ==> statuses[x] == Pending
    ensures forall x :: x in table ==> statuses[x] != Doing
    ensures remaining == Unstarted(table, starts)
  {
  }

  /** What building the ready set gives when nothing has failed. */
  lemma ReadyWithoutFailures(table: Table, before: Statuses, statuses: Statuses, done: set<Id>, remaining: set<Id>,
                             ready: seq<Id>)
    requires before.Keys == table.Keys == statuses.Keys && remaining <= table.Keys
    requires forall x :: x in table ==> statuses[x] == before[x]
    requires forall x :: x in ready ==> x in remaining && AllIn(table[x].dependsOn, done)
    requires forall x :: x in remaining && AllIn(table[x].dependsOn, done) && !AnyIn(table[x].dependsOn, {}) ==>
      x in ready
    ensures statuses == before
    ensures forall x :: x in ready ==> x in remaining && AllIn(Dependencies(table, x), done)
    ensures forall x :: x in remaining && AllIn(Dependencies(table, x), done) ==> x in ready
  {
  }

  /** Builds the ready set and packs the next batch from it. */
  method PickBatch(table: Table, before: Statuses, done: set<Id>, failedBefore: set<Id>, remainingBefore: set<Id>)
    returns (batch: seq<Id>, statuses: Statuses, failed: set<Id>, remaining: set<Id>)
    requires before.Keys == table.Keys && remainingBefore <= table.Keys && failedBefore == {}
    ensures statuses == before && failed == failedBefore && remaining == remainingBefore
    ensures NoDuplicates(batch) && IsReadyBatch(table, done, remaining, batch)
    ensures forall x :: x in remaining && AllIn(Dependencies(table, x), done) ==>
      batch != [] && OrderOf(table, batch[0]) <= OrderOf(table, x) && (x in batch || HasToWait(table, batch, x))
  {
    hide AllIn, AnyIn, NoDuplicates, HasToWait, OrderOf, IsDisjointBatch;
    var ready: seq<Id>;
    ready, statuses, failed, remaining := BuildReady(table, before, done, failedBefore, remainingBefore);
    ReadyWithoutFailures(table, before, statuses, done, remaining, ready);
    var sorted := SortByOrder(table, ready);
    SameMembers(sorted, ready);
    batch := PackBatch(table, sorted);
    forall x | x in remaining && AllIn(Dependencies(table, x), done)
      ensures batch != [] && OrderOf(table, batch[0]) <= OrderOf(table, x) && (x in batch || HasToWait(table, batch, x))
    {
      assert x in sorted;
    }
  }

  /** The statuses once whatever remained is marked failed. */
  ghost predicate Cancelled(before: Statuses, remaining: set<Id>, after: Statuses) {
    && after.Keys == before.Keys
    && forall x :: x in before ==> after[x] == if x in remaining && before[x] != Done then Failed else before[x]
  }

  /** What every wave keeps up to date. */
  ghost predicate Books(table: Table, outcome: Id -> Outcome, slots: nat, accepts: Store, remaining: set<Id>,
                        stored: Statuses, starts: seq<Start>, waves: seq<Wave>) {
    && WavesOk(table, waves, remaining) && StartsFit(starts, waves) && LogOk(table, slots, starts)
    && StoredBetween(table, outcome, accepts, remaining, stored)
  }

  lemma WaveLeaves(before: Statuses, batch: seq<Id>, remaining: set<Id>, outcome: Id -> Outcome, after: Statuses)
    requires forall x :: x in remaining ==> x in before && before[x] == Pending
    requires after.Keys == before.Keys
    requires forall x :: x in before ==> after[x] == if x in batch then AfterTurn(outcome(x)) else before[x]
    ensures forall x :: x in remaining - Elements(batch) ==> after[x] == Pending
  {
  }

  /** Runs a batch and books its outcomes. */
  method ProcessWave(table: Table, outcome: Id -> Outcome, slots: nat, accepts: Store, statuses: Statuses,
                     stored: Statuses, done: set<Id>, remaining: set<Id>, batch: seq<Id>, ghost starts: seq<Start>,
                     ghost waves: seq<Wave>)
    returns (after: Statuses, storedAfter: Statuses, doneAfter: set<Id>, failedAfter: set<Id>, remainingAfter: set<Id>,
             err: Option<Outcome>, ghost startsAfter: seq<Start>, ghost wavesAfter: seq<Wave>)
    requires slots > 0 && batch != [] && NoDuplicates(batch) && IsReadyBatch(table, done, remaining, batch)
    requires Between(table, outcome, slots, statuses, done, remaining, starts)
    requires Books(table, outcome, slots, accepts, remaining, stored, starts, waves)
    ensures remainingAfter == remaining - Elements(batch) && remainingAfter < remaining
    ensures Books(table, outcome, slots, accepts, remainingAfter, storedAfter, startsAfter, wavesAfter)
    ensures after.Keys == table.Keys == storedAfter.Keys && remainingAfter <= table.Keys
    ensures forall x :: x in remainingAfter ==> after[x] == Pending
    ensures err.None? ==>
      failedAfter == {} && Between(table, outcome, slots, after, doneAfter, remainingAfter, startsAfter)
    ensures err.None? ==> forall b :: b in batch ==> outcome(b) == Success
    ensures err.Some? ==> err.value != Success && exists b :: b in batch && outcome(b) == err.value
    ensures err.Some? ==> forall final :: Cancelled(after, remainingAfter, final) ==>
      ErrorExit(table, outcome, final, startsAfter, wavesAfter, err.value)
  {
    hide LogOk, WavesOk, ErrorExit, Between, LoggedSoFar, IsReadyBatch, AllIn, NoDuplicates, AfterTurn, OrderOf,
         Elements;
    hide EndedAs, ErrorSoFar, Unstarted, StartsFit, StampedWith, Members, StoredBetween, StoredTurn, Cancelled;
    BetweenFacts(table, outcome, slots, statuses, done, remaining, starts);
    ReadyBatchFacts(table, done, remaining, batch);
    StoredKeys(table, outcome, accepts, remaining, stored);
    var isFinal := |batch| == |remaining|;
    ghost var w := Wave(batch, isFinal);
    WavesStep(table, waves, remaining, batch, isFinal);
    ghost var wave: seq<Start>;
    after, err, storedAfter, wave := RunWave(statuses, batch, outcome, slots, accepts, stored, |waves|, isFinal);
    StoredStep(table, outcome, accepts, remaining, stored, batch, storedAfter);
    WaveIds(statuses, batch, outcome, slots, wave);
    StartsFitStep(starts, waves, wave, w);
    startsAfter, wavesAfter := starts + wave, waves + [w];
    LogStep(table, outcome, slots, statuses, done, remaining, starts, batch, wave);
    WaveVerdict(batch, outcome, err, after);
    WaveLeaves(statuses, batch, remaining, outcome, after);
    doneAfter, failedAfter, remainingAfter := Reconcile(after, batch, done, {}, remaining);
    if err.None? {
      BetweenStep(table, outcome, slots, statuses, done, remaining, starts, batch, after, wave);
    } else {
      FailedWave(table, outcome, slots, statuses, done, remaining, starts, batch, after, wave, wavesAfter, err.value);
    }
  }

  /** Runs the plan. The context of the task enters through the outcomes (no slot) and through the store, which refuses
      updates once it is done; only the cleanup after an error has a context of its own. */
  method RunSubtaskLoop(table: Table, outcome: Id -> Outcome, slots: nat, accepts: Store)
    returns (statuses: Statuses, runErr: Option<Outcome>, stored: Statuses, ghost starts: seq<Start>,
             ghost waves: seq<Wave>)
    requires slots > 0
    ensures LogOk(table, slots, starts) && StartsFit(starts, waves)
    ensures exists left :: WavesOk(table, waves, left) && (runErr.None? ==> left == Unstarted(table, starts))
    ensures StoredExit(table, outcome, accepts, waves, runErr.Some?, stored)
    ensures runErr.None? ==> CleanExit(table, statuses, starts)
    ensures runErr.Some? ==> ErrorExit(table, outcome, statuses, starts, waves, runErr.value)
    ensures (forall x :: x in table ==> outcome(x) == Success) ==> runErr.None?
  {
    hide LogOk, WavesOk, CleanExit, ErrorExit, Between, IsReadyBatch, AllIn, NoDuplicates, HasToWait, OrderOf, Elements;
    hide Unstarted, StartsFit, Members, StoredBetween, StoredExit, StoredReset;
    statuses, stored := ResetStatuses(table, accepts);
    StoredStart(table, outcome, accepts, stored);
    var done: set<Id>, failed: set<Id>, remaining := {}, {}, table.Keys;
    runErr, starts, waves := None, [], [];
    StartBetween(table, outcome, slots, statuses);
    while remaining != {}
      invariant runErr.None? && failed == {} && Between(table, outcome, slots, statuses, done, remaining, starts)
      invariant Books(table, outcome, slots, accepts, remaining, stored, starts, waves)
      decreases remaining
    {
      BetweenFacts(table, outcome, slots, statuses, done, remaining, starts);
      var batch: seq<Id>;
      batch, statuses, failed, remaining := PickBatch(table, statuses, done, failed, remaining);
      if batch == [] {
        break;
      }
      BatchInside(table, done, remaining, batch);
      statuses, stored, done, failed, remaining, runErr, starts, waves :=
        ProcessWave(table, outcome, slots, accepts, statuses, stored, done, remaining, batch, starts, waves);
      if runErr.Some? {
        ghost var storedNow, statusesNow := stored, statuses;
        statuses, stored := CancelRemaining(statuses, remaining, stored);
        assert Cancelled(statusesNow, remaining, statuses);
        StoredAtEnd(table, outcome, accepts, waves, remaining, storedNow, stored, true);
        return;
      }
    }
    NobodyReady(table, outcome, slots, statuses, done, remaining, starts);
    BetweenFacts(table, outcome, slots, statuses, done, remaining, starts);
    StoredKeys(table, outcome, accepts, remaining, stored);
    StoredAtEnd(table, outcome, accepts, waves, remaining, stored, stored, false);
  }

  lemma BatchInside(table: Table, done: set<Id>, remaining: set<Id>, batch: seq<Id>)
    requires IsReadyBatch(table, done, remaining, batch)
    ensures forall b :: b in batch ==> b in table
  {
  }

  lemma StoredStart(table: Table, outcome: Id -> Outcome, accepts: Store, stored: Statuses)
    requires stored.Keys == table.Keys
    requires forall x :: x in table ==> stored[x] == StoredReset(table[x].status, x, accepts)
    ensures StoredBetween(table, outcome, accepts, table.Keys, stored)
  {
  }

  lemma StoredKeys(table: Table, outcome: Id -> Outcome, accepts: Store, remaining: set<Id>, stored: Statuses)
    requires StoredBetween(table, outcome, accepts, remaining, stored)
    ensures stored.Keys == table.Keys
  {
  }

  ghost function Unstarted(table: Table, starts: seq<Start>): set<Id> {
    set x | x in table && x !in StartIds(starts)
  }

  lemma ReadyBatchFacts(table: Table, done: set<Id>, remaining: set<Id>, batch: seq<Id>)
    requires IsReadyBatch(table, done, remaining, batch)
    ensures IsDisjointBatch(table, batch) && forall b :: b in batch ==> b in remaining
    ensures batch != [] ==> remaining - Elements(batch) < remaining
  {
    if batch != [] {
      assert batch[0] in remaining && batch[0] in Elements(batch);
    }
  }

  lemma SameMembers(a: seq<Id>, b: seq<Id>)
    requires Elements(a) == Elements(b)
    ensures forall x :: x in a <==> x in b
    ensures a == [] <==> b == []
  {
    forall x ensures x in a <==> x in b { assert x in Elements(a) <==> x in Elements(b); }
    assert a != [] ==> a[0] in b;
    assert b != [] ==> b[0] in a;
  }

  lemma WaveVerdict(batch: seq<Id>, outcome: Id -> Outcome, err: Option<Outcome>, after: Statuses)
    requires ErrorSoFar(batch, outcome, {}, err)
    requires forall b :: b in batch ==> b in after && after[b] == AfterTurn(outcome(b))
    ensures err.None? ==> forall b :: b in batch ==> outcome(b) == Success
    ensures err.None? ==> EndedAs(after, batch, true) == {} && EndedAs(after, batch, false) == Elements(batch)
    ensures err.Some? ==> err.value != Success && exists b :: b in batch && outcome(b) == err.value
  {
  }
}
