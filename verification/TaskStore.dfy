/** Task rows and the status machine they go through (sidecar/internal/task/task.go,
    sidecar/internal/task/transition.go, sidecar/internal/store/task_store.go). */
module TaskStore {
  import opened Text

  datatype Status = Planning | Queued | InProgress | AIReview | HumanReview | Done | Cancelled | Aborted | Failed

  datatype FinalizationKind = NotFinal | Keep | Merged

  datatype ErrorCode = NoError | Runtime | Interrupted | PathEscape | MergeConflict | Timeout | Auth | ReviewRejected

  /** A task row. Id 0 and repository 0 stand for the empty text. */
  datatype Task = Task(id: nat, repoId: nat, goal: string, baseBranch: string, branch: string, worktreePath: string,
                       reviewFeedback: string, status: Status, finalization: FinalizationKind, errorCode: ErrorCode,
                       branchExists: bool, reworkCount: int)

  datatype TaskError =
    | NoId | NoRepo | NoGoal
    | FailedNeedsCode | CodeNeedsFailed | DoneNeedsFinalization | FinalizationNeedsDone
    | IllegalTransition | StaleUpdate | DuplicateId | NotFound

  // ---- the state machine ----

  predicate CanTransition(from: Status, to: Status) {
    match from
    case Queued => to in {Planning, Cancelled, InProgress}
    case Planning => to in {InProgress, Failed, Aborted, Cancelled}
    case InProgress => to in {AIReview, Failed, Aborted}
    case AIReview => to in {HumanReview, Failed, Queued, Aborted}
    case HumanReview => to in {Done, Cancelled, Queued}
    case Aborted => to in {Done, Cancelled, Queued}
    case Failed => to == Queued
    case Done => false
    case Cancelled => false
  }

  predicate IsTerminal(s: Status) {
    s in {Done, Cancelled, Failed}
  }

  /** The first fault of a row, in the order of the checks. */
  function Validate(t: Task): Option<TaskError> {
    if t.id == 0 then Some(NoId)
    else if t.repoId == 0 then Some(NoRepo)
    else if t.goal == "" then Some(NoGoal)
    else if t.status == Failed && t.errorCode == NoError then Some(FailedNeedsCode)
    else if t.status != Failed && t.errorCode != NoError then Some(CodeNeedsFailed)
    else if t.status == Done && t.finalization == NotFinal then Some(DoneNeedsFinalization)
    else if t.status != Done && t.finalization != NotFinal then Some(FinalizationNeedsDone)
    else None
  }

  /** What a valid row means: an error code exactly when failed, a finalization exactly when done. */
  ghost predicate IsSound(t: Task) {
    && t.id != 0 && t.repoId != 0 && t.goal != ""
    && (t.status == Failed <==> t.errorCode != NoError)
    && (t.status == Done <==> t.finalization != NotFinal)
  }

  lemma ValidateIff(t: Task)
    ensures Validate(t) == None <==> IsSound(t)
  {
  }

  // ---- one row ----

  function TransitionFault(from: Status, to: Status, code: ErrorCode,
                           finalization: FinalizationKind): Option<TaskError> {
    if !CanTransition(from, to) then Some(IllegalTransition)
    else if to == Failed && code == NoError then Some(FailedNeedsCode)
    else if to == Done && finalization == NotFinal then Some(DoneNeedsFinalization)
    else None
  }

  function NextRework(from: Status, to: Status, count: int): int {
    if to == Queued && from == AIReview then count + 1
    else if to == Queued || IsTerminal(to) then 0
    else count
  }

  /** The row after a transition: error and finalization belong to failed and done alone. */
  function Moved(row: Task, to: Status, code: ErrorCode, finalization: FinalizationKind): Task {
    row.(status := to,
         errorCode := if to == Failed then code else NoError,
         finalization := if to == Done then finalization else NotFinal,
         reworkCount := NextRework(row.status, to, row.reworkCount))
  }

  /** The row after UpdateFields: everything but the identity, the repository, the status and branch_exists. */
  function Saved(row: Task, copy: Task): Task {
    copy.(id := row.id, repoId := row.repoId, status := row.status, branchExists := row.branchExists)
  }

  function Interruption(row: Task): Task {
    row.(status := Failed, errorCode := Interrupted)
  }

  // ---- the whole table, one write at a time ----

  type Rows = map<nat, Task>

  datatype Write =
    | Create(t: Task)
    | Transition(id: nat, from: Status, to: Status, code: ErrorCode, finalization: FinalizationKind)
    | UpdateFields(copy: Task)
    | SetBranchExists(id: nat, exists_: bool)
    | Delete(id: nat)
    | RecoverRunning

  ghost predicate Succeeds(rows: Rows, w: Write) {
    match w
    case Create(t) => IsSound(t) && t.id !in rows
    case Transition(id, from, to, code, fin) =>
      TransitionFault(from, to, code, fin) == None && id in rows && rows[id].status == from
    case UpdateFields(copy) => IsSound(copy) && copy.id in rows && rows[copy.id].status == copy.status
    case SetBranchExists(id, _) => id in rows
    case Delete(id) => id in rows
    case RecoverRunning => true
  }

  ghost function Apply(rows: Rows, w: Write): Rows {
    if !Succeeds(rows, w) then rows
    else
      match w
      case Create(t) => rows[t.id := t.(branchExists := t.branchExists || t.status in {Planning, Queued})]
      case Transition(id, from, to, code, fin) => rows[id := Moved(rows[id], to, code, fin)]
      case UpdateFields(copy) => rows[copy.id := Saved(rows[copy.id], copy)]
      case SetBranchExists(id, b) => rows[id := rows[id].(branchExists := b)]
      case Delete(id) => rows - {id}
      case RecoverRunning =>
        map id | id in rows :: if rows[id].status == InProgress then Interruption(rows[id]) else rows[id]
  }

  ghost function After(rows: Rows, writes: seq<Write>, n: nat): Rows
    requires n <= |writes|
  {
    if n == 0 then rows else Apply(After(rows, writes, n - 1), writes[n - 1])
  }

  ghost predicate TableSound(rows: Rows) {
    forall id :: id in rows ==> rows[id].id == id && IsSound(rows[id])
  }

  method CheckTransition(from: Status, to: Status, code: ErrorCode, finalization: FinalizationKind)
    returns (fault: Option<TaskError>)
    ensures fault == TransitionFault(from, to, code, finalization)
  {
    if !CanTransition(from, to) {
      return Some(IllegalTransition);
    }
    if to == Failed && code == NoError {
      return Some(FailedNeedsCode);
    }
    if to == Done && finalization == NotFinal {
      return Some(DoneNeedsFinalization);
    }
    fault := None;
  }

  /** The SET clause of the UPDATE, built up case by case. */
  method BuildUpdate(row: Task, to: Status, code: ErrorCode, finalization: FinalizationKind) returns (updated: Task)
    ensures updated == Moved(row, to, code, finalization)
  {
    var newCode := if to != Failed then NoError else code;
    var newFinalization := if to != Done then NotFinal else finalization;
    var rework := row.reworkCount;
    if to == Queued && row.status == AIReview {
      rework := rework + 1;
    } else if to == Queued {
      rework := 0;
    } else if to == Done || to == Cancelled || to == Failed {
      rework := 0;
    }
    updated := row.(status := to, errorCode := newCode, finalization := newFinalization, reworkCount := rework);
  }

  /** The table in memory. */
  class TaskTable {
    var rows: Rows

    ghost predicate Valid()
      reads this
    {
      TableSound(rows)
    }

    constructor ()
      ensures Valid() && rows == map[]
    {
      rows := map[];
    }

    method CreateTask(t: Task) returns (fault: Option<TaskError>)
      requires Valid()
      modifies this
      ensures Valid() && rows == Apply(old(rows), Create(t))
      ensures fault == None <==> Succeeds(old(rows), Create(t))
    {
      ValidateIff(t);
      fault := Validate(t);
      if fault.Some? {
        return;
      }
      if t.id in rows {
        return Some(DuplicateId);
      }
      var branchExists := true;
      if !t.branchExists && t.status != Planning && t.status != Queued {
        branchExists := false;
      }
      rows := rows[t.id := t.(branchExists := branchExists)];
    }

    method Get(id: nat) returns (r: Result<Task, TaskError>)
      ensures r == if id in rows then Ok(rows[id]) else Err(NotFound)
    {
      r := if id in rows then Ok(rows[id]) else Err(NotFound);
    }

    /** Compare-and-set on the status. */
    method TransitionTask(id: nat, from: Status, to: Status, code: ErrorCode, finalization: FinalizationKind)
      returns (fault: Option<TaskError>)
      requires Valid()
      modifies this
      ensures Valid() && rows == Apply(old(rows), Transition(id, from, to, code, finalization))
      ensures fault == None <==> Succeeds(old(rows), Transition(id, from, to, code, finalization))
    {
      hide Moved, TransitionFault, IsSound, TableSound;
      ApplyKeepsSound(rows, Transition(id, from, to, code, finalization));
      fault := CheckTransition(from, to, code, finalization);
      if fault.Some? {
        return;
      }
      if id !in rows || rows[id].status != from {
        return Some(StaleUpdate);
      }
      var row := BuildUpdate(rows[id], to, code, finalization);
      rows := rows[id := row];
    }

    /** Writes an in-memory copy back, provided its status is still the row's. */
    method UpdateTask(copy: Task) returns (fault: Option<TaskError>)
      requires Valid()
      modifies this
      ensures Valid() && rows == Apply(old(rows), UpdateFields(copy))
      ensures fault == None <==> Succeeds(old(rows), UpdateFields(copy))
    {
      ValidateIff(copy);
      fault := Validate(copy);
      if fault.Some? {
        return;
      }
      if copy.id !in rows || rows[copy.id].status != copy.status {
        return Some(StaleUpdate);
      }
      var row := rows[copy.id];
      rows := rows[copy.id := row.(goal := copy.goal, baseBranch := copy.baseBranch, branch := copy.branch,
                                   worktreePath := copy.worktreePath,
                                   reviewFeedback := copy.reviewFeedback, finalization := copy.finalization,
                                   errorCode := copy.errorCode, reworkCount := copy.reworkCount)];
    }

    method SetBranch(id: nat, exists_: bool)
      requires Valid()
      modifies this
      ensures Valid() && rows == Apply(old(rows), SetBranchExists(id, exists_))
    {
      if id in rows {
        rows := rows[id := rows[id].(branchExists := exists_)];
      }
    }

    method DeleteTask(id: nat)
      requires Valid()
      modifies this
      ensures Valid() && rows == Apply(old(rows), Delete(id))
    {
      if id in rows {
        rows := rows - {id};
      }
    }

    /** Fails every task left in progress by a crash, and reports which. */
    method Recover() returns (ids: seq<nat>)
      requires Valid()
      modifies this
      ensures Valid() && rows == Apply(old(rows), RecoverRunning)
      ensures forall id :: id in ids <==> id in old(rows) && old(rows)[id].status == InProgress
      ensures forall id :: id in ids ==> id in rows && rows[id].status == Failed && rows[id].errorCode == Interrupted
    {
      hide IsSound, TableSound;
      ApplyKeepsSound(rows, RecoverRunning);
      ids := [];
      var table := rows;
      var rest := rows.Keys;
      while rest != {}
        invariant rest <= rows.Keys && table.Keys == rows.Keys && rows == old(rows)
        invariant forall id :: id in rows ==>
          table[id] == if id !in rest && rows[id].status == InProgress then Interruption(rows[id]) else rows[id]
        invariant forall id :: id in ids <==> id in rows && id !in rest && rows[id].status == InProgress
        decreases rest
      {
        var id :| id in rest;
        if table[id].status == InProgress {
          table := table[id := table[id].(status := Failed, errorCode := Interrupted)];
          ids := ids + [id];
        }
        rest := rest - {id};
      }
      assert table == Apply(rows, RecoverRunning);
      rows := table;
    }
  }

  // ---- every write keeps every row valid ----

  lemma MovedIsSound(row: Task, to: Status, code: ErrorCode, fin: FinalizationKind)
    requires IsSound(row) && TransitionFault(row.status, to, code, fin) == None
    ensures IsSound(Moved(row, to, code, fin))
  {
  }

  lemma ApplyKeepsSound(rows: Rows, w: Write)
    requires TableSound(rows)
    ensures TableSound(Apply(rows, w))
  {
    hide Moved, TransitionFault;
    if Succeeds(rows, w) && w.Transition? {
      MovedIsSound(rows[w.id], w.to, w.code, w.finalization);
      MovedKeepsId(rows[w.id], w.to, w.code, w.finalization);
    }
  }

  lemma MovedKeepsId(row: Task, to: Status, code: ErrorCode, fin: FinalizationKind)
    ensures Moved(row, to, code, fin).id == row.id && Moved(row, to, code, fin).status == to
  {
  }

  /** However creations, transitions, stale copies, recoveries and deletions interleave, every row stays valid. */
  lemma {:induction false} RowsStayValid(writes: seq<Write>, n: nat)
    requires n <= |writes|
    ensures TableSound(After(map[], writes, n))
  {
    hide Apply, TableSound;
    if n > 0 {
      RowsStayValid(writes, n - 1);
      ApplyKeepsSound(After(map[], writes, n - 1), writes[n - 1]);
    } else {
      EmptyTable();
    }
  }

  lemma EmptyTable()
    ensures TableSound(map[])
  {
  }

  /** A write moves a status along an edge of the state machine or leaves it alone. */
  lemma StatusFollowsEdges(rows: Rows, w: Write, id: nat)
    requires TableSound(rows) && id in rows && id in Apply(rows, w)
    ensures var before, after := rows[id].status, Apply(rows, w)[id].status;
      before == after || CanTransition(before, after)
    ensures rows[id].status != Apply(rows, w)[id].status ==>
      Succeeds(rows, w) && ((w.Transition? && w.id == id && w.from == rows[id].status) || w == RecoverRunning)
  {
    hide TransitionFault, IsSound;
    if Succeeds(rows, w) && w.Transition? && w.id == id {
      MovedKeepsId(rows[id], w.to, w.code, w.finalization);
      FaultFree(w.from, w.to, w.code, w.finalization);
    }
  }

  lemma FaultFree(from: Status, to: Status, code: ErrorCode, fin: FinalizationKind)
    requires TransitionFault(from, to, code, fin) == None
    ensures CanTransition(from, to)
  {
  }

  // ---- racing transitions ----

  /** How often the first n writes moved task id out of status s. */
  ghost function Left(rows: Rows, writes: seq<Write>, id: nat, s: Status, n: nat): nat
    requires n <= |writes|
  {
    if n == 0 then 0
    else Left(rows, writes, id, s, n - 1) + One(Moves(After(rows, writes, n - 1), writes[n - 1], id, s, true))
  }

  ghost function Entered(rows: Rows, writes: seq<Write>, id: nat, s: Status, n: nat): nat
    requires n <= |writes|
  {
    if n == 0 then 0
    else Entered(rows, writes, id, s, n - 1) + One(Moves(After(rows, writes, n - 1), writes[n - 1], id, s, false))
  }

  /** The write takes task id out of status s, or into it. */
  ghost predicate Moves(rows: Rows, w: Write, id: nat, s: Status, out: bool) {
    && id in rows && id in Apply(rows, w)
    && rows[id].status != Apply(rows, w)[id].status
    && (if out then rows[id].status else Apply(rows, w)[id].status) == s
  }

  ghost predicate NeverDeleted(writes: seq<Write>, id: nat) {
    forall i :: 0 <= i < |writes| ==> writes[i] != Delete(id)
  }

  lemma StaysPresent(rows: Rows, w: Write, id: nat)
    requires id in rows && w != Delete(id)
    ensures id in Apply(rows, w)
  {
  }

  /** A status is left once for each time it was entered, counting where the task starts and where it is. */
  lemma {:induction false} StatusBalance(rows: Rows, writes: seq<Write>, id: nat, s: Status, n: nat)
    requires n <= |writes| && id in rows && NeverDeleted(writes, id)
    ensures id in After(rows, writes, n)
    ensures Left(rows, writes, id, s, n) + One(After(rows, writes, n)[id].status == s)
         == Entered(rows, writes, id, s, n) + One(rows[id].status == s)
  {
    hide Apply;
    if n > 0 {
      StatusBalance(rows, writes, id, s, n - 1);
      StaysPresent(After(rows, writes, n - 1), writes[n - 1], id);
    }
  }

  /** Of any number of writes racing to take a task out of a status nobody puts it back into, at most one wins. */
  lemma AtMostOneWins(rows: Rows, writes: seq<Write>, id: nat, s: Status)
    requires id in rows && NeverDeleted(writes, id)
    requires Entered(rows, writes, id, s, |writes|) == 0
    ensures Left(rows, writes, id, s, |writes|) <= 1
    ensures Left(rows, writes, id, s, |writes|) == 1 <==>
      rows[id].status == s && id in After(rows, writes, |writes|) && After(rows, writes, |writes|)[id].status != s
  {
    hide Left, Entered, After;
    StatusBalance(rows, writes, id, s, |writes|);
  }

  /** A transition that reports success is one of those counted. */
  lemma SuccessLeaves(rows: Rows, id: nat, from: Status, to: Status, code: ErrorCode, fin: FinalizationKind)
    requires id in rows
    ensures Succeeds(rows, Transition(id, from, to, code, fin)) <==>
      TransitionFault(from, to, code, fin) == None && Moves(rows, Transition(id, from, to, code, fin), id, from, true)
  {
    hide TransitionFault;
    var w := Transition(id, from, to, code, fin);
    if Succeeds(rows, w) {
      MovedKeepsId(rows[id], to, code, fin);
      FaultFree(from, to, code, fin);
    }
  }

  // ---- a merge is never taken back ----

  /** What the program writes back: a dispatcher's copy is planning or in progress, a reviewer's ai_review, a user
      review's ai_review or human_review, and the late merge sets merged before it writes. */
  ghost predicate IsCallersCopy(copy: Task) {
    copy.status in {Planning, InProgress, AIReview, HumanReview} || (copy.status == Done && copy.finalization == Merged)
  }

  lemma {:induction false} MergedStaysMerged(rows: Rows, writes: seq<Write>, id: nat, n: nat)
    requires n <= |writes| && id in rows && NeverDeleted(writes, id)
    requires rows[id].status == Done && rows[id].finalization == Merged
    requires forall i :: 0 <= i < |writes| && writes[i].UpdateFields? ==> IsCallersCopy(writes[i].copy)
    ensures id in After(rows, writes, n)
    ensures After(rows, writes, n)[id].status == Done && After(rows, writes, n)[id].finalization == Merged
  {
    hide Moved, TransitionFault, IsSound;
    if n > 0 {
      MergedStaysMerged(rows, writes, id, n - 1);
      var w := writes[n - 1];
      if w.Transition? && w.id == id && Succeeds(After(rows, writes, n - 1), w) {
        FaultFree(w.from, w.to, w.code, w.finalization);
      }
    }
  }

  /** The store itself gives no such guarantee: one write turns a merged row back to keep exactly when it is
      UpdateFields with a copy taken before the merge. */
  lemma MergeUndoneIff(rows: Rows, w: Write, id: nat)
    requires TableSound(rows) && id in rows && rows[id].finalization == Merged && id in Apply(rows, w)
    ensures Apply(rows, w)[id].finalization == Keep <==>
      w.UpdateFields? && IsSound(w.copy) && w.copy.id == id && w.copy.status == Done && w.copy.finalization == Keep
  {
    hide Moved, TransitionFault;
    assert rows[id].status == Done;
    if w.Transition? && w.id == id && Succeeds(rows, w) {
      FaultFree(w.from, w.to, w.code, w.finalization);
    }
  }

  // ---- the rework counter ----

  /** The documented promise: a task in a terminal status has its counter at zero. */
  ghost predicate CountersReset(rows: Rows) {
    forall id :: id in rows && IsTerminal(rows[id].status) ==> rows[id].reworkCount == 0
  }

  ghost predicate RecoversCounted(rows: Rows) {
    exists id :: id in rows && rows[id].status == InProgress && rows[id].reworkCount != 0
  }

  /** The writes that break the promise: recovery of a task that has been reworked, and a creation or an update that
      brings a terminal status with a nonzero counter. */
  ghost predicate LeavesCounter(rows: Rows, w: Write) {
    || (w == RecoverRunning && RecoversCounted(rows))
    || (w.Create? && Succeeds(rows, w) && IsTerminal(w.t.status) && w.t.reworkCount != 0)
    || (w.UpdateFields? && Succeeds(rows, w) && IsTerminal(w.copy.status) && w.copy.reworkCount != 0)
  }

  /** A write keeps every terminal counter at zero exactly when it is none of those. */
  lemma CounterPromiseIff(rows: Rows, w: Write)
    requires TableSound(rows) && CountersReset(rows)
    ensures CountersReset(Apply(rows, w)) <==> !LeavesCounter(rows, w)
  {
    hide IsSound, TransitionFault, Moved;
    var after := Apply(rows, w);
    match w {
      case Transition(id, from, to, code, fin) => if Succeeds(rows, w) { MovedCounter(rows[id], to, code, fin); }
      case RecoverRunning => RecoveryCounterIff(rows);
      case Create(t) =>
        if Succeeds(rows, w) {
          assert after[t.id].status == t.status && after[t.id].reworkCount == t.reworkCount;
        }
      case UpdateFields(copy) =>
        if Succeeds(rows, w) {
          assert after[copy.id].status == copy.status && after[copy.id].reworkCount == copy.reworkCount;
        }
      case _ =>
    }
  }

  lemma MovedCounter(row: Task, to: Status, code: ErrorCode, fin: FinalizationKind)
    ensures Moved(row, to, code, fin).status == to
    ensures IsTerminal(to) ==> Moved(row, to, code, fin).reworkCount == 0
  {
  }

  lemma RecoveryCounterIff(rows: Rows)
    requires CountersReset(rows)
    ensures CountersReset(Apply(rows, RecoverRunning)) <==> !RecoversCounted(rows)
  {
    var after := Apply(rows, RecoverRunning);
    if RecoversCounted(rows) {
      var id :| id in rows && rows[id].status == InProgress && rows[id].reworkCount != 0;
      assert id in after && after[id].status == Failed && after[id].reworkCount != 0;
    }
  }

  /** The case that happens: crash recovery fails a task that has been reworked and leaves its counter, where the same
      edge taken by a transition clears it. */
  lemma RecoveryKeepsCounter(rows: Rows, id: nat)
    requires TableSound(rows) && id in rows && rows[id].status == InProgress && rows[id].reworkCount != 0
    ensures Apply(rows, RecoverRunning)[id].status == Failed && !CountersReset(Apply(rows, RecoverRunning))
    ensures Apply(rows, Transition(id, InProgress, Failed, Interrupted, NotFinal))[id].reworkCount == 0
  {
    hide IsSound, TableSound;
    assert IsTerminal(Apply(rows, RecoverRunning)[id].status);
  }
}
