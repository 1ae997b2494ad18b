/** The steps a user takes through the state machine (sidecar/internal/app/service.go,
    sidecar/internal/orchestrator/finalize.go), each run without interference from other writers. */
module TaskFlows {
  import opened Text
  import opened TaskStore
  import opened TaskWrites
  import Dispatch

  datatype FlowError =
    | AuthCheckFailed | NotAuthenticated | CannotRun
    | EmptyId | CannotReview | WrongStageForAction | NoFeedback | UnknownAction
    | NotEnqueued(reason: Dispatch.EnqueueError)
    | StillRunning | AlreadyDone | CannotFinalize | NoWorktree | NoBaseBranch | NoBranch | GitFailed | NoRepository
    | Store(fault: Option<TaskError>)

  datatype AuthState = CheckFailed | SignedOut | SignedIn

  /** The table after some writes the program may make. */
  ghost predicate Reaches(before: Rows, after: Rows) {
    exists writes: seq<Write> :: CallersWrites(writes) && After(before, writes, |writes|) == after
  }

  /** A write a user step makes: a transition, a copy of the callers' kind written back, or the branch flag. */
  ghost predicate IsCallersWrite(w: Write) {
    w.Transition? || w.SetBranchExists? || (w.UpdateFields? && IsCallersCopy(w.copy))
  }

  ghost predicate CallersWrites(writes: seq<Write>) {
    forall i :: 0 <= i < |writes| ==> IsCallersWrite(writes[i])
  }

  lemma ReachNothing(rows: Rows)
    ensures Reaches(rows, rows)
  {
    var writes: seq<Write> := [];
    assert CallersWrites(writes) && After(rows, writes, |writes|) == rows;
  }

  lemma ReachMore(before: Rows, middle: Rows, w: Write)
    requires Reaches(before, middle) && IsCallersWrite(w)
    ensures Reaches(before, Apply(middle, w))
  {
    hide Apply, CallersWrites;
    var writes :| CallersWrites(writes) && After(before, writes, |writes|) == middle;
    AfterPrefix(before, writes, w, |writes|);
    assert CallersWrites(writes + [w]) by { CallersSnoc(writes, w); }
    assert (writes + [w])[|writes|] == w;
    assert After(before, writes + [w], |writes + [w]|) == Apply(middle, w);
  }

  lemma CallersSnoc(writes: seq<Write>, w: Write)
    requires CallersWrites(writes) && IsCallersWrite(w)
    ensures CallersWrites(writes + [w])
  {
  }

  lemma {:induction false} AfterPrefix(rows: Rows, writes: seq<Write>, w: Write, n: nat)
    requires n <= |writes|
    ensures After(rows, writes + [w], n) == After(rows, writes, n)
  {
    hide Apply;
    if n > 0 {
      AfterPrefix(rows, writes, w, n - 1);
    }
  }

  lemma ReachOne(before: Rows, w: Write)
    requires IsCallersWrite(w)
    ensures Reaches(before, Apply(before, w))
  {
    ReachNothing(before);
    ReachMore(before, before, w);
  }

  /** The status of a task, if it is in the table. */
  ghost predicate IsIn(rows: Rows, id: nat, statuses: set<Status>) {
    id in rows && rows[id].status in statuses
  }

  /** The table after moving a task, if it is in one of the given statuses. */
  ghost function MovedFrom(rows: Rows, id: nat, statuses: set<Status>, to: Status, code: ErrorCode): Rows {
    if IsIn(rows, id, statuses) then rows[id := Moved(rows[id], to, code, NotFinal)] else rows
  }

  /** What the columns that belong to a status read. */
  ghost predicate Reads(row: Task, status: Status, code: ErrorCode, fin: FinalizationKind, rework: int) {
    row.status == status && row.errorCode == code && row.finalization == fin && row.reworkCount == rework
  }

  /** One row has moved there from one of these statuses, its counter at zero; otherwise nothing has happened. */
  ghost predicate MovedTo(before: Rows, after: Rows, id: nat, statuses: set<Status>, to: Status, code: ErrorCode) {
    if IsIn(before, id, statuses) then
      OnlyRow(before, after, id) && KeepsColumns(before[id], after[id]) && Reads(after[id], to, code, NotFinal, 0)
    else after == before
  }

  lemma MovedFromReads(rows: Rows, id: nat, statuses: set<Status>, to: Status, code: ErrorCode)
    requires to in {Failed, Cancelled} || (to == Queued && AIReview !in statuses)
    requires to == Failed <==> code != NoError
    ensures MovedTo(rows, MovedFrom(rows, id, statuses, to, code), id, statuses, to, code)
  {
    hide Moved, KeepsColumns;
    if IsIn(rows, id, statuses) {
      MovedReads(rows[id], to, code, NotFinal);
    }
  }

  // ---- run ----

  /** Runs or re-runs a task; the orchestrator may still refuse to enqueue it, which leaves it queued. Without a
      sign-in the task fails for that reason exactly when it is planning, in progress or under AI review; from any other
      status it stays as it was. */
  method RunTask(table: TaskTable, auth: AuthState, refusal: Option<Dispatch.EnqueueError>, id: nat)
    returns (r: Result<nat, FlowError>)
    requires table.Valid()
    modifies table
    ensures table.Valid() && Reaches(old(table.rows), table.rows)
    ensures auth == CheckFailed ==> r == Err(AuthCheckFailed) && table.rows == old(table.rows)
    ensures auth == SignedOut ==> r == Err(NotAuthenticated)
    ensures auth == SignedOut ==>
      table.rows == MovedFrom(old(table.rows), id, {Planning, InProgress, AIReview}, Failed, Auth)
    ensures auth == SignedOut ==>
      MovedTo(old(table.rows), table.rows, id, {Planning, InProgress, AIReview}, Failed, Auth)
    ensures auth == SignedIn ==> MovedTo(old(table.rows), table.rows, id, {Aborted, Failed}, Queued, NoError)
    ensures auth == SignedIn ==> (r.Ok? <==> IsIn(old(table.rows), id, {Queued, Aborted, Failed}) && refusal.None?)
    ensures auth == SignedIn && IsIn(old(table.rows), id, {Queued, Aborted, Failed}) && refusal.Some? ==>
      r == Err(NotEnqueued(refusal.value)) && IsIn(table.rows, id, {Queued})
    ensures auth == SignedIn ==> table.rows == MovedFrom(old(table.rows), id, {Aborted, Failed}, Queued, NoError)
    ensures r.Ok? ==> r.value == id && IsIn(table.rows, id, {Queued})
  {
    hide IsSound, TableSound, Moved, Reaches, MovedTo;
    MovedFromReads(table.rows, id, {Planning, InProgress, AIReview}, Failed, Auth);
    MovedFromReads(table.rows, id, {Aborted, Failed}, Queued, NoError);
    ReachNothing(table.rows);
    if auth == CheckFailed {
      return Err(AuthCheckFailed);
    }
    var got := table.Get(id);
    if auth == SignedOut {
      if got.Ok? && !IsTerminal(got.value.status) {
        RowSound(table.rows, id);
        var _ := MoveTask(table, got.value, Failed, Auth, NotFinal);
      }
      return Err(NotAuthenticated);
    }
    if got.Err? {
      return Err(Store(Some(got.error)));
    }
    var t := got.value;
    if t.status != Queued {
      if t.status != Aborted && t.status != Failed {
        return Err(CannotRun);
      }
      RowSound(table.rows, id);
      var fault := MoveTask(table, t, Queued, NoError, NotFinal);
      if fault.Some? {
        return Err(Store(fault));
      }
      MovedKeepsId(t, Queued, NoError, NotFinal);
    }
    r := if refusal.Some? then Err(NotEnqueued(refusal.value)) else Ok(id);
  }

  /** A transition from the status of a copy just read. */
  method MoveTask(table: TaskTable, t: Task, to: Status, code: ErrorCode, fin: FinalizationKind)
    returns (fault: Option<TaskError>)
    requires table.Valid() && t.id in table.rows && table.rows[t.id] == t
    modifies table
    ensures table.Valid() && Reaches(old(table.rows), table.rows)
    ensures fault == None <==> TransitionFault(t.status, to, code, fin) == None
    ensures table.rows == if fault == None then old(table.rows)[t.id := Moved(t, to, code, fin)] else old(table.rows)
  {
    hide IsSound, TableSound, Moved, Reaches, TransitionFault;
    ReachOne(table.rows, Transition(t.id, t.status, to, code, fin));
    fault := table.TransitionTask(t.id, t.status, to, code, fin);
  }

  // ---- cancel ----

  /** Stops a task. With a live session that session ends it later; otherwise the row moves at once. */
  method CancelTask(table: TaskTable, live: bool, id: nat) returns (r: Result<(), FlowError>)
    requires table.Valid()
    modifies table
    ensures table.Valid() && Reaches(old(table.rows), table.rows)
    ensures live ==> r.Ok? && table.rows == old(table.rows)
    ensures !live ==> (r.Ok? <==> id in old(table.rows))
    ensures !live && IsIn(old(table.rows), id, {InProgress, AIReview}) ==>
      table.rows == MovedFrom(old(table.rows), id, {InProgress, AIReview}, Aborted, NoError)
    ensures !live && !IsIn(old(table.rows), id, {InProgress, AIReview}) ==>
      table.rows == MovedFrom(old(table.rows), id, {Planning, Queued}, Cancelled, NoError)
    ensures !live && IsIn(old(table.rows), id, {InProgress, AIReview}) ==>
      && OnlyRow(old(table.rows), table.rows, id) && KeepsColumns(old(table.rows)[id], table.rows[id])
      && Reads(table.rows[id], Aborted, NoError, NotFinal, old(table.rows)[id].reworkCount)
    ensures !live && !IsIn(old(table.rows), id, {InProgress, AIReview}) ==>
      MovedTo(old(table.rows), table.rows, id, {Planning, Queued}, Cancelled, NoError)
  {
    hide IsSound, TableSound, Moved, Reaches, MovedTo, KeepsColumns;
    MovedFromReads(table.rows, id, {Planning, Queued}, Cancelled, NoError);
    AbortReads(table.rows, id);
    ReachNothing(table.rows);
    if live {
      return Ok(());
    }
    var got := table.Get(id);
    if got.Err? {
      return Err(Store(Some(got.error)));
    }
    var t := got.value;
    RowSound(table.rows, id);
    var fault: Option<TaskError> := None;
    if t.status == InProgress || t.status == AIReview {
      fault := MoveTask(table, t, Aborted, NoError, NotFinal);
    } else if t.status == Planning || t.status == Queued {
      fault := MoveTask(table, t, Cancelled, NoError, NotFinal);
    }
    r := if fault.Some? then Err(Store(fault)) else Ok(());
  }

  lemma AbortReads(rows: Rows, id: nat)
    ensures IsIn(rows, id, {InProgress, AIReview}) ==>
      var after := MovedFrom(rows, id, {InProgress, AIReview}, Aborted, NoError);
      && OnlyRow(rows, after, id) && KeepsColumns(rows[id], after[id])
      && Reads(after[id], Aborted, NoError, NotFinal, rows[id].reworkCount)
  {
    hide Moved, KeepsColumns;
    if IsIn(rows, id, {InProgress, AIReview}) {
      MovedReads(rows[id], Aborted, NoError, NotFinal);
    }
  }

  // ---- review ----

  datatype ReviewAction = Approve | Rework | Reject | OtherAction

  function ReviewFault(t: Task, action: ReviewAction, feedback: string): Option<FlowError> {
    if t.status != AIReview && t.status != HumanReview then Some(CannotReview)
    else match action {
      case Approve => if t.status != AIReview then Some(WrongStageForAction) else None
      case Reject => if t.status != AIReview then Some(WrongStageForAction) else None
      case Rework => if TrimSpace(feedback) == "" then Some(NoFeedback) else None
      case OtherAction => Some(UnknownAction)
    }
  }

  /** Where a review sends a task: approval to the user's review, rejection to failed, rework back to the queue with
      the feedback stored. */
  ghost function Reviewed(t: Task, action: ReviewAction, feedback: string): Task {
    match action
    case Approve => Moved(t, HumanReview, NoError, NotFinal)
    case Reject => Moved(t, Failed, ReviewRejected, NotFinal)
    case _ => Moved(t.(reviewFeedback := feedback), Queued, NoError, NotFinal)
  }

  /** What a review may ask: approval and rejection of a task under AI review, and rework, with feedback that is not
      blank, of a task under either review. */
  lemma ReviewAllowedIff(t: Task, action: ReviewAction, feedback: string)
    ensures ReviewFault(t, action, feedback) == None <==>
      || (action == Approve && t.status == AIReview)
      || (action == Reject && t.status == AIReview)
      || (action == Rework && (t.status == AIReview || t.status == HumanReview) && TrimSpace(feedback) != "")
  {
    hide TrimSpace;
  }

  /** What a review writes: an approved task is up for the user's review, its counter kept; a rejected one has failed as
      rejected; one sent back is queued with the feedback as given, and counts as reworked only from the AI review. */
  ghost predicate ReviewWrites(was: Task, now: Task, action: ReviewAction, feedback: string) {
    match action
    case Approve => KeepsColumns(was, now) && Reads(now, HumanReview, NoError, NotFinal, was.reworkCount)
    case Reject => KeepsColumns(was, now) && Reads(now, Failed, ReviewRejected, NotFinal, 0)
    case Rework =>
      && KeepsColumns(was.(reviewFeedback := feedback), now)
      && Reads(now, Queued, NoError, NotFinal, if was.status == AIReview then was.reworkCount + 1 else 0)
    case OtherAction => false
  }

  lemma ReviewedReads(t: Task, action: ReviewAction, feedback: string)
    requires ReviewFault(t, action, feedback) == None
    ensures ReviewWrites(t, Reviewed(t, action, feedback), action, feedback)
  {
    hide Moved, TrimSpace, KeepsColumns;
    MovedReads(t, HumanReview, NoError, NotFinal);
    MovedReads(t, Failed, ReviewRejected, NotFinal);
    MovedReads(t.(reviewFeedback := feedback), Queued, NoError, NotFinal);
  }

  method SubmitReview(table: TaskTable, id: nat, action: ReviewAction, feedback: string)
    returns (r: Result<nat, FlowError>)
    requires table.Valid()
    modifies table
    ensures table.Valid() && Reaches(old(table.rows), table.rows)
    ensures r.Ok? <==> id != 0 && id in old(table.rows) && ReviewFault(old(table.rows)[id], action, feedback) == None
    ensures table.rows ==
      if r.Ok? then old(table.rows)[id := Reviewed(old(table.rows)[id], action, feedback)] else old(table.rows)
    ensures r.Ok? ==>
      OnlyRow(old(table.rows), table.rows, id) && ReviewWrites(old(table.rows)[id], table.rows[id], action, feedback)
  {
    hide TableSound, Moved, Reaches, TrimSpace, ReviewWrites;
    ReachNothing(table.rows);
    if id == 0 {
      return Err(EmptyId);
    }
    var got := table.Get(id);
    if got.Err? {
      return Err(Store(Some(got.error)));
    }
    var t := got.value;
    RowSound(table.rows, id);
    var fault := ReviewFault(t, action, feedback);
    if fault.Some? {
      return Err(fault.value);
    }
    ReviewedReads(t, action, feedback);
    ghost var before := table.rows;
    if action == Rework {
      t := t.(reviewFeedback := feedback);
      SaveFeedback(before, t);
      var stale := table.UpdateTask(t);
      if stale.Some? {
        return Err(Store(stale));
      }
    }
    var next := match action { case Approve => HumanReview case Reject => Failed case _ => Queued };
    var code := if action == Reject then ReviewRejected else NoError;
    ghost var middle := table.rows;
    var refused := table.TransitionTask(id, t.status, next, code, NotFinal);
    ReachMore(before, middle, Transition(id, t.status, next, code, NotFinal));
    if refused.Some? {
      return Err(Store(refused));
    }
    r := Ok(id);
  }

  lemma RowSound(rows: Rows, id: nat)
    requires TableSound(rows) && id in rows
    ensures rows[id].id == id && IsSound(rows[id])
  {
  }

  lemma SaveFeedback(rows: Rows, copy: Task)
    requires TableSound(rows) && copy.id in rows && copy == rows[copy.id].(reviewFeedback := copy.reviewFeedback)
    requires copy.status in {AIReview, HumanReview}
    ensures Succeeds(rows, UpdateFields(copy)) && Apply(rows, UpdateFields(copy)) == rows[copy.id := copy]
    ensures Reaches(rows, rows[copy.id := copy])
  {
    hide Reaches;
    RowSound(rows, copy.id);
    ReachOne(rows, UpdateFields(copy));
  }

  // ---- finalize ----

  datatype FinalizeAction = KeepBranch | Discard | Merge | OtherFinalize

  /** How the git operations turn out. */
  datatype GitOracle = GitOracle(repoFound: bool, mergeOk: bool, removeOk: bool, deleteBranchOk: bool)

  ghost predicate CanFinalize(t: Task, action: FinalizeAction, git: GitOracle) {
    && t.status in {HumanReview, Aborted} && t.worktreePath != "" && t.branch != ""
    && action != OtherFinalize && git.repoFound && git.removeOk
    && (action == Merge ==> t.baseBranch != "" && git.mergeOk)
  }

  ghost predicate CanMergeLate(t: Task, action: FinalizeAction, git: GitOracle) {
    && t.status == Done && t.finalization == Keep && action == Merge
    && t.branchExists && t.branch != "" && t.baseBranch != "" && git.repoFound && git.mergeOk && git.deleteBranchOk
  }

  ghost predicate Finalizable(t: Task, action: FinalizeAction, git: GitOracle) {
    CanFinalize(t, action, git) || CanMergeLate(t, action, git)
  }

  /** When finalizing goes through: from human review or aborted with a worktree and a branch in a known repository, the
      worktree removed and, for a merge, a base branch merged into; from done and kept only by a merge, with all of the
      branch's steps succeeding. */
  lemma FinalizableIff(t: Task, action: FinalizeAction, git: GitOracle)
    ensures Finalizable(t, action, git) <==>
      && git.repoFound && t.branch != "" && action != OtherFinalize
      && (action == Merge ==> git.mergeOk && t.baseBranch != "")
      && match t.status {
        case HumanReview => git.removeOk && t.worktreePath != ""
        case Aborted => git.removeOk && t.worktreePath != ""
        case Done => action == Merge && t.finalization == Keep && t.branchExists && git.deleteBranchOk
        case _ => false
      }
  {
  }

  ghost function Finalized(t: Task, action: FinalizeAction): Task {
    if t.status == Done then t.(finalization := Merged, branchExists := false)
    else match action {
      case KeepBranch => Moved(t, Done, NoError, Keep)
      case Merge => Moved(t, Done, NoError, Merged)
      case _ => Moved(t, Cancelled, NoError, NotFinal)
    }
  }

  /** What finalizing writes: a kept branch ends as kept, a merge as merged, a discarded task as cancelled, each with
      its counter at zero; a merge after an earlier keep turns it into merged and the branch is gone. */
  ghost predicate FinalizeWrites(was: Task, now: Task, action: FinalizeAction) {
    if was.status == Done then
      KeepsColumns(was.(branchExists := false), now) && Reads(now, Done, was.errorCode, Merged, was.reworkCount)
    else
      && KeepsColumns(was, now)
      && match action {
        case KeepBranch => Reads(now, Done, NoError, Keep, 0)
        case Merge => Reads(now, Done, NoError, Merged, 0)
        case Discard => Reads(now, Cancelled, NoError, NotFinal, 0)
        case OtherFinalize => false
      }
  }

  lemma FinalizedReads(t: Task, action: FinalizeAction, git: GitOracle)
    requires Finalizable(t, action, git)
    ensures FinalizeWrites(t, Finalized(t, action), action)
  {
    hide Moved;
    MovedReads(t, Done, NoError, Keep);
    MovedReads(t, Done, NoError, Merged);
    MovedReads(t, Cancelled, NoError, NotFinal);
  }

  /** The user's last word on a task: keep, merge or discard; or a merge after an earlier keep. */
  method Finalize(table: TaskTable, busy: bool, id: nat, action: FinalizeAction, git: GitOracle)
    returns (r: Result<(), FlowError>)
    requires table.Valid()
    modifies table
    ensures table.Valid() && Reaches(old(table.rows), table.rows)
    ensures r.Ok? <==> id != 0 && !busy && id in old(table.rows) && Finalizable(old(table.rows)[id], action, git)
    ensures table.rows ==
      if r.Ok? then old(table.rows)[id := Finalized(old(table.rows)[id], action)] else old(table.rows)
    ensures r.Ok? ==>
      OnlyRow(old(table.rows), table.rows, id) && FinalizeWrites(old(table.rows)[id], table.rows[id], action)
  {
    hide IsSound, TableSound, Moved, Reaches, FinalizeWrites;
    ReachNothing(table.rows);
    if id == 0 {
      return Err(EmptyId);
    }
    if busy {
      return Err(StillRunning);
    }
    var got := table.Get(id);
    if got.Err? {
      return Err(Store(Some(got.error)));
    }
    var t := got.value;
    RowSound(table.rows, id);
    if Finalizable(t, action, git) { FinalizedReads(t, action, git); }
    if t.status == Done && t.finalization == Keep {
      if action != Merge {
        return Err(AlreadyDone);
      }
      r := FinalizeDoneMerge(table, t, git);
      return;
    }
    if t.status != HumanReview && t.status != Aborted {
      return Err(CannotFinalize);
    }
    if t.worktreePath == "" || t.branch == "" {
      return Err(NoWorktree);
    }
    if !git.repoFound {
      return Err(NoRepository);
    }
    var nextStatus, finalization := Done, Keep;
    match action {
      case KeepBranch =>
      case Discard =>
        nextStatus, finalization := Cancelled, NotFinal;
      case Merge =>
        if t.baseBranch == "" {
          return Err(NoBaseBranch);
        }
        if !git.mergeOk {
          return Err(GitFailed);
        }
        finalization := Merged;
      case OtherFinalize =>
        return Err(UnknownAction);
    }
    if !git.removeOk {
      return Err(GitFailed);
    }
    var fault := MoveTask(table, t, nextStatus, NoError, finalization);
    r := if fault.Some? then Err(Store(fault)) else Ok(());
  }

  method FinalizeDoneMerge(table: TaskTable, copy: Task, git: GitOracle) returns (r: Result<(), FlowError>)
    requires table.Valid() && copy.id in table.rows && table.rows[copy.id] == copy
    requires copy.status == Done && copy.finalization == Keep
    modifies table
    ensures table.Valid() && Reaches(old(table.rows), table.rows)
    ensures r.Ok? <==> CanMergeLate(copy, Merge, git)
    ensures r.Ok? ==>
      table.rows == old(table.rows)[copy.id := copy.(finalization := Merged, branchExists := false)]
    ensures r.Err? ==> table.rows == old(table.rows)
  {
    hide TableSound, Reaches;
    ReachNothing(table.rows);
    if !copy.branchExists || copy.branch == "" {
      return Err(NoBranch);
    }
    if copy.baseBranch == "" {
      return Err(NoBaseBranch);
    }
    if !git.repoFound {
      return Err(NoRepository);
    }
    if !git.mergeOk || !git.deleteBranchOk {
      return Err(GitFailed);
    }
    RowSound(table.rows, copy.id);
    ghost var before := table.rows;
    var t := copy.(finalization := Merged);
    ReachOne(before, UpdateFields(t));
    var fault := table.UpdateTask(t);
    if fault.Some? {
      return Err(Store(fault));
    }
    ReachMore(before, table.rows, SetBranchExists(t.id, false));
    table.SetBranch(t.id, false);
    r := Ok(());
  }

  // ---- worktree removal ----

  /** Removing a task's worktree cancels the task exactly when it is queued, planning, in human review or aborted; a
      task in progress or under AI review keeps its status. */
  method WorktreeRemoved(table: TaskTable, id: nat)
    requires table.Valid()
    modifies table
    ensures table.Valid() && Reaches(old(table.rows), table.rows)
    ensures table.rows == MovedFrom(old(table.rows), id, {Queued, Planning, HumanReview, Aborted}, Cancelled, NoError)
    ensures
      MovedTo(old(table.rows), table.rows, id, {Queued, Planning, HumanReview, Aborted}, Cancelled, NoError)
  {
    hide IsSound, TableSound, Moved, Reaches, MovedTo;
    MovedFromReads(table.rows, id, {Queued, Planning, HumanReview, Aborted}, Cancelled, NoError);
    ReachNothing(table.rows);
    var got := table.Get(id);
    if got.Ok? && !IsTerminal(got.value.status) {
      RowSound(table.rows, id);
      var _ := MoveTask(table, got.value, Cancelled, NoError, NotFinal);
    }
  }

  // ---- what the steps keep ----

  ghost predicate IsMerged(rows: Rows, id: nat) {
    id in rows && rows[id].status == Done && rows[id].finalization == Merged
  }

  /** Whatever a user step does to the table, a merged task is merged afterwards. */
  lemma StepKeepsMerge(before: Rows, after: Rows, id: nat)
    requires Reaches(before, after) && IsMerged(before, id)
    ensures IsMerged(after, id)
  {
    hide After;
    var writes: seq<Write> :| CallersWrites(writes) && After(before, writes, |writes|) == after;
    assert NeverDeleted(writes, id) by {
      forall i | 0 <= i < |writes| ensures writes[i] != Delete(id) { assert IsCallersWrite(writes[i]); }
    }
    forall i | 0 <= i < |writes| && writes[i].UpdateFields?
      ensures IsCallersCopy(writes[i].copy)
    {
      assert IsCallersWrite(writes[i]);
    }
    MergedStaysMerged(before, writes, id, |writes|);
  }

  /** The table before, between and after any sequence of user steps. */
  ghost predicate AreStepResults(tables: seq<Rows>) {
    forall i, j :: 0 <= i && j == i + 1 && j < |tables| ==> Reaches(tables[i], tables[j])
  }

  /** No sequence of runs, cancels, reviews, finalizations and worktree removals turns a merged task back. */
  lemma {:induction false} UserStepsKeepMerges(tables: seq<Rows>, id: nat, n: nat)
    requires AreStepResults(tables) && n < |tables| && IsMerged(tables[0], id)
    ensures IsMerged(tables[n], id)
  {
    hide Reaches, IsMerged;
    if n > 0 {
      UserStepsKeepMerges(tables, id, n - 1);
      var i, j := n - 1, n;
      assert Reaches(tables[i], tables[j]);
      StepKeepsMerge(tables[i], tables[j], id);
    }
  }
}
