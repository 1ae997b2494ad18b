/** What each write puts into a task row, column by column (sidecar/internal/store/task_store.go,
    sidecar/internal/task/transition.go). */
module TaskWrites {
  import opened TaskStore

  /** The columns that no change of status touches. */
  ghost predicate KeepsColumns(was: Task, now: Task) {
    && now.id == was.id && now.repoId == was.repoId && now.goal == was.goal && now.baseBranch == was.baseBranch
    && now.branch == was.branch && now.worktreePath == was.worktreePath
    && now.reviewFeedback == was.reviewFeedback && now.branchExists == was.branchExists
  }

  /** The same tasks, and every one but task id as it was. */
  ghost predicate OnlyRow(before: Rows, after: Rows, id: nat) {
    before.Keys == after.Keys && forall other :: other in before && other != id ==> after[other] == before[other]
  }

  /** The edges of the state machine by where they lead. */
  lemma WaysIn(from: Status)
    ensures CanTransition(from, Planning) <==> from == Queued
    ensures CanTransition(from, InProgress) <==> from == Queued || from == Planning
    ensures CanTransition(from, AIReview) <==> from == InProgress
    ensures CanTransition(from, HumanReview) <==> from == AIReview
    ensures CanTransition(from, Done) <==> from == HumanReview || from == Aborted
    ensures CanTransition(from, Cancelled) <==>
      from == Queued || from == Planning || from == HumanReview || from == Aborted
    ensures CanTransition(from, Aborted) <==> from == Planning || from == InProgress || from == AIReview
    ensures CanTransition(from, Failed) <==> from == Planning || from == InProgress || from == AIReview
    ensures CanTransition(from, Queued) <==>
      from == AIReview || from == HumanReview || from == Aborted || from == Failed
  {
  }

  // ---- transitions ----

  /** A transition succeeds exactly along an edge, from the status the row is in, with a code for a failure and a
      finalization for a completion. */
  lemma TransitionSucceedsIff(rows: Rows, id: nat, from: Status, to: Status, code: ErrorCode, fin: FinalizationKind)
    ensures Succeeds(rows, Transition(id, from, to, code, fin)) <==>
      && CanTransition(from, to) && (to == Failed ==> code != NoError) && (to == Done ==> fin != NotFinal)
      && id in rows && rows[id].status == from
  {
    hide CanTransition;
  }

  /** What the row reads after a change of status: the error code and the finalization given, each with its own status
      and with no other; the counter one higher on the way from the AI review to the queue, zero on every other way into
      the queue and at the end, kept on all other ways. */
  lemma MovedReads(row: Task, to: Status, code: ErrorCode, fin: FinalizationKind)
    ensures var now := Moved(row, to, code, fin);
      && KeepsColumns(row, now) && now.status == to
      && (to == Failed ==> now.errorCode == code) && (to != Failed ==> now.errorCode == NoError)
      && (to == Done ==> now.finalization == fin) && (to != Done ==> now.finalization == NotFinal)
      && (to == Queued && row.status == AIReview ==> now.reworkCount == row.reworkCount + 1)
      && (to == Queued && row.status != AIReview ==> now.reworkCount == 0)
      && (to in {Done, Cancelled, Failed} ==> now.reworkCount == 0)
      && (to in {Planning, InProgress, AIReview, HumanReview, Aborted} ==> now.reworkCount == row.reworkCount)
  {
  }

  /** The whole write: one row, as told above, and no other. */
  lemma TransitionWrites(rows: Rows, id: nat, from: Status, to: Status, code: ErrorCode, fin: FinalizationKind)
    requires Succeeds(rows, Transition(id, from, to, code, fin))
    ensures var after := Apply(rows, Transition(id, from, to, code, fin));
      && OnlyRow(rows, after, id) && KeepsColumns(rows[id], after[id]) && after[id].status == to
      && after[id].errorCode == (if to == Failed then code else NoError)
      && after[id].finalization == (if to == Done then fin else NotFinal)
      && (from == AIReview && to == Queued ==> after[id].reworkCount == rows[id].reworkCount + 1)
      && (from != AIReview && to == Queued ==> after[id].reworkCount == 0)
      && (to in {Done, Cancelled, Failed} ==> after[id].reworkCount == 0)
      && (to in {Planning, InProgress, AIReview, HumanReview, Aborted} ==>
            after[id].reworkCount == rows[id].reworkCount)
  {
    hide TransitionFault, Moved, KeepsColumns;
    MovedReads(rows[id], to, code, fin);
  }

  // ---- the other writes ----

  /** A write that is refused changes nothing. */
  lemma RefusedChangesNothing(rows: Rows, w: Write)
    requires !Succeeds(rows, w)
    ensures Apply(rows, w) == rows
  {
    hide Succeeds;
  }

  /** A new row reads as given, but a task that still waits to run counts its branch as existing. */
  lemma CreateWrites(rows: Rows, t: Task)
    requires Succeeds(rows, Create(t))
    ensures var after := Apply(rows, Create(t));
      && after.Keys == rows.Keys + {t.id} && (forall other :: other in rows ==> after[other] == rows[other])
      && after[t.id] == t.(branchExists := after[t.id].branchExists)
      && (after[t.id].branchExists <==> t.branchExists || t.status == Planning || t.status == Queued)
  {
    hide IsSound;
  }

  /** Writing a copy back takes its texts, error code, finalization and counter; the repository, the status and the
      branch flag stay the row's. */
  lemma UpdateWrites(rows: Rows, copy: Task)
    requires Succeeds(rows, UpdateFields(copy)) && TableSound(rows)
    ensures var after := Apply(rows, UpdateFields(copy)); var was, now := rows[copy.id], after[copy.id];
      && OnlyRow(rows, after, copy.id)
      && now.id == was.id && now.repoId == was.repoId && now.status == was.status
      && now.branchExists == was.branchExists
      && now.goal == copy.goal && now.baseBranch == copy.baseBranch && now.branch == copy.branch
      && now.worktreePath == copy.worktreePath && now.reviewFeedback == copy.reviewFeedback
      && now.finalization == copy.finalization && now.errorCode == copy.errorCode
      && now.reworkCount == copy.reworkCount
  {
    hide IsSound;
  }

  /** The branch flag is written alone. */
  lemma SetBranchWrites(rows: Rows, id: nat, b: bool)
    requires id in rows
    ensures var after := Apply(rows, SetBranchExists(id, b));
      OnlyRow(rows, after, id) && after[id].branchExists == b
      && after[id] == rows[id].(branchExists := after[id].branchExists)
  {
  }

  lemma DeleteWrites(rows: Rows, id: nat)
    requires id in rows
    ensures var after := Apply(rows, Delete(id));
      after.Keys == rows.Keys - {id} && forall other :: other in after ==> after[other] == rows[other]
  {
  }

  /** Recovery fails every task in progress as interrupted, keeps the rest of its row, and leaves the others alone. */
  lemma RecoveryWrites(rows: Rows, id: nat)
    requires id in rows
    ensures var after := Apply(rows, RecoverRunning); after.Keys == rows.Keys
    ensures var now := Apply(rows, RecoverRunning)[id];
      && (rows[id].status != InProgress ==> now == rows[id])
      && (rows[id].status == InProgress ==>
            && now.status == Failed && now.errorCode == Interrupted && KeepsColumns(rows[id], now)
            && now.finalization == rows[id].finalization && now.reworkCount == rows[id].reworkCount)
  {
  }
}
