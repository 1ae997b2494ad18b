/** Where the automatic steps take a task, and what an AI review leaves on its row
    (sidecar/internal/orchestrator/orchestrator.go, dispatch, completeTask, runAIReview). */
module Verdicts {
  import opened Text
  import opened TaskStore
  import opened TaskWrites
  import opened Pipeline

  // ---- what the goroutines remember ----

  /** The row is valid; a review that has looked at it remembers it as it stands; a dispatcher at work holds a valid
      copy. */
  ghost predicate Faithful(s: Run) {
    && IsSound(s.row)
    && (s.reviewer.Some? && s.reviewer.value.stage != Registered ==> s.reviewer.value.copy == s.row)
    && (s.dispatcher.Some? && s.dispatcher.value.stage !in {Waiting, Leaving} ==> IsSound(s.dispatcher.value.copy))
  }

  lemma SaveOfSound(row: Task, copy: Task)
    requires IsSound(copy) && copy.status == row.status && copy.id == row.id
    ensures SaveRow(row, copy) == copy.(repoId := row.repoId, branchExists := row.branchExists)
  {
    hide IsSound;
  }

  lemma NotedIsSound(copy: Task, cap: int, feedback: string)
    requires IsSound(copy)
    ensures IsSound(Noted(copy, cap, feedback))
  {
    hide RejectionText;
  }

  lemma ReviewStaysFaithful(s: Run, cap: int, step: Step)
    requires RunInv(s, cap) && Faithful(s) && Enabled(s, step) && IsReviewStep(step)
    ensures var after := ReviewerNext(s, cap, step);
      after.reviewer.Some? && after.reviewer.value.stage != Registered ==> after.reviewer.value.copy == after.row
  {
    hide IsSound, RejectionText, Cas, SaveRow;
    if step.Decide? {
      DecidingStaysFaithful(s, cap, step.approve, step.feedback);
    } else if step == RecordModel {
      SaveOfSound(s.row, s.reviewer.value.copy);
    }
  }

  lemma DecidingStaysFaithful(s: Run, cap: int, approve: bool, feedback: string)
    requires RunInv(s, cap) && Faithful(s) && ReviewerAt(s, Deciding)
    ensures var after := ReviewerNext(s, cap, Decide(approve, feedback));
      after.reviewer.Some? ==> after.reviewer.value.copy == after.row
  {
    hide IsSound, RejectionText, Cas, SaveRow;
    var copy := s.reviewer.value.copy;
    NotedIsSound(copy, cap, feedback);
    SaveOfSound(s.row, Noted(copy, cap, feedback));
  }

  lemma DispatchStaysFaithful(s: Run, cap: int, step: Step)
    requires RunInv(s, cap) && Faithful(s) && Enabled(s, step) && s.dispatcher.Some? && !IsReviewStep(step)
    requires step != SelfEnqueue && step != Crash
    ensures var after := DispatcherNext(s, step);
      && (after.reviewer.Some? && after.reviewer.value.stage != Registered ==> after.reviewer.value.copy == after.row)
      && (after.dispatcher.Some? && after.dispatcher.value.stage !in {Waiting, Leaving} ==>
            IsSound(after.dispatcher.value.copy))
  {
    hide Cas, SaveRow;
    if DispatcherAt(s, Leaving) {
      LeavingKeepsRow(s, step);
    }
  }

  /** Whatever step the automatic run takes, its goroutines go on remembering what the row says. */
  lemma StepStaysFaithful(s: Run, cap: int, step: Step)
    requires RunInv(s, cap) && Faithful(s) && Enabled(s, step)
    ensures Faithful(Next(s, cap, step))
  {
    hide RunInv, IsSound, DispatcherNext, ReviewerNext, Interruption;
    StepIsStored(s, cap, step);
    StoredKeepsSound(s.row, Next(s, cap, step).row);
    if IsReviewStep(step) {
      ReviewStaysFaithful(s, cap, step);
      ReviewKeepsDispatcher(s, cap, step);
    } else if step != SelfEnqueue && step != Crash {
      DispatchStaysFaithful(s, cap, step);
    }
  }

  lemma ReviewKeepsDispatcher(s: Run, cap: int, step: Step)
    requires s.reviewer.Some? && IsReviewStep(step)
    ensures ReviewerNext(s, cap, step).dispatcher == s.dispatcher
  {
    hide Cas, SaveRow, RejectionText;
  }

  lemma {:induction false} RunStaysFaithful(trace: seq<Run>, steps: seq<Step>, cap: int, n: nat)
    requires IsRun(trace, steps, cap) && n <= |steps| && RunInv(trace[0], cap) && Faithful(trace[0])
    ensures RunInv(trace[n], cap) && Faithful(trace[n])
  {
    hide RunInv, Next, Enabled, Faithful;
    if n > 0 {
      RunStaysFaithful(trace, steps, cap, n - 1);
      RunProgress(trace, steps, cap, n);
      StepOfRun(trace, steps, cap, n - 1);
      StepStaysFaithful(trace[n - 1], cap, steps[n - 1]);
    }
  }

  // ---- where a step takes the task ----

  /** The step is one of a review whose context is not done. */
  predicate IsLive(s: Run) {
    s.reviewer.Some? && !s.reviewer.value.done
  }

  /** Under AI review a task goes to the user exactly on an approval or an escalation, and to the queue exactly on a
      requeue, each on a live context. Otherwise it stays or is aborted; it never fails. */
  lemma ReviewMovesIff(s: Run, cap: int, step: Step)
    requires RunInv(s, cap) && Enabled(s, step) && s.row.status == AIReview
    ensures var status := Next(s, cap, step).row.status;
      && (status == HumanReview <==> IsLive(s) && (step == Escalate || (step.Decide? && step.approve)))
      && (status == Queued <==> IsLive(s) && step == Requeue)
      && status in {AIReview, HumanReview, Queued, Aborted}
  {
    hide SaveRow, Cas, DispatcherNext, RejectionText;
    if IsReviewStep(step) {
      CasFacts(s.row, AIReview, Aborted, NoError);
      CasFacts(s.row, AIReview, HumanReview, NoError);
      CasFacts(s.row, AIReview, Queued, NoError);
      SavesKeepStatus(s.row, s.reviewer.value.copy, cap, if step.Decide? then step.feedback else "");
    } else if s.dispatcher.Some? && step != SelfEnqueue && step != Crash {
      LeavingKeepsRow(s, step);
    }
  }

  lemma CasReads(row: Task, from: Status, to: Status, code: ErrorCode)
    requires row.status == from && to != Done && (to == Failed <==> code != NoError)
    ensures var now := Cas(row, from, to, code);
      && KeepsColumns(row, now) && now.status == to && now.errorCode == code && now.finalization == NotFinal
      && (from == AIReview && to == Queued ==> now.reworkCount == row.reworkCount + 1)
      && (from != AIReview && to == Queued ==> now.reworkCount == 0)
      && (to in {Cancelled, Failed} ==> now.reworkCount == 0)
      && (to in {Planning, InProgress, AIReview, HumanReview, Aborted} ==> now.reworkCount == row.reworkCount)
  {
    hide Moved, KeepsColumns;
    MovedReads(row, to, code, NotFinal);
  }

  /** Outside the review: picking up plans or starts a queued task, its plan recorded it starts, its code done it goes
      to review with a reviewer of its own, a failure fails it with the code given, and a crash fails it as interrupted
      exactly when it was in progress. No other step changes its status, and none of these touches what else it says. */
  lemma DispatchMovesIff(s: Run, cap: int, step: Step)
    requires RunInv(s, cap) && Enabled(s, step) && s.dispatcher.Some? && !IsReviewStep(step) && step != SelfEnqueue
    ensures var was, now := s.row, Next(s, cap, step).row;
      match step {
        case PickUp(planner) => KeepsColumns(was, now) && now.status == (if planner then Planning else InProgress)
        case Start => KeepsColumns(was, now) && now.status == InProgress
        case Complete =>
          && KeepsColumns(was, now) && now.status == AIReview && now.reworkCount == was.reworkCount
          && ReviewerAt(Next(s, cap, step), Registered) && IsLive(Next(s, cap, step))
        case Fail(code) =>
          KeepsColumns(was, now) && now.status == Failed && now.errorCode == code && now.reworkCount == 0
        case Crash =>
          && KeepsColumns(was, now) && now.reworkCount == was.reworkCount
          && now.status == (if was.status == InProgress then Failed else was.status)
          && now.errorCode == (if was.status == InProgress then Interrupted else was.errorCode)
        case Save => now.status == was.status
        case Record => now.status == was.status
        case RecordCode => now.status == was.status
        case _ => now == was
      }
  {
    hide Cas, SaveRow, KeepsColumns;
    match step {
      case PickUp(planner) => CasReads(s.row, Queued, if planner then Planning else InProgress, NoError);
      case Start => CasReads(s.row, Planning, InProgress, NoError);
      case Complete => CasReads(s.row, InProgress, AIReview, NoError);
      case Fail(code) => CasReads(s.row, s.row.status, Failed, code);
      case Crash => InterruptionReads(s.row);
      case Save => SaveFacts(s.row, s.dispatcher.value.copy);
      case Record => SaveFacts(s.row, s.dispatcher.value.copy);
      case RecordCode => SaveFacts(s.row, s.dispatcher.value.copy);
      case _ =>
    }
  }

  lemma InterruptionReads(row: Task)
    ensures KeepsColumns(row, row) && KeepsColumns(row, Interruption(row))
    ensures var now := Interruption(row);
      now.status == Failed && now.errorCode == Interrupted && now.reworkCount == row.reworkCount
  {
  }

  /** The place a dispatcher chose for the task's work is on its row once saved. */
  lemma PlacementIsSaved(s: Run, cap: int, path: string, branch: string)
    requires RunInv(s, cap) && Faithful(s) && DispatcherAt(s, Placing)
    ensures var saved := Next(Next(s, cap, Place(path, branch)), cap, Save);
      && saved.row.worktreePath == path && saved.row.branch == branch && saved.row.status == s.row.status
      && DispatcherAt(saved, if s.row.status == Planning then Drafting else Coding)
  {
    hide SaveRow;
    var copy := s.dispatcher.value.copy.(worktreePath := path, branch := branch);
    SaveOfSound(s.row, copy);
  }

  // ---- verdicts ----

  /** An approval puts the task before the user and ends the review; nothing else on the row changes. */
  lemma ApprovalOutcome(s: Run, cap: int, feedback: string)
    requires RunInv(s, cap) && ReviewerAt(s, Deciding) && IsLive(s)
    ensures var after := Next(s, cap, Decide(true, feedback));
      && KeepsColumns(s.row, after.row) && after.row.status == HumanReview
      && after.row.reworkCount == s.row.reworkCount && after.reviewer == None && after.requests == 0
  {
    hide Cas, SaveRow, KeepsColumns, RejectionText;
    CasReads(s.row, AIReview, HumanReview, NoError);
  }

  /** What a rejection writes before the task moves: the feedback, and nothing else. */
  lemma RejectionIsNoted(s: Run, cap: int, feedback: string)
    requires RunInv(s, cap) && Faithful(s) && ReviewerAt(s, Deciding) && IsLive(s)
    ensures var noted := Next(s, cap, Decide(false, feedback));
      && noted.row == s.row.(reviewFeedback := RejectionText(s.row.reworkCount, cap, feedback))
      && ReviewerAt(noted, if s.row.reworkCount >= cap then Escalating else Requeueing) && IsLive(noted)
      && noted.dispatcher == s.dispatcher && noted.requests == s.requests == 0
  {
    hide Cas, SaveRow, RejectionText, IsSound;
    var copy := s.reviewer.value.copy;
    NotedIsSound(copy, cap, feedback);
    SaveOfSound(s.row, Noted(copy, cap, feedback));
  }

  /** A rejection at the cap is passed to the user: the next step of the reviewer puts the task up for the user's
      review, with a report of the rounds and the last feedback, its counter as it was. */
  lemma RejectionAtTheCap(s: Run, cap: int, feedback: string)
    requires RunInv(s, cap) && Faithful(s) && ReviewerAt(s, Deciding) && IsLive(s) && s.row.reworkCount >= cap
    ensures var noted := Next(s, cap, Decide(false, feedback));
      && Enabled(noted, Escalate)
      && var after := Next(noted, cap, Escalate);
      && after.row.status == HumanReview && after.row.reworkCount == s.row.reworkCount
      && after.reviewer == None && after.requests == 0
      && KeepsColumns(s.row.(reviewFeedback := after.row.reviewFeedback), after.row)
      && after.row.reviewFeedback ==
           "AI Reviewer requested rework " + Itoa(s.row.reworkCount)
           + " times without converging; deferring to user judgement."
           + "\n\nLatest feedback:\n" + (if feedback == "" then "(no details)" else feedback)
  {
    hide Cas, SaveRow, KeepsColumns, Faithful, RunInv;
    RejectionIsNoted(s, cap, feedback);
    UnderReview(s, cap);
    var noted := Next(s, cap, Decide(false, feedback));
    CasReads(noted.row, AIReview, HumanReview, NoError);
    FeedbackAlone(s.row, noted.row, Next(noted, cap, Escalate).row);
  }

  /** A rejection below the cap sends the task back: the next step of the reviewer queues it, with the feedback on its
      row and one more round on its counter, and asks once for it to be enqueued. */
  lemma RejectionBelowTheCap(s: Run, cap: int, feedback: string)
    requires RunInv(s, cap) && Faithful(s) && ReviewerAt(s, Deciding) && IsLive(s) && s.row.reworkCount < cap
    ensures var noted := Next(s, cap, Decide(false, feedback));
      && Enabled(noted, Requeue)
      && var after := Next(noted, cap, Requeue);
      && after.row.status == Queued && after.row.reworkCount == s.row.reworkCount + 1
      && after.reviewer == None && after.requests == 1
      && KeepsColumns(s.row.(reviewFeedback := after.row.reviewFeedback), after.row)
      && after.row.reviewFeedback ==
           (if feedback == "" then "Automatic rework instruction from AI Reviewer (no details)" else feedback)
  {
    hide Cas, SaveRow, KeepsColumns, Faithful, RunInv;
    RejectionIsNoted(s, cap, feedback);
    UnderReview(s, cap);
    var noted := Next(s, cap, Decide(false, feedback));
    CasReads(noted.row, AIReview, Queued, NoError);
    FeedbackAlone(s.row, noted.row, Next(noted, cap, Requeue).row);
  }

  lemma UnderReview(s: Run, cap: int)
    requires RunInv(s, cap) && s.reviewer.Some?
    ensures s.row.status == AIReview
  {
  }

  lemma FeedbackAlone(was: Task, noted: Task, now: Task)
    requires noted == was.(reviewFeedback := noted.reviewFeedback) && KeepsColumns(noted, now)
    ensures now.reviewFeedback == noted.reviewFeedback
    ensures KeepsColumns(was.(reviewFeedback := now.reviewFeedback), now)
  {
  }
}
