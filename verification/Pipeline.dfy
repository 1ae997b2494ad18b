/** One task's automatic life: dispatcher, reviewer, self-enqueue and crash recovery, with no user at work
    (sidecar/internal/orchestrator/orchestrator.go, dispatch, runPlanningPhase, completeTask, runAIReview). */
module Pipeline {
  import opened Text
  import opened TaskStore

  const MAX_REWORK_COUNT := 2

  /** The cap in force: the charter's when there is one and it is positive. */
  function EffectiveMaxRework(charterCap: Option<int>): (cap: int)
    ensures cap > 0
    ensures charterCap == None ==> cap == 2
    ensures charterCap.Some? ==> cap == if charterCap.value > 0 then charterCap.value else 2
  {
    match charterCap { case Some(n) => if n > 0 then n else MAX_REWORK_COUNT case None => MAX_REWORK_COUNT }
  }

  datatype DispatchStage =
    | Waiting | Copied | Placing | Saving | Drafting | Recording | Starting
    | Coding | RecordingCode | Completing | Leaving

  datatype ReviewStage = Registered | Reviewing | RecordingModel | Deciding | Escalating | Requeueing

  /** A dispatch goroutine and its in-memory copy of the row. */
  datatype Dispatcher = Dispatcher(stage: DispatchStage, copy: Task)

  /** A review goroutine, its copy of the row, and whether its context is done: cancelled by the user or timed out. */
  datatype Reviewer = Reviewer(stage: ReviewStage, copy: Task, done: bool)

  /** What the reviewer returned: a verdict, or an error that is or is not a cancellation. */
  datatype ReviewResult = Verdict | ReviewFailed(canceled: bool)

  /** The row, the goroutines at work on it, and the self-enqueue calls still to be made. */
  datatype Run = Run(row: Task, dispatcher: Option<Dispatcher>, reviewer: Option<Reviewer>, requests: nat)

  datatype Step =
    | Fetch | PickUp(planner: bool) | Place(worktreePath: string, branch: string) | Save
    | Draft | Record | Start | Code | RecordCode | Complete
    | Fail(code: ErrorCode) | Abandon | Unregister
    | Inspect | ReviewReturns(result: ReviewResult) | RecordModel
    | Decide(approve: bool, feedback: string) | Escalate | Requeue
    | ReviewContextEnds | GiveUp
    | SelfEnqueue | Crash

  // ---- writes to the row ----

  ghost function Cas(row: Task, from: Status, to: Status, code: ErrorCode): Task {
    if row.status == from then Moved(row, to, code, NotFinal) else row
  }

  ghost function SaveRow(row: Task, copy: Task): Task {
    if row.status == copy.status && IsSound(copy) then Saved(row, copy) else row
  }

  /** What a reviewer's rejection leaves on the row: a report when the cap is reached, otherwise the feedback. */
  function RejectionText(count: int, cap: int, feedback: string): string {
    if count >= cap then
      "AI Reviewer requested rework " + Itoa(count) + " times without converging; deferring to user judgement."
      + "\n\nLatest feedback:\n" + (if feedback == "" then "(no details)" else feedback)
    else if feedback == "" then "Automatic rework instruction from AI Reviewer (no details)"
    else feedback
  }

  function Noted(copy: Task, cap: int, feedback: string): Task {
    copy.(reviewFeedback := RejectionText(copy.reworkCount, cap, feedback))
  }

  // ---- when a step is possible ----

  predicate DispatcherAt(s: Run, stage: DispatchStage) {
    s.dispatcher.Some? && s.dispatcher.value.stage == stage
  }

  predicate ReviewerAt(s: Run, stage: ReviewStage) {
    s.reviewer.Some? && s.reviewer.value.stage == stage
  }

  predicate IsWorking(stage: DispatchStage) {
    stage in {Placing, Saving, Drafting, Recording, Starting, Coding, RecordingCode, Completing}
  }

  predicate Enabled(s: Run, step: Step) {
    match step
    case Fetch => DispatcherAt(s, Waiting)
    case PickUp(_) => DispatcherAt(s, Copied)
    case Place(_, _) => DispatcherAt(s, Placing)
    case Save => DispatcherAt(s, Saving)
    case Draft => DispatcherAt(s, Drafting)
    case Record => DispatcherAt(s, Recording)
    case Start => DispatcherAt(s, Starting)
    case Code => DispatcherAt(s, Coding)
    case RecordCode => DispatcherAt(s, RecordingCode)
    case Complete => DispatcherAt(s, Completing)
    case Fail(code) => code != NoError && s.dispatcher.Some? && IsWorking(s.dispatcher.value.stage)
    case Abandon => DispatcherAt(s, Waiting) || DispatcherAt(s, Copied)
    case Unregister => DispatcherAt(s, Leaving)
    case Inspect => ReviewerAt(s, Registered)
    case ReviewReturns(_) => ReviewerAt(s, Reviewing)
    case RecordModel => ReviewerAt(s, RecordingModel)
    case Decide(_, _) => ReviewerAt(s, Deciding)
    case Escalate => ReviewerAt(s, Escalating)
    case Requeue => ReviewerAt(s, Requeueing)
    case ReviewContextEnds => s.reviewer.Some? && !s.reviewer.value.done
    case GiveUp => s.reviewer.Some?
    case SelfEnqueue => s.requests > 0
    case Crash => s.dispatcher.Some? || s.reviewer.Some? || s.requests > 0 || s.row.status == InProgress
  }

  // ---- what a step does ----

  function To(stage: DispatchStage, copy: Task): Option<Dispatcher> {
    Some(Dispatcher(stage, copy))
  }

  ghost function DispatcherNext(s: Run, step: Step): Run
    requires s.dispatcher.Some?
  {
    var row, copy := s.row, s.dispatcher.value.copy;
    match step
    case Fetch => s.(dispatcher := To(Copied, row))
    case PickUp(planner) =>
      var to := if planner then Planning else InProgress;
      if row.status == Queued then
        s.(row := Cas(row, Queued, to, NoError), dispatcher := To(Placing, copy.(status := to)))
      else s.(dispatcher := To(Leaving, copy))
    case Place(path, branch) => s.(dispatcher := To(Saving, copy.(worktreePath := path, branch := branch)))
    case Save =>
      s.(row := SaveRow(row, copy), dispatcher := To(if copy.status == Planning then Drafting else Coding, copy))
    case Draft => s.(dispatcher := To(Recording, copy))
    case Record => s.(row := SaveRow(row, copy), dispatcher := To(Starting, copy))
    case Start =>
      if row.status == Planning then
        s.(row := Cas(row, Planning, InProgress, NoError), dispatcher := To(Coding, copy.(status := InProgress)))
      else s.(dispatcher := To(Leaving, copy))
    case Code => s.(dispatcher := To(RecordingCode, copy))
    case RecordCode => s.(row := SaveRow(row, copy), dispatcher := To(Completing, copy))
    case Complete =>
      if row.status == InProgress then
        s.(row := Cas(row, InProgress, AIReview, NoError), dispatcher := To(Leaving, copy),
           reviewer := Some(Reviewer(Registered, copy, false)))
      else s.(dispatcher := To(Leaving, copy))
    case Fail(code) => s.(row := Cas(row, copy.status, Failed, code), dispatcher := To(Leaving, copy))
    case Unregister => s.(dispatcher := None)
    case _ => s.(dispatcher := To(Leaving, copy))
  }

  /** Every write but the move to aborted goes through the review's context, and fails once that is done. */
  ghost function ReviewerNext(s: Run, cap: int, step: Step): Run
    requires s.reviewer.Some?
  {
    var row, copy, done := s.row, s.reviewer.value.copy, s.reviewer.value.done;
    match step
    case ReviewContextEnds => s.(reviewer := Some(s.reviewer.value.(done := true)))
    case ReviewReturns(Verdict) => s.(reviewer := Some(Reviewer(RecordingModel, copy, done)))
    case ReviewReturns(ReviewFailed(canceled)) =>
      s.(row := if canceled || done then Cas(row, AIReview, Aborted, NoError) else row, reviewer := None)
    case RecordModel =>
      s.(row := if done then row else SaveRow(row, copy), reviewer := Some(Reviewer(Deciding, copy, done)))
    case _ => if done then s.(reviewer := None) else LiveReviewerNext(s, cap, step)
  }

  ghost function LiveReviewerNext(s: Run, cap: int, step: Step): Run
    requires s.reviewer.Some?
  {
    var row, copy := s.row, s.reviewer.value.copy;
    match step
    case Inspect =>
      if row.status == AIReview then s.(reviewer := Some(Reviewer(Reviewing, row, false))) else s.(reviewer := None)
    case Decide(approve, feedback) =>
      var noted := Noted(copy, cap, feedback);
      if approve then s.(row := Cas(row, AIReview, HumanReview, NoError), reviewer := None)
      else if copy.reworkCount >= cap then
        s.(row := SaveRow(row, noted), reviewer := Some(Reviewer(Escalating, noted, false)))
      else if row.status == AIReview then
        s.(row := SaveRow(row, noted), reviewer := Some(Reviewer(Requeueing, noted, false)))
      else s.(reviewer := None)
    case Escalate => s.(row := Cas(row, AIReview, HumanReview, NoError), reviewer := None)
    case Requeue =>
      if row.status == AIReview then Run(Cas(row, AIReview, Queued, NoError), s.dispatcher, None, s.requests + 1)
      else s.(reviewer := None)
    case _ => s.(reviewer := None)
  }

  predicate IsReviewStep(step: Step) {
    || step in {Inspect, RecordModel, Escalate, Requeue, ReviewContextEnds, GiveUp}
    || step.ReviewReturns? || step.Decide?
  }

  ghost function Next(s: Run, cap: int, step: Step): Run
    requires Enabled(s, step)
  {
    if step == SelfEnqueue then
      s.(requests := s.requests - 1, dispatcher := if s.dispatcher.None? then To(Waiting, s.row) else s.dispatcher)
    else if step == Crash then Run(if s.row.status == InProgress then Interruption(s.row) else s.row, None, None, 0)
    else if IsReviewStep(step) then ReviewerNext(s, cap, step)
    else DispatcherNext(s, step)
  }

  // ---- the invariant ----

  /** A copy taken from the row and not overtaken since. */
  ghost predicate UpToDate(row: Task, copy: Task) {
    copy.id == row.id && copy.reworkCount == row.reworkCount && copy.status == row.status
  }

  ghost predicate DispatcherOk(s: Run, d: Dispatcher) {
    match d.stage
    case Waiting => s.row.status == Queued
    case Copied => s.row.status == Queued && UpToDate(s.row, d.copy)
    case Placing => s.row.status in {Planning, InProgress} && UpToDate(s.row, d.copy)
    case Saving => s.row.status in {Planning, InProgress} && UpToDate(s.row, d.copy)
    case Drafting => s.row.status == Planning && UpToDate(s.row, d.copy)
    case Recording => s.row.status == Planning && UpToDate(s.row, d.copy)
    case Starting => s.row.status == Planning && UpToDate(s.row, d.copy)
    case Coding => s.row.status == InProgress && UpToDate(s.row, d.copy)
    case RecordingCode => s.row.status == InProgress && UpToDate(s.row, d.copy)
    case Completing => s.row.status == InProgress && UpToDate(s.row, d.copy)
    case Leaving => true
  }

  ghost predicate ReviewerOk(s: Run, cap: int, r: Reviewer) {
    && s.row.status == AIReview
    && (r.stage != Registered ==> UpToDate(s.row, r.copy))
    && (r.stage == Requeueing ==> r.copy.reworkCount < cap)
  }

  predicate IsActive(d: Option<Dispatcher>) {
    d.Some? && d.value.stage != Leaving
  }

  /** At most one of dispatcher, reviewer and self-enqueue is in charge, and what it remembers is what the row says. */
  ghost predicate RunInv(s: Run, cap: int) {
    && (s.dispatcher.Some? ==> DispatcherOk(s, s.dispatcher.value))
    && (s.reviewer.Some? ==> ReviewerOk(s, cap, s.reviewer.value))
    && (s.requests > 0 ==> s.row.status == Queued)
    && (IsActive(s.dispatcher) ==> s.reviewer.None? && s.requests == 0)
    && (s.reviewer.Some? ==> s.requests == 0)
    && s.requests <= 1
  }

  // ---- the measure ----

  /** The rework rounds the reviewer may still ask for. */
  ghost function Budget(row: Task, cap: int): nat {
    if row.status in {Queued, Planning, InProgress, AIReview} && row.reworkCount < cap then cap - row.reworkCount else 0
  }

  function DispatchRank(stage: DispatchStage): nat {
    match stage
    case Waiting => 32
    case Copied => 30
    case Placing => 27
    case Saving => 25
    case Drafting => 23
    case Recording => 21
    case Starting => 19
    case Coding => 16
    case RecordingCode => 14
    case Completing => 12
    case Leaving => 2
  }

  function ReviewRank(stage: ReviewStage): nat {
    match stage
    case Registered => 6
    case Reviewing => 5
    case RecordingModel => 4
    case Deciding => 3
    case Escalating => 1
    case Requeueing => 1
  }

  function ReviewerRank(r: Reviewer): nat {
    ReviewRank(r.stage) + if r.done then 0 else 1
  }

  ghost function Measure(s: Run, cap: int): nat {
    100 * Budget(s.row, cap)
    + (if s.dispatcher.Some? then DispatchRank(s.dispatcher.value.stage) else 0)
    + (if s.reviewer.Some? then ReviewerRank(s.reviewer.value) else 0)
    + 40 * s.requests
    + (if s.row.status == InProgress then 1 else 0)
  }

  // ---- one step ----

  lemma CasFacts(row: Task, from: Status, to: Status, code: ErrorCode)
    ensures Cas(row, from, to, code).id == row.id
    ensures row.status == from ==> Cas(row, from, to, code).status == to
    ensures row.status == from ==> Cas(row, from, to, code).reworkCount == NextRework(from, to, row.reworkCount)
  {
  }

  lemma SaveFacts(row: Task, copy: Task)
    requires copy.reworkCount == row.reworkCount
    ensures SaveRow(row, copy).id == row.id
    ensures SaveRow(row, copy).status == row.status && SaveRow(row, copy).reworkCount == row.reworkCount
  {
  }

  /** What a step must achieve: the invariant stays, the measure falls, and the budget pays for a requeue. */
  ghost predicate Progress(s: Run, cap: int, after: Run, requeued: nat) {
    && RunInv(after, cap)
    && Measure(after, cap) < Measure(s, cap)
    && Budget(after.row, cap) + requeued <= Budget(s.row, cap)
  }

  lemma SaveProgress(s: Run, cap: int, step: Step)
    requires RunInv(s, cap) && Enabled(s, step) && step in {Save, Record, RecordCode}
    ensures Progress(s, cap, DispatcherNext(s, step), 0)
  {
    hide Cas, SaveRow;
    SaveFacts(s.row, s.dispatcher.value.copy);
  }

  lemma PickUpProgress(s: Run, cap: int, planner: bool)
    requires RunInv(s, cap) && Enabled(s, PickUp(planner))
    ensures Progress(s, cap, DispatcherNext(s, PickUp(planner)), 0)
  {
    hide Cas, SaveRow;
    CasFacts(s.row, Queued, if planner then Planning else InProgress, NoError);
  }

  lemma StartProgress(s: Run, cap: int)
    requires RunInv(s, cap) && Enabled(s, Start)
    ensures Progress(s, cap, DispatcherNext(s, Start), 0)
  {
    hide Cas, SaveRow;
    CasFacts(s.row, Planning, InProgress, NoError);
  }

  lemma CompleteProgress(s: Run, cap: int)
    requires RunInv(s, cap) && Enabled(s, Complete)
    ensures Progress(s, cap, DispatcherNext(s, Complete), 0)
  {
    hide Cas, SaveRow;
    CasFacts(s.row, InProgress, AIReview, NoError);
  }

  lemma FailProgress(s: Run, cap: int, code: ErrorCode)
    requires RunInv(s, cap) && Enabled(s, Fail(code))
    ensures Progress(s, cap, DispatcherNext(s, Fail(code)), 0)
  {
    hide Cas, SaveRow;
    CasFacts(s.row, s.row.status, Failed, code);
  }

  lemma QuietProgress(s: Run, cap: int, step: Step)
    requires RunInv(s, cap) && Enabled(s, step)
    requires step in {Fetch, Draft, Code, Abandon, Unregister} || step.Place?
    ensures Progress(s, cap, DispatcherNext(s, step), 0)
  {
    hide Cas, SaveRow;
  }

  lemma ReturnProgress(s: Run, cap: int, step: Step)
    requires RunInv(s, cap) && Enabled(s, step)
    requires step in {RecordModel, ReviewContextEnds} || step.ReviewReturns?
    ensures Progress(s, cap, ReviewerNext(s, cap, step), 0)
  {
    hide Cas, SaveRow;
    match step {
      case RecordModel => SaveFacts(s.row, s.reviewer.value.copy);
      case ReviewReturns(_) => CasFacts(s.row, AIReview, Aborted, NoError);
      case _ =>
    }
  }

  lemma ReviewProgress(s: Run, cap: int, step: Step)
    requires RunInv(s, cap) && Enabled(s, step)
    requires step in {Inspect, Escalate, GiveUp} || step.Decide?
    ensures Progress(s, cap, ReviewerNext(s, cap, step), 0)
  {
    hide Cas, SaveRow, RejectionText;
    CasFacts(s.row, AIReview, HumanReview, NoError);
    if step.Decide? && s.reviewer.value.stage == Deciding {
      SaveFacts(s.row, Noted(s.reviewer.value.copy, cap, step.feedback));
    }
  }

  /** A requeue that goes through takes one unit of the budget; on a done context nothing moves. */
  lemma RequeueProgress(s: Run, cap: int)
    requires RunInv(s, cap) && Enabled(s, Requeue)
    ensures Progress(s, cap, ReviewerNext(s, cap, Requeue), if s.reviewer.value.done then 0 else 1)
  {
    hide Cas;
    CasFacts(s.row, AIReview, Queued, NoError);
  }

  lemma OtherProgress(s: Run, cap: int, step: Step)
    requires RunInv(s, cap) && Enabled(s, step) && step in {SelfEnqueue, Crash}
    ensures Progress(s, cap, Next(s, cap, step), 0)
  {
  }

  /** The step sends the task back to the queue. */
  ghost predicate SendsBack(s: Run, step: Step) {
    step == Requeue && s.reviewer.Some? && !s.reviewer.value.done
  }

  lemma StepProgress(s: Run, cap: int, step: Step)
    requires RunInv(s, cap) && Enabled(s, step)
    ensures Progress(s, cap, Next(s, cap, step), One(SendsBack(s, step)))
  {
    hide RunInv, Progress, DispatcherNext, ReviewerNext;
    match step {
      case SelfEnqueue => OtherProgress(s, cap, step);
      case Crash => OtherProgress(s, cap, step);
      case Requeue => RequeueProgress(s, cap);
      case ReviewReturns(_) => ReturnProgress(s, cap, step);
      case ReviewContextEnds => ReturnProgress(s, cap, step);
      case RecordModel => ReturnProgress(s, cap, step);
      case Inspect => ReviewProgress(s, cap, step);
      case Decide(_, _) => ReviewProgress(s, cap, step);
      case Escalate => ReviewProgress(s, cap, step);
      case GiveUp => ReviewProgress(s, cap, step);
      case Save => SaveProgress(s, cap, step);
      case Record => SaveProgress(s, cap, step);
      case RecordCode => SaveProgress(s, cap, step);
      case PickUp(planner) => PickUpProgress(s, cap, planner);
      case Start => StartProgress(s, cap);
      case Complete => CompleteProgress(s, cap);
      case Fail(code) => FailProgress(s, cap, code);
      case _ => QuietProgress(s, cap, step);
    }
  }

  // ---- whole runs ----

  ghost predicate StepAt(trace: seq<Run>, steps: seq<Step>, cap: int, i: int)
    requires |trace| == |steps| + 1 && 0 <= i < |steps|
  {
    Enabled(trace[i], steps[i]) && trace[i + 1] == Next(trace[i], cap, steps[i])
  }

  /** trace is a run from its first state by the given steps. */
  ghost predicate IsRun(trace: seq<Run>, steps: seq<Step>, cap: int) {
    && |trace| == |steps| + 1
    && forall i :: 0 <= i < |steps| ==> StepAt(trace, steps, cap, i)
  }

  /** How often the first n steps sent the task back. */
  ghost function Requeues(trace: seq<Run>, steps: seq<Step>, n: nat): nat
    requires n <= |steps| <= |trace|
  {
    if n == 0 then 0 else Requeues(trace, steps, n - 1) + One(SendsBack(trace[n - 1], steps[n - 1]))
  }

  lemma StepOfRun(trace: seq<Run>, steps: seq<Step>, cap: int, i: nat)
    requires IsRun(trace, steps, cap) && i < |steps|
    ensures |trace| == |steps| + 1
    ensures Enabled(trace[i], steps[i]) && trace[i + 1] == Next(trace[i], cap, steps[i])
  {
    hide Enabled, Next;
    assert StepAt(trace, steps, cap, i);
  }

  lemma {:induction false} RunProgress(trace: seq<Run>, steps: seq<Step>, cap: int, n: nat)
    requires IsRun(trace, steps, cap) && n <= |steps| && RunInv(trace[0], cap)
    ensures RunInv(trace[n], cap)
    ensures n + Measure(trace[n], cap) <= Measure(trace[0], cap)
    ensures Requeues(trace, steps, n) + Budget(trace[n].row, cap) <= Budget(trace[0].row, cap)
  {
    hide RunInv, Next, Measure, Budget, Enabled;
    if n > 0 {
      RunProgress(trace, steps, cap, n - 1);
      StepOfRun(trace, steps, cap, n - 1);
      StepProgress(trace[n - 1], cap, steps[n - 1]);
    }
  }

  /** Every automatic run is finite, and the reviewer sends the task back at most as often as the cap still allows. */
  lemma PipelineTerminates(trace: seq<Run>, steps: seq<Step>, cap: int)
    requires IsRun(trace, steps, cap) && RunInv(trace[0], cap)
    ensures |steps| <= Measure(trace[0], cap)
    ensures var count := trace[0].row.reworkCount;
      Requeues(trace, steps, |steps|) <= if count < cap then cap - count else 0
  {
    hide IsRun, RunInv, Measure, Requeues;
    RunProgress(trace, steps, cap, |steps|);
  }

  /** A task just enqueued starts such a run. */
  lemma EnqueuedTaskTerminates(row: Task, trace: seq<Run>, steps: seq<Step>, cap: int)
    requires row.status == Queued && row.reworkCount >= 0 && cap > 0
    requires IsRun(trace, steps, cap) && trace[0] == Run(row, Some(Dispatcher(Waiting, row)), None, 0)
    ensures |steps| <= 100 * cap + 32
    ensures Requeues(trace, steps, |steps|) <= cap
  {
    hide IsRun, Requeues;
    PipelineTerminates(trace, steps, cap);
  }

  // ---- a review whose context ends ----

  /** Under AI review, a step aborts the task exactly when the reviewer returns an error and either the error is a
      cancellation or the context is done. */
  lemma ReviewAbortsIff(s: Run, cap: int, step: Step)
    requires RunInv(s, cap) && Enabled(s, step) && s.row.status == AIReview
    ensures Next(s, cap, step).row.status == Aborted <==>
      step.ReviewReturns? && step.result.ReviewFailed? && (step.result.canceled || s.reviewer.value.done)
  {
    hide SaveRow, Cas, DispatcherNext, RejectionText;
    if IsReviewStep(step) {
      CasFacts(s.row, AIReview, Aborted, NoError);
      CasFacts(s.row, AIReview, HumanReview, NoError);
      CasFacts(s.row, AIReview, Queued, NoError);
      SavesKeepStatus(s.row, s.reviewer.value.copy, cap, if step.Decide? then step.feedback else "");
    } else if s.dispatcher.Some? && step != SelfEnqueue && step != Crash {
      LeavingKeepsRow(s, step);
    }
  }

  lemma SavesKeepStatus(row: Task, copy: Task, cap: int, feedback: string)
    ensures SaveRow(row, copy).status == row.status
    ensures SaveRow(row, Noted(copy, cap, feedback)).status == row.status
  {
    hide RejectionText;
  }

  lemma LeavingKeepsRow(s: Run, step: Step)
    requires DispatcherAt(s, Leaving) && Enabled(s, step) && !IsReviewStep(step) && step != SelfEnqueue && step != Crash
    ensures DispatcherNext(s, step).row == s.row
  {
  }

  /** A failed review leaves the task where it is, for the user to move, exactly when its context is still live and the
      error is no cancellation: a review that ran into the time limit does not. */
  lemma FailedReviewStaysIff(s: Run, cap: int, canceled: bool)
    requires RunInv(s, cap) && ReviewerAt(s, Reviewing)
    ensures Next(s, cap, ReviewReturns(ReviewFailed(canceled))) == s.(reviewer := None) <==>
      !canceled && !s.reviewer.value.done
  {
  }

  /** Once its context is done, a review can only abort the task or leave it as it is. */
  lemma DoneReviewOnlyAborts(s: Run, cap: int, step: Step)
    requires RunInv(s, cap) && Enabled(s, step) && s.reviewer.Some? && s.reviewer.value.done && IsReviewStep(step)
    ensures Next(s, cap, step).row == s.row || Next(s, cap, step).row == Moved(s.row, Aborted, NoError, NotFinal)
    ensures Next(s, cap, step).row != s.row ==> step.ReviewReturns? && step.result.ReviewFailed?
  {
  }

  // ---- the row changes by the store's own writes ----

  /** The writes the automatic run makes: transitions, a caller's copy written back, and recovery after a crash. */
  ghost predicate IsAutomaticWrite(w: Write) {
    w.Transition? || w == RecoverRunning || (w.UpdateFields? && IsCallersCopy(w.copy))
  }

  function Only(row: Task): Rows {
    map[row.id := row]
  }

  /** after is what the store makes of row by at most one such write. */
  ghost predicate IsStored(row: Task, after: Task) {
    after == row || exists w: Write :: IsAutomaticWrite(w) && Only(after) == Apply(Only(row), w)
  }

  lemma CasIsStored(row: Task, from: Status, to: Status, code: ErrorCode)
    requires TransitionFault(from, to, code, NotFinal) == None
    ensures IsStored(row, Cas(row, from, to, code))
  {
    if row.status == from {
      var w: Write := Transition(row.id, from, to, code, NotFinal);
      MovedKeepsId(row, to, code, NotFinal);
      assert IsAutomaticWrite(w) && Only(Cas(row, from, to, code)) == Apply(Only(row), w);
    }
  }

  lemma SaveIsStored(row: Task, copy: Task)
    requires copy.id == row.id && IsCallersCopy(copy)
    ensures IsStored(row, SaveRow(row, copy))
  {
    var w: Write := UpdateFields(copy);
    assert IsAutomaticWrite(w) && Only(SaveRow(row, copy)) == Apply(Only(row), w);
  }

  lemma RecoveryIsStored(row: Task)
    ensures IsStored(row, if row.status == InProgress then Interruption(row) else row)
  {
    var w: Write := RecoverRunning;
    var after := if row.status == InProgress then Interruption(row) else row;
    assert IsAutomaticWrite(w) && Only(after) == Apply(Only(row), w);
  }

  lemma DispatcherStepIsStored(s: Run, cap: int, step: Step)
    requires RunInv(s, cap) && Enabled(s, step) && s.dispatcher.Some? && !IsReviewStep(step)
    ensures IsStored(s.row, DispatcherNext(s, step).row)
  {
    hide Cas, SaveRow, IsStored, Moved, Saved, IsSound;
    var row, copy := s.row, s.dispatcher.value.copy;
    SameIsStored(row);
    match step {
      case PickUp(planner) => CasIsStored(row, Queued, if planner then Planning else InProgress, NoError);
      case Start => CasIsStored(row, Planning, InProgress, NoError);
      case Complete => CasIsStored(row, InProgress, AIReview, NoError);
      case Fail(code) => CasIsStored(row, copy.status, Failed, code);
      case Save => SaveIsStored(row, copy);
      case Record => SaveIsStored(row, copy);
      case RecordCode => SaveIsStored(row, copy);
      case _ =>
    }
  }

  lemma SameIsStored(row: Task)
    ensures IsStored(row, row)
  {
  }

  lemma ReviewStepIsStored(s: Run, cap: int, step: Step)
    requires RunInv(s, cap) && Enabled(s, step) && s.reviewer.Some? && IsReviewStep(step)
    ensures IsStored(s.row, ReviewerNext(s, cap, step).row)
  {
    hide Cas, SaveRow, IsStored, Moved, Saved, IsSound, RejectionText;
    var row, copy := s.row, s.reviewer.value.copy;
    SameIsStored(row);
    match step {
      case ReviewReturns(_) => CasIsStored(row, AIReview, Aborted, NoError);
      case RecordModel => SaveIsStored(row, copy);
      case Decide(_, feedback) =>
        CasIsStored(row, AIReview, HumanReview, NoError);
        SaveIsStored(row, Noted(copy, cap, feedback));
      case Escalate => CasIsStored(row, AIReview, HumanReview, NoError);
      case Requeue => CasIsStored(row, AIReview, Queued, NoError);
      case _ =>
    }
  }

  /** Each step changes the row by at most one write of the store, so what is proved of those writes holds of it. */
  lemma StepIsStored(s: Run, cap: int, step: Step)
    requires RunInv(s, cap) && Enabled(s, step)
    ensures IsStored(s.row, Next(s, cap, step).row)
  {
    hide RunInv, IsStored, DispatcherNext, ReviewerNext, Interruption;
    SameIsStored(s.row);
    if step == Crash {
      RecoveryIsStored(s.row);
    } else if IsReviewStep(step) {
      ReviewStepIsStored(s, cap, step);
    } else if step != SelfEnqueue {
      DispatcherStepIsStored(s, cap, step);
    }
  }

  /** A stored change keeps a valid row valid, keeps its id, and follows an edge of the state machine. */
  lemma StoredKeepsSound(row: Task, after: Task)
    requires IsSound(row) && IsStored(row, after)
    ensures IsSound(after) && after.id == row.id
    ensures after.status == row.status || CanTransition(row.status, after.status)
  {
    hide IsSound, Apply, Succeeds;
    if after != row {
      var w: Write :| IsAutomaticWrite(w) && Only(after) == Apply(Only(row), w);
      ApplyKeepsSound(Only(row), w);
      SameKeys(Only(row), w);
      assert after.id in Only(after);
      StatusFollowsEdges(Only(row), w, row.id);
    }
  }

  lemma SameKeys(rows: Rows, w: Write)
    requires IsAutomaticWrite(w)
    ensures Apply(rows, w).Keys == rows.Keys
  {
  }

  /** Over a whole automatic run the row stays valid and its status follows the edges. */
  lemma {:induction false} RunKeepsRowSound(trace: seq<Run>, steps: seq<Step>, cap: int, n: nat)
    requires IsRun(trace, steps, cap) && n <= |steps| && RunInv(trace[0], cap) && IsSound(trace[0].row)
    ensures IsSound(trace[n].row) && trace[n].row.id == trace[0].row.id
    ensures n > 0 ==>
      trace[n].row.status == trace[n - 1].row.status || CanTransition(trace[n - 1].row.status, trace[n].row.status)
  {
    hide RunInv, Next, Enabled, IsSound, IsStored;
    if n > 0 {
      RunKeepsRowSound(trace, steps, cap, n - 1);
      RunProgress(trace, steps, cap, n - 1);
      StepOfRun(trace, steps, cap, n - 1);
      StepIsStored(trace[n - 1], cap, steps[n - 1]);
      StoredKeepsSound(trace[n - 1].row, trace[n].row);
    }
  }

  // ---- the self-enqueue ----

  /** Some run leads from one state to the other. */
  ghost predicate Leads(from: Run, to: Run, cap: int) {
    exists trace: seq<Run>, steps: seq<Step> :: IsRunBetween(trace, steps, cap, from, to)
  }

  ghost predicate IsRunBetween(trace: seq<Run>, steps: seq<Step>, cap: int, from: Run, to: Run) {
    IsRun(trace, steps, cap) && trace[0] == from && trace[|steps|] == to
  }

  lemma LeadsHere(s: Run, cap: int)
    ensures Leads(s, s, cap)
  {
    var trace: seq<Run>, steps: seq<Step> := [s], [];
    assert IsRunBetween(trace, steps, cap, s, s);
  }

  lemma OneMoreStep(trace: seq<Run>, steps: seq<Step>, cap: int, step: Step)
    requires IsRun(trace, steps, cap) && Enabled(trace[|steps|], step)
    ensures IsRun(trace + [Next(trace[|steps|], cap, step)], steps + [step], cap)
  {
    hide Enabled, Next;
    var to := Next(trace[|steps|], cap, step);
    var longer, all := trace + [to], steps + [step];
    forall i | 0 <= i < |all|
      ensures StepAt(longer, all, cap, i)
    {
      if i < |steps| {
        StepOfRun(trace, steps, cap, i);
      }
    }
  }

  lemma LeadsOn(from: Run, s: Run, cap: int, step: Step)
    requires Leads(from, s, cap) && Enabled(s, step)
    ensures Leads(from, Next(s, cap, step), cap)
  {
    hide Enabled, Next, IsRun;
    var trace: seq<Run>, steps: seq<Step> :| IsRunBetween(trace, steps, cap, from, s);
    RunLength(trace, steps, cap);
    OneMoreStep(trace, steps, cap, step);
    var to := Next(s, cap, step);
    assert IsRunBetween(trace + [to], steps + [step], cap, from, to);
  }

  /** A self-enqueue takes effect exactly when the previous dispatcher has unregistered. */
  lemma SelfEnqueueWorksIff(s: Run, cap: int)
    requires RunInv(s, cap) && s.requests > 0
    ensures DispatcherAt(Next(s, cap, SelfEnqueue), Waiting) <==> s.dispatcher.None?
  {
  }

  /** Otherwise the task stays queued with nobody at work on it: at most one step follows, and the row never changes. */
  lemma LostForGood(s: Run, cap: int, trace: seq<Run>, steps: seq<Step>)
    requires RunInv(s, cap) && s.requests > 0 && s.dispatcher.Some?
    requires IsRun(trace, steps, cap) && trace[0] == Next(s, cap, SelfEnqueue)
    ensures |steps| <= 1
    ensures forall k :: 0 <= k < |trace| ==> trace[k].row == s.row && s.row.status == Queued
  {
    hide IsRun;
    assert |trace| == |steps| + 1 by { RunLength(trace, steps, cap); }
    if |steps| > 0 {
      StepOfRun(trace, steps, cap, 0);
      LostStep(trace[0], cap, steps[0]);
      if |steps| > 1 {
        StepOfRun(trace, steps, cap, 1);
        assert false;
      }
    }
  }

  lemma RunLength(trace: seq<Run>, steps: seq<Step>, cap: int)
    requires IsRun(trace, steps, cap)
    ensures |trace| == |steps| + 1
  {
  }

  lemma LostStep(s: Run, cap: int, step: Step)
    requires DispatcherAt(s, Leaving) && s.reviewer.None? && s.requests == 0 && s.row.status == Queued
    requires Enabled(s, step)
    ensures Next(s, cap, step) == s.(dispatcher := None)
  {
  }

  /** One more step of a run, with what it keeps. */
  lemma FollowOn(from: Run, s: Run, cap: int, step: Step) returns (next: Run)
    requires Leads(from, s, cap) && RunInv(s, cap) && Enabled(s, step)
    ensures next == Next(s, cap, step) && Leads(from, next, cap) && RunInv(next, cap)
  {
    hide Leads, RunInv, Enabled, Next;
    LeadsOn(from, s, cap, step);
    StepProgress(s, cap, step);
    next := Next(s, cap, step);
  }

  /** The dispatcher alone, at a stage, on a row reworked count times. */
  ghost predicate Works(s: Run, stage: DispatchStage, count: int) {
    DispatcherAt(s, stage) && s.row.reworkCount == count && s.reviewer.None? && s.requests == 0
  }

  lemma PlacedRun(from: Run, s0: Run, cap: int, count: int) returns (s: Run)
    requires Leads(from, s0, cap) && RunInv(s0, cap) && Works(s0, Waiting, count)
    ensures Leads(from, s, cap) && RunInv(s, cap) && Works(s, Saving, count) && s.row.status == InProgress
  {
    hide Leads, Cas;
    s := FollowOn(from, s0, cap, Fetch);
    CasFacts(s.row, Queued, InProgress, NoError);
    s := FollowOn(from, s, cap, PickUp(false));
    s := FollowOn(from, s, cap, Place("worktree", "branch"));
  }

  lemma CodedRun(from: Run, s0: Run, cap: int, count: int) returns (s: Run)
    requires Leads(from, s0, cap) && RunInv(s0, cap) && Works(s0, Saving, count) && s0.row.status == InProgress
    ensures Leads(from, s, cap) && RunInv(s, cap) && Works(s, RecordingCode, count)
  {
    hide Leads, SaveRow;
    SaveFacts(s0.row, s0.dispatcher.value.copy);
    s := FollowOn(from, s0, cap, Save);
    s := FollowOn(from, s, cap, Code);
  }

  /** A live review at a stage, its dispatcher not yet unregistered, on a row reworked count times. */
  ghost predicate Reviews(s: Run, stage: ReviewStage, count: int) {
    && ReviewerAt(s, stage) && !s.reviewer.value.done
    && DispatcherAt(s, Leaving) && s.row.reworkCount == count && s.requests == 0
  }

  lemma ReviewedRun(from: Run, s0: Run, cap: int, count: int) returns (s: Run)
    requires Leads(from, s0, cap) && RunInv(s0, cap) && Works(s0, RecordingCode, count)
    ensures Leads(from, s, cap) && RunInv(s, cap) && Reviews(s, Reviewing, count)
  {
    hide Leads, SaveRow, Cas;
    SaveFacts(s0.row, s0.dispatcher.value.copy);
    s := FollowOn(from, s0, cap, RecordCode);
    CasFacts(s.row, InProgress, AIReview, NoError);
    s := FollowOn(from, s, cap, Complete);
    s := FollowOn(from, s, cap, Inspect);
  }

  lemma RejectedRun(from: Run, s0: Run, cap: int, count: int) returns (s: Run)
    requires Leads(from, s0, cap) && RunInv(s0, cap) && Reviews(s0, Reviewing, count) && count < cap
    ensures Leads(from, s, cap) && RunInv(s, cap) && Reviews(s, Requeueing, count)
  {
    hide Leads, SaveRow, RejectionText;
    s := FollowOn(from, s0, cap, ReviewReturns(Verdict));
    SaveFacts(s.row, s.reviewer.value.copy);
    s := FollowOn(from, s, cap, RecordModel);
    SaveFacts(s.row, Noted(s.reviewer.value.copy, cap, "again"));
    s := FollowOn(from, s, cap, Decide(false, "again"));
  }

  lemma RequeuedRun(from: Run, s0: Run, cap: int, count: int) returns (s: Run)
    requires Leads(from, s0, cap) && RunInv(s0, cap) && Reviews(s0, Requeueing, count)
    ensures Leads(from, s, cap) && RunInv(s, cap) && s.requests > 0 && DispatcherAt(s, Leaving)
    ensures s.row.reworkCount == count + 1
  {
    hide Leads, Cas;
    CasFacts(s0.row, AIReview, Queued, NoError);
    s := FollowOn(from, s0, cap, Requeue);
  }

  lemma StuckRun(from: Run, s: Run, cap: int) returns (stuck: Run)
    requires Leads(from, s, cap) && RunInv(s, cap) && s.requests > 0 && DispatcherAt(s, Leaving)
    ensures Leads(from, stuck, cap) && stuck == Run(s.row, None, None, 0) && stuck.row.status == Queued
  {
    hide Leads;
    var met := FollowOn(from, s, cap, SelfEnqueue);
    stuck := FollowOn(from, met, cap, Unregister);
  }

  /** It can happen to every queued task with a rework round left: its own automatic run may reach a state where the
      task is queued and no step at all is possible. */
  lemma SelfEnqueueCanBeLost(row: Task, cap: int) returns (stuck: Run)
    requires row.status == Queued && row.reworkCount < cap
    ensures Leads(Run(row, Some(Dispatcher(Waiting, row)), None, 0), stuck, cap)
    ensures stuck.row.status == Queued && stuck.row.reworkCount == row.reworkCount + 1
    ensures forall step :: !Enabled(stuck, step)
  {
    hide Leads, Cas, SaveRow, Next;
    var from := Run(row, Some(Dispatcher(Waiting, row)), None, 0);
    var count := row.reworkCount;
    LeadsHere(from, cap);
    var s := PlacedRun(from, from, cap, count);
    s := CodedRun(from, s, cap, count);
    s := ReviewedRun(from, s, cap, count);
    s := RejectedRun(from, s, cap, count);
    s := RequeuedRun(from, s, cap, count);
    stuck := StuckRun(from, s, cap);
  }
}
