/** What changes what in the orchestrator's bookkeeping: each part of the state by the steps that alone can move it
    (sidecar/internal/orchestrator/orchestrator.go). */
module DispatchSteps {
  import opened Text
  import opened Dispatch

  /** The limit in force at the start: four unless another is given, and between one and twelve. */
  lemma StartReads(concurrency: int)
    ensures var s := Start(concurrency);
      && s.concurrency == (if concurrency <= 0 then 4 else if concurrency > 12 then 12 else concurrency)
      && s.semaphores == [Semaphore(s.concurrency, 0)] && IsIdle(s) && s.pending == 0
      && s.running == map[] && s.aiReviews == map[] && !s.shuttingDown
  {
  }

  /** An enqueue is accepted exactly for a named task that is not registered, before Shutdown. */
  predicate IsAccepted(s: Orchestra, task: nat) {
    task != 0 && !s.shuttingDown && task !in s.running
  }

  lemma RefusalIff(s: Orchestra, task: nat)
    ensures Refusal(s, task) == None <==> IsAccepted(s, task)
    ensures task == 0 ==> Refusal(s, task) == Some(EmptyTask)
    ensures task != 0 && s.shuttingDown ==> Refusal(s, task) == Some(ShuttingDown)
    ensures task != 0 && !s.shuttingDown && task in s.running ==> Refusal(s, task) == Some(AlreadyRunning)
  {
  }

  /** A dispatcher comes into being exactly by an accepted enqueue: under the next number, for that task, entering. */
  lemma NewDispatcherIff(s: Orchestra, step: Step, d: nat)
    requires StagesOk(s) && d !in s.dispatchers
    ensures d in Next(s, step).dispatchers <==> step.Enqueue? && IsAccepted(s, step.task) && d == s.nextId
    ensures d in Next(s, step).dispatchers ==>
      && Next(s, step).dispatchers[d] == Goroutine(step.task, Entering)
      && Next(s, step).pending == s.pending + 1
  {
    hide AfterCancel, AfterShutdown, AfterLaunch, AfterRegister, AfterEnd, AfterKick, AfterEvolver, Clamp;
    OtherStepsKeepDispatchers(s, step);
  }

  lemma OtherStepsKeepDispatchers(s: Orchestra, step: Step)
    ensures step.Cancel? || step.Shutdown? || step.SetConcurrency? || IsReviewStep(step) ==>
      Next(s, step).dispatchers == s.dispatchers
    ensures step.Cancel? || step.Shutdown? || step.SetConcurrency? || IsReviewStep(step) ==>
      Next(s, step).semaphores[..|s.semaphores|] == s.semaphores <= Next(s, step).semaphores
  {
    hide AfterEnqueue, AfterAcquire, AfterRelease, AfterUnregister, Clamp;
    if step.SetConcurrency? {
      assert (s.semaphores + [Semaphore(Clamp(step.n), 0)])[..|s.semaphores|] == s.semaphores;
    }
    assert s.semaphores[..|s.semaphores|] == s.semaphores;
  }

  predicate Unregisters(s: Orchestra, step: Step, t: nat) {
    step.Unregister? && IsAt(s, step.d, Released) && s.dispatchers[step.d].task == t
  }

  /** A task is registered from its accepted enqueue until its dispatcher unregisters. */
  lemma RegisteredIff(s: Orchestra, step: Step, t: nat)
    ensures t in Next(s, step).running <==>
      (t in s.running && !Unregisters(s, step, t)) || (step == Enqueue(t) && IsAccepted(s, t))
  {
    hide AfterSetConcurrency, AfterAcquire, AfterRelease, AfterShutdown, AfterLaunch, AfterRegister, AfterEnd;
    hide AfterKick, AfterEvolver;
    OtherStepsKeepRunning(s, step);
  }

  lemma OtherStepsKeepRunning(s: Orchestra, step: Step)
    ensures !step.Enqueue? && !step.Cancel? && !step.Unregister? ==> Next(s, step).running == s.running
  {
    hide AfterEnqueue, AfterCancel, AfterUnregister, Clamp;
  }

  /** A registered task is marked for abort exactly if the user has cancelled it since it was registered: an enqueue
      starts without the mark, and no other step sets or clears it. */
  lemma AbortMarkIff(s: Orchestra, step: Step, t: nat)
    requires t in Next(s, step).running
    ensures Next(s, step).running[t] <==> t in s.running && (s.running[t] || step == Cancel(t))
  {
    hide AfterSetConcurrency, AfterAcquire, AfterRelease, AfterShutdown, AfterLaunch, AfterRegister, AfterEnd;
    hide AfterKick, AfterEvolver;
    OtherStepsKeepRunning(s, step);
  }

  /** A dispatcher asks for a slot of the newest semaphore, which has the limit in force. */
  lemma SnapshotTakesTheNewest(s: Orchestra, d: nat)
    requires SlotsOk(s) && IsAt(s, d, Entering)
    ensures var after := Next(s, Snapshot(d)); var g := |s.semaphores| - 1;
      after.dispatchers[d].stage == Acquiring(g) && after.semaphores[g].capacity == s.concurrency
  {
    hide Holders;
  }

  /** A waiting dispatcher gets its slot exactly when one of its semaphore is free; it gives up, without a slot, exactly
      when it is marked for abort or the orchestrator shuts down. */
  lemma AcquireIff(s: Orchestra, d: nat, g: nat)
    requires StagesOk(s) && IsAt(s, d, Acquiring(g))
    ensures IsAt(Next(s, Acquire(d)), d, Holding(g)) <==>
      g < |s.semaphores| && s.semaphores[g].held < s.semaphores[g].capacity
    ensures IsAt(Next(s, AcquireFails(d)), d, Released) <==>
      s.shuttingDown || (s.dispatchers[d].task in s.running && s.running[s.dispatchers[d].task])
    ensures Next(s, AcquireFails(d)).semaphores == s.semaphores
  {
  }

  /** A new limit opens a new semaphore, empty and of that many slots; the limit already in force changes nothing. */
  lemma SetConcurrencyReads(s: Orchestra, n: int)
    ensures var after := Next(s, SetConcurrency(n)); var limit := if n < 1 then 1 else if n > 12 then 12 else n;
      && after.concurrency == limit
      && after.semaphores == (if limit == s.concurrency then s.semaphores else s.semaphores + [Semaphore(limit, 0)])
      && after.dispatchers == s.dispatchers && after.running == s.running && after.pending == s.pending
  {
  }

  /** A review starts exactly when a dispatcher that holds a slot launches it: for the dispatcher's task, on a context
      that is done only if the orchestrator is shutting down. */
  lemma NewReviewIff(s: Orchestra, step: Step, r: nat)
    requires ReviewsOk(s) && r !in s.reviews
    ensures r in Next(s, step).reviews <==> step.LaunchReview? && Holds(s, step.d) && r == s.nextReview
    ensures r in Next(s, step).reviews ==>
      Next(s, step).reviews[r] == Review(s.dispatchers[step.d].task, s.shuttingDown)
  {
    hide AfterEnqueue, AfterSetConcurrency, AfterAcquire, AfterRelease, AfterUnregister;
    DispatchersKeepReviews(s, step);
  }

  lemma DispatchersKeepReviews(s: Orchestra, step: Step)
    ensures !IsReviewStep(step) && !step.Cancel? && !step.Shutdown? ==>
      Next(s, step).reviews == s.reviews && Next(s, step).aiReviews == s.aiReviews
  {
    hide AfterCancel, AfterShutdown, AfterLaunch, AfterRegister, AfterEnd, AfterKick, AfterEvolver, Clamp;
  }

  /** The step ends the context of that review: its own time limit, the shutdown, or a cancel of its task while the task
      has no dispatcher and the review is the one registered for it. */
  predicate EndsContext(s: Orchestra, step: Step, r: nat) {
    || step == ReviewTimesOut(r) || step == Shutdown
    || (step.Cancel? && step.task !in s.running && step.task in s.aiReviews && s.aiReviews[step.task] == r)
  }

  lemma ReviewDoneIff(s: Orchestra, step: Step, r: nat)
    requires r in s.reviews && r in Next(s, step).reviews && ReviewsOk(s)
    ensures Next(s, step).reviews[r].task == s.reviews[r].task
    ensures Next(s, step).reviews[r].done <==> s.reviews[r].done || EndsContext(s, step, r)
  {
    hide AfterEnqueue, AfterSetConcurrency, AfterAcquire, AfterRelease, AfterUnregister;
    DispatchersKeepReviews(s, step);
  }

  /** Cancel reaches the review of a task exactly from its registration to the end of a review of that task. */
  lemma ReachedReviewIff(s: Orchestra, step: Step, t: nat, r: nat)
    requires ReviewsOk(s) && PendingOk(s)
    ensures t in Next(s, step).aiReviews && Next(s, step).aiReviews[t] == r <==>
      || (step == RegisterReview(r) && r in s.reviews && s.reviews[r].task == t)
      || (t in s.aiReviews && s.aiReviews[t] == r
          && !(step.RegisterReview? && step.r in s.reviews && s.reviews[step.r].task == t)
          && !(step.EndReview? && step.r in s.reviews && s.reviews[step.r].task == t))
  {
    hide AfterEnqueue, AfterSetConcurrency, AfterAcquire, AfterRelease, AfterUnregister;
    hide AfterCancel, AfterShutdown, AfterLaunch, AfterKick, AfterEvolver;
    OtherStepsKeepReached(s, step);
    SomePending(s, step);
  }

  lemma OtherStepsKeepReached(s: Orchestra, step: Step)
    ensures !step.RegisterReview? && !step.EndReview? ==> Next(s, step).aiReviews == s.aiReviews
  {
    hide AfterRegister, AfterEnd, Clamp;
  }

  lemma SomePending(s: Orchestra, step: Step)
    requires PendingOk(s)
    ensures step.EndReview? && step.r in s.reviews ==> s.pending > 0
    ensures step.EndEvolver? && step.v in s.evolvers ==> s.pending > 0
  {
    if step.EndReview? && step.r in s.reviews {
      assert s.reviews != map[];
      assert |s.reviews| > 0;
    }
    if step.EndEvolver? && step.v in s.evolvers {
      assert |s.evolvers| > 0;
    }
  }

  /** An evolver starts exactly when a review whose context is live rejects, and is there until it ends. */
  lemma EvolverIff(s: Orchestra, step: Step, v: nat)
    requires PendingOk(s)
    ensures v in Next(s, step).evolvers <==>
      || (v in s.evolvers && step != EndEvolver(v))
      || (step.KickEvolver? && step.r in s.reviews && !s.reviews[step.r].done && v == s.nextEvolver)
  {
    hide AfterEnqueue, AfterSetConcurrency, AfterAcquire, AfterRelease, AfterUnregister, AfterCancel, AfterShutdown;
    SomePending(s, step);
    OtherStepsKeepEvolvers(s, step);
  }

  lemma OtherStepsKeepEvolvers(s: Orchestra, step: Step)
    ensures !step.KickEvolver? && !step.EndEvolver? ==> Next(s, step).evolvers == s.evolvers
  {
    hide AfterKick, AfterEvolver, Clamp;
  }
}
