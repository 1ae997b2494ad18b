/** Task dispatchers and the concurrency limit (sidecar/internal/orchestrator/orchestrator.go, Enqueue, Cancel,
    SetConcurrency, Shutdown, the slot handling of dispatch, the reviews that Cancel reaches and the evolvers that
    reviews start). */
module Dispatch {
  import opened Text

  const CONCURRENCY_MIN := 1
  const CONCURRENCY_MAX := 12
  const CONCURRENCY_DEFAULT := 4

  /** One weighted semaphore; changing the limit starts a new one. */
  datatype Semaphore = Semaphore(capacity: int, held: nat)

  /** Where a dispatch goroutine stands. It leaves in reverse order: release the slot, unregister, signal done. */
  datatype Stage = Entering | Acquiring(generation: nat) | Holding(generation: nat) | Released | Unregistered

  datatype Goroutine = Goroutine(task: nat, stage: Stage)

  /** A review goroutine: its task, and whether its context is done (cancelled, timed out or shut down). */
  datatype Review = Review(task: nat, done: bool)

  /** running maps a task to whether the user has asked to abort it, aiReviews to the review that Cancel reaches;
      pending is the wait group, which counts dispatchers, reviews and evolvers. */
  datatype Orchestra = Orchestra(running: map<nat, bool>, dispatchers: map<nat, Goroutine>, nextId: nat, pending: nat,
                                 reviews: map<nat, Review>, aiReviews: map<nat, nat>, nextReview: nat,
                                 evolvers: set<nat>, nextEvolver: nat,
                                 semaphores: seq<Semaphore>, concurrency: int, shuttingDown: bool)

  datatype EnqueueError = EmptyTask | ShuttingDown | AlreadyRunning

  datatype Step =
    | Enqueue(task: nat)
    | Cancel(task: nat)
    | SetConcurrency(n: int)
    | Shutdown
    | Snapshot(d: nat)
    | Acquire(d: nat)
    | AcquireFails(d: nat)
    | Release(d: nat)
    | Unregister(d: nat)
    | Finish(d: nat)
    | LaunchReview(d: nat)
    | RegisterReview(r: nat)
    | ReviewTimesOut(r: nat)
    | EndReview(r: nat)
    | KickEvolver(r: nat)
    | EndEvolver(v: nat)

  function Clamp(n: int): (r: int)
    ensures CONCURRENCY_MIN <= r <= CONCURRENCY_MAX
    ensures CONCURRENCY_MIN <= n <= CONCURRENCY_MAX ==> r == n
    ensures (n < 1 ==> r == 1) && (n > 12 ==> r == 12)
  {
    if n < CONCURRENCY_MIN then CONCURRENCY_MIN else if n > CONCURRENCY_MAX then CONCURRENCY_MAX else n
  }

  // ---- one step ----

  /** Why an enqueue is refused; nothing when it is accepted. */
  function Refusal(s: Orchestra, task: nat): Option<EnqueueError> {
    if task == 0 then Some(EmptyTask)
    else if s.shuttingDown then Some(ShuttingDown)
    else if task in s.running then Some(AlreadyRunning)
    else None
  }

  predicate IsAt(s: Orchestra, d: nat, stage: Stage) {
    d in s.dispatchers && s.dispatchers[d].stage == stage
  }

  predicate Holds(s: Orchestra, d: nat) {
    d in s.dispatchers && s.dispatchers[d].stage.Holding?
  }

  function WithStage(s: Orchestra, d: nat, stage: Stage): Orchestra
    requires d in s.dispatchers
  {
    s.(dispatchers := s.dispatchers[d := s.dispatchers[d].(stage := stage)])
  }

  predicate Aborted(s: Orchestra, d: nat) {
    d in s.dispatchers && (s.shuttingDown || (s.dispatchers[d].task in s.running && s.running[s.dispatchers[d].task]))
  }

  function AfterEnqueue(s: Orchestra, task: nat): Orchestra {
    if Refusal(s, task).Some? then s
    else s.(running := s.running[task := false], dispatchers := s.dispatchers[s.nextId := Goroutine(task, Entering)],
            nextId := s.nextId + 1, pending := s.pending + 1)
  }

  function AfterSetConcurrency(s: Orchestra, n: int): Orchestra {
    if Clamp(n) == s.concurrency then s
    else s.(semaphores := s.semaphores + [Semaphore(Clamp(n), 0)], concurrency := Clamp(n))
  }

  function AfterAcquire(s: Orchestra, d: nat): Orchestra {
    if d in s.dispatchers && s.dispatchers[d].stage.Acquiring?
       && s.dispatchers[d].stage.generation < |s.semaphores| then
      var g := s.dispatchers[d].stage.generation;
      var sem := s.semaphores[g];
      if sem.held < sem.capacity then
        WithStage(s, d, Holding(g)).(semaphores := s.semaphores[g := sem.(held := sem.held + 1)])
      else s
    else s
  }

  function AfterRelease(s: Orchestra, d: nat): Orchestra {
    if d in s.dispatchers && s.dispatchers[d].stage.Holding? && s.dispatchers[d].stage.generation < |s.semaphores| then
      var g := s.dispatchers[d].stage.generation;
      if s.semaphores[g].held > 0 then
        WithStage(s, d, Released).(semaphores := s.semaphores[g := s.semaphores[g].(held := s.semaphores[g].held - 1)])
      else s
    else s
  }

  function AfterUnregister(s: Orchestra, d: nat): Orchestra {
    if IsAt(s, d, Released) then WithStage(s, d, Unregistered).(running := s.running - {s.dispatchers[d].task}) else s
  }

  /** A dispatched task is marked for abort; otherwise its registered review is cancelled. */
  function AfterCancel(s: Orchestra, task: nat): Orchestra {
    if task in s.running then s.(running := s.running[task := true])
    else if task in s.aiReviews && s.aiReviews[task] in s.reviews then
      s.(reviews := s.reviews[s.aiReviews[task] := s.reviews[s.aiReviews[task]].(done := true)])
    else s
  }

  /** The root context ends, and with it the context of every review. */
  function AfterShutdown(s: Orchestra): Orchestra {
    s.(shuttingDown := true, reviews := map r | r in s.reviews :: s.reviews[r].(done := true))
  }

  /** A dispatcher that completes its task starts the review before it gives its slot back. */
  function AfterLaunch(s: Orchestra, d: nat): Orchestra {
    if Holds(s, d) then
      s.(reviews := s.reviews[s.nextReview := Review(s.dispatchers[d].task, s.shuttingDown)],
         nextReview := s.nextReview + 1, pending := s.pending + 1)
    else s
  }

  function AfterRegister(s: Orchestra, r: nat): Orchestra {
    if r in s.reviews then s.(aiReviews := s.aiReviews[s.reviews[r].task := r]) else s
  }

  function AfterEnd(s: Orchestra, r: nat): Orchestra {
    if r in s.reviews && s.pending > 0 then
      s.(reviews := s.reviews - {r}, aiReviews := s.aiReviews - {s.reviews[r].task}, pending := s.pending - 1)
    else s
  }

  /** A review that rejects records the attempt, which fails on a done context, and then starts an evolver. */
  function AfterKick(s: Orchestra, r: nat): Orchestra {
    if r in s.reviews && !s.reviews[r].done then
      s.(evolvers := s.evolvers + {s.nextEvolver}, nextEvolver := s.nextEvolver + 1, pending := s.pending + 1)
    else s
  }

  function AfterEvolver(s: Orchestra, v: nat): Orchestra {
    if v in s.evolvers && s.pending > 0 then s.(evolvers := s.evolvers - {v}, pending := s.pending - 1) else s
  }

  /** A step that is not possible in the state leaves it alone. */
  function Next(s: Orchestra, step: Step): Orchestra {
    match step
    case Enqueue(task) => AfterEnqueue(s, task)
    case Cancel(task) => AfterCancel(s, task)
    case SetConcurrency(n) => AfterSetConcurrency(s, n)
    case Shutdown => AfterShutdown(s)
    case Snapshot(d) =>
      if IsAt(s, d, Entering) && s.semaphores != [] then WithStage(s, d, Acquiring(|s.semaphores| - 1)) else s
    case Acquire(d) => AfterAcquire(s, d)
    case AcquireFails(d) => if Aborted(s, d) && s.dispatchers[d].stage.Acquiring? then WithStage(s, d, Released) else s
    case Release(d) => AfterRelease(s, d)
    case Unregister(d) => AfterUnregister(s, d)
    case Finish(d) =>
      if IsAt(s, d, Unregistered) && s.pending > 0 then s.(dispatchers := s.dispatchers - {d}, pending := s.pending - 1)
      else s
    case LaunchReview(d) => AfterLaunch(s, d)
    case RegisterReview(r) => AfterRegister(s, r)
    case ReviewTimesOut(r) => if r in s.reviews then s.(reviews := s.reviews[r := s.reviews[r].(done := true)]) else s
    case EndReview(r) => AfterEnd(s, r)
    case KickEvolver(r) => AfterKick(s, r)
    case EndEvolver(v) => AfterEvolver(s, v)
  }

  function Run(s: Orchestra, steps: seq<Step>, n: nat): Orchestra
    requires n <= |steps|
  {
    if n == 0 then s else Next(Run(s, steps, n - 1), steps[n - 1])
  }

  function Start(concurrency: int): Orchestra {
    var n := Clamp(if concurrency <= 0 then CONCURRENCY_DEFAULT else concurrency);
    Orchestra(map[], map[], 0, 0, map[], map[], 0, {}, 0, [Semaphore(n, 0)], n, false)
  }

  // ---- the invariant ----

  predicate IsLive(d: Goroutine) {
    d.stage != Unregistered
  }

  /** The dispatchers that hold a slot of the generation. */
  function Holders(ds: map<nat, Goroutine>, g: nat): set<nat> {
    set d | d in ds && ds[d].stage == Holding(g)
  }

  ghost predicate SlotsOk(s: Orchestra) {
    && s.semaphores != []
    && s.concurrency == s.semaphores[|s.semaphores| - 1].capacity
    && forall g :: 0 <= g < |s.semaphores| ==>
      && CONCURRENCY_MIN <= s.semaphores[g].capacity <= CONCURRENCY_MAX
      && s.semaphores[g].held == |Holders(s.dispatchers, g)| <= s.semaphores[g].capacity
  }

  ghost predicate StagesOk(s: Orchestra) {
    forall d :: d in s.dispatchers ==>
      && d < s.nextId
      && (s.dispatchers[d].stage.Acquiring? || s.dispatchers[d].stage.Holding? ==>
            s.dispatchers[d].stage.generation < |s.semaphores|)
  }

  /** No two live dispatchers work on the same task. */
  ghost predicate AtMostOneEach(s: Orchestra) {
    forall d, e :: d in s.dispatchers && e in s.dispatchers && d != e ==>
      IsLive(s.dispatchers[d]) && IsLive(s.dispatchers[e]) ==> s.dispatchers[d].task != s.dispatchers[e].task
  }

  ghost predicate Registered(s: Orchestra) {
    && (forall d :: d in s.dispatchers && IsLive(s.dispatchers[d]) ==> s.dispatchers[d].task in s.running)
    && AtMostOneEach(s)
    && (forall t :: t in s.running ==> HasDispatcher(s, t))
  }

  ghost predicate HasDispatcher(s: Orchestra, task: nat) {
    exists d :: d in s.dispatchers && IsLive(s.dispatchers[d]) && s.dispatchers[d].task == task
  }

  /** The review a task is registered with is alive and its own; after Shutdown no review has a live context. */
  ghost predicate ReviewsOk(s: Orchestra) {
    && (forall r :: r in s.reviews ==> r < s.nextReview)
    && (forall v :: v in s.evolvers ==> v < s.nextEvolver)
    && (s.shuttingDown ==> forall r :: r in s.reviews ==> s.reviews[r].done)
    && forall t :: t in s.aiReviews ==> s.aiReviews[t] in s.reviews && s.reviews[s.aiReviews[t]].task == t
  }

  ghost predicate PendingOk(s: Orchestra) {
    s.pending == |s.dispatchers| + |s.reviews| + |s.evolvers|
  }

  ghost predicate Inv(s: Orchestra) {
    SlotsOk(s) && StagesOk(s) && Registered(s) && ReviewsOk(s) && PendingOk(s)
  }

  // ---- slots ----

  lemma OneMoreHolder(before: map<nat, Goroutine>, after: map<nat, Goroutine>, g: nat, d: nat)
    requires d in before && before[d].stage != Holding(g) && after == before[d := before[d].(stage := Holding(g))]
    ensures |Holders(after, g)| == |Holders(before, g)| + 1
    ensures forall h :: h != g && before[d].stage != Holding(h) ==> Holders(after, h) == Holders(before, h)
  {
    assert Holders(after, g) == Holders(before, g) + {d};
  }

  lemma OneLessHolder(before: map<nat, Goroutine>, after: map<nat, Goroutine>, g: nat, d: nat)
    requires d in before && before[d].stage == Holding(g) && after == before[d := before[d].(stage := Released)]
    ensures |Holders(after, g)| == |Holders(before, g)| - 1
    ensures forall h :: h != g ==> Holders(after, h) == Holders(before, h)
  {
    assert Holders(before, g) == Holders(after, g) + {d};
  }

  lemma MoveKeepsSlots(s: Orchestra, d: nat, stage: Stage)
    requires SlotsOk(s) && d in s.dispatchers && !s.dispatchers[d].stage.Holding? && !stage.Holding?
    ensures SlotsOk(WithStage(s, d, stage))
  {
    forall g | 0 <= g < |s.semaphores|
      ensures Holders(WithStage(s, d, stage).dispatchers, g) == Holders(s.dispatchers, g)
    {
    }
  }

  lemma MoveKeepsRegistered(s: Orchestra, d: nat, stage: Stage)
    requires Registered(s) && d in s.dispatchers && IsLive(s.dispatchers[d]) && stage != Unregistered
    ensures Registered(WithStage(s, d, stage))
  {
    var after := WithStage(s, d, stage);
    forall t | t in after.running
      ensures HasDispatcher(after, t)
    {
      assert HasDispatcher(s, t);
      var e :| e in s.dispatchers && IsLive(s.dispatchers[e]) && s.dispatchers[e].task == t;
      assert e in after.dispatchers && IsLive(after.dispatchers[e]) && after.dispatchers[e].task == t;
    }
  }

  lemma MoveKeepsRest(s: Orchestra, d: nat, stage: Stage)
    requires StagesOk(s) && Registered(s) && d in s.dispatchers
    requires IsLive(s.dispatchers[d]) && stage != Unregistered
    requires stage.Acquiring? || stage.Holding? ==> stage.generation < |s.semaphores|
    ensures var after := WithStage(s, d, stage);
      StagesOk(after) && Registered(after) && |after.dispatchers| == |s.dispatchers|
  {
    hide Registered;
    MoveKeepsRegistered(s, d, stage);
    SameEntries(s.dispatchers, d, s.dispatchers[d].(stage := stage));
  }

  lemma AcquireKeepsInv(s: Orchestra, d: nat)
    requires Inv(s)
    ensures Inv(AfterAcquire(s, d))
  {
    hide SlotsOk, Registered, StagesOk, ReviewsOk, PendingOk;
    var after := AfterAcquire(s, d);
    if after != s {
      var g := s.dispatchers[d].stage.generation;
      MoveKeepsRest(s, d, Holding(g));
      SameRest(WithStage(s, d, Holding(g)), after);
      SameReviews(s, after);
      UpdateKeepsPending(s, d, after.dispatchers[d], after);
      AcquireKeepsSlots(s, d);
    }
  }

  lemma AcquireKeepsSlots(s: Orchestra, d: nat)
    requires SlotsOk(s)
    ensures SlotsOk(AfterAcquire(s, d))
  {
    hide Holders;
    var after := AfterAcquire(s, d);
    if after != s {
      OneMoreHolder(s.dispatchers, after.dispatchers, s.dispatchers[d].stage.generation, d);
    }
  }

  lemma ReleaseKeepsInv(s: Orchestra, d: nat)
    requires Inv(s)
    ensures Inv(AfterRelease(s, d))
  {
    hide SlotsOk, Registered, StagesOk, ReviewsOk, PendingOk;
    var after := AfterRelease(s, d);
    if after != s {
      MoveKeepsRest(s, d, Released);
      SameRest(WithStage(s, d, Released), after);
      SameReviews(s, after);
      UpdateKeepsPending(s, d, after.dispatchers[d], after);
      ReleaseKeepsSlots(s, d);
    }
  }

  lemma ReleaseKeepsSlots(s: Orchestra, d: nat)
    requires SlotsOk(s)
    ensures SlotsOk(AfterRelease(s, d))
  {
    hide Holders;
    var after := AfterRelease(s, d);
    if after != s {
      OneLessHolder(s.dispatchers, after.dispatchers, s.dispatchers[d].stage.generation, d);
    }
  }

  lemma SameRest(a: Orchestra, b: Orchestra)
    requires a.dispatchers == b.dispatchers && a.running == b.running && a.nextId == b.nextId
    requires |a.semaphores| == |b.semaphores|
    ensures StagesOk(a) ==> StagesOk(b)
    ensures Registered(a) ==> Registered(b)
  {
    if Registered(a) {
      forall t | t in b.running ensures HasDispatcher(b, t) { assert HasDispatcher(a, t); }
    }
  }

  lemma SetConcurrencyKeepsInv(s: Orchestra, n: int)
    requires Inv(s)
    ensures Inv(AfterSetConcurrency(s, n))
  {
    var after := AfterSetConcurrency(s, n);
    if after != s {
      var g := |s.semaphores|;
      assert Holders(s.dispatchers, g) == {};
      forall t | t in after.running ensures HasDispatcher(after, t) { assert HasDispatcher(s, t); }
    }
  }

  // ---- registration ----

  lemma EnqueueKeepsSlots(s: Orchestra, task: nat)
    requires SlotsOk(s) && StagesOk(s)
    ensures SlotsOk(AfterEnqueue(s, task)) && StagesOk(AfterEnqueue(s, task))
  {
    var after := AfterEnqueue(s, task);
    if after != s {
      forall g | 0 <= g < |s.semaphores|
        ensures Holders(after.dispatchers, g) == Holders(s.dispatchers, g)
      {
      }
    }
  }

  lemma SameEntries<T>(ds: map<nat, T>, d: nat, x: T)
    requires d in ds
    ensures |ds[d := x]| == |ds| && |ds - {d}| == |ds| - 1
  {
    assert ds[d := x].Keys == ds.Keys && (ds - {d}).Keys == ds.Keys - {d};
    assert |ds[d := x]| == |ds[d := x].Keys| && |ds| == |ds.Keys| && |ds - {d}| == |(ds - {d}).Keys|;
  }

  lemma EnqueueKeepsInv(s: Orchestra, task: nat)
    requires Inv(s)
    ensures Inv(AfterEnqueue(s, task))
  {
    hide SlotsOk, Registered;
    EnqueueKeepsSlots(s, task);
    if Refusal(s, task).None? {
      EnqueueRegisters(s, task, AfterEnqueue(s, task));
    }
  }

  lemma EnqueueRegisters(s: Orchestra, task: nat, after: Orchestra)
    requires Registered(s) && StagesOk(s) && after == AfterEnqueue(s, task) && Refusal(s, task).None?
    ensures Registered(after)
  {
    hide StagesOk, AtMostOneEach, HasDispatcher;
    assert s.nextId !in s.dispatchers by { NextIsNew(s); }
    forall t | t in after.running
      ensures HasDispatcher(after, t)
    {
      NewDispatcherFound(s, task, t);
    }
    EnqueuedIsAlone(s, task);
  }

  lemma NextIsNew(s: Orchestra)
    requires StagesOk(s)
    ensures s.nextId !in s.dispatchers
  {
  }

  lemma NewDispatcherFound(s: Orchestra, task: nat, t: nat)
    requires s.nextId !in s.dispatchers && Refusal(s, task).None? && (t == task || HasDispatcher(s, t))
    ensures HasDispatcher(AfterEnqueue(s, task), t)
  {
    var after := AfterEnqueue(s, task);
    if t == task {
      assert after.dispatchers[s.nextId].task == task && IsLive(after.dispatchers[s.nextId]);
    } else {
      var e :| e in s.dispatchers && IsLive(s.dispatchers[e]) && s.dispatchers[e].task == t;
      assert e in after.dispatchers && after.dispatchers[e] == s.dispatchers[e];
    }
  }

  lemma EnqueuedIsAlone(s: Orchestra, task: nat)
    requires AtMostOneEach(s) && Refusal(s, task).None? && s.nextId !in s.dispatchers
    requires forall d :: d in s.dispatchers && IsLive(s.dispatchers[d]) ==> s.dispatchers[d].task in s.running
    ensures AtMostOneEach(AfterEnqueue(s, task))
  {
  }

  lemma UnregisterKeepsInv(s: Orchestra, d: nat)
    requires Inv(s)
    ensures Inv(AfterUnregister(s, d))
  {
    hide SlotsOk, StagesOk, Registered, ReviewsOk, PendingOk;
    var after := AfterUnregister(s, d);
    if after != s {
      UnregisterKeepsSlots(s, d);
      UnregisterRegisters(s, d, after);
      SameReviews(s, after);
      UpdateKeepsPending(s, d, after.dispatchers[d], after);
    }
  }

  lemma UnregisterKeepsSlots(s: Orchestra, d: nat)
    requires SlotsOk(s) && StagesOk(s) && IsAt(s, d, Released)
    ensures SlotsOk(AfterUnregister(s, d)) && StagesOk(AfterUnregister(s, d))
  {
    hide Holders;
    MoveKeepsSlots(s, d, Unregistered);
  }

  lemma UpdateKeepsPending(s: Orchestra, d: nat, x: Goroutine, after: Orchestra)
    requires PendingOk(s) && d in s.dispatchers && after.pending == s.pending
    requires after.reviews == s.reviews && after.evolvers == s.evolvers
    requires after.dispatchers == s.dispatchers[d := x]
    ensures PendingOk(after)
  {
    SameEntries(s.dispatchers, d, x);
  }

  lemma SameReviews(a: Orchestra, b: Orchestra)
    requires ReviewsOk(a) && a.reviews == b.reviews && a.aiReviews == b.aiReviews && a.nextReview == b.nextReview
    requires a.evolvers == b.evolvers && a.nextEvolver == b.nextEvolver && a.shuttingDown == b.shuttingDown
    ensures ReviewsOk(b)
  {
  }

  lemma UnregisterRegisters(s: Orchestra, d: nat, after: Orchestra)
    requires Registered(s) && IsAt(s, d, Released) && after == AfterUnregister(s, d)
    ensures Registered(after)
  {
    forall t | t in after.running
      ensures HasDispatcher(after, t)
    {
      assert HasDispatcher(s, t);
      var e :| e in s.dispatchers && IsLive(s.dispatchers[e]) && s.dispatchers[e].task == t;
      assert e != d;
      assert after.dispatchers[e] == s.dispatchers[e];
    }
  }

  lemma FinishKeepsInv(s: Orchestra, d: nat)
    requires Inv(s)
    ensures Inv(Next(s, Finish(d)))
  {
    hide SlotsOk, StagesOk, Registered, ReviewsOk, PendingOk;
    var after := Next(s, Finish(d));
    if after != s {
      FinishKeepsSlots(s, d, after);
      FinishKeepsRegistered(s, d, after);
      SameReviews(s, after);
      assert PendingOk(after) by { FinishKeepsPending(s, d, after); }
    }
  }

  lemma FinishKeepsSlots(s: Orchestra, d: nat, after: Orchestra)
    requires SlotsOk(s) && StagesOk(s) && IsAt(s, d, Unregistered)
    requires after == s.(dispatchers := s.dispatchers - {d}, pending := after.pending)
    ensures SlotsOk(after) && StagesOk(after)
  {
    forall g | 0 <= g < |s.semaphores|
      ensures Holders(after.dispatchers, g) == Holders(s.dispatchers, g)
    {
    }
  }

  lemma FinishKeepsRegistered(s: Orchestra, d: nat, after: Orchestra)
    requires Registered(s) && IsAt(s, d, Unregistered)
    requires after == s.(dispatchers := s.dispatchers - {d}, pending := after.pending)
    ensures Registered(after)
  {
    forall t | t in after.running
      ensures HasDispatcher(after, t)
    {
      assert HasDispatcher(s, t);
      var e :| e in s.dispatchers && IsLive(s.dispatchers[e]) && s.dispatchers[e].task == t;
      assert e in after.dispatchers;
    }
  }

  lemma FinishKeepsPending(s: Orchestra, d: nat, after: Orchestra)
    requires PendingOk(s) && d in s.dispatchers && s.pending > 0
    requires after == s.(dispatchers := s.dispatchers - {d}, pending := s.pending - 1)
    ensures PendingOk(after)
  {
    SameEntries(s.dispatchers, d, s.dispatchers[d]);
  }

  lemma CancelKeepsInv(s: Orchestra, task: nat)
    requires Inv(s)
    ensures Inv(AfterCancel(s, task))
  {
    hide SlotsOk, StagesOk, Registered, ReviewsOk, PendingOk;
    var after := AfterCancel(s, task);
    SameSlots(s, after);
    CancelRegisters(s, task);
    CancelKeepsReviews(s, task);
  }

  lemma CancelRegisters(s: Orchestra, task: nat)
    requires Registered(s)
    ensures Registered(AfterCancel(s, task))
  {
    var after := AfterCancel(s, task);
    forall t | t in after.running ensures HasDispatcher(after, t) { assert HasDispatcher(s, t); }
  }

  lemma CancelKeepsReviews(s: Orchestra, task: nat)
    requires ReviewsOk(s) && PendingOk(s)
    ensures ReviewsOk(AfterCancel(s, task)) && PendingOk(AfterCancel(s, task))
  {
    if task !in s.running && task in s.aiReviews {
      SameEntries(s.reviews, s.aiReviews[task], Review(task, true));
    }
  }

  /** Steps of a review touch neither dispatchers nor slots. */
  lemma SameSlots(a: Orchestra, b: Orchestra)
    requires a.dispatchers == b.dispatchers && a.semaphores == b.semaphores && a.concurrency == b.concurrency
    requires a.nextId == b.nextId
    ensures SlotsOk(a) ==> SlotsOk(b)
    ensures StagesOk(a) ==> StagesOk(b)
  {
  }

  predicate IsReviewStep(step: Step) {
    || step.LaunchReview? || step.RegisterReview? || step.ReviewTimesOut? || step.EndReview?
    || step.KickEvolver? || step.EndEvolver?
  }

  lemma ReviewKeepsInv(s: Orchestra, step: Step)
    requires Inv(s) && IsReviewStep(step)
    ensures Inv(Next(s, step))
  {
    hide SlotsOk, StagesOk, Registered, ReviewsOk, PendingOk, Next;
    var after := Next(s, step);
    ReviewFrame(s, step);
    SameSlots(s, after);
    SameRest(s, after);
    ReviewKeepsReviews(s, step);
    if step.KickEvolver? || step.EndEvolver? {
      EvolverKeepsPending(s, step);
    } else {
      ReviewKeepsPending(s, step);
    }
  }

  lemma ReviewFrame(s: Orchestra, step: Step)
    requires IsReviewStep(step)
    ensures var after := Next(s, step);
      && after.dispatchers == s.dispatchers && after.nextId == s.nextId && after.running == s.running
      && after.semaphores == s.semaphores && after.concurrency == s.concurrency
  {
    hide AfterEnqueue, AfterSetConcurrency, AfterAcquire, AfterRelease, AfterUnregister, AfterCancel, AfterShutdown;
  }

  lemma ReviewKeepsReviews(s: Orchestra, step: Step)
    requires ReviewsOk(s) && IsReviewStep(step)
    ensures ReviewsOk(Next(s, step))
  {
  }

  lemma ReviewKeepsPending(s: Orchestra, step: Step)
    requires ReviewsOk(s) && PendingOk(s) && IsReviewStep(step) && !step.KickEvolver? && !step.EndEvolver?
    ensures PendingOk(Next(s, step))
  {
    hide ReviewsOk, AfterLaunch, AfterEnd, PendingOk;
    match step {
      case LaunchReview(d) => LaunchKeepsPending(s, d);
      case EndReview(r) => EndKeepsPending(s, r);
      case ReviewTimesOut(r) => if r in s.reviews { TimeOutKeepsPending(s, r); }
      case RegisterReview(r) => SamePending(s, AfterRegister(s, r));
    }
  }

  lemma LaunchKeepsPending(s: Orchestra, d: nat)
    requires ReviewsOk(s) && PendingOk(s)
    ensures PendingOk(AfterLaunch(s, d))
  {
    if Holds(s, d) {
      NewEntry(s.reviews, s.nextReview, Review(s.dispatchers[d].task, s.shuttingDown));
    }
  }

  lemma EndKeepsPending(s: Orchestra, r: nat)
    requires PendingOk(s)
    ensures PendingOk(AfterEnd(s, r))
  {
    if r in s.reviews {
      SameEntries(s.reviews, r, s.reviews[r]);
    }
  }

  lemma TimeOutKeepsPending(s: Orchestra, r: nat)
    requires PendingOk(s) && r in s.reviews
    ensures PendingOk(s.(reviews := s.reviews[r := s.reviews[r].(done := true)]))
  {
    SameEntries(s.reviews, r, s.reviews[r].(done := true));
  }

  lemma SamePending(a: Orchestra, b: Orchestra)
    requires PendingOk(a) && a.dispatchers == b.dispatchers && a.reviews == b.reviews && a.evolvers == b.evolvers
    requires a.pending == b.pending
    ensures PendingOk(b)
  {
  }

  lemma EvolverKeepsPending(s: Orchestra, step: Step)
    requires ReviewsOk(s) && PendingOk(s) && (step.KickEvolver? || step.EndEvolver?)
    ensures PendingOk(Next(s, step))
  {
    hide SlotsOk, StagesOk, Registered;
    assert s.nextEvolver !in s.evolvers;
  }

  lemma NewEntry<T>(ds: map<nat, T>, d: nat, x: T)
    requires d !in ds
    ensures |ds[d := x]| == |ds| + 1
  {
    assert ds[d := x].Keys == ds.Keys + {d};
    assert |ds[d := x]| == |ds[d := x].Keys| && |ds| == |ds.Keys|;
  }

  lemma ShutdownKeepsInv(s: Orchestra)
    requires Inv(s)
    ensures Inv(AfterShutdown(s))
  {
    hide SlotsOk, StagesOk, Registered, ReviewsOk, PendingOk;
    var after := AfterShutdown(s);
    SameSlots(s, after);
    SameRest(s, after);
    ShutdownKeepsReviews(s);
  }

  lemma ShutdownKeepsReviews(s: Orchestra)
    requires ReviewsOk(s) && PendingOk(s)
    ensures ReviewsOk(AfterShutdown(s)) && PendingOk(AfterShutdown(s))
  {
    var after := AfterShutdown(s);
    assert after.reviews.Keys == s.reviews.Keys;
    assert |after.reviews| == |after.reviews.Keys| && |s.reviews| == |s.reviews.Keys|;
  }

  lemma MoveKeepsInv(s: Orchestra, d: nat, stage: Stage)
    requires Inv(s) && d in s.dispatchers && (s.dispatchers[d].stage.Entering? || s.dispatchers[d].stage.Acquiring?)
    requires stage == Released || (stage.Acquiring? && stage.generation < |s.semaphores|)
    ensures Inv(WithStage(s, d, stage))
  {
    hide SlotsOk, StagesOk, Registered;
    MoveKeepsSlots(s, d, stage);
    MoveKeepsRest(s, d, stage);
  }

  lemma StepKeepsInv(s: Orchestra, step: Step)
    requires Inv(s)
    ensures Inv(Next(s, step))
  {
    hide Inv, AfterEnqueue, AfterSetConcurrency, AfterAcquire, AfterRelease, AfterUnregister, WithStage;
    hide AfterCancel, AfterShutdown, AfterLaunch, AfterRegister, AfterEnd, AfterKick, AfterEvolver;
    match step {
      case Enqueue(task) => EnqueueKeepsInv(s, task);
      case Cancel(task) => CancelKeepsInv(s, task);
      case SetConcurrency(n) => SetConcurrencyKeepsInv(s, n);
      case Shutdown => ShutdownKeepsInv(s);
      case Snapshot(d) =>
        if IsAt(s, d, Entering) && s.semaphores != [] {
          MoveKeepsInv(s, d, Acquiring(|s.semaphores| - 1));
        }
      case Acquire(d) => AcquireKeepsInv(s, d);
      case AcquireFails(d) => if Aborted(s, d) && s.dispatchers[d].stage.Acquiring? { MoveKeepsInv(s, d, Released); }
      case Release(d) => ReleaseKeepsInv(s, d);
      case Unregister(d) => UnregisterKeepsInv(s, d);
      case Finish(d) => FinishKeepsInv(s, d);
      case _ => ReviewKeepsInv(s, step);
    }
  }

  lemma StartInv(concurrency: int)
    ensures Inv(Start(concurrency))
  {
    assert Holders(map[], 0) == {};
  }

  lemma {:induction false} RunKeepsInv(concurrency: int, steps: seq<Step>, n: nat)
    requires n <= |steps|
    ensures Inv(Run(Start(concurrency), steps, n))
  {
    hide Inv, Next, Start;
    if n == 0 {
      StartInv(concurrency);
    } else {
      RunKeepsInv(concurrency, steps, n - 1);
      StepKeepsInv(Run(Start(concurrency), steps, n - 1), steps[n - 1]);
    }
  }

  // ---- what every run guarantees ----

  /** No goroutine of the orchestrator is alive. */
  ghost predicate IsIdle(s: Orchestra) {
    s.dispatchers == map[] && s.reviews == map[] && s.evolvers == {}
  }

  /** However enqueues, cancels, limit changes and dispatcher steps interleave: a task has at most one live dispatcher,
      and one exactly when it is registered; every semaphore generation is held by exactly the dispatchers that
      acquired it, at most its capacity, which is between 1 and 12; a review that Cancel reaches is alive and its
      task's own; and the wait group is empty exactly when no dispatcher, no review and no evolver is left. */
  lemma DispatchIsSafe(concurrency: int, steps: seq<Step>)
    ensures var s := Run(Start(concurrency), steps, |steps|);
      && AtMostOneEach(s)
      && (forall t :: t in s.running <==> HasDispatcher(s, t))
      && (forall g :: 0 <= g < |s.semaphores| ==>
            s.semaphores[g].held == |Holders(s.dispatchers, g)| <= s.semaphores[g].capacity)
      && (forall g :: 0 <= g < |s.semaphores| ==> 1 <= s.semaphores[g].capacity <= 12)
      && (forall t :: t in s.aiReviews ==> s.aiReviews[t] in s.reviews && s.reviews[s.aiReviews[t]].task == t)
      && (s.pending == 0 <==> IsIdle(s))
  {
    hide Run, Start, Holders;
    RunKeepsInv(concurrency, steps, |steps|);
  }

  lemma IdleStep(s: Orchestra, step: Step)
    requires s.shuttingDown && IsIdle(s) && s.pending == 0
    ensures var after := Next(s, step); after.shuttingDown && IsIdle(after) && after.pending == 0
  {
    hide Clamp;
  }

  /** Once the wait group is empty after Shutdown, nothing ever runs again: what Shutdown waits for is final. */
  lemma {:induction false} EmptyGroupIsFinal(s: Orchestra, steps: seq<Step>, n: nat)
    requires Inv(s) && s.shuttingDown && s.pending == 0 && n <= |steps|
    ensures IsIdle(Run(s, steps, n)) && Run(s, steps, n).shuttingDown && Run(s, steps, n).pending == 0
  {
    hide Next;
    if n > 0 {
      EmptyGroupIsFinal(s, steps, n - 1);
      IdleStep(Run(s, steps, n - 1), steps[n - 1]);
    }
  }

  /** After Shutdown no dispatcher and no evolver is started; the group grows only by the review that a dispatcher still
      holding a slot launches. */
  lemma ShutdownStopsStarts(s: Orchestra, step: Step)
    requires Inv(s) && s.shuttingDown
    ensures var after := Next(s, step);
      && after.dispatchers.Keys <= s.dispatchers.Keys && after.evolvers <= s.evolvers
      && (after.pending > s.pending ==> step.LaunchReview? && Holds(s, step.d))
  {
    hide SlotsOk, StagesOk, Registered, PendingOk, Clamp;
  }

  /** A dispatcher gives back a slot of the very generation it took it from: no step changes the generation of a
      dispatcher that acquires or holds, and releasing lowers the count of that generation alone. */
  lemma ReleaseGoesToItsGeneration(s: Orchestra, step: Step, d: nat)
    requires Inv(s) && d in s.dispatchers && (s.dispatchers[d].stage.Acquiring? || s.dispatchers[d].stage.Holding?)
    ensures d in Next(s, step).dispatchers
    ensures var g, after := s.dispatchers[d].stage.generation, Next(s, step);
      && g < |s.semaphores| <= |after.semaphores|
      && after.dispatchers[d].stage in {Acquiring(g), Holding(g), Released}
      && (s.dispatchers[d].stage == Holding(g) && after.dispatchers[d].stage == Released ==>
           && step == Release(d)
           && after.semaphores == s.semaphores[g := s.semaphores[g].(held := |Holders(s.dispatchers, g)| - 1)])
  {
    hide Registered, ReviewsOk, PendingOk, Holders, SlotsOk;
    if step == Release(d) {
      ReleaseCounts(s, d);
    } else if step == Acquire(d) || step == AcquireFails(d) {
      WaiterMoves(s, step, d);
    } else {
      OthersKeepStage(s, step, d);
    }
  }

  lemma ReleaseCounts(s: Orchestra, d: nat)
    requires SlotsOk(s) && StagesOk(s) && d in s.dispatchers
    requires s.dispatchers[d].stage.Acquiring? || s.dispatchers[d].stage.Holding?
    ensures var g, after := s.dispatchers[d].stage.generation, AfterRelease(s, d);
      if s.dispatchers[d].stage == Holding(g) then
        && IsAt(after, d, Released) && g < |s.semaphores|
        && after.semaphores == s.semaphores[g := s.semaphores[g].(held := |Holders(s.dispatchers, g)| - 1)]
      else after == s
  {
    hide Holders;
    var g := s.dispatchers[d].stage.generation;
    assert s.semaphores[g].held == |Holders(s.dispatchers, g)|;
    if s.dispatchers[d].stage == Holding(g) {
      HolderIsThere(s.dispatchers, g, d);
    }
  }

  lemma WaiterMoves(s: Orchestra, step: Step, d: nat)
    requires d in s.dispatchers && (s.dispatchers[d].stage.Acquiring? || s.dispatchers[d].stage.Holding?)
    requires step == Acquire(d) || step == AcquireFails(d)
    ensures var g, after := s.dispatchers[d].stage.generation, Next(s, step);
      && d in after.dispatchers && |after.semaphores| == |s.semaphores|
      && (if s.dispatchers[d].stage.Holding? then after.dispatchers[d].stage == s.dispatchers[d].stage
          else after.dispatchers[d].stage in {Acquiring(g), Holding(g), Released})
  {
  }

  lemma OthersKeepStage(s: Orchestra, step: Step, d: nat)
    requires StagesOk(s) && d in s.dispatchers
    requires s.dispatchers[d].stage.Acquiring? || s.dispatchers[d].stage.Holding?
    requires step != Acquire(d) && step != AcquireFails(d) && step != Release(d)
    ensures var after := Next(s, step);
      && d in after.dispatchers && after.dispatchers[d].stage == s.dispatchers[d].stage
      && |s.semaphores| <= |after.semaphores|
  {
    hide Next;
    if IsReviewStep(step) {
      ReviewFrame(s, step);
    } else if step.Enqueue? || step.SetConcurrency? || step.Shutdown? || step.Cancel? {
      CallsKeepStage(s, step, d);
    } else {
      DispatchersKeepStage(s, step, d);
    }
  }

  lemma CallsKeepStage(s: Orchestra, step: Step, d: nat)
    requires StagesOk(s) && d in s.dispatchers
    requires step.Enqueue? || step.SetConcurrency? || step.Shutdown? || step.Cancel?
    ensures var after := Next(s, step);
      && d in after.dispatchers && after.dispatchers[d].stage == s.dispatchers[d].stage
      && |s.semaphores| <= |after.semaphores|
  {
    hide Refusal, Clamp, AfterCancel, AfterAcquire, AfterRelease, AfterUnregister;
    if step.Cancel? {
      CancelFrame(s, step.task);
    }
  }

  lemma DispatchersKeepStage(s: Orchestra, step: Step, d: nat)
    requires d in s.dispatchers && (s.dispatchers[d].stage.Acquiring? || s.dispatchers[d].stage.Holding?)
    requires step.Snapshot? || step.Acquire? || step.AcquireFails? || step.Release? || step.Unregister? || step.Finish?
    requires step != Acquire(d) && step != AcquireFails(d) && step != Release(d)
    ensures var after := Next(s, step);
      && d in after.dispatchers && after.dispatchers[d].stage == s.dispatchers[d].stage
      && |s.semaphores| <= |after.semaphores|
  {
    hide AfterEnqueue, AfterSetConcurrency, AfterCancel, AfterShutdown, AfterLaunch, AfterRegister, AfterEnd;
    hide AfterKick, AfterEvolver, AfterAcquire, AfterRelease;
    if step.Acquire? {
      AcquireKeepsOthers(s, step.d, d);
    } else if step.Release? {
      ReleaseKeepsOthers(s, step.d, d);
    }
  }

  lemma AcquireKeepsOthers(s: Orchestra, e: nat, d: nat)
    requires d in s.dispatchers && e != d
    ensures var after := AfterAcquire(s, e);
      d in after.dispatchers && after.dispatchers[d] == s.dispatchers[d] && |after.semaphores| == |s.semaphores|
  {
  }

  lemma ReleaseKeepsOthers(s: Orchestra, e: nat, d: nat)
    requires d in s.dispatchers && e != d
    ensures var after := AfterRelease(s, e);
      d in after.dispatchers && after.dispatchers[d] == s.dispatchers[d] && |after.semaphores| == |s.semaphores|
  {
  }

  lemma CancelFrame(s: Orchestra, task: nat)
    ensures var after := AfterCancel(s, task);
      after.dispatchers == s.dispatchers && after.semaphores == s.semaphores
  {
  }

  lemma HolderIsThere(ds: map<nat, Goroutine>, g: nat, d: nat)
    requires d in ds && ds[d].stage == Holding(g)
    ensures |Holders(ds, g)| > 0
  {
    assert d in Holders(ds, g);
  }

  /** The orchestrator's bookkeeping, as its callers see it. */
  class Orchestrator {
    var running: map<nat, bool>
    var dispatchers: map<nat, Goroutine>
    var nextId: nat
    var pending: nat
    var reviews: map<nat, Review>
    var aiReviews: map<nat, nat>
    var nextReview: nat
    var evolvers: set<nat>
    var nextEvolver: nat
    var semaphores: seq<Semaphore>
    var concurrency: int
    var shuttingDown: bool

    ghost function State(): Orchestra
      reads this
    {
      Orchestra(running, dispatchers, nextId, pending, reviews, aiReviews, nextReview, evolvers, nextEvolver,
                semaphores, concurrency, shuttingDown)
    }

    constructor (limit: int)
      ensures State() == Start(limit) && Inv(State())
    {
      var n := if limit <= 0 then CONCURRENCY_DEFAULT else limit;
      n := if n < CONCURRENCY_MIN then CONCURRENCY_MIN else n;
      n := if n > CONCURRENCY_MAX then CONCURRENCY_MAX else n;
      running, dispatchers, nextId, pending := map[], map[], 0, 0;
      reviews, aiReviews, nextReview, evolvers, nextEvolver := map[], map[], 0, {}, 0;
      semaphores, concurrency, shuttingDown := [Semaphore(n, 0)], n, false;
      new;
      StartInv(limit);
    }

    method EnqueueTask(task: nat) returns (refused: Option<EnqueueError>)
      requires Inv(State())
      modifies this
      ensures Inv(State()) && State() == Next(old(State()), Enqueue(task))
      ensures refused == Refusal(old(State()), task)
      ensures refused == None ==>
        && task != 0 && !old(shuttingDown) && task !in old(running)
        && running == old(running)[task := false]
        && dispatchers == old(dispatchers)[old(nextId) := Goroutine(task, Entering)]
        && nextId == old(nextId) + 1 && pending == old(pending) + 1
      ensures refused != None ==> State() == old(State())
    {
      hide Inv;
      StepKeepsInv(State(), Enqueue(task));
      if task == 0 {
        return Some(EmptyTask);
      }
      if shuttingDown {
        return Some(ShuttingDown);
      }
      if task in running {
        return Some(AlreadyRunning);
      }
      running := running[task := false];
      dispatchers := dispatchers[nextId := Goroutine(task, Entering)];
      nextId, pending := nextId + 1, pending + 1;
      refused := None;
    }

    method CancelTask(task: nat) returns (known: bool)
      requires Inv(State())
      modifies this
      ensures Inv(State()) && State() == Next(old(State()), Cancel(task))
      ensures known <==> task in old(running) || task in old(aiReviews)
      ensures task in old(running) ==> running[task] && reviews == old(reviews)
      ensures task !in old(running) && task in old(aiReviews) ==> reviews[old(aiReviews)[task]] == Review(task, true)
    {
      hide SlotsOk, StagesOk, Registered, PendingOk;
      CancelKeepsInv(State(), task);
      if task in running {
        running := running[task := true];
        return true;
      }
      if task in aiReviews {
        var r := aiReviews[task];
        reviews := reviews[r := reviews[r].(done := true)];
        return true;
      }
      known := false;
    }

    method ChangeConcurrency(limit: int) returns (n: int)
      requires Inv(State())
      modifies this
      ensures Inv(State()) && State() == Next(old(State()), SetConcurrency(limit))
      ensures n == Clamp(limit) == concurrency
    {
      hide Inv;
      StepKeepsInv(State(), SetConcurrency(limit));
      n := limit;
      if n < CONCURRENCY_MIN {
        n := CONCURRENCY_MIN;
      }
      if n > CONCURRENCY_MAX {
        n := CONCURRENCY_MAX;
      }
      if n == concurrency {
        return;
      }
      semaphores := semaphores + [Semaphore(n, 0)];
      concurrency := n;
    }
  }
}
