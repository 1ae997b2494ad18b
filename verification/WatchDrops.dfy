/** What a WatchEvents stream loses when its buffer overflows (sidecar/internal/ipc/broker.go). */
module WatchDrops {
  import opened Text
  import opened EventStore
  import opened EventLog
  import opened Watch
  import Broker

  // ---- the buffer over a stretch of a run ----

  ghost predicate Inserts(s: Stream, capacity: nat, step: StreamStep) {
    match step
    case Offer(e) => e in s.waiting && |s.buf| < capacity
    case Retry(e) => e in s.retrying && |s.buf| < capacity
    case _ => false
  }

  ghost predicate Removes(s: Stream, step: StreamStep) {
    match step
    case Evict(e) => e in s.evicting && s.buf != []
    case Deliver => s.toReplay == {} && s.buf != []
    case _ => false
  }

  /** How many of the steps from..n put an event into the buffer, and how many took one out. */
  ghost function Inserted(trace: seq<Stream>, capacity: nat, steps: seq<StreamStep>, from: nat, n: nat): nat
    requires from <= n <= |steps| <= |trace|
    decreases n
  {
    if n == from then 0
    else Inserted(trace, capacity, steps, from, n - 1) + One(Inserts(trace[n - 1], capacity, steps[n - 1]))
  }

  ghost function Removed(trace: seq<Stream>, steps: seq<StreamStep>, from: nat, n: nat): nat
    requires from <= n <= |steps| <= |trace|
    decreases n
  {
    if n == from then 0 else Removed(trace, steps, from, n - 1) + One(Removes(trace[n - 1], steps[n - 1]))
  }

  lemma StepOfStream(trace: seq<Stream>, capacity: nat, steps: seq<StreamStep>, i: nat)
    requires IsStreamRun(trace, capacity, steps) && i < |steps|
    ensures trace[i + 1] == StreamNext(trace[i], capacity, steps[i])
  {
    hide StreamNext;
    var j := i + 1;
    var to := trace[j];
  }

  lemma StepBalance(s: Stream, capacity: nat, step: StreamStep)
    ensures |StreamNext(s, capacity, step).buf| + One(Removes(s, step)) == |s.buf| + One(Inserts(s, capacity, step))
    ensures |s.buf| <= capacity ==> |StreamNext(s, capacity, step).buf| <= capacity
  {
    hide Next, NewRows, Listed, Highest;
  }

  /** The buffer holds what it held, more what was put in, less what was taken out. */
  lemma {:induction false} BufferBalance(trace: seq<Stream>, capacity: nat, steps: seq<StreamStep>, from: nat, n: nat)
    requires IsStreamRun(trace, capacity, steps) && from <= n <= |steps|
    ensures |trace[n].buf| + Removed(trace, steps, from, n) ==
      |trace[from].buf| + Inserted(trace, capacity, steps, from, n)
    ensures |trace[from].buf| <= capacity ==> |trace[n].buf| <= capacity
    decreases n
  {
    hide StreamNext, IsStreamRun, Inserts, Removes;
    StreamLength(trace, capacity, steps);
    if n > from {
      BufferBalance(trace, capacity, steps, from, n - 1);
      StepOfStream(trace, capacity, steps, n - 1);
      StepBalance(trace[n - 1], capacity, steps[n - 1]);
    }
  }

  lemma StreamLength(trace: seq<Stream>, capacity: nat, steps: seq<StreamStep>)
    requires IsStreamRun(trace, capacity, steps)
    ensures |trace| == |steps| + 1
  {
  }

  // ---- when a Publish on a full buffer keeps its event ----

  /** Steps i and j are the Evict and the Retry of one Publish of e. */
  ghost predicate Republishes(trace: seq<Stream>, steps: seq<StreamStep>, i: nat, j: nat, e: Event) {
    && i < j < |steps| <= |trace|
    && steps[i] == Evict(e) && e in trace[i].evicting
    && steps[j] == Retry(e) && e in trace[j].retrying
  }

  ghost predicate Keeps(s: Stream, after: Stream, e: Event) {
    after.buf == s.buf + [e] && after.dropped == s.dropped
  }

  ghost predicate Loses(s: Stream, after: Stream, e: Event) {
    after.buf == s.buf && after.dropped == s.dropped + multiset{e}
  }

  lemma RetryKeepsIff(s: Stream, capacity: nat, e: Event)
    requires e in s.retrying
    ensures Keeps(s, StreamNext(s, capacity, Retry(e)), e) <==> |s.buf| < capacity
    ensures Loses(s, StreamNext(s, capacity, Retry(e)), e) <==> |s.buf| >= capacity
  {
    assert |s.buf + [e]| == |s.buf| + 1;
    assert (s.dropped + multiset{e})[e] == s.dropped[e] + 1;
  }

  lemma EvictMakesRoom(s: Stream, capacity: nat, e: Event)
    requires capacity > 0 && e in s.evicting && |s.buf| <= capacity
    ensures |StreamNext(s, capacity, Evict(e)).buf| < capacity
  {
  }

  /** Whatever runs between its Evict and its Retry, a Publish keeps its event, as the newest in the buffer, exactly
      when the insertions in between, less the removals, stay below the room its Evict left; otherwise the event is
      dropped. There is always room for one, so a loss takes an insertion by another Publish that no removal made up
      for. */
  lemma PublishKeepsIff(trace: seq<Stream>, capacity: nat, steps: seq<StreamStep>, i: nat, j: nat, e: Event)
    requires IsStreamRun(trace, capacity, steps) && capacity > 0 && |trace[0].buf| <= capacity
    requires Republishes(trace, steps, i, j, e)
    ensures |trace[i + 1].buf| < capacity
    ensures Keeps(trace[j], trace[j + 1], e) <==>
      Inserted(trace, capacity, steps, i + 1, j) - Removed(trace, steps, i + 1, j) < capacity - |trace[i + 1].buf|
    ensures Loses(trace[j], trace[j + 1], e) <==> !Keeps(trace[j], trace[j + 1], e)
    ensures Loses(trace[j], trace[j + 1], e) ==>
      Inserted(trace, capacity, steps, i + 1, j) > Removed(trace, steps, i + 1, j)
  {
    hide StreamNext, IsStreamRun, Inserted, Removed, Keeps, Loses;
    StreamLength(trace, capacity, steps);
    BufferBalance(trace, capacity, steps, 0, i);
    StepOfStream(trace, capacity, steps, i);
    EvictMakesRoom(trace[i], capacity, e);
    BufferBalance(trace, capacity, steps, i + 1, j);
    StepOfStream(trace, capacity, steps, j);
    RetryKeepsIff(trace[j], capacity, e);
  }

  lemma {:induction false} NothingInserted(trace: seq<Stream>, capacity: nat, steps: seq<StreamStep>, from: nat, n: nat)
    requires from <= n <= |steps| <= |trace|
    requires forall k :: from <= k < n ==> !steps[k].Offer? && !steps[k].Retry?
    ensures Inserted(trace, capacity, steps, from, n) == 0
    decreases n
  {
    if n > from {
      NothingInserted(trace, capacity, steps, from, n - 1);
    }
  }

  /** So publishers that take turns never lose the newest event, wherever writes, replays and deliveries fall. */
  lemma SerialPublishKeeps(trace: seq<Stream>, capacity: nat, steps: seq<StreamStep>, i: nat, j: nat, e: Event)
    requires IsStreamRun(trace, capacity, steps) && capacity > 0 && |trace[0].buf| <= capacity
    requires Republishes(trace, steps, i, j, e)
    requires forall k :: i < k < j ==> !steps[k].Offer? && !steps[k].Retry?
    ensures Keeps(trace[j], trace[j + 1], e)
  {
    hide StreamNext, IsStreamRun, Inserted, Removed, Keeps, Loses;
    NothingInserted(trace, capacity, steps, i + 1, j);
    PublishKeepsIff(trace, capacity, steps, i, j, e);
  }

  // ---- runs without overflow ----

  ghost predicate NothingDropped(s: Stream) {
    s.evicting == multiset{} && s.retrying == multiset{} && s.dropped == multiset{}
  }

  lemma NoDropStep(s: Stream, capacity: nat, step: StreamStep)
    requires NothingDropped(s) && (step.Offer? ==> |s.buf| < capacity)
    ensures NothingDropped(StreamNext(s, capacity, step))
  {
    hide Next, NewRows, Listed, Highest;
    match step {
      case Offer(e) =>
      case Evict(e) => assert e !in s.evicting;
      case Retry(e) => assert e !in s.retrying;
      case _ =>
    }
  }

  /** Nothing is dropped in a run in which no Publish meets a full buffer. */
  lemma {:induction false} NoOverflowNoDrop(trace: seq<Stream>, capacity: nat, steps: seq<StreamStep>, n: nat)
    requires IsStreamRun(trace, capacity, steps) && n <= |steps| && NothingDropped(trace[0])
    requires forall i :: 0 <= i < n && steps[i].Offer? ==> |trace[i].buf| < capacity
    ensures NothingDropped(trace[n])
  {
    hide StreamNext, NothingDropped;
    if n > 0 {
      NoOverflowNoDrop(trace, capacity, steps, n - 1);
      StepOfStream(trace, capacity, steps, n - 1);
      NoDropStep(trace[n - 1], capacity, steps[n - 1]);
    }
  }

  /** One undisturbed Publish on a full buffer drops the oldest event and keeps the newest. */
  lemma PublishAlone(s: Stream, capacity: nat, e: Event)
    requires capacity > 0 && |s.buf| == capacity && e in s.waiting
    ensures var offered := StreamNext(s, capacity, Offer(e));
      var evicted := StreamNext(offered, capacity, Evict(e));
      StreamNext(evicted, capacity, Retry(e)).buf == Broker.Offered(s.buf, e, capacity)
  {
  }

  /** Such a loss happens: two Publish calls at once can drop the newer of the two events while older ones stay in the
      buffer. */
  lemma NewestCanBeDropped(s: Stream, capacity: nat, older: Event, newest: Event)
    requires capacity > 0 && |s.buf| == capacity && older in s.waiting && newest in s.waiting && older != newest
    requires newest !in s.buf && newest !in s.evicting
    ensures var evicted := StreamNext(StreamNext(s, capacity, Offer(newest)), capacity, Evict(newest));
      var end := StreamNext(StreamNext(evicted, capacity, Offer(older)), capacity, Retry(newest));
      end.dropped[newest] == s.dropped[newest] + 1 && end.buf == s.buf[1..] + [older] && newest !in end.buf
  {
    hide StreamNext;
    FullBufferEvicts(s, capacity, newest);
    SlotIsTaken(StreamNext(StreamNext(s, capacity, Offer(newest)), capacity, Evict(newest)), capacity, older, newest);
    assert forall x :: x in s.buf[1..] ==> x in s.buf;
  }

  lemma FullBufferEvicts(s: Stream, capacity: nat, e: Event)
    requires capacity > 0 && |s.buf| == capacity && e in s.waiting && e !in s.evicting && e !in s.buf
    ensures var after := StreamNext(StreamNext(s, capacity, Offer(e)), capacity, Evict(e));
      && after.buf == s.buf[1..] && e in after.retrying && after.waiting == s.waiting - multiset{e}
      && after.dropped[e] == s.dropped[e]
  {
    assert s.buf[0] in s.buf;
  }

  lemma SlotIsTaken(s: Stream, capacity: nat, first: Event, second: Event)
    requires |s.buf| + 1 == capacity && first in s.waiting && second in s.retrying
    ensures var after := StreamNext(StreamNext(s, capacity, Offer(first)), capacity, Retry(second));
      && after.buf == s.buf + [first] && after.dropped[second] == s.dropped[second] + 1
  {
  }
}
