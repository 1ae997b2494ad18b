/** What a WatchEvents stream sends of a task it does not replay: one without a watermark, or one whose replay failed
    (sidecar/internal/ipc/events.go). */
module WatchUnreplayed {
  import opened EventStore
  import opened EventLog
  import opened Watch

  /** The event is above the client's watermark, if there is one, and was not published before Subscribe returned. */
  ghost predicate IsDue(first: Stream, marks: map<nat, int>, e: Event) {
    Passes(marks, e) && (e in first.waiting || e !in first.log.rows)
  }

  /** A due event is somewhere once, from its write on; an event that is not due is never sent, and one published
      earlier is nowhere. */
  ghost predicate PlainFate(s: Stream, first: Stream, marks: map<nat, int>, e: Event) {
    && Total(s, e) <= 1
    && (IsDue(first, marks, e) && e in s.log.rows ==> Total(s, e) == 1)
    && (e in first.log.rows && e !in first.waiting ==> Total(s, e) == 0)
    && (!Passes(marks, e) ==> e !in s.sent)
  }

  ghost predicate PlainOk(s: Stream, first: Stream, marks: map<nat, int>) {
    && (forall e :: e in first.log.rows ==> e in s.log.rows)
    && forall e: Event :: e.taskId !in s.replayed ==> PlainFate(s, first, marks, e)
  }

  lemma PlainStart(s: Stream, marks: map<nat, int>)
    requires IsStart(s, marks)
    ensures PlainOk(s, s, marks)
  {
    hide Inv;
  }

  // ---- one step ----

  lemma PlainMove(s: Stream, after: Stream, first: Stream, marks: map<nat, int>)
    requires PlainOk(s, first, marks) && OnlyMoves(s, after)
    requires forall e :: Total(after, e) == Total(s, e)
    ensures PlainOk(after, first, marks)
  {
    hide Total, IsDue, Passes;
    forall e: Event | e.taskId !in after.replayed
      ensures PlainFate(after, first, marks, e)
    {
      assert PlainFate(s, first, marks, e);
    }
  }

  lemma PlainWritten(s: Stream, after: Stream, first: Stream, marks: map<nat, int>, more: seq<Event>, e: Event)
    requires OnlyRows(s) && SameStream(s, after) && PlainFate(s, first, marks, e)
    requires forall x :: x in first.log.rows ==> x in s.log.rows
    requires after.log.rows == s.log.rows + more && KeysUnique(after.log.rows) && AllNumbered(after.log.rows)
    requires Total(after, e) == Total(s, e) + multiset(more)[e]
    ensures PlainFate(after, first, marks, e)
  {
    hide LogOf, KeysUnique, AllNumbered, Total, Passes;
    if e in more {
      NewRowFacts(s.log.rows, more, e);
      assert Total(s, e) == 0;
    } else {
      assert multiset(more)[e] == 0;
    }
  }

  lemma PlainWrite(s: Stream, first: Stream, marks: map<nat, int>, w: Step, published: bool)
    requires StreamInv(s, marks) && PlainOk(s, first, marks)
    ensures PlainOk(AfterWrite(s, w, published), first, marks)
  {
    hide Inv, Next, KeysUnique, AllNumbered, AfterWrite, Total, PlainFate, NewRows, OnlyRows, MarksOk, AllAccounted,
         Patient;
    var after := AfterWrite(s, w, published);
    WriteEffect(s, w, published, after);
    StepKeepsInv(s.log, w);
    InvFacts(after.log);
    forall e: Event | e.taskId !in after.replayed
      ensures PlainFate(after, first, marks, e)
    {
      assert PlainFate(s, first, marks, e);
      PlainWritten(s, after, first, marks, NewRows(s, w), e);
    }
  }

  lemma PlainDelivered(s: Stream, first: Stream, marks: map<nat, int>, e: Event)
    requires MarksOk(s, marks) && e.taskId !in s.replayed && PlainFate(s, first, marks, e)
    requires s.toReplay == {} && s.buf != []
    ensures PlainFate(AfterDeliver(s), first, marks, e)
  {
    hide Total, AfterDeliver, LogOf;
    DeliverFrame(s);
    DeliverCounts(s, e);
    assert Passes(s.since, e) <==> Passes(marks, e);
    assert e in s.sent <==> multiset(s.sent)[e] > 0;
    assert e in AfterDeliver(s).sent <==> multiset(AfterDeliver(s).sent)[e] > 0;
  }

  lemma PlainDeliver(s: Stream, first: Stream, marks: map<nat, int>)
    requires MarksOk(s, marks) && PlainOk(s, first, marks)
    ensures PlainOk(AfterDeliver(s), first, marks)
  {
    hide MarksOk, PlainFate, AfterDeliver;
    DeliverFrame(s);
    if s.toReplay == {} && s.buf != [] {
      forall e: Event | e.taskId !in s.replayed
        ensures PlainFate(AfterDeliver(s), first, marks, e)
      {
        PlainDelivered(s, first, marks, e);
      }
    }
  }

  lemma ReplayedElsewhere(s: Stream, first: Stream, marks: map<nat, int>, task: nat, e: Event)
    requires KeysUnique(s.log.rows) && task in s.since && e.taskId != task && PlainFate(s, first, marks, e)
    ensures PlainFate(AfterReplay(s, task), first, marks, e)
  {
    hide Listed, Highest, KeysUnique, Passes;
    var events := Listed(s.log.rows, task, s.since[task], |s.log.rows|);
    ListedCounts(s.log.rows, task, s.since[task], e);
    assert multiset(s.sent + events)[e] == multiset(s.sent)[e];
    assert e in s.sent + events <==> multiset(s.sent + events)[e] > 0;
    assert e in s.sent <==> multiset(s.sent)[e] > 0;
  }

  lemma PlainReplay(s: Stream, first: Stream, marks: map<nat, int>, task: nat)
    requires KeysUnique(s.log.rows) && task in s.since && PlainOk(s, first, marks)
    ensures PlainOk(AfterReplay(s, task), first, marks)
  {
    hide PlainFate, KeysUnique, Listed, Highest;
    var after := AfterReplay(s, task);
    forall e: Event | e.taskId !in after.replayed
      ensures PlainFate(after, first, marks, e)
    {
      ReplayedElsewhere(s, first, marks, task, e);
    }
  }

  lemma PlainStep(s: Stream, first: Stream, marks: map<nat, int>, capacity: nat, step: StreamStep)
    requires StreamInv(s, marks) && PlainOk(s, first, marks)
    ensures PlainOk(StreamNext(s, capacity, step), first, marks)
  {
    hide Inv, MarksOk, AllAccounted, OnlyRows, Patient, PlainOk, AfterReplay, Total,
         AfterWrite, AfterOffer, AfterEvict, AfterRetry, AfterDeliver;
    match step {
      case Write(w, published) => PlainWrite(s, first, marks, w, published);
      case Replay(task) =>
        if task in s.toReplay && task in s.since {
          InvFacts(s.log);
          PlainReplay(s, first, marks, task);
        }
      case Deliver => PlainDeliver(s, first, marks);
      case Offer(e) =>
        OfferMoves(s, capacity, e);
        PlainMove(s, AfterOffer(s, capacity, e), first, marks);
      case Evict(e) =>
        EvictMoves(s, e);
        PlainMove(s, AfterEvict(s, e), first, marks);
      case Retry(e) =>
        RetryMoves(s, capacity, e);
        PlainMove(s, AfterRetry(s, capacity, e), first, marks);
      case ReplayFails(task) =>
        ReplayFailsMoves(s, task);
        PlainMove(s, s.(toReplay := s.toReplay - {task}), first, marks);
    }
  }

  // ---- whole runs ----

  lemma {:induction false} PlainRun(trace: seq<Stream>, marks: map<nat, int>, capacity: nat, steps: seq<StreamStep>,
                                    n: nat)
    requires IsStreamRun(trace, capacity, steps) && IsStart(trace[0], marks) && n <= |steps|
    ensures PlainOk(trace[n], trace[0], marks)
  {
    hide StreamInv, StreamNext, IsStart, PlainOk;
    if n == 0 {
      PlainStart(trace[0], marks);
    } else {
      PlainRun(trace, marks, capacity, steps, n - 1);
      StreamRunKeepsInv(trace, marks, capacity, steps, n - 1);
      var i, j := n - 1, n;
      assert trace[j] == StreamNext(trace[i], capacity, steps[i]);
      PlainStep(trace[i], trace[0], marks, capacity, steps[i]);
    }
  }

  /** Of a task that is not replayed, only due events are sent, none twice, and a due event that was not sent is on its
      way, was dropped for want of room, or was never published; once everything has settled, each was sent once. */
  lemma UnreplayedSentOnce(trace: seq<Stream>, marks: map<nat, int>, capacity: nat, steps: seq<StreamStep>, n: nat,
                           e: Event)
    requires IsStreamRun(trace, capacity, steps) && IsStart(trace[0], marks) && n <= |steps|
    requires e.taskId !in trace[n].replayed
    ensures multiset(trace[n].sent)[e] <= 1
    ensures !IsDue(trace[0], marks, e) ==> e !in trace[n].sent
    ensures IsDue(trace[0], marks, e) && e in trace[n].log.rows ==>
      multiset(trace[n].sent)[e] + InTransit(trace[n], e) + trace[n].dropped[e] + trace[n].silent[e] == 1
    ensures IsDue(trace[0], marks, e) && e in trace[n].log.rows && IsQuiet(trace[n]) ==> multiset(trace[n].sent)[e] == 1
  {
    hide StreamNext, IsStart, Passes;
    PlainRun(trace, marks, capacity, steps, n);
    assert PlainFate(trace[n], trace[0], marks, e);
    assert e in trace[0].log.rows && e !in trace[0].waiting ==> Total(trace[n], e) == 0;
    assert e in trace[n].sent <==> multiset(trace[n].sent)[e] > 0;
  }
}
