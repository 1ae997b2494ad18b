/** One WatchEvents stream against every writer: it subscribes, replays the log above the client's watermarks and
    then sends what the broker delivers (sidecar/internal/ipc/events.go, sidecar/internal/ipc/broker.go).
    A run starts when Subscribe has returned. */
module Watch {
  import opened EventStore
  import opened EventLog

  /** The stream and the events on their way to it. An event is first waiting to be published; a Publish that finds
      the buffer full goes on to evict the oldest event and then tries once more. Silent events are written without
      ever being published. */
  datatype Stream = Stream(
    log: Log,
    waiting: multiset<Event>, evicting: multiset<Event>, retrying: multiset<Event>, buf: seq<Event>,
    since: map<nat, int>, toReplay: set<nat>, replayed: set<nat>,
    sent: seq<Event>, dropped: multiset<Event>, silent: multiset<Event>)

  datatype StreamStep =
    | Write(step: Step, published: bool)
    | Offer(e: Event)
    | Evict(e: Event)
    | Retry(e: Event)
    | Replay(task: nat)
    | ReplayFails(task: nat)
    | Deliver

  // ---- one step ----

  /** The highest number replayed, at least the client's watermark. */
  function Highest(events: seq<Event>, n: nat, cutoff: int): int
    requires n <= |events|
  {
    if n == 0 then cutoff
    else
      var h := Highest(events, n - 1, cutoff);
      if events[n - 1].number > h then events[n - 1].number else h
  }

  ghost function NewRows(s: Stream, step: Step): seq<Event> {
    var rows := Next(s.log, step).rows;
    if |s.log.rows| <= |rows| then rows[|s.log.rows|..] else []
  }

  /** The live filter. */
  ghost predicate Passes(since: map<nat, int>, e: Event) {
    e.taskId in since ==> e.number > since[e.taskId]
  }

  ghost function AfterReplay(s: Stream, task: nat): Stream
    requires task in s.since
  {
    var events := Listed(s.log.rows, task, s.since[task], |s.log.rows|);
    s.(sent := s.sent + events, since := s.since[task := Highest(events, |events|, s.since[task])],
       toReplay := s.toReplay - {task}, replayed := s.replayed + {task})
  }

  ghost function AfterWrite(s: Stream, w: Step, published: bool): Stream {
    var new_ := multiset(NewRows(s, w));
    if published then s.(log := Next(s.log, w), waiting := s.waiting + new_)
    else s.(log := Next(s.log, w), silent := s.silent + new_)
  }

  ghost function AfterOffer(s: Stream, capacity: nat, e: Event): Stream {
    if e !in s.waiting then s
    else if |s.buf| < capacity then s.(waiting := s.waiting - multiset{e}, buf := s.buf + [e])
    else s.(waiting := s.waiting - multiset{e}, evicting := s.evicting + multiset{e})
  }

  ghost function AfterEvict(s: Stream, e: Event): Stream {
    if e !in s.evicting then s
    else if s.buf == [] then s.(evicting := s.evicting - multiset{e}, retrying := s.retrying + multiset{e})
    else s.(evicting := s.evicting - multiset{e}, retrying := s.retrying + multiset{e},
            buf := s.buf[1..], dropped := s.dropped + multiset{s.buf[0]})
  }

  ghost function AfterRetry(s: Stream, capacity: nat, e: Event): Stream {
    if e !in s.retrying then s
    else if |s.buf| < capacity then s.(retrying := s.retrying - multiset{e}, buf := s.buf + [e])
    else s.(retrying := s.retrying - multiset{e}, dropped := s.dropped + multiset{e})
  }

  ghost function AfterDeliver(s: Stream): Stream {
    if s.toReplay != {} || s.buf == [] then s
    else if Passes(s.since, s.buf[0]) then s.(buf := s.buf[1..], sent := s.sent + [s.buf[0]])
    else s.(buf := s.buf[1..])
  }

  /** A step that is not possible in the state leaves it alone. */
  ghost function StreamNext(s: Stream, capacity: nat, step: StreamStep): Stream {
    match step
    case Write(w, published) => AfterWrite(s, w, published)
    case Offer(e) => AfterOffer(s, capacity, e)
    case Evict(e) => AfterEvict(s, e)
    case Retry(e) => AfterRetry(s, capacity, e)
    case Replay(task) => if task in s.toReplay && task in s.since then AfterReplay(s, task) else s
    case ReplayFails(task) => s.(toReplay := s.toReplay - {task})
    case Deliver => AfterDeliver(s)
  }

  /** trace is a run of the stream by the given steps. */
  ghost predicate IsStreamRun(trace: seq<Stream>, capacity: nat, steps: seq<StreamStep>) {
    && |trace| == |steps| + 1
    && forall i, j :: 0 <= i < |steps| && j == i + 1 ==> trace[j] == StreamNext(trace[i], capacity, steps[i])
  }

  // ---- the invariant ----

  /** How often an event is on its way or arrived anywhere. */
  ghost function Total(s: Stream, e: Event): nat {
    InTransit(s, e) + multiset(s.sent)[e] + s.dropped[e] + s.silent[e]
  }

  ghost function InTransit(s: Stream, e: Event): nat {
    s.waiting[e] + s.evicting[e] + s.retrying[e] + multiset(s.buf)[e]
  }

  /** Only rows travel. */
  ghost predicate OnlyRows(s: Stream) {
    forall e :: Total(s, e) > 0 ==> e in s.log.rows
  }

  ghost predicate MarksOk(s: Stream, marks: map<nat, int>) {
    && s.since.Keys == marks.Keys && s.replayed <= marks.Keys && s.toReplay <= marks.Keys && s.replayed !! s.toReplay
    && (forall t :: t in marks ==> s.since[t] >= marks[t])
    && (forall t :: t in marks && t !in s.replayed ==> s.since[t] == marks[t])
    && (forall t :: t in s.replayed && s.since[t] > marks[t] ==> s.since[t] <= |LogOf(s.log.rows, t)|)
  }

  /** The fate of one event of a replayed task. */
  ghost predicate Accounted(s: Stream, marks: map<nat, int>, e: Event)
    requires e.taskId in marks && e.taskId in s.since
  {
    if e.number <= s.since[e.taskId] then multiset(s.sent)[e] == (if e.number <= marks[e.taskId] then 0 else 1)
    else Total(s, e) == 1
  }

  ghost predicate AllAccounted(s: Stream, marks: map<nat, int>)
    requires MarksOk(s, marks)
  {
    forall e :: e in s.log.rows && e.taskId in s.replayed ==> Accounted(s, marks, e)
  }

  /** Nothing of a task is sent before its replay. */
  ghost predicate Patient(s: Stream) {
    forall e :: e in s.sent ==> e.taskId !in s.toReplay
  }

  ghost predicate StreamInv(s: Stream, marks: map<nat, int>) {
    Inv(s.log) && OnlyRows(s) && MarksOk(s, marks) && AllAccounted(s, marks) && Patient(s)
  }

  /** The state Subscribe leaves: some events of the log may still be waiting for their Publish. */
  ghost predicate IsStart(s: Stream, marks: map<nat, int>) {
    && Inv(s.log) && s.since == marks && s.toReplay == marks.Keys && s.replayed == {}
    && s.buf == [] && s.sent == []
    && s.dropped == multiset{} && s.silent == multiset{} && s.evicting == multiset{} && s.retrying == multiset{}
    && forall e :: e in s.waiting ==> e in s.log.rows && s.waiting[e] == 1
  }

  lemma StartInv(s: Stream, marks: map<nat, int>)
    requires IsStart(s, marks)
    ensures StreamInv(s, marks)
  {
    hide Inv;
  }

  // ---- writes ----

  /** A new row is not among the old ones, there is one of it, and its number is above the old log. */
  lemma NewRowFacts(rows: seq<Event>, more: seq<Event>, e: Event)
    requires KeysUnique(rows + more) && AllNumbered(rows + more) && e in more
    ensures e !in rows && multiset(more)[e] == 1
    ensures e.number > |LogOf(rows, e.taskId)|
  {
    var k :| 0 <= k < |more| && more[k] == e;
    forall i | 0 <= i < |rows| ensures rows[i] != e { assert !Clash((rows + more)[i], (rows + more)[|rows| + k]); }
    Once(more, k, |rows|, rows + more);
    NewNumber(rows, more, e);
  }

  lemma Once(more: seq<Event>, k: nat, shift: nat, all: seq<Event>)
    requires k < |more| && KeysUnique(all) && |all| == shift + |more| && all[shift..] == more
    ensures multiset(more)[more[k]] == 1
  {
    var e := more[k];
    assert more == more[..k] + [e] + more[k + 1..];
    forall i | 0 <= i < |more| && i != k
      ensures more[i] != e
    {
      assert all[shift + i] == more[i] && all[shift + k] == e;
      assert !Clash(all[if i < k then shift + i else shift + k], all[if i < k then shift + k else shift + i]);
    }
    assert e !in multiset(more[..k]) && e !in multiset(more[k + 1..]);
    assert multiset(more) == multiset(more[..k]) + multiset{e} + multiset(more[k + 1..]);
  }

  lemma NewNumber(rows: seq<Event>, more: seq<Event>, e: Event)
    requires AllNumbered(rows + more) && e in more
    ensures e.number > |LogOf(rows, e.taskId)|
  {
    hide TaskLog, AllNumbered;
    var t := e.taskId;
    TaskLogAppend(rows, more, t, |more|);
    TaskLogMembers(more, t, |more|);
    assert more[..|more|] == more;
    var old_, own := LogOf(rows, t), TaskLog(more, t, |more|);
    assert LogOf(rows + more, t) == old_ + own;
    LogIsNumbered(rows + more, t);
    var i :| 0 <= i < |own| && own[i] == e;
    assert (old_ + own)[|old_| + i] == e;
  }

  lemma LogIsNumbered(rows: seq<Event>, t: nat)
    requires AllNumbered(rows)
    ensures IsNumbered(LogOf(rows, t))
  {
  }

  ghost predicate SameStream(s: Stream, after: Stream) {
    && after.since == s.since && after.toReplay == s.toReplay && after.replayed == s.replayed && after.sent == s.sent
    && after.buf == s.buf && after.dropped == s.dropped
  }

  lemma WriteEffect(s: Stream, w: Step, published: bool, after: Stream)
    requires after == AfterWrite(s, w, published)
    ensures after.log == Next(s.log, w) && SameStream(s, after)
    ensures after.log.rows == s.log.rows + NewRows(s, w)
    ensures forall e :: Total(after, e) == Total(s, e) + multiset(NewRows(s, w))[e]
  {
    hide Next;
    RowsGrow(s.log, w);
  }

  lemma NewEventAccounted(s: Stream, marks: map<nat, int>, after: Stream, more: seq<Event>, e: Event)
    requires OnlyRows(s) && MarksOk(s, marks) && SameStream(s, after) && e.taskId in s.replayed
    requires Total(after, e) == Total(s, e) + 1
    requires e !in s.log.rows && e.number > |LogOf(s.log.rows, e.taskId)|
    ensures Accounted(after, marks, e)
  {
    hide LogOf;
    assert Total(s, e) == 0;
    assert multiset(s.sent)[e] == 0;
  }

  lemma WriteAccounts(s: Stream, marks: map<nat, int>, after: Stream, more: seq<Event>, e: Event)
    requires OnlyRows(s) && MarksOk(s, marks) && AllAccounted(s, marks) && SameStream(s, after)
    requires after.log.rows == s.log.rows + more && KeysUnique(after.log.rows) && AllNumbered(after.log.rows)
    requires Total(after, e) == Total(s, e) + multiset(more)[e]
    requires e in after.log.rows && e.taskId in s.replayed
    ensures Accounted(after, marks, e)
  {
    hide LogOf, KeysUnique, AllNumbered, OnlyRows, Total;
    if e in more {
      NewRowFacts(s.log.rows, more, e);
      NewEventAccounted(s, marks, after, more, e);
    } else {
      assert multiset(more)[e] == 0;
      assert Accounted(s, marks, e);
    }
  }

  lemma WriteKeepsInv(s: Stream, marks: map<nat, int>, w: Step, published: bool)
    requires StreamInv(s, marks)
    ensures StreamInv(AfterWrite(s, w, published), marks)
  {
    hide Inv, Next, LogOf, KeysUnique, AllNumbered, AfterWrite, Total, Accounted, NewRows;
    var after := AfterWrite(s, w, published);
    WriteEffect(s, w, published, after);
    StepKeepsInv(s.log, w);
    var rows, more := s.log.rows, NewRows(s, w);
    InvFacts(after.log);
    forall t ensures |LogOf(rows, t)| <= |LogOf(rows + more, t)| { LogGrows(rows, more, t); }
    forall e | e in after.log.rows && e.taskId in after.replayed
      ensures Accounted(after, marks, e)
    {
      WriteAccounts(s, marks, after, more, e);
    }
  }

  lemma InvFacts(s: Log)
    requires Inv(s)
    ensures KeysUnique(s.rows) && AllNumbered(s.rows)
  {
  }

  lemma LogGrows(rows: seq<Event>, more: seq<Event>, t: nat)
    ensures |LogOf(rows, t)| <= |LogOf(rows + more, t)|
  {
    TaskLogAppend(rows, more, t, |more|);
  }

  // ---- publishing and delivery ----

  /** A step that only moves events about keeps the invariant. */
  lemma MoveKeepsInv(s: Stream, after: Stream, marks: map<nat, int>)
    requires StreamInv(s, marks) && OnlyMoves(s, after)
    requires forall e :: Total(after, e) == Total(s, e)
    ensures StreamInv(after, marks)
  {
    hide Inv, LogOf, Total;
    forall e | e in after.log.rows && e.taskId in after.replayed
      ensures Accounted(after, marks, e)
    {
      assert Accounted(s, marks, e);
    }
  }

  lemma HeadCount(buf: seq<Event>, e: Event)
    requires buf != []
    ensures multiset(buf)[e] == multiset(buf[1..])[e] + if e == buf[0] then 1 else 0
  {
    assert buf == [buf[0]] + buf[1..];
  }

  ghost predicate OnlyMoves(s: Stream, after: Stream) {
    && after.log == s.log && after.since == s.since
    && after.toReplay <= s.toReplay && after.replayed == s.replayed && after.sent == s.sent
  }

  lemma Push(buf: seq<Event>, e: Event, x: Event)
    ensures multiset(buf + [e])[x] == multiset(buf)[x] + multiset{e}[x]
  {
  }

  lemma OfferTotal(s: Stream, capacity: nat, e: Event, x: Event)
    ensures Total(AfterOffer(s, capacity, e), x) == Total(s, x)
  {
    if e in s.waiting {
      Push(s.buf, e, x);
    }
  }

  lemma EvictTotal(s: Stream, e: Event, x: Event)
    ensures Total(AfterEvict(s, e), x) == Total(s, x)
  {
    if e in s.evicting {
      if s.buf != [] {
        HeadCount(s.buf, x);
      }
    }
  }

  lemma RetryTotal(s: Stream, capacity: nat, e: Event, x: Event)
    ensures Total(AfterRetry(s, capacity, e), x) == Total(s, x)
  {
    if e in s.retrying {
      Push(s.buf, e, x);
    }
  }

  lemma OfferMoves(s: Stream, capacity: nat, e: Event)
    ensures OnlyMoves(s, AfterOffer(s, capacity, e))
    ensures forall x :: Total(AfterOffer(s, capacity, e), x) == Total(s, x)
  {
    hide Total;
    forall x ensures Total(AfterOffer(s, capacity, e), x) == Total(s, x) { OfferTotal(s, capacity, e, x); }
  }

  lemma EvictMoves(s: Stream, e: Event)
    ensures OnlyMoves(s, AfterEvict(s, e))
    ensures forall x :: Total(AfterEvict(s, e), x) == Total(s, x)
  {
    hide Total;
    forall x ensures Total(AfterEvict(s, e), x) == Total(s, x) { EvictTotal(s, e, x); }
  }

  lemma RetryMoves(s: Stream, capacity: nat, e: Event)
    ensures OnlyMoves(s, AfterRetry(s, capacity, e))
    ensures forall x :: Total(AfterRetry(s, capacity, e), x) == Total(s, x)
  {
    hide Total;
    forall x ensures Total(AfterRetry(s, capacity, e), x) == Total(s, x) { RetryTotal(s, capacity, e, x); }
  }

  lemma ReplayFailsMoves(s: Stream, task: nat)
    ensures var after := s.(toReplay := s.toReplay - {task});
      OnlyMoves(s, after) && forall x :: Total(after, x) == Total(s, x)
  {
  }

  /** Delivery sends the head of the buffer, or filters it out. */
  lemma DeliverCounts(s: Stream, e: Event)
    requires s.toReplay == {} && s.buf != []
    ensures var after := AfterDeliver(s);
      && multiset(after.sent)[e] == multiset(s.sent)[e] + (if e == s.buf[0] && Passes(s.since, e) then 1 else 0)
      && Total(after, e) == Total(s, e) - (if e == s.buf[0] && !Passes(s.since, e) then 1 else 0)
  {
    HeadCount(s.buf, e);
  }

  lemma DeliverKeepsInv(s: Stream, marks: map<nat, int>)
    requires StreamInv(s, marks)
    ensures StreamInv(AfterDeliver(s), marks)
  {
    hide Inv, LogOf, Total, AfterDeliver;
    var after := AfterDeliver(s);
    DeliverFrame(s);
    if s.toReplay == {} && s.buf != [] {
      forall e
        ensures Total(after, e) <= Total(s, e)
      {
        DeliverCounts(s, e);
      }
      forall e | e in after.log.rows && e.taskId in after.replayed
        ensures Accounted(after, marks, e)
      {
        assert Accounted(s, marks, e);
        DeliverCounts(s, e);
      }
    }
  }

  lemma DeliverFrame(s: Stream)
    ensures var after := AfterDeliver(s);
      && after.log == s.log && after.since == s.since && after.toReplay == s.toReplay && after.replayed == s.replayed
      && ((s.toReplay == {} && s.buf != []) || after == s)
  {
  }

  // ---- replay ----

  lemma {:induction false} HighestBounds(events: seq<Event>, n: nat, cutoff: int)
    requires n <= |events|
    ensures Highest(events, n, cutoff) >= cutoff
    ensures forall i :: 0 <= i < n ==> events[i].number <= Highest(events, n, cutoff)
    ensures Highest(events, n, cutoff) != cutoff ==>
      exists i :: 0 <= i < n && events[i].number == Highest(events, n, cutoff)
  {
    if n > 0 {
      HighestBounds(events, n - 1, cutoff);
    }
  }

  lemma {:induction false} AboveCounts(rows: seq<Event>, task: nat, since: int, n: nat, e: Event)
    requires n <= |rows|
    ensures Above(rows, task, since, n)[e] == if e.taskId == task && e.number > since then multiset(rows[..n])[e] else 0
  {
    if n > 0 {
      AboveCounts(rows, task, since, n - 1, e);
      assert rows[..n] == rows[..n - 1] + [rows[n - 1]];
    }
  }

  /** The listing of a task holds each of its rows above the watermark once, and nothing else. */
  lemma ListedCounts(rows: seq<Event>, task: nat, since: int, e: Event)
    requires KeysUnique(rows)
    ensures multiset(Listed(rows, task, since, |rows|))[e] ==
      if e in rows && e.taskId == task && e.number > since then 1 else 0
  {
    hide Listed, Above;
    ListedIsSorted(rows, task, since, |rows|);
    AboveCounts(rows, task, since, |rows|, e);
    assert rows[..|rows|] == rows;
    if e in rows {
      var k :| 0 <= k < |rows| && rows[k] == e;
      Once(rows, k, 0, rows);
    }
  }

  lemma ReplayMark(rows: seq<Event>, task: nat, since: int)
    requires KeysUnique(rows) && AllNumbered(rows)
    ensures var events := Listed(rows, task, since, |rows|); var high := Highest(events, |events|, since);
      && high >= since && (high > since ==> high <= |LogOf(rows, task)|)
      && forall e :: e in rows && e.taskId == task ==> e.number <= high
  {
    hide Listed, Highest, KeysUnique;
    var events := Listed(rows, task, since, |rows|);
    var high := Highest(events, |events|, since);
    HighestBounds(events, |events|, since);
    if high > since {
      var i :| 0 <= i < |events| && events[i].number == high;
      ListedCounts(rows, task, since, events[i]);
      assert events[i] in multiset(events);
      NumberInLog(rows, events[i]);
    }
    forall e | e in rows && e.taskId == task && e.number > since
      ensures e.number <= high
    {
      ListedCounts(rows, task, since, e);
      assert e in multiset(events);
      assert e in events;
    }
  }

  lemma NumberInLog(rows: seq<Event>, e: Event)
    requires AllNumbered(rows) && e in rows
    ensures 1 <= e.number <= |LogOf(rows, e.taskId)|
  {
    TaskLogMembers(rows, e.taskId, |rows|);
    assert rows[..|rows|] == rows;
    var log := LogOf(rows, e.taskId);
    assert IsNumbered(log);
    var i :| 0 <= i < |log| && log[i] == e;
  }

  lemma ReplayAccounts(s: Stream, marks: map<nat, int>, task: nat, e: Event)
    requires StreamInv(s, marks) && task in s.toReplay
    requires e in s.log.rows && (e.taskId in s.replayed || e.taskId == task)
    ensures AfterReplay(s, task).since.Keys == marks.Keys
    ensures Accounted(AfterReplay(s, task), marks, e)
  {
    hide Listed, Highest, LogOf, Inv;
    var rows, since := s.log.rows, s.since[task];
    InvFacts(s.log);
    ReplayMark(rows, task, since);
    ListedCounts(rows, task, since, e);
    if e.taskId == task {
      assert e !in s.sent;
    } else {
      assert Accounted(s, marks, e);
    }
  }

  lemma ReplayKeepsInv(s: Stream, marks: map<nat, int>, task: nat)
    requires StreamInv(s, marks) && task in s.toReplay
    ensures StreamInv(AfterReplay(s, task), marks)
  {
    hide Listed, Highest, LogOf, Inv, KeysUnique, AllNumbered, Accounted;
    var after := AfterReplay(s, task);
    var rows := s.log.rows;
    InvFacts(s.log);
    ReplayMark(rows, task, s.since[task]);
    forall e
      ensures Total(after, e) > 0 ==> e in rows
      ensures e in after.sent ==> e.taskId !in after.toReplay
    {
      ListedCounts(rows, task, s.since[task], e);
      assert Total(after, e) == Total(s, e) + multiset(Listed(rows, task, s.since[task], |rows|))[e];
      assert e in after.sent <==> e in s.sent || e in multiset(Listed(rows, task, s.since[task], |rows|));
    }
    assert MarksOk(after, marks);
    forall e | e in after.log.rows && e.taskId in after.replayed
      ensures Accounted(after, marks, e)
    {
      ReplayAccounts(s, marks, task, e);
    }
  }

  lemma StreamStepKeepsInv(s: Stream, marks: map<nat, int>, capacity: nat, step: StreamStep)
    requires StreamInv(s, marks)
    ensures StreamInv(StreamNext(s, capacity, step), marks)
  {
    hide Inv, LogOf, AllAccounted, OnlyRows, Patient, AfterReplay, Total, AfterWrite, AfterOffer, AfterEvict,
         AfterRetry, AfterDeliver;
    match step {
      case Write(w, published) => WriteKeepsInv(s, marks, w, published);
      case Replay(task) => if task in s.toReplay { ReplayKeepsInv(s, marks, task); }
      case Deliver => DeliverKeepsInv(s, marks);
      case Offer(e) =>
        OfferMoves(s, capacity, e);
        MoveKeepsInv(s, AfterOffer(s, capacity, e), marks);
      case Evict(e) =>
        EvictMoves(s, e);
        MoveKeepsInv(s, AfterEvict(s, e), marks);
      case Retry(e) =>
        RetryMoves(s, capacity, e);
        MoveKeepsInv(s, AfterRetry(s, capacity, e), marks);
      case ReplayFails(task) =>
        ReplayFailsMoves(s, task);
        MoveKeepsInv(s, s.(toReplay := s.toReplay - {task}), marks);
    }
  }

  lemma {:induction false} StreamRunKeepsInv(trace: seq<Stream>, marks: map<nat, int>, capacity: nat,
                                             steps: seq<StreamStep>, n: nat)
    requires IsStreamRun(trace, capacity, steps) && IsStart(trace[0], marks) && n <= |steps|
    ensures StreamInv(trace[n], marks)
  {
    hide StreamInv, StreamNext, IsStart;
    if n == 0 {
      StartInv(trace[0], marks);
    } else {
      StreamRunKeepsInv(trace, marks, capacity, steps, n - 1);
      var i, j := n - 1, n;
      assert trace[j] == StreamNext(trace[i], capacity, steps[i]);
      StreamStepKeepsInv(trace[i], marks, capacity, steps[i]);
    }
  }

  // ---- what every run guarantees ----

  /** For a task whose replay succeeded, wherever the writes fall: no event at or below the watermark is ever sent, no
      event is sent twice, and an event above the watermark that was not sent is on its way, was dropped for want of
      room, or was never published. */
  lemma WatchSendsOnce(trace: seq<Stream>, marks: map<nat, int>, capacity: nat, steps: seq<StreamStep>, n: nat,
                       e: Event)
    requires IsStreamRun(trace, capacity, steps) && IsStart(trace[0], marks) && n <= |steps|
    requires e in trace[n].log.rows && e.taskId in trace[n].replayed
    ensures e.taskId in marks
    ensures e.number <= marks[e.taskId] ==> e !in trace[n].sent
    ensures multiset(trace[n].sent)[e] <= 1
    ensures e.number > marks[e.taskId] && e !in trace[n].sent ==>
      InTransit(trace[n], e) + trace[n].dropped[e] + trace[n].silent[e] == 1
  {
    hide StreamNext, IsStart, Inv, LogOf, OnlyRows, Patient;
    StreamRunKeepsInv(trace, marks, capacity, steps, n);
    assert Accounted(trace[n], marks, e);
  }

  /** Everything published has been delivered, and nothing was dropped or written silently. */
  ghost predicate IsQuiet(s: Stream) {
    && s.waiting == multiset{} && s.evicting == multiset{} && s.retrying == multiset{} && s.buf == []
    && s.dropped == multiset{} && s.silent == multiset{}
  }

  /** Then every event above the watermark was sent exactly once and none at or below it. */
  lemma QuietWatchIsComplete(trace: seq<Stream>, marks: map<nat, int>, capacity: nat, steps: seq<StreamStep>, n: nat,
                             e: Event)
    requires IsStreamRun(trace, capacity, steps) && IsStart(trace[0], marks) && n <= |steps|
    requires e in trace[n].log.rows && e.taskId in trace[n].replayed && IsQuiet(trace[n])
    ensures e.taskId in marks
    ensures multiset(trace[n].sent)[e] == if e.number > marks[e.taskId] then 1 else 0
  {
    hide StreamNext, IsStart;
    WatchSendsOnce(trace, marks, capacity, steps, n, e);
  }
}
