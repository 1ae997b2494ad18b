/** All the writers of the event table at work at once: consumers with a cached counter, writers that let the
    table number their event, and writers that ask for the next number and append later
    (sidecar/internal/orchestrator/orchestrator.go, consumeEvents; sidecar/internal/store/event_store.go). */
module EventLog {
  import opened Text
  import opened EventStore

  /** A running consumeEvents: the cached next number and the events not yet written. */
  datatype Consumer = Consumer(task: nat, next: int, batch: seq<Event>)

  /** A number a writer has asked for and not yet used. */
  datatype Held = Held(task: nat, number: int)

  datatype Log = Log(rows: seq<Event>, consumers: map<nat, Consumer>, held: map<nat, Held>)

  datatype Step =
    | Open(c: nat, task: nat)
    | Receive(c: nat, e: Event)
    | Flush(c: nat)
    | Close(c: nat)
    | AutoSeq(e: Event)
    | AskNext(w: nat, task: nat)
    | AppendHeld(w: nat, e: Event)

  // ---- one step ----

  /** The rows after an insertion that is made as a whole or not at all. */
  ghost function Written(rows: seq<Event>, events: seq<Event>): seq<Event> {
    if AllSound(events) && KeysUnique(rows + events) then rows + events else rows
  }

  ghost predicate IsWritten(rows: seq<Event>, events: seq<Event>) {
    AllSound(events) && KeysUnique(rows + events)
  }

  ghost function AfterFlush(s: Log, c: nat): Log
    requires c in s.consumers
  {
    var me := s.consumers[c];
    if IsWritten(s.rows, me.batch) then
      Log(s.rows + me.batch, s.consumers[c := me.(batch := [])], s.held)
    else s.(consumers := s.consumers - {c})
  }

  /** A step that is not possible in the state leaves it alone. */
  ghost function Next(s: Log, step: Step): Log {
    match step
    case Open(c, task) =>
      if c in s.consumers then s
      else s.(consumers := s.consumers[c := Consumer(task, NextNumber(s.rows, task, |s.rows|), [])])
    case Receive(c, e) =>
      if c !in s.consumers then s
      else
        var me := s.consumers[c];
        var numbered := e.(taskId := me.task, number := me.next);
        s.(consumers := s.consumers[c := Consumer(me.task, me.next + 1, me.batch + [numbered])])
    case Flush(c) => if c !in s.consumers then s else AfterFlush(s, c)
    case Close(c) => s.(consumers := s.consumers - {c})
    case AutoSeq(e) =>
      s.(rows := Written(s.rows, [e.(number := NextNumber(s.rows, e.taskId, |s.rows|))]))
    case AskNext(w, task) => s.(held := s.held[w := Held(task, NextNumber(s.rows, task, |s.rows|))])
    case AppendHeld(w, e) =>
      if w !in s.held then s
      else Log(Written(s.rows, [e.(taskId := s.held[w].task, number := s.held[w].number)]), s.consumers, s.held - {w})
  }

  /** trace is a run from its first state by the given steps. */
  ghost predicate Follows(trace: seq<Log>, steps: seq<Step>) {
    && |trace| == |steps| + 1
    && forall i, j :: 0 <= i < |steps| && j == i + 1 ==> trace[j] == Next(trace[i], steps[i])
  }

  /** A run from the empty log. */
  ghost predicate IsRun(trace: seq<Log>, steps: seq<Step>) {
    Follows(trace, steps) && trace[0] == Log([], map[], map[])
  }

  /** The loop state of consumeEvents. A false result ends the consumer. */
  class EventConsumer {
    const table: EventTable
    const task: nat
    var next: int
    var batch: seq<Event>

    constructor (table: EventTable, task: nat)
      ensures this.table == table && this.task == task
      ensures State() == Consumer(task, NextNumber(table.rows, task, |table.rows|), [])
    {
      this.table, this.task := table, task;
      var n := table.NextSeq(task);
      next, batch := n, [];
    }

    ghost function State(): Consumer
      reads this
    {
      Consumer(task, next, batch)
    }

    /** The log made of the table and this consumer alone. */
    ghost function Alone(): Log
      reads this, table
    {
      Log(table.rows, map[0 := State()], map[])
    }

    method FlushBatch() returns (ok: bool)
      requires table.Valid()
      modifies this, table
      ensures table.Valid() && next == old(next)
      ensures ok ==> Alone() == Next(old(Alone()), Flush(0))
      ensures !ok ==> Log(table.rows, map[], map[]) == Next(old(Alone()), Flush(0))
      ensures ok ==> batch == []
    {
      if |batch| == 0 {
        NothingToWrite(table.rows);
        return true;
      }
      var fault := table.AppendBatch(batch);
      if fault.Some? {
        return false;
      }
      batch := [];
      ok := true;
    }

    method ReceiveEvent(e: Event) returns (ok: bool)
      requires table.Valid()
      modifies this, table
      ensures table.Valid() && next == old(next) + 1
      ensures var received := Next(old(Alone()), Receive(0, e));
        if e.kind == Delta then ok && Alone() == received
        else if ok then Alone() == Next(received, Flush(0))
        else Log(table.rows, map[], map[]) == Next(received, Flush(0))
    {
      batch := batch + [e.(taskId := task, number := next)];
      next := next + 1;
      ok := true;
      if e.kind != Delta {
        ok := FlushBatch();
      }
    }
  }

  lemma NothingToWrite(rows: seq<Event>)
    requires KeysUnique(rows)
    ensures rows + [] == rows && IsWritten(rows, [])
  {
    assert rows + [] == rows;
  }

  // ---- the log of one task ----

  function TaskLog(rows: seq<Event>, task: nat, n: nat): seq<Event>
    requires n <= |rows|
  {
    if n == 0 then []
    else TaskLog(rows, task, n - 1) + if rows[n - 1].taskId == task then [rows[n - 1]] else []
  }

  function LogOf(rows: seq<Event>, task: nat): seq<Event> {
    TaskLog(rows, task, |rows|)
  }

  /** The numbers are exactly 1..n, in order of insertion. */
  ghost predicate IsNumbered(s: seq<Event>) {
    forall i :: 0 <= i < |s| ==> s[i].number == i + 1
  }

  lemma {:induction false} TaskLogPrefix(rows: seq<Event>, more: seq<Event>, task: nat, n: nat)
    requires n <= |rows|
    ensures TaskLog(rows + more, task, n) == TaskLog(rows, task, n)
  {
    if n > 0 {
      TaskLogPrefix(rows, more, task, n - 1);
    }
  }

  lemma {:induction false} TaskLogAppend(rows: seq<Event>, more: seq<Event>, task: nat, n: nat)
    requires n <= |more|
    ensures TaskLog(rows + more, task, |rows| + n) == LogOf(rows, task) + TaskLog(more, task, n)
  {
    if n == 0 {
      TaskLogPrefix(rows, more, task, |rows|);
    } else {
      TaskLogAppend(rows, more, task, n - 1);
      assert (rows + more)[|rows| + n - 1] == more[n - 1];
    }
  }

  lemma {:induction false} TaskLogMembers(rows: seq<Event>, task: nat, n: nat)
    requires n <= |rows|
    ensures forall x :: x in TaskLog(rows, task, n) <==> x in rows[..n] && x.taskId == task
  {
    if n > 0 {
      TaskLogMembers(rows, task, n - 1);
      assert rows[..n] == rows[..n - 1] + [rows[n - 1]];
    }
  }

  lemma {:induction false} TaskLogOfOwn(events: seq<Event>, task: nat, n: nat)
    requires n <= |events|
    ensures (forall i :: 0 <= i < n ==> events[i].taskId == task) ==> TaskLog(events, task, n) == events[..n]
    ensures (forall i :: 0 <= i < n ==> events[i].taskId != task) ==> TaskLog(events, task, n) == []
  {
    if n > 0 {
      TaskLogOfOwn(events, task, n - 1);
      assert events[..n] == events[..n - 1] + [events[n - 1]];
    }
  }

  lemma {:induction false} NextNumberOfLog(rows: seq<Event>, task: nat, n: nat)
    requires n <= |rows| && IsNumbered(TaskLog(rows, task, n))
    ensures NextNumber(rows, task, n) == |TaskLog(rows, task, n)| + 1
    ensures HasEvents(rows, task, n) <==> TaskLog(rows, task, n) != []
  {
    if n > 0 {
      var before, all := TaskLog(rows, task, n - 1), TaskLog(rows, task, n);
      assert forall i :: 0 <= i < |before| ==> all[i] == before[i];
      assert rows[n - 1].taskId == task ==> all[|before|] == rows[n - 1];
      NextNumberOfLog(rows, task, n - 1);
    }
  }

  // ---- the invariant ----

  /** A counter that starts at first can meet only its own next free number or one already taken. */
  ghost predicate CounterOk(rows: seq<Event>, task: nat, first: int) {
    1 <= first <= |LogOf(rows, task)| + 1
  }

  ghost predicate Consecutive(events: seq<Event>, task: nat, first: int) {
    forall i :: 0 <= i < |events| ==> events[i].taskId == task && events[i].number == first + i
  }

  function First(c: Consumer): int {
    c.next - |c.batch|
  }

  ghost predicate ConsumerOk(rows: seq<Event>, c: Consumer) {
    Consecutive(c.batch, c.task, First(c)) && CounterOk(rows, c.task, First(c))
  }

  ghost predicate AllNumbered(rows: seq<Event>) {
    forall task :: IsNumbered(LogOf(rows, task))
  }

  ghost predicate Inv(s: Log) {
    && KeysUnique(s.rows)
    && AllNumbered(s.rows)
    && (forall c :: c in s.consumers ==> ConsumerOk(s.rows, s.consumers[c]))
    && (forall w :: w in s.held ==> CounterOk(s.rows, s.held[w].task, s.held[w].number))
  }

  /** Events of one task appended under the next numbers extend that task's log and no other. */
  lemma AppendedLog(rows: seq<Event>, events: seq<Event>, task: nat, t: nat)
    requires Consecutive(events, task, |LogOf(rows, task)| + 1) && AllNumbered(rows)
    ensures LogOf(rows + events, t) == LogOf(rows, t) + if t == task then events else []
    ensures IsNumbered(LogOf(rows + events, t))
  {
    TaskLogAppend(rows, events, t, |events|);
    TaskLogOfOwn(events, t, |events|);
    assert events[..|events|] == events;
    assert IsNumbered(LogOf(rows, t));
  }

  lemma Grow(s: Log, events: seq<Event>, task: nat)
    requires Inv(s) && KeysUnique(s.rows + events) && Consecutive(events, task, |LogOf(s.rows, task)| + 1)
    ensures Inv(s.(rows := s.rows + events))
    ensures |LogOf(s.rows + events, task)| == |LogOf(s.rows, task)| + |events|
  {
    hide KeysUnique, Consecutive, TaskLog, IsNumbered;
    forall t
      ensures IsNumbered(LogOf(s.rows + events, t)) && |LogOf(s.rows + events, t)| >= |LogOf(s.rows, t)|
    {
      AppendedLog(s.rows, events, task, t);
    }
    AppendedLog(s.rows, events, task, task);
  }

  /** A batch that was written started exactly at the next free number. */
  lemma WrittenStartsAtEnd(rows: seq<Event>, events: seq<Event>, task: nat, first: int)
    requires AllNumbered(rows) && CounterOk(rows, task, first) && Consecutive(events, task, first) && events != []
    requires KeysUnique(rows + events)
    ensures first == |LogOf(rows, task)| + 1
  {
    if first <= |LogOf(rows, task)| {
      var taken := LogOf(rows, task)[first - 1];
      TaskLogMembers(rows, task, |rows|);
      assert IsNumbered(LogOf(rows, task));
      assert taken in LogOf(rows, task);
      var i :| 0 <= i < |rows| && rows[i] == taken;
      assert Clash((rows + events)[i], (rows + events)[|rows|]);
    }
  }

  lemma WriteKeepsInv(s: Log, events: seq<Event>, task: nat, first: int)
    requires Inv(s) && CounterOk(s.rows, task, first) && Consecutive(events, task, first) && IsWritten(s.rows, events)
    ensures Inv(s.(rows := s.rows + events))
    ensures CounterOk(s.rows + events, task, first + |events|)
  {
    hide KeysUnique, AllNumbered, IsNumbered;
    if events == [] {
      assert s.rows + events == s.rows;
    } else {
      WrittenStartsAtEnd(s.rows, events, task, first);
      Grow(s, events, task);
    }
  }

  lemma FlushKeepsInv(s: Log, c: nat)
    requires Inv(s) && c in s.consumers
    ensures Inv(AfterFlush(s, c))
  {
    hide KeysUnique, AllNumbered, CounterOk, AllSound;
    var me := s.consumers[c];
    assert ConsumerOk(s.rows, me);
    if IsWritten(s.rows, me.batch) {
      WriteKeepsInv(s, me.batch, me.task, First(me));
    }
  }

  lemma OneWriteKeepsInv(s: Log, e: Event)
    requires Inv(s) && CounterOk(s.rows, e.taskId, e.number)
    ensures Inv(s.(rows := Written(s.rows, [e])))
  {
    hide KeysUnique, AllNumbered, CounterOk, AllSound;
    if IsWritten(s.rows, [e]) {
      WriteKeepsInv(s, [e], e.taskId, e.number);
    }
  }

  lemma FreshCounterOk(s: Log, task: nat)
    requires Inv(s)
    ensures CounterOk(s.rows, task, NextNumber(s.rows, task, |s.rows|))
  {
    assert IsNumbered(LogOf(s.rows, task));
    NextNumberOfLog(s.rows, task, |s.rows|);
  }

  lemma StepKeepsInv(s: Log, step: Step)
    requires Inv(s)
    ensures Inv(Next(s, step))
  {
    hide KeysUnique, AllNumbered, CounterOk, Written, NextNumber;
    match step {
      case Open(c, task) => FreshCounterOk(s, task);
      case Receive(c, e) =>
      case Flush(c) => if c in s.consumers { FlushKeepsInv(s, c); }
      case Close(c) =>
      case AutoSeq(e) =>
        FreshCounterOk(s, e.taskId);
        OneWriteKeepsInv(s, e.(number := NextNumber(s.rows, e.taskId, |s.rows|)));
      case AskNext(w, task) => FreshCounterOk(s, task);
      case AppendHeld(w, e) =>
        if w in s.held {
          OneWriteKeepsInv(s, e.(taskId := s.held[w].task, number := s.held[w].number));
        }
    }
  }

  lemma {:induction false} RunKeepsInv(trace: seq<Log>, steps: seq<Step>, n: nat)
    requires IsRun(trace, steps) && n <= |steps|
    ensures Inv(trace[n])
  {
    hide Inv, Next;
    if n == 0 {
      EmptyInv();
    } else {
      RunKeepsInv(trace, steps, n - 1);
      var i, j := n - 1, n;
      assert trace[j] == Next(trace[i], steps[i]);
      StepKeepsInv(trace[i], steps[i]);
    }
  }

  lemma EmptyInv()
    ensures Inv(Log([], map[], map[]))
  {
  }

  /** Rows are only added, at the end. */
  lemma RowsGrow(s: Log, step: Step)
    ensures |s.rows| <= |Next(s, step).rows|
    ensures Next(s, step).rows == s.rows + Next(s, step).rows[|s.rows|..]
  {
    hide KeysUnique, AllSound, NextNumber;
  }

  // ---- what every run guarantees ----

  /** However the writers interleave, every task's persisted numbers are exactly 1..n, in order of insertion, and no
      two rows share a key. */
  lemma NumbersAreContiguous(trace: seq<Log>, steps: seq<Step>, n: nat, task: nat)
    requires IsRun(trace, steps) && n <= |steps|
    ensures IsNumbered(LogOf(trace[n].rows, task)) && KeysUnique(trace[n].rows)
  {
    hide IsRun, KeysUnique, IsNumbered;
    RunKeepsInv(trace, steps, n);
  }

  /** A flush writes its whole batch when nobody else has written to the task since the counter was read, and
      otherwise leaves no trace and ends the consumer. */
  lemma FlushSucceedsIff(s: Log, c: nat)
    requires Inv(s) && c in s.consumers && s.consumers[c].batch != []
    requires AllSound(s.consumers[c].batch) && NewIds(s.rows, s.consumers[c].batch)
    ensures var me, after := s.consumers[c], Next(s, Flush(c));
      if First(me) == |LogOf(s.rows, me.task)| + 1 then
        after.rows == s.rows + me.batch && after.consumers[c].batch == []
      else after.rows == s.rows && c !in after.consumers
  {
    hide AllSound, CounterOk;
    var me := s.consumers[c];
    assert ConsumerOk(s.rows, me);
    if First(me) == |LogOf(s.rows, me.task)| + 1 {
      FreeNumbersFit(s.rows, me.batch, me.task);
    } else if IsWritten(s.rows, me.batch) {
      WrittenStartsAtEnd(s.rows, me.batch, me.task, First(me));
    }
  }

  /** The batch brings ids that no row and no other member of the batch has. */
  ghost predicate NewIds(rows: seq<Event>, events: seq<Event>) {
    && (forall i, j :: 0 <= i < |rows| && 0 <= j < |events| ==> rows[i].id != events[j].id)
    && (forall i, j :: 0 <= i < j < |events| ==> events[i].id != events[j].id)
  }

  lemma FreeNumbersFit(rows: seq<Event>, events: seq<Event>, task: nat)
    requires KeysUnique(rows) && AllNumbered(rows) && Consecutive(events, task, |LogOf(rows, task)| + 1)
    requires NewIds(rows, events)
    ensures KeysUnique(rows + events)
  {
    TaskLogMembers(rows, task, |rows|);
    assert rows[..|rows|] == rows;
    assert IsNumbered(LogOf(rows, task));
    forall i, j | 0 <= i < |rows| && 0 <= j < |events|
      ensures !Clash(rows[i], events[j])
    {
      if rows[i].taskId == task {
        assert rows[i] in LogOf(rows, task);
      }
    }
    forall i, j | 0 <= i < j < |rows + events|
      ensures !Clash((rows + events)[i], (rows + events)[j])
    {
    }
  }

  // ---- replay ----

  /** Replaying from a watermark gives exactly the rest of the task's log. */
  lemma ListingIsSuffix(rows: seq<Event>, task: nat, since: nat)
    requires IsNumbered(LogOf(rows, task))
    ensures Listed(rows, task, since, |rows|) == if since <= |LogOf(rows, task)| then LogOf(rows, task)[since..] else []
  {
    ListedOfNumbered(rows, task, since, |rows|);
  }

  lemma {:induction false} ListedOfNumbered(rows: seq<Event>, task: nat, since: nat, n: nat)
    requires n <= |rows| && IsNumbered(TaskLog(rows, task, n))
    ensures var log := TaskLog(rows, task, n);
      Listed(rows, task, since, n) == if since <= |log| then log[since..] else []
  {
    if n > 0 {
      var before, all := TaskLog(rows, task, n - 1), TaskLog(rows, task, n);
      assert forall i :: 0 <= i < |before| ==> all[i] == before[i];
      ListedOfNumbered(rows, task, since, n - 1);
      if rows[n - 1].taskId == task {
        assert all[|before|] == rows[n - 1];
        if since <= |before| {
          assert all[since..] == before[since..] + [rows[n - 1]];
        }
      }
    }
  }
}
