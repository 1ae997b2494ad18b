/** Archiving a task's events while writers are at work on it (sidecar/internal/reaper/service.go). */
module Archival {
  import opened EventStore
  import opened EventLog

  function Archived(s: Log, task: nat): Log {
    s.(rows := Without(s.rows, task, |s.rows|))
  }

  /** No writer of the task holds a number past 1, unless its buffered events cannot be written anyway: one of them is
      invalid or brings an id that is taken. */
  ghost predicate NoLiveCounter(s: Log, task: nat) {
    && (forall c :: c in s.consumers && s.consumers[c].task == task ==>
          First(s.consumers[c]) == 1 || !IsWritten(Archived(s, task).rows, s.consumers[c].batch))
    && (forall w :: w in s.held && s.held[w].task == task ==> s.held[w].number == 1)
  }

  /** Every run from s on keeps every task's numbers at 1..n. */
  ghost predicate StaysNumbered(s: Log) {
    forall trace: seq<Log>, steps: seq<Step> ::
      Follows(trace, steps) && trace[0] == s ==> AllNumbered(trace[|steps|].rows)
  }

  // ---- an invariant that a doomed consumer does not break ----

  /** The counter matters only while the buffered events can still be written. */
  ghost predicate WriterOk(rows: seq<Event>, c: Consumer) {
    && Consecutive(c.batch, c.task, First(c)) && First(c) >= 1
    && (IsWritten(rows, c.batch) ==> CounterOk(rows, c.task, First(c)))
  }

  ghost predicate WeakInv(s: Log) {
    && KeysUnique(s.rows)
    && AllNumbered(s.rows)
    && (forall c :: c in s.consumers ==> WriterOk(s.rows, s.consumers[c]))
    && (forall w :: w in s.held ==> CounterOk(s.rows, s.held[w].task, s.held[w].number))
  }

  lemma InvIsWeak(s: Log)
    requires Inv(s)
    ensures WeakInv(s)
  {
    hide KeysUnique, AllNumbered, Consecutive, LogOf, IsWritten;
    forall c | c in s.consumers
      ensures WriterOk(s.rows, s.consumers[c])
    {
      assert ConsumerOk(s.rows, s.consumers[c]);
    }
  }

  ghost predicate IsDoomed(s: Log, c: nat) {
    c in s.consumers && !IsWritten(s.rows, s.consumers[c].batch)
  }

  /** The log without its doomed consumers. */
  ghost function Live(s: Log): Log {
    s.(consumers := map c | c in s.consumers && !IsDoomed(s, c) :: s.consumers[c])
  }

  lemma LiveInv(s: Log)
    requires WeakInv(s)
    ensures Inv(Live(s))
  {
    hide KeysUnique, AllNumbered, Consecutive, LogOf, IsWritten, CounterOk;
    forall c | c in Live(s).consumers
      ensures ConsumerOk(s.rows, Live(s).consumers[c])
    {
      assert WriterOk(s.rows, s.consumers[c]);
    }
  }

  ghost predicate Concerns(step: Step, c: nat) {
    match step
    case Open(x, _) => x == c
    case Receive(x, _) => x == c
    case Flush(x) => x == c
    case Close(x) => x == c
    case _ => false
  }

  ghost predicate ForDoomed(s: Log, step: Step) {
    exists c :: IsDoomed(s, c) && Concerns(step, c)
  }

  /** More rows or a longer buffer do not save a doomed consumer. */
  lemma StaysUnwritten(rows: seq<Event>, more: seq<Event>, batch: seq<Event>, late: seq<Event>)
    requires IsWritten(rows + more, batch + late)
    ensures IsWritten(rows, batch)
  {
    hide EventFault;
    var all := (rows + more) + (batch + late);
    assert forall i :: 0 <= i < |batch| ==> (batch + late)[i] == batch[i];
    forall i, j | 0 <= i < j < |rows + batch|
      ensures !Clash((rows + batch)[i], (rows + batch)[j])
    {
      var x, y := if i < |rows| then i else i + |more|, if j < |rows| then j else j + |more|;
      assert all[x] == (rows + batch)[i] && all[y] == (rows + batch)[j];
      assert !Clash(all[x], all[y]);
    }
  }

  lemma DoomedReceives(rows: seq<Event>, me: Consumer, e: Event)
    requires WriterOk(rows, me) && !IsWritten(rows, me.batch)
    ensures WriterOk(rows, Consumer(me.task, me.next + 1, me.batch + [e.(taskId := me.task, number := me.next)]))
  {
    hide IsWritten, CounterOk;
    var numbered := e.(taskId := me.task, number := me.next);
    assert rows + [] == rows;
    if IsWritten(rows, me.batch + [numbered]) {
      StaysUnwritten(rows, [], me.batch, [numbered]);
    }
  }

  lemma DoomedStep(s: Log, step: Step)
    requires WeakInv(s) && ForDoomed(s, step)
    ensures WeakInv(Next(s, step))
  {
    hide KeysUnique, AllNumbered, WriterOk, CounterOk, IsWritten, NextNumber;
    if step.Receive? {
      DoomedReceives(s.rows, s.consumers[step.c], step.e);
    }
  }

  lemma LiveStep(s: Log, step: Step)
    requires !ForDoomed(s, step)
    ensures Next(Live(s), step).rows == Next(s, step).rows && Next(Live(s), step).held == Next(s, step).held
    ensures forall c :: c in Next(s, step).consumers && !IsDoomed(s, c) ==>
      c in Next(Live(s), step).consumers && Next(Live(s), step).consumers[c] == Next(s, step).consumers[c]
    ensures forall c :: c in Next(s, step).consumers && IsDoomed(s, c) ==> Next(s, step).consumers[c] == s.consumers[c]
  {
    hide IsWritten, NextNumber, Written;
    assert forall c :: IsDoomed(s, c) ==> !Concerns(step, c);
  }

  lemma DoomedStays(rows: seq<Event>, after: seq<Event>, me: Consumer)
    requires WriterOk(rows, me) && !IsWritten(rows, me.batch) && |rows| <= |after| && after == rows + after[|rows|..]
    ensures WriterOk(after, me)
  {
    hide IsWritten, CounterOk, Consecutive;
    assert me.batch + [] == me.batch;
    if IsWritten(after, me.batch) {
      StaysUnwritten(rows, after[|rows|..], me.batch, []);
    }
  }

  lemma WeakStep(s: Log, step: Step)
    requires WeakInv(s)
    ensures WeakInv(Next(s, step))
  {
    hide KeysUnique, AllNumbered, WriterOk, CounterOk, Next, IsDoomed, ForDoomed, Live;
    if ForDoomed(s, step) {
      DoomedStep(s, step);
    } else {
      var after := Next(s, step);
      LiveInv(s);
      LiveStep(s, step);
      StepKeepsInv(Live(s), step);
      InvIsWeak(Next(Live(s), step));
      RowsGrow(s, step);
      forall c | c in after.consumers
        ensures WriterOk(after.rows, after.consumers[c])
      {
        if IsDoomed(s, c) {
          DoomedIsDoomed(s, c);
          DoomedStays(s.rows, after.rows, s.consumers[c]);
        }
      }
    }
  }

  lemma DoomedIsDoomed(s: Log, c: nat)
    requires WeakInv(s) && IsDoomed(s, c)
    ensures c in s.consumers && WriterOk(s.rows, s.consumers[c]) && !IsWritten(s.rows, s.consumers[c].batch)
  {
  }

  lemma {:induction false} WeakRun(trace: seq<Log>, steps: seq<Step>, n: nat)
    requires Follows(trace, steps) && WeakInv(trace[0]) && n <= |steps|
    ensures WeakInv(trace[n])
  {
    hide WeakInv, Next;
    if n > 0 {
      WeakRun(trace, steps, n - 1);
      var i, j := n - 1, n;
      assert trace[j] == Next(trace[i], steps[i]);
      WeakStep(trace[i], steps[i]);
    }
  }

  // ---- a harmless archival ----

  lemma LogSnoc(rows: seq<Event>, e: Event, t: nat)
    ensures LogOf(rows + [e], t) == LogOf(rows, t) + if e.taskId == t then [e] else []
  {
    TaskLogPrefix(rows, [e], t, |rows|);
  }

  lemma {:induction false} WithoutLog(rows: seq<Event>, task: nat, t: nat, n: nat)
    requires n <= |rows|
    ensures LogOf(Without(rows, task, n), t) == if t == task then [] else TaskLog(rows, t, n)
  {
    if n > 0 {
      WithoutLog(rows, task, t, n - 1);
      var before, e := Without(rows, task, n - 1), rows[n - 1];
      if e.taskId == task {
        assert Without(rows, task, n) == before;
      } else {
        assert Without(rows, task, n) == before + [e];
        LogSnoc(before, e, t);
      }
    }
  }

  /** The archived task's log is empty and every other as it was. */
  lemma ArchivedRows(s: Log, task: nat)
    requires KeysUnique(s.rows) && AllNumbered(s.rows)
    ensures KeysUnique(Archived(s, task).rows) && AllNumbered(Archived(s, task).rows)
    ensures forall t :: LogOf(Archived(s, task).rows, t) == if t == task then [] else LogOf(s.rows, t)
  {
    hide KeysUnique, TaskLog, Without;
    WithoutKeepsKeys(s.rows, task, |s.rows|);
    forall t
      ensures LogOf(Archived(s, task).rows, t) == if t == task then [] else LogOf(s.rows, t)
      ensures IsNumbered(LogOf(Archived(s, task).rows, t))
    {
      WithoutLog(s.rows, task, t, |s.rows|);
      assert IsNumbered(LogOf(s.rows, t));
    }
  }

  lemma HarmlessArchival(s: Log, task: nat)
    requires Inv(s) && NoLiveCounter(s, task)
    ensures WeakInv(Archived(s, task))
  {
    hide KeysUnique, AllNumbered, LogOf, IsWritten, Consecutive, Without;
    var after := Archived(s, task);
    ArchivedRows(s, task);
    forall c | c in s.consumers
      ensures WriterOk(after.rows, s.consumers[c])
    {
      assert ConsumerOk(s.rows, s.consumers[c]);
    }
  }

  // ---- a harmful one ----

  function FreshId(events: seq<Event>): nat {
    if events == [] then 1
    else
      var rest := FreshId(events[..|events| - 1]);
      if events[|events| - 1].id < rest then rest else events[|events| - 1].id + 1
  }

  lemma {:induction false} FreshIdIsNew(events: seq<Event>)
    ensures FreshId(events) > 0 && forall i :: 0 <= i < |events| ==> events[i].id < FreshId(events)
  {
    if events != [] {
      FreshIdIsNew(events[..|events| - 1]);
    }
  }

  /** An event that the table accepts behind the given ones. */
  function NextEvent(events: seq<Event>, task: nat, number: int): Event {
    Event(FreshId(events), task, number, Landmark, "")
  }

  lemma NextEventFits(rows: seq<Event>, batch: seq<Event>, task: nat, number: int)
    requires task != 0 && IsWritten(rows, batch)
    requires forall i :: 0 <= i < |rows + batch| && (rows + batch)[i].taskId == task ==>
      (rows + batch)[i].number != number
    ensures IsWritten(rows, batch + [NextEvent(rows + batch, task, number)])
  {
    hide KeysUnique, FreshId;
    var all, e := rows + batch, NextEvent(rows + batch, task, number);
    FreshIdIsNew(all);
    KeysUniqueSnoc(all, e);
    assert rows + (batch + [e]) == all + [e];
  }

  lemma WithoutTask(rows: seq<Event>, task: nat)
    requires KeysUnique(rows)
    ensures forall i :: 0 <= i < |Without(rows, task, |rows|)| ==> Without(rows, task, |rows|)[i].taskId != task
  {
    WithoutKeepsKeys(rows, task, |rows|);
    assert forall x :: x in Without(rows, task, |rows|) ==> x.taskId != task;
  }

  /** Events written to the archived task that do not start at 1 leave its log unnumbered. */
  lemma GapAfterArchival(s: Log, task: nat, batch: seq<Event>, after: Log)
    requires KeysUnique(s.rows) && batch != [] && batch[0].number != 1
    requires forall i :: 0 <= i < |batch| ==> batch[i].taskId == task
    requires after.rows == Archived(s, task).rows + batch
    ensures !AllNumbered(after.rows)
  {
    hide KeysUnique, Without;
    var rows := Archived(s, task).rows;
    WithoutLog(s.rows, task, task, |s.rows|);
    TaskLogAppend(rows, batch, task, |batch|);
    TaskLogOfOwn(batch, task, |batch|);
    assert batch[..|batch|] == batch;
    assert LogOf(after.rows, task) == batch;
    assert !IsNumbered(batch);
  }

  lemma ConsumerGap(s: Log, task: nat, c: nat) returns (trace: seq<Log>, steps: seq<Step>)
    requires Inv(s) && task != 0 && c in s.consumers && s.consumers[c].task == task && First(s.consumers[c]) != 1
    requires IsWritten(Archived(s, task).rows, s.consumers[c].batch)
    ensures Follows(trace, steps) && trace[0] == Archived(s, task) && !AllNumbered(trace[|steps|].rows)
  {
    hide IsWritten, Without, CounterOk, AllNumbered, FreshId, KeysUnique;
    var start, me := Archived(s, task), s.consumers[c];
    assert ConsumerOk(s.rows, me);
    WithoutTask(s.rows, task);
    var e := NextEvent(start.rows + me.batch, task, me.next);
    NextEventFits(start.rows, me.batch, task, me.next);
    var received := Next(start, Receive(c, e));
    var flushed := Next(received, Flush(c));
    assert received.consumers[c].batch == me.batch + [e];
    GapAfterArchival(s, task, me.batch + [e], flushed);
    trace, steps := [start, received, flushed], [Receive(c, e), Flush(c)];
  }

  lemma HeldGap(s: Log, task: nat, w: nat) returns (trace: seq<Log>, steps: seq<Step>)
    requires Inv(s) && task != 0 && w in s.held && s.held[w].task == task && s.held[w].number != 1
    ensures Follows(trace, steps) && trace[0] == Archived(s, task) && !AllNumbered(trace[|steps|].rows)
  {
    hide Without, CounterOk, AllNumbered, FreshId, KeysUnique;
    var start, number := Archived(s, task), s.held[w].number;
    WithoutTask(s.rows, task);
    WithoutKeepsKeys(s.rows, task, |s.rows|);
    assert start.rows + [] == start.rows;
    var e := NextEvent(start.rows + [], task, number);
    NextEventFits(start.rows, [], task, number);
    var appended := Next(start, AppendHeld(w, e));
    assert [] + [e] == [e];
    GapAfterArchival(s, task, [e], appended);
    trace, steps := [start, appended], [AppendHeld(w, e)];
  }

  // ---- the exact condition ----

  /** After a task is archived, every possible continuation keeps every log at 1..n exactly when no live counter of the
      task is past 1. */
  lemma ArchivalStaysNumberedIff(s: Log, task: nat)
    requires Inv(s) && task != 0
    ensures StaysNumbered(Archived(s, task)) <==> NoLiveCounter(s, task)
  {
    hide Inv, WeakInv, Next, AllNumbered, IsWritten, Archived, First;
    if NoLiveCounter(s, task) {
      HarmlessArchival(s, task);
      forall trace: seq<Log>, steps: seq<Step> | Follows(trace, steps) && trace[0] == Archived(s, task)
        ensures AllNumbered(trace[|steps|].rows)
      {
        WeakRun(trace, steps, |steps|);
        WeakIsNumbered(trace[|steps|]);
      }
    } else {
      HarmfulArchival(s, task);
    }
  }

  lemma WeakIsNumbered(s: Log)
    requires WeakInv(s)
    ensures AllNumbered(s.rows)
  {
  }

  lemma HarmfulArchival(s: Log, task: nat)
    requires Inv(s) && task != 0 && !NoLiveCounter(s, task)
    ensures !StaysNumbered(Archived(s, task))
  {
    hide Inv, WeakInv, Next, AllNumbered, IsWritten, Archived, First;
    if c :| c in s.consumers && s.consumers[c].task == task
            && !(First(s.consumers[c]) == 1 || !IsWritten(Archived(s, task).rows, s.consumers[c].batch)) {
      var trace, steps := ConsumerGap(s, task, c);
      assert !AllNumbered(trace[|steps|].rows);
    } else {
      var w :| w in s.held && s.held[w].task == task && s.held[w].number != 1;
      var trace, steps := HeldGap(s, task, w);
      assert !AllNumbered(trace[|steps|].rows);
    }
  }

  /** It happens: a task with one event, a consumer that has read the counter, an archival; the next event is 2. */
  lemma ArchivalCanLeaveGap() returns (trace: seq<Log>, steps: seq<Step>)
    ensures IsRun(trace, steps) && trace[|steps|].rows != []
    ensures !StaysNumbered(Archived(trace[|steps|], 1))
  {
    hide StaysNumbered;
    var e := Event(1, 1, 0, Landmark, "");
    var none: seq<Event> := [];
    var empty := Log(none, map[], map[]);
    assert NextNumber(none, 1, 0) == 1;
    var row := e.(number := 1);
    assert none + [row] == [row] && EventFault(row).None?;
    var written := Next(empty, AutoSeq(e));
    assert written.rows == [row];
    var open := Next(written, Open(0, 1));
    assert NextNumber([row], 1, 0) == 1;
    assert NextNumber([row], 1, 1) == 2;
    trace, steps := [empty, written, open], [AutoSeq(e), Open(0, 1)];
    assert Follows(trace, steps);
    RunKeepsInv(trace, steps, 2);
    assert First(open.consumers[0]) == 2;
    assert Without([row], 1, 1) == Without([row], 1, 0) + [];
    assert Archived(open, 1).rows == none && none + none == none;
    assert !NoLiveCounter(open, 1);
    ArchivalStaysNumberedIff(open, 1);
  }
}
