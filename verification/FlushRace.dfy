/** When the cached counter of a consumer is still current (sidecar/internal/orchestrator/orchestrator.go,
    consumeEvents): over a whole run, from the moment the counter was read. */
module FlushRace {
  import opened EventStore
  import opened EventLog

  /** Consumer c read its counter for the task in step i and has been alive ever since. */
  ghost predicate IsOpenSince(trace: seq<Log>, steps: seq<Step>, c: nat, task: nat, i: nat, n: nat) {
    && IsRun(trace, steps) && i < n <= |steps|
    && steps[i] == Open(c, task) && c !in trace[i].consumers
    && forall k :: i < k <= n ==> c in trace[k].consumers
  }

  /** Step k, made by somebody else, added to the task's log. */
  ghost predicate OtherWrote(trace: seq<Log>, steps: seq<Step>, c: nat, task: nat, k: nat)
    requires k < |steps| < |trace|
  {
    steps[k] != Flush(c) && LogOf(trace[k + 1].rows, task) != LogOf(trace[k].rows, task)
  }

  /** How far the log has run ahead of the number the buffered events start at. */
  ghost function Lag(s: Log, c: nat, task: nat): int
    requires c in s.consumers
  {
    |LogOf(s.rows, task)| + 1 - First(s.consumers[c])
  }

  lemma StepOfLog(trace: seq<Log>, steps: seq<Step>, k: nat)
    requires Follows(trace, steps) && k < |steps|
    ensures |trace| == |steps| + 1 && trace[k + 1] == Next(trace[k], steps[k])
  {
    hide Next;
    var j := k + 1;
    var to := trace[j];
  }

  lemma OpenedCurrent(s: Log, c: nat, task: nat)
    requires Inv(s) && c !in s.consumers
    ensures var after := Next(s, Open(c, task));
      && c in after.consumers && after.consumers[c].task == task && Lag(after, c, task) == 0
  {
    assert IsNumbered(LogOf(s.rows, task));
    NextNumberOfLog(s.rows, task, |s.rows|);
  }

  /** The log of a task only grows, at its end. */
  lemma LogExtends(s: Log, step: Step, task: nat)
    ensures var before, after := LogOf(s.rows, task), LogOf(Next(s, step).rows, task);
      |before| <= |after| && (|before| == |after| <==> before == after)
  {
    hide Next, TaskLog;
    RowsGrow(s, step);
    var more := Next(s, step).rows[|s.rows|..];
    TaskLogAppend(s.rows, more, task, |more|);
  }

  /** Its own flush leaves a surviving consumer where it was: what it wrote is what it no longer holds. */
  lemma OwnFlush(s: Log, c: nat, task: nat)
    requires Inv(s) && c in s.consumers && s.consumers[c].task == task && c in Next(s, Flush(c)).consumers
    ensures var after := Next(s, Flush(c)); after.consumers[c].task == task && Lag(after, c, task) == Lag(s, c, task)
  {
    hide IsNumbered, KeysUnique, AllSound, TaskLog, NextNumber;
    var me := s.consumers[c];
    assert ConsumerOk(s.rows, me);
    if me.batch == [] {
      assert s.rows + me.batch == s.rows;
    } else {
      WrittenStartsAtEnd(s.rows, me.batch, task, First(me));
      AppendedLog(s.rows, me.batch, task, task);
    }
  }

  lemma OtherStep(s: Log, step: Step, c: nat, task: nat)
    requires c in s.consumers && s.consumers[c].task == task && step != Flush(c) && c in Next(s, step).consumers
    ensures var after := Next(s, step);
      && after.consumers[c].task == task
      && Lag(after, c, task) == Lag(s, c, task) + |LogOf(after.rows, task)| - |LogOf(s.rows, task)|
  {
    hide NextNumber, Written, IsWritten, LogOf;
  }

  /** The lag is nonnegative, and zero exactly while nobody else has written. */
  lemma {:induction false} LagIff(trace: seq<Log>, steps: seq<Step>, c: nat, task: nat, i: nat, n: nat)
    requires IsOpenSince(trace, steps, c, task, i, n)
    ensures |trace| == |steps| + 1 && trace[n].consumers[c].task == task && Lag(trace[n], c, task) >= 0
    ensures Lag(trace[n], c, task) == 0 <==> forall k :: i < k < n ==> !OtherWrote(trace, steps, c, task, k)
    decreases n
  {
    hide Next, LogOf, Lag, Inv;
    StepOfLog(trace, steps, n - 1);
    RunKeepsInv(trace, steps, n - 1);
    if n == i + 1 {
      OpenedCurrent(trace[i], c, task);
    } else {
      LagIff(trace, steps, c, task, i, n - 1);
      LagStep(trace[n - 1], steps[n - 1], c, task);
      assert OtherWrote(trace, steps, c, task, n - 1) <==>
        steps[n - 1] != Flush(c) && LogOf(trace[n].rows, task) != LogOf(trace[n - 1].rows, task);
    }
  }

  lemma LagStep(s: Log, step: Step, c: nat, task: nat)
    requires Inv(s) && c in s.consumers && s.consumers[c].task == task && c in Next(s, step).consumers
    requires Lag(s, c, task) >= 0
    ensures var after := Next(s, step);
      && after.consumers[c].task == task && Lag(after, c, task) >= 0
      && (Lag(after, c, task) == 0 <==>
            Lag(s, c, task) == 0 && (step == Flush(c) || LogOf(after.rows, task) == LogOf(s.rows, task)))
  {
    hide Next, LogOf, Lag, Inv;
    if step == Flush(c) {
      OwnFlush(s, c, task);
    } else {
      OtherStep(s, step, c, task);
      LogExtends(s, step, task);
    }
  }

  /** A buffer of valid events with new ids is written exactly when nobody else has written to the task since the
      counter was read; otherwise the flush leaves no trace and ends the consumer. */
  lemma FlushSucceedsUnlessOthersWrote(trace: seq<Log>, steps: seq<Step>, c: nat, task: nat, i: nat, n: nat)
    requires IsOpenSince(trace, steps, c, task, i, n) && trace[n].consumers[c].batch != []
    requires AllSound(trace[n].consumers[c].batch) && NewIds(trace[n].rows, trace[n].consumers[c].batch)
    ensures |trace| == |steps| + 1
    ensures var me, after := trace[n].consumers[c], Next(trace[n], Flush(c));
      if forall k :: i < k < n ==> !OtherWrote(trace, steps, c, task, k) then
        after.rows == trace[n].rows + me.batch && after.consumers[c].batch == []
      else after.rows == trace[n].rows && c !in after.consumers
  {
    hide Next, LogOf, Inv, AllSound, NewIds, OtherWrote;
    LagIff(trace, steps, c, task, i, n);
    RunKeepsInv(trace, steps, n);
    FlushSucceedsIff(trace[n], c);
  }
}
