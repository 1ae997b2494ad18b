/** What the event log holds besides its numbers: the events that were handed in, unchanged and in order
    (sidecar/internal/orchestrator/orchestrator.go, consumeEvents; sidecar/internal/store/event_store.go). */
module EventContents {
  import opened Text
  import opened EventStore
  import opened EventLog

  /** Task and number are the log's to give; the rest of an event is its own. */
  ghost predicate SameContent(e: Event, x: Event) {
    e.id == x.id && e.kind == x.kind && e.payload == x.payload
  }

  /** Receiving an event queues it behind those the consumer holds, under its task and its next number, and writes
      nothing yet. */
  lemma ReceiveQueues(s: Log, c: nat, e: Event)
    requires c in s.consumers
    ensures var was, after := s.consumers[c], Next(s, Receive(c, e));
      && after.rows == s.rows && after.held == s.held && after.consumers.Keys == s.consumers.Keys
      && (forall other :: other in s.consumers && other != c ==> after.consumers[other] == s.consumers[other])
      && var now := after.consumers[c];
      && now.task == was.task && now.next == was.next + 1 && |now.batch| == |was.batch| + 1
      && now.batch[..|was.batch|] == was.batch
      && SameContent(e, now.batch[|was.batch|])
      && now.batch[|was.batch|].taskId == was.task && now.batch[|was.batch|].number == was.next
  {
  }

  /** What a step adds to the log: a flush its consumer's whole batch in order, a single write its event under the task
      it names or the number its writer holds; each as a whole or not at all, and no other step anything. */
  ghost predicate IsAddedBy(s: Log, step: Step, added: seq<Event>) {
    || added == []
    || (step.Flush? && step.c in s.consumers && added == s.consumers[step.c].batch)
    || (step.AutoSeq? && |added| == 1 && SameContent(step.e, added[0]) && added[0].taskId == step.e.taskId)
    || (step.AppendHeld? && step.w in s.held && |added| == 1 && SameContent(step.e, added[0])
        && added[0].taskId == s.held[step.w].task && added[0].number == s.held[step.w].number)
  }

  lemma WrittenAdds(rows: seq<Event>, events: seq<Event>) returns (added: seq<Event>)
    ensures Written(rows, events) == rows + added && (added == [] || added == events)
  {
    if IsWritten(rows, events) {
      added := events;
    } else {
      added := [];
      assert rows + [] == rows;
    }
  }

  lemma StepAdds(s: Log, step: Step) returns (added: seq<Event>)
    ensures Next(s, step).rows == s.rows + added && IsAddedBy(s, step, added)
  {
    hide IsWritten, Written;
    match step {
      case Flush(c) =>
        if c in s.consumers {
          added := FlushAdds(s, c);
        } else {
          added := [];
        }
      case AutoSeq(e) =>
        added := WrittenAdds(s.rows, [e.(number := NextNumber(s.rows, e.taskId, |s.rows|))]);
      case AppendHeld(w, e) =>
        if w in s.held {
          added := WrittenAdds(s.rows, [e.(taskId := s.held[w].task, number := s.held[w].number)]);
        } else {
          added := [];
        }
      case _ => added := [];
    }
  }

  lemma FlushAdds(s: Log, c: nat) returns (added: seq<Event>)
    requires c in s.consumers
    ensures AfterFlush(s, c).rows == s.rows + added && (added == [] || added == s.consumers[c].batch)
  {
    added := if IsWritten(s.rows, s.consumers[c].batch) then s.consumers[c].batch else [];
  }

  // ---- nothing is invented ----

  /** The step hands in an event of that content. */
  ghost predicate HandsIn(step: Step, x: Event) {
    (step.Receive? || step.AutoSeq? || step.AppendHeld?) && SameContent(step.e, x)
  }

  ghost predicate HandedIn(steps: seq<Step>, n: nat, x: Event)
    requires n <= |steps|
  {
    exists i :: 0 <= i < n && HandsIn(steps[i], x)
  }

  ghost predicate AllHandedIn(steps: seq<Step>, n: nat, events: seq<Event>)
    requires n <= |steps|
  {
    forall x :: x in events ==> HandedIn(steps, n, x)
  }

  ghost predicate Accounted(steps: seq<Step>, n: nat, s: Log)
    requires n <= |steps|
  {
    && AllHandedIn(steps, n, s.rows)
    && forall c :: c in s.consumers ==> AllHandedIn(steps, n, s.consumers[c].batch)
  }

  lemma StillHandedIn(steps: seq<Step>, n: nat, events: seq<Event>)
    requires n < |steps| && AllHandedIn(steps, n, events)
    ensures AllHandedIn(steps, n + 1, events)
  {
    forall x | x in events ensures HandedIn(steps, n + 1, x) {
      assert HandedIn(steps, n, x);
    }
  }

  lemma BatchesAccounted(steps: seq<Step>, n: nat, s: Log)
    requires n < |steps| && Accounted(steps, n, s)
    ensures forall c :: c in Next(s, steps[n]).consumers ==>
      AllHandedIn(steps, n + 1, Next(s, steps[n]).consumers[c].batch)
  {
    hide AllHandedIn, HandedIn, Written, IsWritten;
    var after := Next(s, steps[n]);
    forall c | c in after.consumers ensures AllHandedIn(steps, n + 1, after.consumers[c].batch) {
      EmptyHandedIn(steps, n + 1);
      if c in s.consumers {
        StillHandedIn(steps, n, s.consumers[c].batch);
        if steps[n].Receive? && steps[n].c == c {
          ReceiveQueues(s, c, steps[n].e);
          ReceivedHandedIn(steps, n, s.consumers[c].batch, after.consumers[c].batch);
        }
      }
    }
  }

  lemma EmptyHandedIn(steps: seq<Step>, n: nat)
    requires n <= |steps|
    ensures AllHandedIn(steps, n, [])
  {
  }

  lemma ReceivedHandedIn(steps: seq<Step>, n: nat, before: seq<Event>, after: seq<Event>)
    requires n < |steps| && steps[n].Receive? && AllHandedIn(steps, n + 1, before)
    requires |after| == |before| + 1 && after[..|before|] == before && SameContent(steps[n].e, after[|before|])
    ensures AllHandedIn(steps, n + 1, after)
  {
    forall x | x in after ensures HandedIn(steps, n + 1, x) {
      if x == after[|before|] {
        assert HandsIn(steps[n], x);
      } else {
        assert after == after[..|before|] + [after[|before|]];
        assert x in before;
      }
    }
  }

  lemma RowsAccounted(steps: seq<Step>, n: nat, s: Log)
    requires n < |steps| && Accounted(steps, n, s)
    ensures AllHandedIn(steps, n + 1, Next(s, steps[n]).rows)
  {
    hide Next, HandedIn;
    var added := StepAdds(s, steps[n]);
    StillHandedIn(steps, n, s.rows);
    if steps[n].Flush? && steps[n].c in s.consumers {
      StillHandedIn(steps, n, s.consumers[steps[n].c].batch);
    } else {
      forall x | x in added ensures HandedIn(steps, n + 1, x) {
        HandedInNow(steps, n, x);
      }
    }
  }

  lemma HandedInNow(steps: seq<Step>, n: nat, x: Event)
    requires n < |steps|
    ensures HandsIn(steps[n], x) ==> HandedIn(steps, n + 1, x)
  {
    hide HandsIn;
  }

  lemma {:induction false} RunAccounts(trace: seq<Log>, steps: seq<Step>, n: nat)
    requires IsRun(trace, steps) && n <= |steps|
    ensures Accounted(steps, n, trace[n])
  {
    hide Next, AllHandedIn;
    if n == 0 {
      EmptyHandedIn(steps, 0);
    } else {
      RunAccounts(trace, steps, n - 1);
      var i, j := n - 1, n;
      assert trace[j] == Next(trace[i], steps[i]);
      RowsAccounted(steps, n - 1, trace[n - 1]);
      BatchesAccounted(steps, n - 1, trace[n - 1]);
    }
  }

  /** However the writers interleave, every row of the log has the id, the kind and the payload of an event that some
      writer handed in before. */
  lemma NothingIsInvented(trace: seq<Log>, steps: seq<Step>, n: nat, x: Event)
    requires IsRun(trace, steps) && n <= |steps| && x in trace[n].rows
    ensures exists i :: 0 <= i < n && HandsIn(steps[i], x)
  {
    hide Next, IsRun, HandsIn;
    assert |trace| == |steps| + 1 by { RunLength(trace, steps); }
    RunAccounts(trace, steps, n);
    assert HandedIn(steps, n, x);
  }

  lemma RunLength(trace: seq<Log>, steps: seq<Step>)
    requires IsRun(trace, steps)
    ensures |trace| == |steps| + 1
  {
  }
}
