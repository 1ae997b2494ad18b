/** The append-only event table (sidecar/internal/store/event_store.go). */
module EventStore {
  import opened Text

  /** Assistant deltas are buffered before they are written; every other kind is written at once. */
  datatype EventKind = Delta | Landmark | Unknown

  /** An event row. Id 0 and task 0 stand for the empty text; number is the seq column. */
  datatype Event = Event(id: nat, taskId: nat, number: int, kind: EventKind, payload: string)

  datatype EventError = NoId | NoTask | BadKind | DuplicateSeq

  const APPEND_BATCH_CHUNK_SIZE: nat := 1000

  function EventFault(e: Event): (fault: Option<EventError>)
    ensures fault == None <==> e.id != 0 && e.taskId != 0 && e.kind != Unknown
  {
    if e.id == 0 then Some(NoId)
    else if e.taskId == 0 then Some(NoTask)
    else if e.kind == Unknown then Some(BadKind)
    else None
  }

  ghost predicate AllSound(events: seq<Event>) {
    forall i :: 0 <= i < |events| ==> EventFault(events[i]) == None
  }

  /** Both rows cannot be in the table: PRIMARY KEY(id) and UNIQUE(task_id, seq). */
  predicate Clash(a: Event, b: Event) {
    a.id == b.id || (a.taskId == b.taskId && a.number == b.number)
  }

  ghost predicate KeysUnique(rows: seq<Event>) {
    forall i, j :: 0 <= i < j < |rows| ==> !Clash(rows[i], rows[j])
  }

  ghost predicate Fits(rows: seq<Event>, e: Event) {
    forall i :: 0 <= i < |rows| ==> !Clash(rows[i], e)
  }

  lemma KeysUniqueSnoc(rows: seq<Event>, e: Event)
    requires KeysUnique(rows)
    ensures KeysUnique(rows + [e]) <==> Fits(rows, e)
  {
    var all := rows + [e];
    assert forall i :: 0 <= i < |rows| ==> all[i] == rows[i];
    if KeysUnique(all) {
      forall i | 0 <= i < |rows| ensures !Clash(rows[i], e) { assert !Clash(all[i], all[|rows|]); }
    }
  }

  lemma KeysUniquePrefix(rows: seq<Event>, more: seq<Event>)
    requires KeysUnique(rows + more)
    ensures KeysUnique(rows)
  {
    var all := rows + more;
    assert forall i :: 0 <= i < |rows| ==> all[i] == rows[i];
  }

  // ---- the queries ----

  predicate HasEvents(rows: seq<Event>, task: nat, n: nat)
    requires n <= |rows|
  {
    exists i :: 0 <= i < n && rows[i].taskId == task
  }

  /** MAX(seq) + 1 over the first n rows of the task, 1 when there are none. */
  function NextNumber(rows: seq<Event>, task: nat, n: nat): int
    requires n <= |rows|
  {
    if n == 0 then 1
    else
      var next := NextNumber(rows, task, n - 1);
      var e := rows[n - 1];
      if e.taskId == task && (!HasEvents(rows, task, n - 1) || e.number >= next) then e.number + 1 else next
  }

  lemma {:induction false} NextNumberIsFree(rows: seq<Event>, task: nat, n: nat)
    requires n <= |rows|
    ensures forall i :: 0 <= i < n && rows[i].taskId == task ==> rows[i].number < NextNumber(rows, task, n)
    ensures HasEvents(rows, task, n) ==>
      exists i :: 0 <= i < n && rows[i].taskId == task && rows[i].number == NextNumber(rows, task, n) - 1
  {
    if n > 0 {
      NextNumberIsFree(rows, task, n - 1);
    }
  }

  function InsertBySeq(sorted: seq<Event>, e: Event): seq<Event> {
    if sorted == [] || sorted[|sorted| - 1].number <= e.number then sorted + [e]
    else InsertBySeq(sorted[..|sorted| - 1], e) + [sorted[|sorted| - 1]]
  }

  /** The task's rows above since among the first n, ORDER BY seq. */
  function Listed(rows: seq<Event>, task: nat, since: int, n: nat): seq<Event>
    requires n <= |rows|
  {
    if n == 0 then []
    else
      var before := Listed(rows, task, since, n - 1);
      if rows[n - 1].taskId == task && rows[n - 1].number > since then InsertBySeq(before, rows[n - 1]) else before
  }

  ghost predicate SortedBySeq(s: seq<Event>) {
    forall i, j :: 0 <= i < j < |s| ==> s[i].number <= s[j].number
  }

  lemma {:induction false} InsertBySeqMembers(sorted: seq<Event>, e: Event)
    ensures multiset(InsertBySeq(sorted, e)) == multiset(sorted) + multiset{e}
  {
    if !(sorted == [] || sorted[|sorted| - 1].number <= e.number) {
      var front, last := sorted[..|sorted| - 1], sorted[|sorted| - 1];
      assert sorted == front + [last];
      InsertBySeqMembers(front, e);
    }
  }

  ghost predicate AtMost(s: seq<Event>, bound: int) {
    forall i :: 0 <= i < |s| ==> s[i].number <= bound
  }

  lemma {:induction false} InsertBySeqSorts(sorted: seq<Event>, e: Event, bound: int)
    requires SortedBySeq(sorted) && AtMost(sorted, bound) && e.number <= bound
    ensures SortedBySeq(InsertBySeq(sorted, e)) && AtMost(InsertBySeq(sorted, e), bound)
  {
    if !(sorted == [] || sorted[|sorted| - 1].number <= e.number) {
      var last := sorted[|sorted| - 1];
      InsertBySeqSorts(sorted[..|sorted| - 1], e, last.number);
    }
  }

  lemma {:induction false} SomeBound(s: seq<Event>, e: Event) returns (bound: int)
    ensures AtMost(s, bound) && e.number <= bound
  {
    bound := e.number;
    for i := 0 to |s|
      invariant AtMost(s[..i], bound) && e.number <= bound
    {
      if s[i].number > bound {
        bound := s[i].number;
      }
    }
    assert s[..|s|] == s;
  }

  function Above(rows: seq<Event>, task: nat, since: int, n: nat): multiset<Event>
    requires n <= |rows|
  {
    if n == 0 then multiset{}
    else Above(rows, task, since, n - 1)
         + if rows[n - 1].taskId == task && rows[n - 1].number > since then multiset{rows[n - 1]} else multiset{}
  }

  /** The listing holds exactly the task's rows above since, ascending. */
  lemma {:induction false} ListedIsSorted(rows: seq<Event>, task: nat, since: int, n: nat)
    requires n <= |rows|
    ensures SortedBySeq(Listed(rows, task, since, n))
    ensures multiset(Listed(rows, task, since, n)) == Above(rows, task, since, n)
  {
    hide InsertBySeq;
    if n > 0 {
      ListedIsSorted(rows, task, since, n - 1);
      var bound := SomeBound(Listed(rows, task, since, n - 1), rows[n - 1]);
      InsertBySeqSorts(Listed(rows, task, since, n - 1), rows[n - 1], bound);
      InsertBySeqMembers(Listed(rows, task, since, n - 1), rows[n - 1]);
    }
  }

  lemma {:induction false} ListedAre(rows: seq<Event>, task: nat, since: int, n: nat)
    requires n <= |rows|
    ensures forall x :: x in Listed(rows, task, since, n) <==> x in rows[..n] && x.taskId == task && x.number > since
  {
    hide InsertBySeq;
    if n > 0 {
      ListedAre(rows, task, since, n - 1);
      var before, e := Listed(rows, task, since, n - 1), rows[n - 1];
      assert rows[..n] == rows[..n - 1] + [e];
      InsertBySeqMembers(before, e);
      forall x ensures x in InsertBySeq(before, e) <==> x in before || x == e {
        MemberIffCounted(InsertBySeq(before, e), x);
        MemberIffCounted(before, x);
      }
    }
  }

  lemma MemberIffCounted(s: seq<Event>, x: Event)
    ensures x in s <==> x in multiset(s)
  {
  }

  // ---- the table ----

  method FitsTable(rows: seq<Event>, e: Event) returns (ok: bool)
    ensures ok <==> Fits(rows, e)
  {
    for i := 0 to |rows|
      invariant Fits(rows[..i], e)
    {
      if Clash(rows[i], e) {
        return false;
      }
    }
    assert rows[..|rows|] == rows;
    ok := true;
  }

  /** One compound INSERT: all rows of the chunk, or the clash that stops it. */
  method AppendChunk(table: seq<Event>, chunk: seq<Event>) returns (tx: Option<seq<Event>>)
    requires KeysUnique(table)
    ensures tx.Some? <==> KeysUnique(table + chunk)
    ensures tx.Some? ==> tx.value == table + chunk
  {
    hide KeysUnique, Fits;
    var pending := table;
    assert table + chunk[..0] == table;
    for i := 0 to |chunk|
      invariant pending == table + chunk[..i] && KeysUnique(pending)
    {
      var ok := FitsTable(pending, chunk[i]);
      assert pending + [chunk[i]] == table + chunk[..i + 1];
      KeysUniqueSnoc(pending, chunk[i]);
      if !ok {
        assert table + chunk == (table + chunk[..i + 1]) + chunk[i + 1..];
        if KeysUnique(table + chunk) {
          KeysUniquePrefix(table + chunk[..i + 1], chunk[i + 1..]);
        }
        return None;
      }
      pending := pending + [chunk[i]];
    }
    assert chunk[..|chunk|] == chunk;
    tx := Some(pending);
  }

  method AppendChunks(table: seq<Event>, events: seq<Event>) returns (tx: Option<seq<Event>>)
    requires KeysUnique(table)
    ensures tx.Some? <==> KeysUnique(table + events)
    ensures tx.Some? ==> tx.value == table + events
  {
    hide KeysUnique;
    var pending := table;
    var start := 0;
    assert table + events[..0] == table;
    while start < |events|
      invariant 0 <= start <= |events|
      invariant pending == table + events[..start] && KeysUnique(pending)
    {
      var end := if start + APPEND_BATCH_CHUNK_SIZE < |events| then start + APPEND_BATCH_CHUNK_SIZE else |events|;
      var done := AppendChunk(pending, events[start..end]);
      assert pending + events[start..end] == table + events[..end];
      if done.None? {
        assert table + events == (table + events[..end]) + events[end..];
        if KeysUnique(table + events) {
          KeysUniquePrefix(table + events[..end], events[end..]);
        }
        return None;
      }
      pending, start := done.value, end;
    }
    assert events[..|events|] == events;
    tx := Some(pending);
  }

  class EventTable {
    var rows: seq<Event>

    ghost predicate Valid()
      reads this
    {
      KeysUnique(rows)
    }

    constructor ()
      ensures Valid() && rows == []
    {
      rows := [];
    }

    method Append(e: Event) returns (fault: Option<EventError>)
      requires Valid()
      modifies this
      ensures Valid()
      ensures fault == None <==> EventFault(e) == None && KeysUnique(old(rows) + [e])
      ensures rows == if fault == None then old(rows) + [e] else old(rows)
    {
      fault := EventFault(e);
      if fault.Some? {
        return;
      }
      var ok := FitsTable(rows, e);
      KeysUniqueSnoc(rows, e);
      if !ok {
        return Some(DuplicateSeq);
      }
      rows := rows + [e];
    }

    /** Appends e under the task's next number; only a reused id can clash. */
    method AppendAutoSeq(e: Event) returns (r: Result<Event, EventError>)
      requires Valid()
      modifies this
      ensures Valid()
      ensures r.Ok? <==> EventFault(e) == None && forall i :: 0 <= i < |old(rows)| ==> old(rows)[i].id != e.id
      ensures r.Ok? ==>
        r.value == e.(number := NextNumber(old(rows), e.taskId, |old(rows)|)) && rows == old(rows) + [r.value]
      ensures r.Err? ==> rows == old(rows)
    {
      if e.taskId == 0 {
        return Err(NoTask);
      }
      var numbered := e.(number := NextNumber(rows, e.taskId, |rows|));
      var fault := EventFault(numbered);
      if fault.Some? {
        return Err(fault.value);
      }
      var ok := FitsTable(rows, numbered);
      NextNumberIsFree(rows, e.taskId, |rows|);
      KeysUniqueSnoc(rows, numbered);
      if !ok {
        return Err(DuplicateSeq);
      }
      rows := rows + [numbered];
      r := Ok(numbered);
    }

    /** All the events, in chunks inside one transaction, or none of them. */
    method AppendBatch(events: seq<Event>) returns (fault: Option<EventError>)
      requires Valid()
      modifies this
      ensures Valid()
      ensures fault == None <==> AllSound(events) && KeysUnique(old(rows) + events)
      ensures rows == if fault == None then old(rows) + events else old(rows)
    {
      hide KeysUnique;
      if |events| == 0 {
        assert rows + events == rows;
        return None;
      }
      for i := 0 to |events|
        invariant AllSound(events[..i]) && rows == old(rows)
      {
        if EventFault(events[i]).Some? {
          return EventFault(events[i]);
        }
      }
      assert events[..|events|] == events;
      var tx := AppendChunks(rows, events);
      if tx.None? {
        return Some(DuplicateSeq);
      }
      rows := tx.value;
      fault := None;
    }

    method NextSeq(task: nat) returns (next: int)
      ensures next == NextNumber(rows, task, |rows|)
    {
      next := NextNumber(rows, task, |rows|);
    }

    /** The task's events above since, ascending: all of them, or, with a limit, the lowest. */
    method ListByTask(task: nat, since: int, limit: int) returns (out: seq<Event>)
      ensures var listed := Listed(rows, task, since, |rows|);
        out == if 0 < limit < |listed| then listed[..limit] else listed
      ensures SortedBySeq(out) && (limit > 0 ==> |out| <= limit)
      ensures forall x :: x in out ==> x in rows && x.taskId == task && x.number > since
      ensures forall x :: x in rows && x.taskId == task && x.number > since && x !in out ==>
        |out| == limit && forall y :: y in out ==> y.number <= x.number
    {
      hide Listed;
      ListedIsSorted(rows, task, since, |rows|);
      ListedAre(rows, task, since, |rows|);
      assert rows[..|rows|] == rows;
      out := Listed(rows, task, since, |rows|);
      if 0 < limit < |out| {
        CutListing(out, limit);
        out := out[..limit];
      }
    }

    method DeleteByTask(task: nat)
      requires Valid()
      modifies this
      ensures Valid() && rows == Without(old(rows), task, |old(rows)|)
      ensures forall x :: x in rows <==> x in old(rows) && x.taskId != task
    {
      assert rows[..|rows|] == rows;
      WithoutKeepsKeys(rows, task, |rows|);
      rows := Without(rows, task, |rows|);
    }
  }

  lemma CutListing(s: seq<Event>, limit: nat)
    requires SortedBySeq(s) && limit <= |s|
    ensures forall x :: x in s && x !in s[..limit] ==> forall y :: y in s[..limit] ==> y.number <= x.number
  {
    forall x, y | x in s && x !in s[..limit] && y in s[..limit] ensures y.number <= x.number {
      var i :| 0 <= i < |s| && s[i] == x;
      var j :| 0 <= j < limit && s[j] == y;
      assert i >= limit;
    }
  }

  function Without(rows: seq<Event>, task: nat, n: nat): seq<Event>
    requires n <= |rows|
  {
    if n == 0 then []
    else Without(rows, task, n - 1) + if rows[n - 1].taskId == task then [] else [rows[n - 1]]
  }

  lemma {:induction false} WithoutKeepsKeys(rows: seq<Event>, task: nat, n: nat)
    requires n <= |rows| && KeysUnique(rows)
    ensures KeysUnique(Without(rows, task, n))
    ensures forall x :: x in Without(rows, task, n) <==> x in rows[..n] && x.taskId != task
  {
    if n > 0 {
      WithoutKeepsKeys(rows, task, n - 1);
      assert rows[..n] == rows[..n - 1] + [rows[n - 1]];
      var before, e := Without(rows, task, n - 1), rows[n - 1];
      if e.taskId != task {
        forall i | 0 <= i < |before|
          ensures !Clash(before[i], e)
        {
          assert before[i] in rows[..n - 1];
        }
        KeysUniqueSnoc(before, e);
      }
    }
  }
}
