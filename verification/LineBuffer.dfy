/** Turning streamed text deltas into whole lines (sidecar/internal/copilot/events.go, SessionMapper). */
module LineBuffer {
  import opened Text

  datatype LineKind = Message | Reasoning | OtherKind

  datatype AgentLine = AgentLine(kind: LineKind, payload: string)

  /** A session event. Deltas carry text of one message or one reasoning block; for the rest, mapped is the agent event
      they are translated to, if any. */
  datatype SessionEvent =
    | MessageDelta(id: string, content: string)
    | ReasoningDelta(id: string, content: string)
    | FinalMessage(id: string, mapped: Option<AgentLine>)
    | SessionError(mapped: Option<AgentLine>)
    | OtherEvent(mapped: Option<AgentLine>)

  type Buffers = map<string, string>

  // ---- text ----

  /** strings.TrimRight(s, "\r"). */
  function TrimCr(s: string): (r: string)
    ensures r <= s && (r == "" || r[|r| - 1] != '\r')
    ensures forall i :: |r| <= i < |s| ==> s[i] == '\r'
  {
    if s != "" && s[|s| - 1] == '\r' then TrimCr(s[..|s| - 1]) else s
  }

  function TrimAll(lines: seq<string>): seq<string> {
    seq(|lines|, i requires 0 <= i < |lines| => TrimCr(lines[i]))
  }

  /** The lines of a whole text: split at LF, carriage returns trimmed, a last line only if it is not empty. */
  function LinesOfText(text: string): seq<string> {
    var parts := Split(text, '\n');
    TrimAll(Front(parts)) + if Last(parts) == "" then [] else [TrimCr(Last(parts))]
  }

  /** A text of one line without a line end of any kind. */
  ghost predicate IsLine(l: string) {
    '\n' !in l && (l == "" || l[|l| - 1] != '\r')
  }

  /** Any number of carriage returns, none included. */
  ghost predicate AreReturns(s: string) {
    forall i :: 0 <= i < |s| ==> s[i] == '\r'
  }

  /** Lines written one after the other, each with carriage returns of its own and an LF, and an open last line. */
  function WrittenLines(lines: seq<string>, crs: seq<string>, open: string): string
    requires |lines| == |crs|
  {
    if lines == [] then open else (lines[0] + crs[0]) + ['\n'] + WrittenLines(lines[1..], crs[1..], open)
  }

  lemma {:induction false} TrimReturns(l: string, cr: string)
    requires IsLine(l) && AreReturns(cr)
    ensures TrimCr(l + cr) == l && '\n' !in l + cr
  {
    if cr == "" {
      assert l + cr == l;
    } else {
      assert (l + cr)[..|l + cr| - 1] == l + cr[..|cr| - 1];
      TrimReturns(l, cr[..|cr| - 1]);
    }
  }

  lemma LinesOfPart(part: string, rest: string)
    requires '\n' !in part
    ensures LinesOfText(part + ['\n'] + rest) == [TrimCr(part)] + LinesOfText(rest)
  {
    hide Split, TrimCr;
    SplitPart(part, rest, '\n');
    var more := Split(rest, '\n');
    assert Front([part] + more) == [part] + Front(more) && Last([part] + more) == Last(more);
    TrimConcat([part], Front(more));
    assert TrimAll([part]) == [TrimCr(part)];
  }

  lemma LinesOfOpen(part: string)
    requires '\n' !in part
    ensures LinesOfText(part) == if part == "" then [] else [TrimCr(part)]
  {
    hide Split, TrimCr;
    SplitWhole(part, '\n');
    assert Front([part]) == [];
  }

  /** The lines of a text are the lines it was written from, whatever carriage returns stand before their ends; an open
      last line counts unless nothing at all stands there. */
  lemma {:induction false} LinesAreWhatWasWritten(lines: seq<string>, crs: seq<string>, last: string, tail: string)
    requires |lines| == |crs| && IsLine(last) && AreReturns(tail)
    requires forall i :: 0 <= i < |lines| ==> IsLine(lines[i]) && AreReturns(crs[i])
    ensures LinesOfText(WrittenLines(lines, crs, last + tail)) ==
      lines + if last + tail == "" then [] else [last]
  {
    hide LinesOfText, IsLine, AreReturns, TrimCr;
    if lines == [] {
      TrimReturns(last, tail);
      LinesOfOpen(last + tail);
    } else {
      TrimReturns(lines[0], crs[0]);
      LinesOfPart(lines[0] + crs[0], WrittenLines(lines[1..], crs[1..], last + tail));
      LinesAreWhatWasWritten(lines[1..], crs[1..], last, tail);
      assert [lines[0]] + lines[1..] == lines;
    }
  }

  /** strings.LastIndexByte for LF. */
  function LastNewline(s: string): (i: int)
    ensures -1 <= i < |s|
    ensures i >= 0 ==> s[i] == '\n' && '\n' !in s[i + 1..]
    ensures i < 0 ==> '\n' !in s
  {
    if s == "" then -1
    else if s[|s| - 1] == '\n' then |s| - 1
    else LastNewline(s[..|s| - 1])
  }

  lemma {:induction false} SplitAtLast(complete: string, tail: string)
    requires '\n' !in tail
    ensures Split(complete + ['\n'] + tail, '\n') == Split(complete, '\n') + [tail]
  {
    var s := complete + ['\n'] + tail;
    if complete == "" {
      assert s[1..] == tail;
      SplitWhole(tail, '\n');
    } else {
      assert s[1..] == complete[1..] + ['\n'] + tail;
      SplitAtLast(complete[1..], tail);
      var rest := Split(complete[1..], '\n');
      assert (rest + [tail])[1..] == rest[1..] + [tail];
    }
  }

  function Front(parts: seq<string>): seq<string>
    requires parts != []
  {
    parts[..|parts| - 1]
  }

  function Last(parts: seq<string>): string
    requires parts != []
  {
    parts[|parts| - 1]
  }

  /** Splitting a text is splitting its beginning and going on from the open last line. */
  lemma {:induction false} SplitAppend(a: string, b: string)
    ensures Split(a + b, '\n') == Front(Split(a, '\n')) + Split(Last(Split(a, '\n')) + b, '\n')
    decreases |a|
  {
    hide Split;
    var i := IndexByte(a, '\n');
    if i < 0 {
      SplitWhole(a, '\n');
      assert Front([a]) == [];
    } else {
      var part, rest := a[..i], a[i + 1..];
      assert a == part + ['\n'] + rest;
      assert a + b == part + ['\n'] + (rest + b);
      SplitPart(part, rest, '\n');
      SplitPart(part, rest + b, '\n');
      SplitAppend(rest, b);
      var more := Split(rest, '\n');
      assert Front([part] + more) == [part] + Front(more);
    }
  }

  // ---- one buffer ----

  function Buffered(bufs: Buffers, id: string): string {
    if id in bufs then bufs[id] else ""
  }

  /** The completed lines once content has been added to a buffer. */
  function Completed(held: string, content: string): seq<string> {
    var idx := LastNewline(held + content);
    if content == "" || idx < 0 then [] else TrimAll(Split((held + content)[..idx], '\n'))
  }

  function Remainder(held: string, content: string): string {
    var idx := LastNewline(held + content);
    if content == "" then held else (held + content)[idx + 1..]
  }

  lemma PumpOpenLine(before: seq<string>, content: string)
    requires before != [] && content != "" && LastNewline(Last(before) + content) < 0
    ensures var after := Front(before) + Split(Last(before) + content, '\n');
      Front(after) == Front(before) && Last(after) == Last(before) + content
  {
    hide Split;
    SplitWhole(Last(before) + content, '\n');
  }

  lemma PumpWholeLines(before: seq<string>, content: string)
    requires before != [] && content != "" && LastNewline(Last(before) + content) >= 0
    ensures var s := Last(before) + content; var idx := LastNewline(s);
      var after := Front(before) + Split(s, '\n');
      Front(after) == Front(before) + Split(s[..idx], '\n') && Last(after) == s[idx + 1..]
  {
    hide Split;
    var s := Last(before) + content;
    var idx := LastNewline(s);
    assert s == s[..idx] + ['\n'] + s[idx + 1..];
    SplitAtLast(s[..idx], s[idx + 1..]);
    var complete, tail := Split(s[..idx], '\n'), [s[idx + 1..]];
    assert Front(before) + (complete + tail) == (Front(before) + complete) + tail;
  }

  /** A buffer that holds the open last line of a text keeps doing so, and what it completes are the lines between. */
  lemma PumpSplits(text: string, content: string)
    ensures var before, after := Split(text, '\n'), Split(text + content, '\n');
      && Remainder(Last(before), content) == Last(after)
      && TrimAll(Front(before)) + Completed(Last(before), content) == TrimAll(Front(after))
  {
    hide Split, TrimAll, Front, Last;
    var before := Split(text, '\n');
    SplitAppend(text, content);
    if content == "" {
      assert text + content == text;
    } else if LastNewline(Last(before) + content) < 0 {
      PumpOpenLine(before, content);
    } else {
      PumpWholeLines(before, content);
      var s := Last(before) + content;
      TrimConcat(Front(before), Split(s[..LastNewline(s)], '\n'));
    }
  }

  lemma TrimConcat(a: seq<string>, b: seq<string>)
    ensures TrimAll(a + b) == TrimAll(a) + TrimAll(b)
  {
    hide TrimCr;
  }

  // ---- the mapper over a run of events ----

  datatype Channel = Channel(kind: LineKind, id: string)

  datatype Mapper = Mapper(msgs: Buffers, reasoning: Buffers)

  function BufferOf(m: Mapper, ch: Channel): string {
    if ch.kind == Message then Buffered(m.msgs, ch.id)
    else if ch.kind == Reasoning then Buffered(m.reasoning, ch.id)
    else ""
  }

  /** A delta with text writes to its buffer; the final message drops the buffer of its deltas; an error flushes all. */
  function MapperNext(m: Mapper, e: SessionEvent): Mapper {
    match e
    case MessageDelta(id, content) =>
      if content == "" then m else m.(msgs := m.msgs[id := Remainder(Buffered(m.msgs, id), content)])
    case ReasoningDelta(id, content) =>
      if content == "" then m else m.(reasoning := m.reasoning[id := Remainder(Buffered(m.reasoning, id), content)])
    case FinalMessage(id, _) => m.(msgs := m.msgs - {id})
    case SessionError(_) => Mapper(map[], map[])
    case OtherEvent(_) => m
  }

  function MapperAfter(events: seq<SessionEvent>, n: nat): Mapper
    requires n <= |events|
  {
    if n == 0 then Mapper(map[], map[]) else MapperNext(MapperAfter(events, n - 1), events[n - 1])
  }

  predicate IsDeltaOf(e: SessionEvent, ch: Channel) {
    (e.MessageDelta? && ch == Channel(Message, e.id)) || (e.ReasoningDelta? && ch == Channel(Reasoning, e.id))
  }

  function ContentOf(e: SessionEvent): string {
    if e.MessageDelta? || e.ReasoningDelta? then e.content else ""
  }

  /** The event ends the channel's text: an error has it flushed, its final message has it dropped. */
  predicate Resets(e: SessionEvent, ch: Channel) {
    e.SessionError? || (e.FinalMessage? && ch == Channel(Message, e.id))
  }

  /** All the text the channel received since its last reset. */
  function TextSince(events: seq<SessionEvent>, ch: Channel, n: nat): string
    requires n <= |events|
  {
    if n == 0 || Resets(events[n - 1], ch) then ""
    else if IsDeltaOf(events[n - 1], ch) then TextSince(events, ch, n - 1) + ContentOf(events[n - 1])
    else TextSince(events, ch, n - 1)
  }

  /** The lines the mapper returned for the channel's deltas since its last reset. */
  function LinesSince(events: seq<SessionEvent>, ch: Channel, n: nat): seq<string>
    requires n <= |events|
  {
    if n == 0 || Resets(events[n - 1], ch) then []
    else if IsDeltaOf(events[n - 1], ch) then
      LinesSince(events, ch, n - 1) + Completed(BufferOf(MapperAfter(events, n - 1), ch), ContentOf(events[n - 1]))
    else LinesSince(events, ch, n - 1)
  }

  lemma OneStep(m: Mapper, e: SessionEvent, ch: Channel)
    requires ch.kind != OtherKind
    ensures BufferOf(MapperNext(m, e), ch) ==
      if Resets(e, ch) then ""
      else if IsDeltaOf(e, ch) then Remainder(BufferOf(m, ch), ContentOf(e))
      else BufferOf(m, ch)
  {
    hide LastNewline;
  }

  /** The channel's buffer is the open last line of its text, and the lines returned are the ones before. */
  ghost predicate Tracks(buffer: string, lines: seq<string>, text: string) {
    var parts := Split(text, '\n');
    buffer == Last(parts) && lines == TrimAll(Front(parts))
  }

  lemma TracksMore(buffer: string, lines: seq<string>, text: string, content: string)
    requires Tracks(buffer, lines, text)
    ensures Tracks(Remainder(buffer, content), lines + Completed(buffer, content), text + content)
  {
    hide Completed, Remainder, TrimAll, Front, Last, Split;
    PumpSplits(text, content);
  }

  lemma TracksNothing()
    ensures Tracks("", [], "")
  {
    assert Split("", '\n') == [""];
  }

  lemma {:induction false} BufferingInvariant(events: seq<SessionEvent>, ch: Channel, n: nat)
    requires n <= |events| && ch.kind != OtherKind
    ensures Tracks(BufferOf(MapperAfter(events, n), ch), LinesSince(events, ch, n), TextSince(events, ch, n))
  {
    hide Tracks, Completed, Remainder, BufferOf, MapperNext, Resets, IsDeltaOf, ContentOf;
    TracksNothing();
    if n == 0 {
      NothingYet(ch);
    } else {
      BufferingInvariant(events, ch, n - 1);
      var e, m := events[n - 1], MapperAfter(events, n - 1);
      OneStep(m, e, ch);
      if !Resets(e, ch) && IsDeltaOf(e, ch) {
        TracksMore(BufferOf(m, ch), LinesSince(events, ch, n - 1), TextSince(events, ch, n - 1), ContentOf(e));
      }
    }
  }

  lemma NothingYet(ch: Channel)
    ensures BufferOf(Mapper(map[], map[]), ch) == ""
  {
  }

  /** However a text is cut into deltas and interleaved with others, the lines returned for it, followed by the rest a
      flush would drain, are the lines of the whole text. */
  lemma LinesDoNotDependOnChunking(events: seq<SessionEvent>, ch: Channel, n: nat)
    requires n <= |events| && ch.kind != OtherKind
    ensures LinesSince(events, ch, n) + Residue(BufferOf(MapperAfter(events, n), ch)) ==
      LinesOfText(TextSince(events, ch, n))
  {
    hide LinesSince, TextSince, BufferOf, MapperAfter, TrimAll, TrimCr, Split;
    BufferingInvariant(events, ch, n);
  }

  /** What a flush emits for a buffer. */
  function Residue(held: string): seq<string> {
    if held == "" then [] else [TrimCr(held)]
  }

  // ---- the mapper as an object ----

  function AsLines(kind: LineKind, payloads: seq<string>): seq<AgentLine> {
    seq(|payloads|, i requires 0 <= i < |payloads| => AgentLine(kind, payloads[i]))
  }

  /** The residues of the first n listed buffers. */
  function Drained(bufs: Buffers, order: seq<string>, n: nat): seq<string>
    requires n <= |order|
  {
    if n == 0 then [] else Drained(bufs, order, n - 1) + Residue(Buffered(bufs, order[n - 1]))
  }

  /** order lists every key once. */
  ghost predicate IsListing(order: seq<string>, keys: set<string>) {
    (forall i, j :: 0 <= i < j < |order| ==> order[i] != order[j]) && forall k :: k in keys <==> k in order
  }

  /** out drains the buffers, in whatever order the map is visited. */
  ghost predicate IsDrain(bufs: Buffers, out: seq<string>) {
    exists order :: IsListing(order, bufs.Keys) && out == Drained(bufs, order, |order|)
  }

  /** out is what is left in every buffer, messages before reasoning. */
  ghost predicate IsFlush(m: Mapper, out: seq<AgentLine>) {
    exists messages, reasoning {:trigger IsDrain(m.msgs, messages), IsDrain(m.reasoning, reasoning)} ::
      && IsDrain(m.msgs, messages) && IsDrain(m.reasoning, reasoning)
      && out == AsLines(Message, messages) + AsLines(Reasoning, reasoning)
  }

  lemma {:induction false} DrainedPrefix(bufs: Buffers, order: seq<string>, more: seq<string>, n: nat)
    requires n <= |order|
    ensures Drained(bufs, order + more, n) == Drained(bufs, order, n)
  {
    hide Residue;
    if n > 0 {
      DrainedPrefix(bufs, order, more, n - 1);
    }
  }

  method DrainBuffers(bufs: Buffers) returns (out: seq<string>)
    ensures IsDrain(bufs, out)
  {
    hide Residue, TrimCr;
    out := [];
    ghost var order: seq<string> := [];
    var rest := bufs.Keys;
    while rest != {}
      invariant rest <= bufs.Keys && IsListing(order, bufs.Keys - rest)
      invariant out == Drained(bufs, order, |order|)
      decreases rest
    {
      var id :| id in rest;
      out := out + DrainOne(bufs[id]);
      DrainedPrefix(bufs, order, [id], |order|);
      assert (order + [id])[|order|] == id && |order + [id]| == |order| + 1;
      ListOneMore(order, bufs.Keys - rest, id);
      order := order + [id];
      rest := rest - {id};
      assert bufs.Keys - rest == bufs.Keys - (rest + {id}) + {id};
    }
    assert bufs.Keys - rest == bufs.Keys;
  }

  lemma ListOneMore(order: seq<string>, keys: set<string>, id: string)
    requires IsListing(order, keys) && id !in keys
    ensures IsListing(order + [id], keys + {id})
  {
    assert forall k :: k in order + [id] <==> k in order || k == id;
    assert forall i :: 0 <= i < |order| ==> order[i] in order;
  }

  function DrainOne(held: string): (r: seq<string>)
    ensures r == Residue(held)
  {
    if |held| > 0 then [TrimCr(held)] else []
  }

  lemma NoLines(kind: LineKind)
    ensures AsLines(kind, []) == [] && TrimAll([]) == []
  {
  }

  lemma OneMoreLine(lines: seq<string>, i: nat, kind: LineKind)
    requires i < |lines|
    ensures AsLines(kind, TrimAll(lines[..i + 1])) ==
      AsLines(kind, TrimAll(lines[..i])) + [AgentLine(kind, TrimCr(lines[i]))]
  {
    hide TrimCr;
    assert lines[..i + 1] == lines[..i] + [lines[i]];
    assert TrimAll(lines[..i + 1]) == TrimAll(lines[..i]) + [TrimCr(lines[i])];
  }

  class SessionMapper {
    var msgBufs: Buffers
    var reasoningBufs: Buffers

    constructor ()
      ensures State() == Mapper(map[], map[])
    {
      msgBufs, reasoningBufs := map[], map[];
    }

    ghost function State(): Mapper
      reads this
    {
      Mapper(msgBufs, reasoningBufs)
    }

    static method PumpLines(bufs: Buffers, id: string, content: string, kind: LineKind)
      returns (after: Buffers, out: seq<AgentLine>)
      ensures after == if content == "" then bufs else bufs[id := Remainder(Buffered(bufs, id), content)]
      ensures out == AsLines(kind, Completed(Buffered(bufs, id), content))
    {
      hide TrimAll, AsLines, Split;
      if content == "" {
        NoLines(kind);
        return bufs, [];
      }
      var s := Buffered(bufs, id) + content;
      var idx := LastNewline(s);
      if idx < 0 {
        NoLines(kind);
        return bufs[id := s], [];
      }
      after := bufs[id := s[idx + 1..]];
      out := EmitLines(Split(s[..idx], '\n'), kind);
    }

    static method EmitLines(lines: seq<string>, kind: LineKind) returns (out: seq<AgentLine>)
      ensures out == AsLines(kind, TrimAll(lines))
    {
      hide TrimAll, AsLines;
      out := [];
      NoLines(kind);
      for i := 0 to |lines|
        invariant out == AsLines(kind, TrimAll(lines[..i]))
      {
        OneMoreLine(lines, i, kind);
        out := out + [AgentLine(kind, TrimCr(lines[i]))];
      }
      assert lines[..|lines|] == lines;
    }

    /** Emits what is left in every buffer, messages before reasoning, and empties them. */
    method Flush() returns (out: seq<AgentLine>)
      modifies this
      ensures State() == Mapper(map[], map[])
      ensures IsFlush(old(State()), out)
    {
      hide IsDrain;
      var messages := DrainBuffers(msgBufs);
      var reasoning := DrainBuffers(reasoningBufs);
      out := AsLines(Message, messages) + AsLines(Reasoning, reasoning);
      msgBufs, reasoningBufs := map[], map[];
    }

    method MapEvent(e: SessionEvent) returns (out: seq<AgentLine>)
      modifies this
      ensures State() == MapperNext(old(State()), e)
      ensures e.MessageDelta? ==> out == AsLines(Message, Completed(Buffered(old(msgBufs), e.id), e.content))
      ensures e.ReasoningDelta? ==> out == AsLines(Reasoning, Completed(Buffered(old(reasoningBufs), e.id), e.content))
      ensures e.FinalMessage? || e.OtherEvent? ==> out == Passed(e.mapped)
      ensures e.SessionError? ==> exists flushed :: IsFlush(old(State()), flushed) && out == flushed + Passed(e.mapped)
    {
      hide Completed, Remainder, Buffered, IsDrain, IsFlush;
      match e {
        case MessageDelta(id, content) =>
          msgBufs, out := PumpLines(msgBufs, id, content, Message);
        case ReasoningDelta(id, content) =>
          reasoningBufs, out := PumpLines(reasoningBufs, id, content, Reasoning);
        case FinalMessage(id, mapped) =>
          msgBufs := msgBufs - {id};
          out := Passed(mapped);
        case SessionError(mapped) =>
          var flushed := Flush();
          out := flushed + Passed(mapped);
        case OtherEvent(mapped) =>
          out := Passed(mapped);
      }
    }
  }

  function Passed(mapped: Option<AgentLine>): seq<AgentLine> {
    match mapped { case Some(line) => [line] case None => [] }
  }
}
