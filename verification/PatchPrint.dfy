/** Printing a diff in the ways it may be written, and its parts read back: ranges, headers, lines and fences
    (sidecar/internal/ihr/evolver.go, parseHunks, parseHunkHeader, parseRange, stripDiffFence). */
module PatchPrint {
  import opened Text
  import opened PatchApply
  import opened PatchParse

  // ---- the printer ----

  /** A hunk with what may be written around it: file headers before it, ranges without a count of one, and any text
      behind the second "@@" of its header. */
  datatype Written = Written(hunk: Hunk, headers: seq<string>, oldShort: bool, newShort: bool, heading: string)

  /** A code fence: the space before it, the language behind its opening and what follows its end. */
  datatype Fence = Fence(before: string, tag: string, after: string)

  /** A diff as it may be written: lines before the first hunk, the hunks, a final newline or none, a fence or none. */
  datatype Patch = Patch(preamble: seq<string>, hunks: seq<Written>, ended: bool, fence: Option<Fence>)

  function PrintRange(start: int, count: int, short: bool): string {
    if short then Itoa(start) else Itoa(start) + "," + Itoa(count)
  }

  /** "@@ -a,b +c,d @@ heading". */
  function PrintHeader(w: Written): string {
    var h := w.hunk;
    "@@" + (" -" + PrintRange(h.oldStart, h.oldCount, w.oldShort) + " +"
            + PrintRange(h.newStart, h.newCount, w.newShort) + " ") + "@@" + w.heading
  }

  function HunkLines(w: Written): seq<string> {
    w.headers + [PrintHeader(w)] + w.hunk.body
  }

  function PatchLines(hunks: seq<Written>): seq<string> {
    if hunks == [] then [] else HunkLines(hunks[0]) + PatchLines(hunks[1..])
  }

  function Lines(p: Patch): seq<string> {
    p.preamble + PatchLines(p.hunks)
  }

  /** Every line followed by a newline. */
  function Unlines(lines: seq<string>): string {
    if lines == [] then "" else lines[0] + ['\n'] + Unlines(lines[1..])
  }

  function Body(p: Patch): string {
    if p.ended then Unlines(Lines(p)) else Join(Lines(p), '\n')
  }

  function Print(p: Patch): string {
    match p.fence
    case None => Body(p)
    case Some(f) => f.before + "```" + f.tag + "\n" + Body(p) + "```" + f.after
  }

  /** The hunks and nothing else, with their counts written out. */
  function Plain(hunks: seq<Hunk>): Patch {
    Patch([], seq(|hunks|, i requires 0 <= i < |hunks| => Written(hunks[i], [], false, false, "")), true, None)
  }

  function Hunks(p: Patch): seq<Hunk> {
    HunksOf(p.hunks)
  }

  function HunksOf(hunks: seq<Written>): seq<Hunk> {
    seq(|hunks|, i requires 0 <= i < |hunks| => hunks[i].hunk)
  }

  ghost predicate IsInt64(n: int) {
    INT64_MIN <= n <= INT64_MAX
  }

  /** A hunk whose header counts its body and whose lines are lines. */
  ghost predicate IsPrintable(h: Hunk) {
    && IsInt64(h.oldStart) && IsInt64(h.oldCount) && IsInt64(h.newStart) && IsInt64(h.newCount)
    && HunkFault(h) == None
    && forall i :: 0 <= i < |h.body| ==> '\n' !in h.body[i]
  }

  predicate IsFileHeader(l: string) {
    LooksLikeHeader(l) || "diff " <= l || "index " <= l
  }

  /** Only a count of one may be left out, and what stands around a hunk are lines that mean nothing to the reader. */
  ghost predicate IsWritable(w: Written) {
    && IsPrintable(w.hunk)
    && (w.oldShort ==> w.hunk.oldCount == 1) && (w.newShort ==> w.hunk.newCount == 1)
    && '\n' !in w.heading
    && forall i :: 0 <= i < |w.headers| ==> IsFileHeader(w.headers[i]) && '\n' !in w.headers[i]
  }

  /** A final newline may be left out behind a line that is not empty; unfenced, the text starts with no fence. */
  ghost predicate IsWritablePatch(p: Patch) {
    && p.hunks != [] && (forall i :: 0 <= i < |p.hunks| ==> IsWritable(p.hunks[i]))
    && (forall i :: 0 <= i < |p.preamble| ==> !("@@" <= p.preamble[i]) && '\n' !in p.preamble[i])
    && (!p.ended ==> Lines(p)[|Lines(p)| - 1] != "")
    && match p.fence {
      case None => !("```" <= TrimSpace(Body(p)))
      case Some(f) => AllSpace(f.before) && '\n' !in f.tag && '`' !in f.after
    }
  }

  /** A deleted line starting with "--" or an added line starting with "++": printed, it looks like a file header. */
  predicate LooksLikeHeader(l: string) {
    "---" <= l || "+++" <= l
  }

  ghost predicate NoLookalike(hunks: seq<Hunk>) {
    forall i, j :: 0 <= i < |hunks| && 0 <= j < |hunks[i].body| ==> !LooksLikeHeader(hunks[i].body[j])
  }

  ghost predicate NoTrailingCr(hunks: seq<Hunk>) {
    forall i, j :: 0 <= i < |hunks| && 0 <= j < |hunks[i].body| ==> DropCr(hunks[i].body[j]) == hunks[i].body[j]
  }

  /** The hunks with the carriage return at the end of a body line dropped. */
  function WithoutCr(hunks: seq<Hunk>): seq<Hunk> {
    seq(|hunks|, i requires 0 <= i < |hunks| => hunks[i].(body := CleanLines(hunks[i].body)))
  }

  // ---- headers ----

  /** A text of minus signs, digits and commas: what a printed number or range is made of. */
  ghost predicate IsRangeText(s: string) {
    forall i :: 0 <= i < |s| ==> IsDigit(s[i]) || s[i] == '-' || s[i] == ',' || s[i] == '+'
  }

  lemma {:induction false} DecimalText(n: nat)
    ensures AllDigits(Decimal(n)) && |Decimal(n)| > 0
  {
    DecimalRoundTrip(n);
  }

  lemma ItoaText(n: int)
    ensures IsRangeText(Itoa(n)) && ',' !in Itoa(n) && |Itoa(n)| > 0
  {
    DecimalText(if n < 0 then -n else n);
  }

  lemma IndexByteOf(a: string, b: string, c: char)
    requires c !in a
    ensures IndexByte(a + [c] + b, c) == |a|
  {
    var s := a + [c] + b;
    assert s[|a|] == c;
  }

  lemma RangeRoundTrip(start: int, count: int, short: bool)
    requires IsInt64(start) && IsInt64(count) && (short ==> count == 1)
    ensures ParseRange(PrintRange(start, count, short)) == Some((start, count))
    ensures IsRangeText(PrintRange(start, count, short))
  {
    hide Atoi, Itoa;
    ItoaText(start);
    ItoaText(count);
    AtoiItoa(start);
    AtoiItoa(count);
    if !short {
      var s := PrintRange(start, count, false);
      assert s == Itoa(start) + [','] + Itoa(count);
      IndexByteOf(Itoa(start), Itoa(count), ',');
      assert s[..|Itoa(start)|] == Itoa(start);
      assert s[|Itoa(start)| + 1..] == Itoa(count);
    }
  }

  lemma SpaceAtEnd(s: string, rest: string)
    requires IsRangeText(s) && (rest == "" || IsSpace(rest[0]))
    ensures SpaceAt(s + rest) == |s|
  {
    assert rest != "" ==> (s + rest)[|s|] == rest[0];
  }

  lemma FieldsOfOne(s: string)
    requires IsRangeText(s) && s != ""
    ensures Fields(s) == [s]
  {
    assert TrimLeft(s) == s;
    SpaceAtEnd(s, "");
    assert s + "" == s;
    assert s[|s|..] == "";
    assert Fields("") == [];
  }

  lemma FieldsOfTwo(a: string, b: string)
    requires IsRangeText(a) && IsRangeText(b) && a != "" && b != ""
    ensures Fields(a + (" " + b)) == [a, b]
  {
    var s := a + (" " + b);
    assert TrimLeft(s) == s by { assert s[0] == a[0]; }
    SpaceAtEnd(a, " " + b);
    assert s[..|a|] == a && s[|a|..] == " " + b;
    FieldsOfOne(b);
  }

  lemma IndexOfClosing(meta: string, rest: string)
    requires '@' !in meta
    ensures Index(meta + "@@" + rest, "@@") == |meta|
  {
    var s := meta + "@@" + rest;
    var i := Index(s, "@@");
    assert s[|meta|..] == "@@" + rest;
    assert OccursAt(s, "@@", |meta|);
    assert s[i..][0] == '@';
  }

  lemma TwoFields(x: string, y: string)
    requires IsRangeText(x) && IsRangeText(y) && x != "" && y != ""
    ensures Fields(TrimSpace(" " + (x + (" " + y)) + " ")) == [x, y]
  {
    hide Fields, TrimSpace;
    var s := x + (" " + y);
    assert s[0] == x[0];
    assert s[|s| - 1] == y[|y| - 1];
    TrimPadded(" ", s, " ");
    FieldsOfTwo(x, y);
  }

  /** The old and new range of a printed header. */
  lemma HeaderFields(a: string, b: string)
    requires IsRangeText(a) && IsRangeText(b)
    ensures Fields(TrimSpace(" -" + a + " +" + b + " ")) == ["-" + a, "+" + b]
    ensures '@' !in " -" + a + " +" + b + " "
  {
    hide Fields, TrimSpace;
    assert " -" + a + " +" + b + " " == " " + (("-" + a) + (" " + ("+" + b))) + " ";
    TwoFields("-" + a, "+" + b);
  }

  /** Reading a printed header gives the hunk it was printed from: for every 64-bit start and count, with the count of
      one written or left out on either side, and whatever follows the closing marks. */
  lemma HeaderRoundTrip(w: Written)
    requires IsInt64(w.hunk.oldStart) && IsInt64(w.hunk.oldCount)
    requires IsInt64(w.hunk.newStart) && IsInt64(w.hunk.newCount)
    requires (w.oldShort ==> w.hunk.oldCount == 1) && (w.newShort ==> w.hunk.newCount == 1)
    ensures "@@" <= PrintHeader(w) && ParseHunkHeader(PrintHeader(w)) == Some(w.hunk.(body := []))
  {
    hide PrintRange, ParseRange, IsInt64;
    var h := w.hunk;
    var a, b := PrintRange(h.oldStart, h.oldCount, w.oldShort), PrintRange(h.newStart, h.newCount, w.newShort);
    RangeRoundTrip(h.oldStart, h.oldCount, w.oldShort);
    RangeRoundTrip(h.newStart, h.newCount, w.newShort);
    ParsedHeader(a, b, w.heading);
  }

  lemma ParsedHeader(a: string, b: string, heading: string)
    requires IsRangeText(a) && IsRangeText(b) && ParseRange(a).Some? && ParseRange(b).Some?
    ensures var line := "@@" + (" -" + a + " +" + b + " ") + "@@" + heading;
      && "@@" <= line
      && ParseHunkHeader(line) == Some(Hunk(ParseRange(a).value.0, ParseRange(a).value.1,
                                            ParseRange(b).value.0, ParseRange(b).value.1, []))
  {
    hide ParseRange, Fields, TrimSpace, IsRangeText, Index;
    var meta := " -" + a + " +" + b + " ";
    var rest := meta + "@@" + heading;
    var line := "@@" + meta + "@@" + heading;
    HeaderFields(a, b);
    IndexOfClosing(meta, heading);
    assert line == "@@" + rest;
    assert line[2..] == rest && rest[..|meta|] == meta;
    assert ("-" + a)[1..] == a && ("+" + b)[1..] == b;
  }

  /** Of two words between the marks, the first must be a minus sign and a range, the second a plus sign and a range. */
  lemma HeaderIsReadIff(x: string, y: string, heading: string)
    requires IsRangeText(x) && IsRangeText(y) && x != "" && y != ""
    ensures var line := "@@" + (" " + (x + (" " + y)) + " ") + "@@" + heading;
      && "@@" <= line
      && (ParseHunkHeader(line).Some? <==>
            x[0] == '-' && y[0] == '+' && ParseRange(x[1..]).Some? && ParseRange(y[1..]).Some?)
  {
    hide ParseRange, Fields, TrimSpace, Index;
    var meta := " " + (x + (" " + y)) + " ";
    var rest := meta + "@@" + heading;
    var line := "@@" + meta + "@@" + heading;
    TwoFields(x, y);
    IndexOfClosing(meta, heading);
    assert line == "@@" + rest;
    assert line[2..] == rest && rest[..|meta|] == meta;
    assert ("-" <= x <==> x[0] == '-') && ("+" <= y <==> y[0] == '+');
  }

  /** A header that is not closed is malformed. */
  lemma OpenHeaderIsRefused(rest: string)
    requires forall i :: 0 <= i < |rest| - 1 ==> !(rest[i] == '@' && rest[i + 1] == '@')
    ensures "@@" <= "@@" + rest && ParseHunkHeader("@@" + rest) == None
  {
    hide Fields, TrimSpace, ParseRange, Index;
    assert ("@@" + rest)[2..] == rest;
    forall i ensures !OccursAt(rest, "@@", i) {
      TwoMarks(rest, i);
    }
  }

  lemma TwoMarks(s: string, i: int)
    ensures OccursAt(s, "@@", i) ==> 0 <= i && i + 1 < |s| && s[i] == '@' && s[i + 1] == '@'
  {
    if OccursAt(s, "@@", i) {
      assert s[i..][0] == '@' && s[i..][1] == '@';
    }
  }

  /** A carriage return at the end of a header line belongs to what follows the closing marks. */
  lemma HeaderDropsCr(w: Written)
    ensures DropCr(PrintHeader(w)) == PrintHeader(w.(heading := DropCr(w.heading)))
  {
    hide PrintRange;
    var h := w.hunk;
    var front := "@@" + (" -" + PrintRange(h.oldStart, h.oldCount, w.oldShort) + " +"
                         + PrintRange(h.newStart, h.newCount, w.newShort) + " ") + "@@";
    assert PrintHeader(w) == front + w.heading;
    assert front[|front| - 1] == '@';
    if w.heading == "" {
      assert front + w.heading == front;
    } else {
      assert (front + w.heading)[..|front + w.heading| - 1] == front + w.heading[..|w.heading| - 1];
    }
  }

  // ---- lines ----

  lemma {:induction false} SplitUnlines(lines: seq<string>)
    requires forall i :: 0 <= i < |lines| ==> '\n' !in lines[i]
    ensures Split(Unlines(lines), '\n') == lines + [""]
  {
    if lines != [] {
      SplitUnlines(lines[1..]);
      SplitPart(lines[0], Unlines(lines[1..]), '\n');
      assert [lines[0]] + (lines[1..] + [""]) == lines + [""];
    }
  }

  lemma RawUnlines(lines: seq<string>)
    requires forall i :: 0 <= i < |lines| ==> '\n' !in lines[i]
    ensures RawLines(Unlines(lines)) == lines
  {
    SplitUnlines(lines);
    assert (lines + [""])[..|lines|] == lines;
  }

  lemma RawJoined(lines: seq<string>)
    requires lines != [] && lines[|lines| - 1] != "" && forall i :: 0 <= i < |lines| ==> '\n' !in lines[i]
    ensures RawLines(Join(lines, '\n')) == lines
  {
    hide Join, Split;
    SplitJoin(lines, '\n');
  }

  ghost predicate AreLines(lines: seq<string>) {
    forall i :: 0 <= i < |lines| ==> '\n' !in lines[i]
  }

  lemma LinesAppend(a: seq<string>, b: seq<string>)
    requires AreLines(a) && AreLines(b)
    ensures AreLines(a + b)
  {
  }

  lemma {:induction false} PatchLinesAreLines(hunks: seq<Written>)
    requires forall i :: 0 <= i < |hunks| ==> IsWritable(hunks[i])
    ensures AreLines(PatchLines(hunks))
  {
    hide PrintHeader, AreLines;
    if hunks == [] {
      assert AreLines([]) by { NoLines(); }
    } else {
      PatchLinesAreLines(hunks[1..]);
      assert IsWritable(hunks[0]);
      HunkLinesAreLines(hunks[0]);
      LinesAppend(HunkLines(hunks[0]), PatchLines(hunks[1..]));
    }
  }

  lemma NoLines()
    ensures AreLines([])
  {
  }

  lemma HunkLinesAreLines(w: Written)
    requires IsWritable(w)
    ensures AreLines(HunkLines(w))
  {
    hide PrintHeader, HunkFault, IsFileHeader;
    HeaderIsLine(w);
  }

  lemma HeaderIsLine(w: Written)
    requires '\n' !in w.heading
    ensures '\n' !in PrintHeader(w)
  {
    hide PrintRange;
    var h := w.hunk;
    RangeIsLine(h.oldStart, h.oldCount, w.oldShort);
    RangeIsLine(h.newStart, h.newCount, w.newShort);
    AvoidsNewline(PrintRange(h.oldStart, h.oldCount, w.oldShort), PrintRange(h.newStart, h.newCount, w.newShort),
                  w.heading);
  }

  lemma RangeIsLine(start: int, count: int, short: bool)
    ensures '\n' !in PrintRange(start, count, short)
  {
    hide Itoa;
    ItoaText(start);
    ItoaText(count);
  }

  lemma AvoidsNewline(a: string, b: string, heading: string)
    requires '\n' !in a && '\n' !in b && '\n' !in heading
    ensures '\n' !in "@@" + (" -" + a + " +" + b + " ") + "@@" + heading
  {
    assert '\n' !in " -" + a + " +" + b + " ";
  }

  /** The lines of the patch are the lines of its text. */
  lemma BodyLines(p: Patch)
    requires IsWritablePatch(p)
    ensures RawLines(Body(p)) == Lines(p)
  {
    hide RawLines, PatchLines, Unlines, Join, TrimSpace, IsWritable;
    PatchLinesAreLines(p.hunks);
    assert AreLines(p.preamble);
    LinesAppend(p.preamble, PatchLines(p.hunks));
    if p.ended {
      RawUnlines(Lines(p));
    } else {
      SomeLines(p.hunks);
      RawJoined(Lines(p));
    }
  }

  lemma SomeLines(hunks: seq<Written>)
    requires hunks != []
    ensures PatchLines(hunks) != []
  {
    hide PrintHeader;
  }

  // ---- fences ----

  lemma {:induction false} TrimRightStops(y: string, after: string)
    requires y != "" && !IsSpace(y[|y| - 1])
    ensures TrimRight(y + after) == y + TrimRight(after)
  {
    if after == "" {
      assert y + after == y;
    } else {
      var s := y + after;
      assert s[|s| - 1] == after[|after| - 1];
      assert s[..|s| - 1] == y + after[..|after| - 1];
      TrimRightStops(y, after[..|after| - 1]);
    }
  }

  /** Of a text that has its last fence there, that place is the last. */
  lemma LastFence(body: string, after: string)
    requires '`' !in after
    ensures LastIndex(body + "```" + after, "```") == |body|
  {
    hide LastIndex;
    var s := body + "```" + after;
    assert s[|body|..] == "```" + after;
    assert OccursAt(s, "```", |body|);
    var i := LastIndex(s, "```");
    if i > |body| {
      NoLaterFence(body, after, i);
      assert false;
    }
  }

  lemma NoLaterFence(body: string, after: string, i: nat)
    requires '`' !in after && i > |body|
    ensures !OccursAt(body + "```" + after, "```", i)
  {
    var s := body + "```" + after;
    if i + 3 <= |s| {
      assert s[i..][2] == after[i - |body| - 1];
    }
  }

  /** The text of a fence, up to its last line. */
  function Opened(f: Fence, body: string): string {
    "```" + f.tag + ['\n'] + body + "```"
  }

  lemma FenceIsTrimmed(f: Fence, body: string)
    requires AllSpace(f.before)
    ensures TrimSpace(f.before + "```" + f.tag + "\n" + body + "```" + f.after) == Opened(f, body) + TrimRight(f.after)
  {
    hide TrimLeft, TrimRight;
    var y := Opened(f, body);
    assert f.before + "```" + f.tag + "\n" + body + "```" + f.after == f.before + (y + f.after);
    TrimLeftDropsPadding(f.before, y + f.after);
    FenceStarts(y + f.after);
    assert y[|y| - 1] == '`';
    TrimRightStops(y, f.after);
  }

  /** What stands between the first line of a fence and its end is read as it stands. */
  lemma FenceIsStripped(f: Fence, body: string)
    requires AllSpace(f.before) && '\n' !in f.tag && '`' !in f.after
    ensures StripDiffFence(f.before + "```" + f.tag + "\n" + body + "```" + f.after) == body
  {
    hide TrimSpace, TrimRight, LastIndex, IndexByte;
    var opening, tail := "```" + f.tag, TrimRight(f.after);
    FenceIsTrimmed(f, body);
    var t := Opened(f, body) + tail;
    var inner := body + "```" + tail;
    assert t == opening + ['\n'] + inner;
    IndexByteOf(opening, inner, '\n');
    assert t[|opening| + 1..] == inner;
    assert "```" <= t;
    assert '`' !in tail by { assert tail <= f.after; }
    LastFence(body, tail);
    assert inner[..|body|] == body;
  }

  lemma FenceStarts(s: string)
    requires "```" <= s
    ensures TrimLeft(s) == s
  {
  }

  lemma FenceGone(p: Patch)
    requires IsWritablePatch(p)
    ensures StripDiffFence(Print(p)) == Body(p)
  {
    hide Body, TrimSpace, StripDiffFence, IsWritable, Lines;
    if p.fence.Some? {
      FenceIsStripped(p.fence.value, Body(p));
    } else {
      UnfencedStays(Body(p));
    }
  }

  lemma UnfencedStays(s: string)
    requires !("```" <= TrimSpace(s))
    ensures StripDiffFence(s) == s
  {
    hide TrimSpace;
  }

  /** Without lines before the first hunk, the text does not start with a fence. */
  lemma StartsWithoutFence(p: Patch)
    requires p.preamble == [] && p.hunks != [] && forall i :: 0 <= i < |p.hunks| ==> IsWritable(p.hunks[i])
    ensures !("```" <= TrimSpace(Body(p)))
  {
    hide PrintRange, IsPrintable, Join, Unlines;
    var w := p.hunks[0];
    assert IsWritable(w);
    var first := if w.headers == [] then PrintHeader(w) else w.headers[0];
    assert HunkLines(w)[0] == first;
    assert Lines(p)[0] == first;
    assert first != "" && first[0] in {'@', '-', '+', 'd', 'i'};
    FirstLetter(Lines(p));
    StartsOtherwise(Body(p));
  }

  lemma FirstLetter(lines: seq<string>)
    requires lines != [] && lines[0] != ""
    ensures Unlines(lines) != "" && Unlines(lines)[0] == lines[0][0]
    ensures Join(lines, '\n') != "" && Join(lines, '\n')[0] == lines[0][0]
  {
  }

  lemma StartsOtherwise(s: string)
    requires s != "" && !IsSpace(s[0]) && s[0] != '`'
    ensures !("```" <= TrimSpace(s))
  {
    assert TrimLeft(s) == s;
    assert TrimSpace(s) <= s;
  }

  // ---- the length of lines ----

  ghost predicate AllFit(lines: seq<string>) {
    forall i :: 0 <= i < |lines| ==> !IsTooLong(lines[i])
  }

  function Pow10(k: nat): nat {
    if k == 0 then 1 else 10 * Pow10(k - 1)
  }

  lemma {:induction false} DecimalShort(n: nat, k: nat)
    requires k > 0 && n < Pow10(k)
    ensures |Decimal(n)| <= k
  {
    if n >= 10 {
      DecimalShort(n / 10, k - 1);
    }
  }

  lemma ItoaShort(n: int)
    requires IsInt64(n)
    ensures |Itoa(n)| <= 20
  {
    assert Pow10(4) == 10_000;
    assert Pow10(8) == 10_000 * Pow10(4);
    assert Pow10(12) == 10_000 * Pow10(8);
    assert Pow10(16) == 10_000 * Pow10(12);
    assert Pow10(19) == 1_000 * Pow10(16);
    DecimalShort(if n < 0 then -n else n, 19);
  }

  lemma {:induction false} Utf8Bound(s: string)
    ensures Utf8Length(s) <= 4 * |s|
  {
    if s != "" {
      Utf8Bound(s[..|s| - 1]);
    }
  }

  /** A line of up to a quarter of a million characters fits, whatever they are. */
  lemma ShortFits(l: string)
    requires |l| <= 250_000
    ensures !IsTooLong(l)
  {
    hide Utf8Length;
    Utf8Bound(l);
  }

  /** A header is too long only by what follows its closing marks. */
  lemma HeaderFits(w: Written)
    requires IsWritable(w) && |w.heading| <= 200_000
    ensures !IsTooLong(PrintHeader(w))
  {
    hide Itoa, IsInt64, Utf8Length, HunkFault, IsFileHeader, IsTooLong;
    ItoaShort(w.hunk.oldStart);
    ItoaShort(w.hunk.oldCount);
    ItoaShort(w.hunk.newStart);
    ItoaShort(w.hunk.newCount);
    ShortFits(PrintHeader(w));
  }

  lemma DeliveredIff(lines: seq<string>)
    ensures Delivered(lines) == |lines| <==> AllFit(lines)
  {
    hide IsTooLong;
  }
}
