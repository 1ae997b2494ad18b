/** Printing hunks as a diff and reading them back (sidecar/internal/ihr/evolver.go, parseHunks). */
module PatchRoundTrip {
  import opened Text
  import opened PatchApply
  import opened PatchParse
  import opened PatchPrint

  // ---- what the reader keeps of a body ----

  /** The first n body lines as they are read: without a final carriage return, and without header lookalikes. */
  function Kept(body: seq<string>, n: nat): seq<string>
    requires n <= |body|
  {
    if n == 0 then []
    else Kept(body, n - 1) + if IsNoise(DropCr(body[n - 1])) then [] else [DropCr(body[n - 1])]
  }

  function Read(h: Hunk): Hunk {
    h.(body := Kept(h.body, |h.body|))
  }

  lemma {:induction false} ScanAppend(st: Scan, a: seq<string>, b: seq<string>)
    ensures ScanFrom(st, a + b) == match ScanFrom(st, a) { case Some(mid) => ScanFrom(mid, b) case None => None }
    decreases |a|
  {
    hide ScanStep;
    if a == [] {
      assert a + b == b;
    } else {
      assert (a + b)[1..] == a[1..] + b;
      if ScanStep(st, a[0]).Some? {
        ScanAppend(ScanStep(st, a[0]).value, a[1..], b);
      }
    }
  }

  lemma ScanOne(st: Scan, line: string)
    ensures ScanFrom(st, [line]) == ScanStep(st, line)
  {
    hide ScanStep;
    assert [line][1..] == [];
    assert forall next :: ScanFrom(next, []) == Some(next);
  }

  lemma BodyLineCases(l: string)
    requires IsBodyLine(l)
    ensures IsBodyLine(DropCr(l)) && !("@@" <= DropCr(l))
    ensures IsNoise(DropCr(l)) <==> LooksLikeHeader(l)
    ensures OldLine(DropCr(l)) != [] <==> OldLine(l) != []
    ensures NewLine(DropCr(l)) != [] <==> NewLine(l) != []
  {
    var d := DropCr(l);
    assert d == "" || d[0] == l[0];
  }

  lemma {:induction false} ScanBody(out: seq<Hunk>, h: Hunk, body: seq<string>, n: nat)
    requires n <= |body| && (forall i :: 0 <= i < |body| ==> IsBodyLine(body[i]))
    ensures |CleanLines(body)| == |body|
    ensures ScanFrom(Scan(out, Some(h)), CleanLines(body)[..n]) ==
      Some(Scan(out, Some(h.(body := h.body + Kept(body, n)))))
  {
    hide IsBodyLine, IsNoise, LooksLikeHeader, DropCr, OldLine, NewLine, ParseHunkHeader;
    var lines, st := CleanLines(body), Scan(out, Some(h));
    if n == 0 {
      assert lines[..0] == [] && h.body + [] == h.body;
    } else {
      ScanBody(out, h, body, n - 1);
      assert lines[..n] == lines[..n - 1] + [lines[n - 1]];
      ScanAppend(st, lines[..n - 1], [lines[n - 1]]);
      var mid := Scan(out, Some(h.(body := h.body + Kept(body, n - 1))));
      ScanOne(mid, lines[n - 1]);
      BodyLineCases(body[n - 1]);
      assert (h.body + Kept(body, n - 1)) + [lines[n - 1]] == h.body + (Kept(body, n - 1) + [lines[n - 1]]);
      assert (h.body + Kept(body, n - 1)) == h.body + (Kept(body, n - 1) + []);
    }
  }

  function ReadAll(hunks: seq<Hunk>): seq<Hunk> {
    seq(|hunks|, i requires 0 <= i < |hunks| => Read(hunks[i]))
  }

  lemma PrintableLines(h: Hunk)
    requires IsPrintable(h)
    ensures forall i :: 0 <= i < |h.body| ==> IsBodyLine(h.body[i])
    ensures IsInt64(h.oldStart) && IsInt64(h.oldCount) && IsInt64(h.newStart) && IsInt64(h.newCount)
  {
    hide IsBodyLine;
    assert !HasStrayLine(h.body, |h.body|);
  }

  lemma ScanHeader(st: Scan, w: Written)
    requires IsWritable(w)
    ensures ScanFrom(st, CleanLines([PrintHeader(w)])) == Some(Flush(st).(current := Some(w.hunk.(body := []))))
  {
    hide PrintHeader, ParseHunkHeader, DropCr, IsNoise, IsInt64, ScanFrom, Flush, HunkFault, IsFileHeader;
    var clean := w.(heading := DropCr(w.heading));
    HeaderDropsCr(w);
    HeaderRoundTrip(clean);
    ScanOne(st, PrintHeader(clean));
    assert CleanLines([PrintHeader(w)]) == [PrintHeader(clean)];
  }

  lemma FileHeaderIsNoise(l: string)
    requires IsFileHeader(l)
    ensures IsNoise(DropCr(l)) && !("@@" <= DropCr(l))
  {
    var d := DropCr(l);
    assert |l| >= 3 && d[0] == l[0] && d[1] == l[1];
    assert |d| >= 3 ==> d[2] == l[2];
  }

  /** File headers leave the reader where it is. */
  lemma {:induction false} ScanFileHeaders(st: Scan, headers: seq<string>)
    requires forall i :: 0 <= i < |headers| ==> IsFileHeader(headers[i])
    ensures ScanFrom(st, CleanLines(headers)) == Some(st)
    decreases |headers|
  {
    hide IsFileHeader, IsNoise, DropCr, ParseHunkHeader;
    if headers == [] {
      assert CleanLines(headers) == [];
    } else {
      FileHeaderIsNoise(headers[0]);
      ScanFileHeaders(st, headers[1..]);
      CleanSplit(headers);
    }
  }

  lemma CleanSplit(lines: seq<string>)
    requires lines != []
    ensures CleanLines(lines)[0] == DropCr(lines[0]) && CleanLines(lines)[1..] == CleanLines(lines[1..])
  {
    hide DropCr;
  }

  lemma PreambleLine(l: string)
    requires !("@@" <= l)
    ensures !("@@" <= DropCr(l))
  {
  }

  /** Before the first hunk the reader skips every line that does not start one. */
  lemma {:induction false} ScanPreamble(lines: seq<string>)
    requires forall i :: 0 <= i < |lines| ==> !("@@" <= lines[i])
    ensures ScanFrom(Scan([], None), CleanLines(lines)) == Some(Scan([], None))
  {
    hide IsNoise, DropCr, ParseHunkHeader;
    if lines == [] {
      assert CleanLines(lines) == [];
    } else {
      PreambleLine(lines[0]);
      ScanPreamble(lines[1..]);
      CleanSplit(lines);
    }
  }

  /** Reading one printed hunk from any state closes the previous hunk and opens this one. */
  lemma ScanHunk(st: Scan, w: Written)
    requires IsWritable(w)
    ensures ScanFrom(st, CleanLines(HunkLines(w))) == Some(Flush(st).(current := Some(Read(w.hunk))))
  {
    hide PrintHeader, IsPrintable, IsBodyLine, IsInt64, ScanFrom, CleanLines, IsFileHeader, Kept;
    var h, header := w.hunk, [PrintHeader(w)];
    PrintableLines(h);
    ScanFileHeaders(st, w.headers);
    ScanHeader(st, w);
    CleanAppend(w.headers + header, h.body);
    CleanAppend(w.headers, header);
    ScanAppend(st, CleanLines(w.headers + header), CleanLines(h.body));
    ScanAppend(st, CleanLines(w.headers), CleanLines(header));
    ScanBody(Flush(st).out, h.(body := []), h.body, |h.body|);
    assert CleanLines(h.body)[..|h.body|] == CleanLines(h.body) by { CleanLength(h.body); }
    assert [] + Kept(h.body, |h.body|) == Kept(h.body, |h.body|);
  }

  lemma CleanAppend(a: seq<string>, b: seq<string>)
    ensures CleanLines(a + b) == CleanLines(a) + CleanLines(b)
  {
    hide DropCr;
  }

  lemma CleanLength(lines: seq<string>)
    ensures |CleanLines(lines)| == |lines|
  {
  }

  lemma {:induction false} ScanPatch(st: Scan, hunks: seq<Written>)
    requires forall i :: 0 <= i < |hunks| ==> IsWritable(hunks[i])
    ensures ScanFrom(st, CleanLines(PatchLines(hunks))).Some?
    ensures Flush(ScanFrom(st, CleanLines(PatchLines(hunks))).value).out == Flush(st).out + ReadAll(HunksOf(hunks))
    decreases |hunks|
  {
    hide IsWritable, HunkLines, Read, DropCr, ScanStep, Flush;
    if hunks == [] {
      assert CleanLines(PatchLines(hunks)) == [];
      assert ReadAll(HunksOf(hunks)) == [];
    } else {
      var w, rest := hunks[0], PatchLines(hunks[1..]);
      assert IsWritable(w);
      ScanHunk(st, w);
      CleanAppend(HunkLines(w), rest);
      ScanAppend(st, CleanLines(HunkLines(w)), CleanLines(rest));
      var mid := Flush(st).(current := Some(Read(w.hunk)));
      ScanPatch(mid, hunks[1..]);
      FlushOpen(st, Read(w.hunk));
      assert ReadAll(HunksOf(hunks)) == [Read(w.hunk)] + ReadAll(HunksOf(hunks[1..]));
    }
  }

  /** The whole text: the lines before the first hunk, then the hunks. */
  lemma ScanLines(p: Patch)
    requires IsWritablePatch(p)
    ensures ScanFrom(Scan([], None), CleanLines(Lines(p))).Some?
    ensures Flush(ScanFrom(Scan([], None), CleanLines(Lines(p))).value).out == ReadAll(Hunks(p))
  {
    hide IsWritable, PatchLines, ScanFrom, CleanLines, ReadAll, HunksOf, Join, Unlines, TrimSpace;
    ScanPreamble(p.preamble);
    CleanAppend(p.preamble, PatchLines(p.hunks));
    ScanAppend(Scan([], None), CleanLines(p.preamble), CleanLines(PatchLines(p.hunks)));
    ScanPatch(Scan([], None), p.hunks);
    assert [] + ReadAll(Hunks(p)) == ReadAll(Hunks(p));
  }

  lemma FlushOpen(st: Scan, h: Hunk)
    ensures Flush(Flush(st).(current := Some(h))).out == Flush(st).out + [h]
  {
  }

  // ---- the counts catch every dropped line ----

  lemma {:induction false} PartPrefix(a: seq<string>, b: seq<string>, n: nat)
    requires n <= |a|
    ensures OldPart(a + b, n) == OldPart(a, n) && NewPart(a + b, n) == NewPart(a, n)
  {
    hide OldLine, NewLine;
    if n > 0 {
      PartPrefix(a, b, n - 1);
    }
  }

  lemma SidesSnoc(body: seq<string>, l: string)
    ensures OldSide(body + [l]) == OldSide(body) + OldLine(l) && NewSide(body + [l]) == NewSide(body) + NewLine(l)
  {
    hide OldLine, NewLine;
    PartPrefix(body, [l], |body|);
  }

  function Lookalikes(body: seq<string>, n: nat): nat
    requires n <= |body|
  {
    if n == 0 then 0 else Lookalikes(body, n - 1) + if LooksLikeHeader(body[n - 1]) then 1 else 0
  }

  lemma LookalikeCounts(l: string)
    requires IsBodyLine(l)
    ensures LooksLikeHeader(l) ==> |OldLine(l)| + |NewLine(l)| == 1
    ensures |OldLine(DropCr(l))| == |OldLine(l)| && |NewLine(DropCr(l))| == |NewLine(l)|
  {
    var d := DropCr(l);
    assert d == "" || d[0] == l[0];
  }

  /** Every lookalike costs exactly one old or one new line. */
  lemma {:induction false} KeptCounts(body: seq<string>, n: nat)
    requires n <= |body| && forall i :: 0 <= i < |body| ==> IsBodyLine(body[i])
    ensures |OldSide(Kept(body, n))| + |NewSide(Kept(body, n))| + Lookalikes(body, n) ==
      |OldPart(body, n)| + |NewPart(body, n)|
    ensures Lookalikes(body, n) == 0 ==>
      |OldSide(Kept(body, n))| == |OldPart(body, n)| && |NewSide(Kept(body, n))| == |NewPart(body, n)|
    ensures forall i :: 0 <= i < |Kept(body, n)| ==> IsBodyLine(Kept(body, n)[i])
  {
    hide IsBodyLine, IsNoise, LooksLikeHeader, DropCr, OldLine, NewLine;
    if n > 0 {
      KeptCounts(body, n - 1);
      BodyLineCases(body[n - 1]);
      LookalikeCounts(body[n - 1]);
      var d := DropCr(body[n - 1]);
      SidesSnoc(Kept(body, n - 1), d);
      assert LooksLikeHeader(body[n - 1]) ==> Kept(body, n) == Kept(body, n - 1);
    }
  }

  lemma {:induction false} LookalikesZero(body: seq<string>, n: nat)
    requires n <= |body|
    ensures Lookalikes(body, n) == 0 <==> forall i :: 0 <= i < n ==> !LooksLikeHeader(body[i])
  {
    hide LooksLikeHeader;
    if n > 0 {
      LookalikesZero(body, n - 1);
    }
  }

  lemma {:induction false} KeptAll(body: seq<string>, n: nat)
    requires n <= |body| && Lookalikes(body, n) == 0 && forall i :: 0 <= i < |body| ==> IsBodyLine(body[i])
    ensures Kept(body, n) == CleanLines(body)[..n]
  {
    hide IsBodyLine, IsNoise, LooksLikeHeader, DropCr, OldLine, NewLine;
    if n > 0 {
      KeptAll(body, n - 1);
      BodyLineCases(body[n - 1]);
      assert CleanLines(body)[..n] == CleanLines(body)[..n - 1] + [DropCr(body[n - 1])];
    }
  }

  /** A hunk read back has a fault exactly when one of its lines was taken for a file header. */
  lemma ReadFaultIff(h: Hunk)
    requires IsPrintable(h)
    ensures HunkFault(Read(h)) == None <==> forall j :: 0 <= j < |h.body| ==> !LooksLikeHeader(h.body[j])
    ensures HunkFault(Read(h)) == None ==> Read(h) == h.(body := CleanLines(h.body))
  {
    hide IsBodyLine, LooksLikeHeader, DropCr, OldLine, NewLine;
    PrintableLines(h);
    KeptCounts(h.body, |h.body|);
    LookalikesZero(h.body, |h.body|);
    assert !HasStrayLine(Read(h).body, |Read(h).body|);
    if Lookalikes(h.body, |h.body|) == 0 {
      KeptAll(h.body, |h.body|);
      assert CleanLines(h.body)[..|h.body|] == CleanLines(h.body);
    }
  }

  // ---- the round trip ----

  lemma {:induction false} FirstFaultNone(hunks: seq<Hunk>, n: nat)
    requires n <= |hunks|
    ensures FirstFault(hunks, n) == None <==> forall i :: 0 <= i < n ==> HunkFault(hunks[i]) == None
  {
    hide HunkFault;
    if n > 0 {
      FirstFaultNone(hunks, n - 1);
    }
  }

  // ---- reading the printed patch ----

  /** The lines before one that is too long are no malformed headers. */
  lemma PrefixScans(p: Patch, n: nat)
    requires IsWritablePatch(p) && n <= |Lines(p)|
    ensures ScanFrom(Scan([], None), CleanLines(Lines(p)[..n])).Some?
  {
    hide IsWritablePatch, ScanFrom, Lines, DropCr;
    ScanLines(p);
    var lines := Lines(p);
    assert CleanLines(lines) == CleanLines(lines[..n]) + CleanLines(lines[n..]);
    ScanAppend(Scan([], None), CleanLines(lines[..n]), CleanLines(lines[n..]));
  }

  /** What the reader makes of a printed patch. */
  lemma ParsedPrint(p: Patch)
    requires IsWritablePatch(p)
    ensures ParsedHunks(Print(p)) ==
      if !AllFit(Lines(p)) then Err(LineTooLong)
      else match FirstFault(ReadAll(Hunks(p)), |Hunks(p)|) { case Some(e) => Err(e) case None => Ok(ReadAll(Hunks(p))) }
  {
    hide IsWritablePatch, Read, FirstFault, ScanFrom, RawLines, CleanLines, StripDiffFence, Lines, Delivered;
    hide AllFit, Print, Body;
    FenceGone(p);
    BodyLines(p);
    var raw := Lines(p);
    DeliveredIff(raw);
    PrefixScans(p, Delivered(raw));
    ScanLines(p);
    assert raw[..|raw|] == raw;
    assert |Hunks(p)| > 0 by { SomeHunks(p); }
  }

  lemma SomeHunks(p: Patch)
    requires IsWritablePatch(p)
    ensures |Hunks(p)| == |p.hunks| > 0
  {
    hide IsWritable, Lines, Body, TrimSpace;
  }

  lemma HunkIsPrintable(p: Patch, i: nat)
    requires IsWritablePatch(p) && i < |Hunks(p)|
    ensures IsPrintable(Hunks(p)[i])
  {
    hide IsPrintable, Lines, Body, TrimSpace;
    assert IsWritable(p.hunks[i]);
  }

  /** Reading a printed, correctly counted patch succeeds exactly when no body line looks like a file header and no line
      takes a mebibyte; what it then returns are the hunks with the carriage return at the end of body lines dropped.
      Left-out counts, section headings, file headers, lines before the first hunk and a code fence change nothing. */
  lemma PatchRoundTrip(p: Patch)
    requires IsWritablePatch(p)
    ensures ParsedHunks(Print(p)) == Ok(WithoutCr(Hunks(p))) <==> NoLookalike(Hunks(p)) && AllFit(Lines(p))
    ensures ParsedHunks(Print(p)).Ok? <==> NoLookalike(Hunks(p)) && AllFit(Lines(p))
    ensures ParsedHunks(Print(p)) == Err(LineTooLong) <==> !AllFit(Lines(p))
  {
    hide IsWritablePatch, HunkFault, LooksLikeHeader, CleanLines, Read, ParsedHunks, Print, AllFit, Hunks, Lines;
    hide IsPrintable;
    var hunks := Hunks(p);
    ParsedPrint(p);
    FirstFaultNone(ReadAll(hunks), |hunks|);
    NeverTooLong(ReadAll(hunks), |hunks|);
    forall i | 0 <= i < |hunks|
      ensures HunkFault(ReadAll(hunks)[i]) == None <==>
        forall j :: 0 <= j < |hunks[i].body| ==> !LooksLikeHeader(hunks[i].body[j])
      ensures HunkFault(ReadAll(hunks)[i]) == None ==> ReadAll(hunks)[i] == WithoutCr(hunks)[i]
    {
      HunkIsPrintable(p, i);
      ReadFaultIff(hunks[i]);
    }
    if NoLookalike(hunks) {
      assert ReadAll(hunks) == WithoutCr(hunks);
    }
  }

  lemma {:induction false} NeverTooLong(hunks: seq<Hunk>, n: nat)
    requires n <= |hunks|
    ensures FirstFault(hunks, n) != Some(LineTooLong)
  {
    hide OldSide, NewSide, HasStrayLine;
    if n > 0 {
      NeverTooLong(hunks, n - 1);
    }
  }

  /** Reading a printed patch gives its very hunks exactly when no body line looks like a file header or ends in a
      carriage return, and no line takes a mebibyte. */
  lemma PatchRoundTripExact(p: Patch)
    requires IsWritablePatch(p)
    ensures ParsedHunks(Print(p)) == Ok(Hunks(p)) <==>
      NoLookalike(Hunks(p)) && AllFit(Lines(p)) && NoTrailingCr(Hunks(p))
  {
    hide IsWritablePatch, ParsedHunks, Print, NoLookalike, AllFit, DropCr, Hunks, Lines;
    PatchRoundTrip(p);
    var hunks := Hunks(p);
    if WithoutCr(hunks) == hunks {
      forall i, j | 0 <= i < |hunks| && 0 <= j < |hunks[i].body|
        ensures DropCr(hunks[i].body[j]) == hunks[i].body[j]
      {
        assert WithoutCr(hunks)[i].body == CleanLines(hunks[i].body);
        assert CleanLines(hunks[i].body)[j] == DropCr(hunks[i].body[j]);
      }
    }
    if NoTrailingCr(hunks) {
      forall i | 0 <= i < |hunks| ensures CleanLines(hunks[i].body) == hunks[i].body { }
      assert WithoutCr(hunks) == hunks;
    }
  }

  // ---- examples, and what is lost ----

  lemma PrintableHunk(h: Hunk)
    requires (forall i :: 0 <= i < |h.body| ==> IsBodyLine(h.body[i]) && '\n' !in h.body[i])
    requires h.oldCount == |OldSide(h.body)| && h.newCount == |NewSide(h.body)|
    requires IsInt64(h.oldStart) && IsInt64(h.newStart) && IsInt64(h.oldCount) && IsInt64(h.newCount)
    ensures IsPrintable(h)
  {
    hide IsBodyLine, OldSide, NewSide;
    assert !HasStrayLine(h.body, |h.body|);
  }

  lemma SideOfOne(l: string)
    ensures OldSide([l]) == OldLine(l) && NewSide([l]) == NewLine(l)
  {
    assert OldPart([l], 0) == [] && NewPart([l], 0) == [];
  }

  /** One hunk of one line, and nothing around it. */
  lemma OneLinePatch(h: Hunk, l: string)
    requires h.body == [l] && IsBodyLine(l) && '\n' !in l
    requires h.oldCount == |OldLine(l)| && h.newCount == |NewLine(l)| && IsInt64(h.oldStart) && IsInt64(h.newStart)
    ensures IsWritablePatch(Plain([h])) && Hunks(Plain([h])) == [h]
  {
    hide IsBodyLine, OldSide, NewSide, Lines, Body, TrimSpace, IsPrintable;
    SideOfOne(l);
    LineSizes(l);
    PrintableHunk(h);
    StartsWithoutFence(Plain([h]));
  }

  lemma LineSizes(l: string)
    ensures |OldLine(l)| <= 1 && |NewLine(l)| <= 1
  {
  }

  /** The deletion of the line "--x" prints as "---x", is skipped as a file header, and the count no longer fits. */
  lemma DeletedRuleIsSkipped()
    ensures var p := Plain([Hunk(1, 1, 0, 0, ["---x"])]); IsWritablePatch(p) && ParsedHunks(Print(p)).Err?
  {
    hide ParsedHunks, Print, IsWritablePatch, Lines, Hunks, Plain;
    var h := Hunk(1, 1, 0, 0, ["---x"]);
    OneLinePatch(h, "---x");
    assert "---" <= "---x";
    assert LooksLikeHeader([h][0].body[0]);
    PatchRoundTrip(Plain([h]));
  }

  /** An added line that ends in a carriage return is read back without it. */
  lemma CarriageReturnIsDropped()
    ensures var h := Hunk(0, 0, 1, 1, ["+x\r"]);
      IsWritablePatch(Plain([h])) && ParsedHunks(Print(Plain([h]))) == Ok([h.(body := ["+x"])])
  {
    hide ParsedHunks, Print, IsWritablePatch, IsTooLong;
    var h := Hunk(0, 0, 1, 1, ["+x\r"]);
    OneLinePatch(h, "+x\r");
    LinesOfOne(h);
    OnlyHunkFits(h);
    ShortFits("+x\r");
    PatchRoundTrip(Plain([h]));
    assert DropCr("+x\r") == "+x";
    assert CleanLines(["+x\r"]) == ["+x"];
    assert WithoutCr([h]) == [h.(body := ["+x"])];
  }

  lemma LinesOfOne(h: Hunk)
    ensures Lines(Plain([h])) == [PrintHeader(Plain([h]).hunks[0])] + h.body
  {
    hide PrintHeader;
    var w := Plain([h]).hunks[0];
    assert Plain([h]).hunks == [w] && w.headers == [];
    assert [w][1..] == [];
    assert PatchLines([w]) == HunkLines(w) + PatchLines([w][1..]);
    assert PatchLines([w]) == [PrintHeader(w)] + h.body;
  }

  lemma OnlyHunkFits(h: Hunk)
    requires IsWritablePatch(Plain([h]))
    ensures !IsTooLong(PrintHeader(Plain([h]).hunks[0]))
  {
    hide IsTooLong, PrintHeader, Lines, Body, TrimSpace;
    assert IsWritable(Plain([h]).hunks[0]);
    HeaderFits(Plain([h]).hunks[0]);
  }
}
