/** What a diff does to a text, told on the characters of both (sidecar/internal/ihr/evolver.go, ApplyPatch). */
module PatchText {
  import opened Text
  import opened PatchApply
  import opened PatchParse
  import opened PatchPrint
  import opened PatchRoundTrip

  /** A space keeps the line, a minus sign takes it out, a plus sign puts it in, a backslash is a remark; only lines put
      in or taken out are counted. A blank line stands for a blank line that is kept. */
  lemma BodyLineMeaning(x: string)
    ensures OldLine(" " + x) == [x] && NewLine(" " + x) == [x] && !IsChange(" " + x)
    ensures OldLine("-" + x) == [x] && NewLine("-" + x) == [] && IsChange("-" + x)
    ensures OldLine("+" + x) == [] && NewLine("+" + x) == [x] && IsChange("+" + x)
    ensures OldLine("\\" + x) == [] && NewLine("\\" + x) == [] && !IsChange("\\" + x)
    ensures OldLine("") == [""] && NewLine("") == [""] && !IsChange("")
  {
    assert forall c: char :: ([c] + x)[1..] == x;
  }

  /** At most fifty lines may be put in or taken out. */
  lemma FiftyChangesAtMost(content: string, hunks: seq<Hunk>)
    ensures Patched(content, hunks).Some? ==> Touched(hunks, |hunks|) <= 50
    ensures Touched(hunks, |hunks|) <= 50 ==>
      (Patched(content, hunks).Some? <==> ApplyFrom(LinesOf(content), hunks, 0).Some?)
  {
    hide ApplyFrom, Touched;
  }

  // ---- the lines of a text ----

  /** Lines written one after the other, each ended by an LF or, where marked, by CR and LF, and a last one. */
  function WrittenText(lines: seq<string>, crlf: seq<bool>, last: string): string
    requires |lines| == |crlf|
  {
    if lines == [] then last
    else lines[0] + (if crlf[0] then "\r\n" else "\n") + WrittenText(lines[1..], crlf[1..], last)
  }

  /** A line with none of the characters of a line end; a carriage return inside a line is kept. */
  ghost predicate IsEndless(l: string) {
    '\n' !in l && (l == "" || l[|l| - 1] != '\r')
  }

  lemma {:induction false} NormaliseLine(l: string, end: string, rest: string)
    requires IsEndless(l) && (end == "\n" || end == "\r\n")
    ensures NormaliseNewlines(l + end + rest) == l + "\n" + NormaliseNewlines(rest)
  {
    hide NormaliseNewlines;
    if l == "" {
      NormaliseEnd(end, rest);
      assert l + end + rest == end + rest && l + "\n" + NormaliseNewlines(rest) == "\n" + NormaliseNewlines(rest);
    } else {
      NormaliseLine(l[1..], end, rest);
      LineCons(l, end, rest);
      NormaliseFirst(l + end + rest);
      assert [l[0]] + (l[1..] + "\n" + NormaliseNewlines(rest)) == l + "\n" + NormaliseNewlines(rest);
    }
  }

  lemma NormaliseEnd(end: string, rest: string)
    requires end == "\n" || end == "\r\n"
    ensures NormaliseNewlines(end + rest) == "\n" + NormaliseNewlines(rest)
  {
    if end == "\n" {
      assert (end + rest)[1..] == rest;
    } else {
      assert (end + rest)[2..] == rest;
    }
  }

  lemma LineCons(l: string, end: string, rest: string)
    requires IsEndless(l) && l != "" && end != ""
    ensures var s := l + end + rest;
      && s[0] == l[0] && s[1..] == l[1..] + end + rest && IsEndless(l[1..])
      && !(|s| > 1 && s[0] == '\r' && s[1] == '\n')
  {
    var s := l + end + rest;
    if |l| > 1 {
      assert s[1] == l[1] && l[1] in l;
    }
  }

  lemma NormaliseFirst(s: string)
    requires s != "" && !(|s| > 1 && s[0] == '\r' && s[1] == '\n')
    ensures NormaliseNewlines(s) == [s[0]] + NormaliseNewlines(s[1..])
  {
  }

  lemma {:induction false} NormaliseLast(l: string)
    requires '\n' !in l
    ensures NormaliseNewlines(l) == l
  {
    if l != "" {
      NormaliseLast(l[1..]);
      NormaliseFirst(l);
      assert [l[0]] + l[1..] == l;
    }
  }

  /** The lines a text is patched by are those it was written from, with either line end. */
  lemma {:induction false} LinesAreRead(lines: seq<string>, crlf: seq<bool>, last: string)
    requires |lines| == |crlf| && '\n' !in last && forall i :: 0 <= i < |lines| ==> IsEndless(lines[i])
    ensures LinesOf(WrittenText(lines, crlf, last)) == lines + [last]
  {
    hide NormaliseNewlines, Split, IsEndless;
    if lines == [] {
      NormaliseLast(last);
      SplitWhole(last, '\n');
    } else {
      var rest := WrittenText(lines[1..], crlf[1..], last);
      LinesAreRead(lines[1..], crlf[1..], last);
      NormaliseLine(lines[0], if crlf[0] then "\r\n" else "\n", rest);
      EndlessHasNoNewline(lines[0]);
      SplitPart(lines[0], NormaliseNewlines(rest), '\n');
      assert [lines[0]] + (lines[1..] + [last]) == lines + [last];
    }
  }

  lemma EndlessHasNoNewline(l: string)
    requires IsEndless(l)
    ensures '\n' !in l
  {
  }

  // ---- one line for another ----

  /** The diff that replaces line k, which reads x, by y. */
  function ReplaceDiff(k: nat, x: string, y: string): string {
    "@@ -" + Itoa(k) + " +" + Itoa(k) + " @@\n-" + x + "\n+" + y + "\n"
  }

  function ReplaceHunk(k: nat, x: string, y: string): Hunk {
    Hunk(k, 1, k, 1, ["-" + x, "+" + y])
  }

  function ReplacePatch(k: nat, x: string, y: string): Patch {
    Patch([], [Written(ReplaceHunk(k, x, y), [], true, true, "")], true, None)
  }

  /** A line the diff format can carry behind the given sign: one line, short of a mebibyte, that the sign does not turn
      into a file header, and without a carriage return at its end. */
  ghost predicate CanCarry(sign: char, x: string) {
    && '\n' !in x && !IsTooLong([sign] + x) && (x == "" || x[|x| - 1] != '\r')
    && !(|x| >= 2 && x[0] == sign && x[1] == sign)
  }

  lemma ReplaceLines(k: nat, x: string, y: string)
    ensures Lines(ReplacePatch(k, x, y)) == ["@@ -" + Itoa(k) + " +" + Itoa(k) + " @@", "-" + x, "+" + y]
  {
    hide Itoa;
    var w := ReplacePatch(k, x, y).hunks[0];
    assert PatchLines([w][1..]) == [];
    assert PatchLines([w]) == HunkLines(w) + PatchLines([w][1..]);
    assert PrintHeader(w) == "@@ -" + Itoa(k) + " +" + Itoa(k) + " @@";
  }

  lemma ReplacePrints(k: nat, x: string, y: string)
    ensures Print(ReplacePatch(k, x, y)) == ReplaceDiff(k, x, y)
  {
    hide Itoa, Lines;
    ReplaceLines(k, x, y);
    var header := "@@ -" + Itoa(k) + " +" + Itoa(k) + " @@";
    UnlinesOfThree(header, "-" + x, "+" + y);
  }

  lemma UnlinesOfThree(a: string, b: string, c: string)
    ensures Unlines([a, b, c]) == a + "\n" + b + "\n" + c + "\n"
  {
    assert [a, b, c][1..] == [b, c] && [b, c][1..] == [c] && [c][1..] == [];
    assert Unlines([c]) == c + "\n";
    assert Unlines([b, c]) == b + "\n" + (c + "\n");
    assert Unlines([a, b, c]) == a + "\n" + (b + "\n" + (c + "\n"));
  }

  lemma ReplaceSides(x: string, y: string)
    ensures var body := ["-" + x, "+" + y]; OldSide(body) == [x] && NewSide(body) == [y] && Changes(body, 2) == 2
  {
    var body := ["-" + x, "+" + y];
    BodyLineMeaning(x);
    BodyLineMeaning(y);
    assert OldPart(body, 0) == [] && NewPart(body, 0) == [] && Changes(body, 0) == 0;
    assert OldPart(body, 1) == [x] && NewPart(body, 1) == [] && Changes(body, 1) == 1;
  }

  lemma ReplaceIsWritable(k: nat, x: string, y: string)
    requires 1 <= k <= INT64_MAX && '\n' !in x && '\n' !in y
    ensures IsWritablePatch(ReplacePatch(k, x, y)) && IsWritable(ReplacePatch(k, x, y).hunks[0])
  {
    hide Itoa, Lines, Body, TrimSpace, IsPrintable, OldSide, NewSide;
    ReplaceSides(x, y);
    PrintableHunk(ReplaceHunk(k, x, y));
    StartsWithoutFence(ReplacePatch(k, x, y));
  }

  lemma CarriedLine(sign: char, x: string)
    requires CanCarry(sign, x) && sign in {'-', '+'}
    ensures !LooksLikeHeader([sign] + x) && DropCr([sign] + x) == [sign] + x
  {
    var l := [sign] + x;
    assert l[0] == sign && (|l| >= 3 ==> l[1] == x[0] && l[2] == x[1]);
    StartsThrice(l, '-');
    StartsThrice(l, '+');
  }

  lemma StartsThrice(l: string, c: char)
    ensures [c, c, c] <= l <==> |l| >= 3 && l[0] == c && l[1] == c && l[2] == c
  {
  }

  /** The diff as text reads back as its one hunk, counts of one being understood. */
  lemma ReplaceReads(k: nat, x: string, y: string)
    requires 1 <= k <= INT64_MAX && CanCarry('-', x) && CanCarry('+', y)
    ensures ParsedHunks(ReplaceDiff(k, x, y)) == Ok([ReplaceHunk(k, x, y)])
  {
    hide ParsedHunks, ReplaceDiff, Print, IsWritablePatch, IsWritable, Lines, IsTooLong, LooksLikeHeader, DropCr;
    var p := ReplacePatch(k, x, y);
    ReplacePrints(k, x, y);
    ReplaceIsWritable(k, x, y);
    CarriedLine('-', x);
    CarriedLine('+', y);
    ReplaceLines(k, x, y);
    HeaderFits(p.hunks[0]);
    assert PrintHeader(p.hunks[0]) == "@@ -" + Itoa(k) + " +" + Itoa(k) + " @@";
    PatchRoundTripExact(p);
    assert Hunks(p) == [ReplaceHunk(k, x, y)];
  }

  lemma OneHunk(lines: seq<string>, h: Hunk)
    ensures ApplyFrom(lines, [h], 0) ==
      if FitsAt(lines, StartIndex(h), h.body) then Some(Splice(lines, StartIndex(h), h.body)) else None
  {
    hide FitsAt;
    assert [h][1..] == [];
    if FitsAt(lines, StartIndex(h), h.body) {
      FitsInside(lines, StartIndex(h), h.body);
    }
  }

  lemma ReplaceFits(lines: seq<string>, k: nat, x: string, y: string)
    requires k >= 1
    ensures FitsAt(lines, k - 1, ["-" + x, "+" + y]) <==> k <= |lines| && lines[k - 1] == x
  {
    hide OldSide;
    var body := ["-" + x, "+" + y];
    ReplaceSides(x, y);
    assert forall l :: l in body ==> IsBodyLine(l);
    if k <= |lines| {
      assert lines[k - 1..k] == [lines[k - 1]];
    }
  }

  lemma ReplaceSplices(lines: seq<string>, k: nat, x: string, y: string)
    requires 1 <= k <= |lines| && |OldSide(["-" + x, "+" + y])| == 1
    ensures Splice(lines, k - 1, ["-" + x, "+" + y]) == lines[k - 1 := y]
  {
    hide OldSide, NewSide;
    ReplaceSides(x, y);
    assert lines[..k - 1] + [y] + lines[k..] == lines[k - 1 := y];
  }

  lemma ReplaceApplies(lines: seq<string>, k: nat, x: string, y: string)
    requires k >= 1
    ensures ApplyFrom(lines, [ReplaceHunk(k, x, y)], 0) ==
      if k <= |lines| && lines[k - 1] == x then Some(lines[k - 1 := y]) else None
  {
    hide OldSide, NewSide, ApplyFrom, FitsAt, Splice;
    ReplaceSides(x, y);
    OneHunk(lines, ReplaceHunk(k, x, y));
    ReplaceFits(lines, k, x, y);
    if k <= |lines| {
      ReplaceSplices(lines, k, x, y);
    }
  }

  /** The diff "@@ -k +k @@" with the lines "-x" and "+y" puts y in place of line k when that line reads x, changes
      nothing else, and is refused when it reads otherwise or the text is shorter. */
  lemma ReplaceOneLine(content: string, k: nat, x: string, y: string)
    requires 1 <= k <= INT64_MAX && CanCarry('-', x) && CanCarry('+', y)
    ensures ParsedHunks(ReplaceDiff(k, x, y)).Ok?
    ensures var lines := LinesOf(content);
      Patched(content, ParsedHunks(ReplaceDiff(k, x, y)).value) ==
        if k <= |lines| && lines[k - 1] == x then Some(Join(lines[k - 1 := y], '\n')) else None
  {
    hide ParsedHunks, ReplaceDiff, CanCarry, ApplyFrom, Changes, Join, LinesOf;
    ReplaceReads(k, x, y);
    ReplaceApplies(LinesOf(content), k, x, y);
    TouchedByOne(k, x, y);
  }

  lemma TouchedByOne(k: nat, x: string, y: string)
    ensures Touched([ReplaceHunk(k, x, y)], 1) == 2
  {
    hide Changes;
    ReplaceSides(x, y);
    assert Touched([ReplaceHunk(k, x, y)], 0) == 0;
  }

  /** The shortest unified diff: "old" becomes "new". */
  lemma OldBecomesNew()
    ensures ParsedHunks("@@ -1 +1 @@\n-old\n+new\n") == Ok([Hunk(1, 1, 1, 1, ["-old", "+new"])])
    ensures Patched("old", [Hunk(1, 1, 1, 1, ["-old", "+new"])]) == Some("new")
  {
    hide ParsedHunks, Patched, LinesOf, Join, Utf8Length;
    assert Itoa(1) == "1";
    assert ReplaceDiff(1, "old", "new") == "@@ -1 +1 @@\n-old\n+new\n";
    assert "-" + "old" == "-old" && "+" + "new" == "+new";
    ShortFits("-old");
    ShortFits("+new");
    ReplaceReads(1, "old", "new");
    ReplaceOneLine("old", 1, "old", "new");
    assert LinesOf("old") == ["old"] by { LinesOfOld(); }
    assert ["old"][0 := "new"] == ["new"];
    assert Join(["new"], '\n') == "new" by { JoinOfOne("new"); }
  }

  lemma LinesOfOld()
    ensures LinesOf("old") == ["old"]
  {
    assert "old"[1..] == "ld" && "ld"[1..] == "d" && "d"[1..] == "";
    assert NormaliseNewlines("d") == "d";
    assert NormaliseNewlines("ld") == "ld";
    assert NormaliseNewlines("old") == "old";
    SplitWhole("old", '\n');
  }

  lemma JoinOfOne(s: string)
    ensures Join([s], '\n') == s
  {
  }
}
