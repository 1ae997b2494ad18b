/** Applying parsed hunks to a text (sidecar/internal/ihr/evolver.go, ApplyPatch). */
module PatchApply {
  import opened Text

  const MAX_PATCH_LINE_CHANGES := 50

  /** One @@ block. Body lines keep their prefix character. */
  datatype Hunk = Hunk(oldStart: int, oldCount: int, newStart: int, newCount: int, body: seq<string>)

  datatype PatchError =
    | EmptyDiff | NoHunkHeader | MalformedHeader | LineTooLong
    | StrayLine | OldCountMismatch | NewCountMismatch
    | TooManyChanges | OutOfRange | PastEof | Mismatch | UnknownOp

  // ---- the two sides of a hunk ----

  /** A body line that may be applied: blank, or prefixed ' ', '-', '+' or backslash. */
  predicate IsBodyLine(l: string) {
    l == "" || l[0] in {' ', '-', '+', '\\'}
  }

  /** What a body line requires of the old text. */
  function OldLine(l: string): seq<string> {
    if l == "" then [""] else if l[0] == ' ' || l[0] == '-' then [l[1..]] else []
  }

  /** What a body line contributes to the new text. */
  function NewLine(l: string): seq<string> {
    if l == "" then [""] else if l[0] == ' ' || l[0] == '+' then [l[1..]] else []
  }

  /** The old text the first n body lines stand for. */
  function OldPart(body: seq<string>, n: nat): seq<string>
    requires n <= |body|
  {
    if n == 0 then [] else OldPart(body, n - 1) + OldLine(body[n - 1])
  }

  /** The new text the first n body lines stand for. */
  function NewPart(body: seq<string>, n: nat): seq<string>
    requires n <= |body|
  {
    if n == 0 then [] else NewPart(body, n - 1) + NewLine(body[n - 1])
  }

  function OldSide(body: seq<string>): seq<string> {
    OldPart(body, |body|)
  }

  function NewSide(body: seq<string>): seq<string> {
    NewPart(body, |body|)
  }

  predicate IsChange(l: string) {
    l != "" && (l[0] == '+' || l[0] == '-')
  }

  function Changes(body: seq<string>, n: nat): nat
    requires n <= |body|
  {
    if n == 0 then 0 else Changes(body, n - 1) + if IsChange(body[n - 1]) then 1 else 0
  }

  function Touched(hunks: seq<Hunk>, n: nat): nat
    requires n <= |hunks|
  {
    if n == 0 then 0 else Touched(hunks, n - 1) + Changes(hunks[n - 1].body, |hunks[n - 1].body|)
  }

  // ---- where a hunk applies ----

  /** The 0-based index a hunk addresses in the old text; a start of 0 means the beginning. */
  function StartIndex(h: Hunk): int {
    if h.oldStart == 0 then 0 else h.oldStart - 1
  }

  ghost predicate FitsAt(lines: seq<string>, idx: int, body: seq<string>) {
    && 0 <= idx && idx + |OldSide(body)| <= |lines|
    && lines[idx..idx + |OldSide(body)|] == OldSide(body)
    && forall l :: l in body ==> IsBodyLine(l)
  }

  function Splice(lines: seq<string>, idx: int, body: seq<string>): seq<string>
    requires 0 <= idx && idx + |OldSide(body)| <= |lines|
  {
    lines[..idx] + NewSide(body) + lines[idx + |OldSide(body)|..]
  }

  /** Applying hunks one after the other, each at its own start shifted by the net growth so far. */
  ghost function ApplyFrom(lines: seq<string>, hunks: seq<Hunk>, delta: int): Option<seq<string>>
    decreases |hunks|
  {
    if hunks == [] then Some(lines)
    else
      var idx, body := StartIndex(hunks[0]) + delta, hunks[0].body;
      if FitsAt(lines, idx, body) then
        ApplyFrom(Splice(lines, idx, body), hunks[1..], delta + |NewSide(body)| - |OldSide(body)|)
      else None
  }

  // ---- walking one hunk ----

  /** Body line l is acceptable with the walk standing at cursor. */
  predicate LineFits(lines: seq<string>, cursor: nat, l: string) {
    IsBodyLine(l) && (OldLine(l) == [] || (cursor < |lines| && lines[cursor] == OldLine(l)[0]))
  }

  /** The first n body lines are acceptable one after the other. */
  ghost predicate WalksTo(lines: seq<string>, idx: nat, body: seq<string>, n: nat)
    requires n <= |body|
  {
    n == 0 || (WalksTo(lines, idx, body, n - 1) && LineFits(lines, idx + |OldPart(body, n - 1)|, body[n - 1]))
  }

  lemma {:induction false} WalkStops(lines: seq<string>, idx: nat, body: seq<string>, m: nat, n: nat)
    requires m <= n <= |body| && !WalksTo(lines, idx, body, m)
    ensures !WalksTo(lines, idx, body, n)
  {
    if m < n {
      WalkStops(lines, idx, body, m, n - 1);
    }
  }

  /** The fault of an old line that should read want. */
  function Expect(lines: seq<string>, cursor: nat, want: string): Option<PatchError> {
    if cursor >= |lines| then Some(PastEof)
    else if lines[cursor] != want then Some(Mismatch)
    else None
  }

  /** One body line against the text at cursor: what it emits and where the walk goes on. */
  method WalkLine(lines: seq<string>, cursor: nat, l: string)
    returns (fault: Option<PatchError>, emitted: seq<string>, next: nat)
    ensures fault.None? <==> LineFits(lines, cursor, l)
    ensures fault.Some? ==> fault.value in {UnknownOp, PastEof, Mismatch}
    ensures fault == Some(UnknownOp) <==> !IsBodyLine(l)
    ensures fault == Some(PastEof) <==> IsBodyLine(l) && OldLine(l) != [] && cursor >= |lines|
    ensures fault == Some(Mismatch) <==>
      IsBodyLine(l) && OldLine(l) != [] && cursor < |lines| && lines[cursor] != OldLine(l)[0]
    ensures fault.None? ==> emitted == NewLine(l) && next == cursor + |OldLine(l)|
  {
    fault, emitted, next := None, [], cursor;
    if l == "" {
      fault := Expect(lines, cursor, "");
      emitted, next := [""], cursor + 1;
    } else if l[0] == ' ' {
      fault := Expect(lines, cursor, l[1..]);
      emitted, next := [l[1..]], cursor + 1;
    } else if l[0] == '-' {
      fault := Expect(lines, cursor, l[1..]);
      next := cursor + 1;
    } else if l[0] == '+' {
      emitted := [l[1..]];
    } else if l[0] != '\\' {
      fault := Some(UnknownOp);
    }
  }

  /** Checks the body against the text from idx on, collecting the replacement. */
  method WalkBody(lines: seq<string>, idx: nat, body: seq<string>) returns (r: Result<(seq<string>, nat), PatchError>)
    ensures r.Ok? <==> WalksTo(lines, idx, body, |body|)
    ensures r.Ok? ==> r.value == (NewSide(body), idx + |OldSide(body)|)
    ensures r.Err? ==> r.error in {UnknownOp, PastEof, Mismatch}
  {
    hide LineFits, OldLine, NewLine;
    var cursor := idx;
    var newLines: seq<string> := [];
    for i := 0 to |body|
      invariant WalksTo(lines, idx, body, i)
      invariant cursor == idx + |OldPart(body, i)|
      invariant newLines == NewPart(body, i)
    {
      var fault, emitted, next := WalkLine(lines, cursor, body[i]);
      if fault.Some? {
        WalkStops(lines, idx, body, i + 1, |body|);
        return Err(fault.value);
      }
      newLines, cursor := newLines + emitted, next;
    }
    r := Ok((newLines, cursor));
  }

  lemma SliceSnoc(lines: seq<string>, idx: nat, before: seq<string>, x: string)
    requires idx + |before| < |lines|
    ensures lines[idx..idx + |before| + 1] == before + [x] <==>
              lines[idx..idx + |before|] == before && lines[idx + |before|] == x
  {
    var s := lines[idx..idx + |before| + 1];
    assert s == lines[idx..idx + |before|] + [lines[idx + |before|]];
    if s == before + [x] {
      assert s[..|before|] == lines[idx..idx + |before|];
      assert (before + [x])[..|before|] == before;
      assert s[|before|] == x;
    }
  }

  ghost predicate SliceIs(lines: seq<string>, idx: nat, part: seq<string>) {
    idx + |part| <= |lines| && lines[idx..idx + |part|] == part
  }

  lemma SliceExtend(lines: seq<string>, idx: nat, part: seq<string>, line: seq<string>)
    requires |line| <= 1
    ensures SliceIs(lines, idx, part + line) <==>
              SliceIs(lines, idx, part) && (line == [] || (idx + |part| < |lines| && lines[idx + |part|] == line[0]))
  {
    if line == [] {
      assert part + line == part;
    } else if idx + |part| < |lines| {
      SliceSnoc(lines, idx, part, line[0]);
      assert line == [line[0]];
    }
  }

  lemma {:induction false} WalksToSlice(lines: seq<string>, idx: nat, body: seq<string>, n: nat)
    requires n <= |body| && idx <= |lines|
    ensures WalksTo(lines, idx, body, n) <==>
              (forall i :: 0 <= i < n ==> IsBodyLine(body[i])) && SliceIs(lines, idx, OldPart(body, n))
  {
    hide IsBodyLine, OldLine;
    if n > 0 {
      WalksToSlice(lines, idx, body, n - 1);
      AtMostOneOldLine(body[n - 1]);
      SliceExtend(lines, idx, OldPart(body, n - 1), OldLine(body[n - 1]));
    }
  }

  lemma AtMostOneOldLine(l: string)
    ensures |OldLine(l)| <= 1
  {
  }

  /** The walk accepts a body exactly when its old side is the slice of the text it starts at. */
  lemma WalkAcceptsIffFits(lines: seq<string>, idx: nat, body: seq<string>)
    requires idx <= |lines|
    ensures WalksTo(lines, idx, body, |body|) <==> FitsAt(lines, idx, body)
  {
    WalksToSlice(lines, idx, body, |body|);
  }

  // ---- applying all hunks ----

  method ApplyHunks(before: seq<string>, hunks: seq<Hunk>) returns (r: Result<seq<string>, PatchError>)
    ensures match r {
      case Ok(lines) => ApplyFrom(before, hunks, 0) == Some(lines)
      case Err(e) => ApplyFrom(before, hunks, 0) == None && e in {OutOfRange, UnknownOp, PastEof, Mismatch}
    }
  {
    hide FitsAt, WalksTo;
    var lines, delta := before, 0;
    assert hunks[0..] == hunks;
    for hi := 0 to |hunks|
      invariant ApplyFrom(before, hunks, 0) == ApplyFrom(lines, hunks[hi..], delta)
    {
      var h := hunks[hi];
      assert hunks[hi..][1..] == hunks[hi + 1..];
      var idx := h.oldStart - 1;
      if h.oldStart == 0 {
        idx := 0;
      }
      idx := idx + delta;
      if idx < 0 || idx > |lines| {
        OutsideDoesNotFit(lines, idx, h.body);
        return Err(OutOfRange);
      }
      WalkAcceptsIffFits(lines, idx, h.body);
      var walked := WalkBody(lines, idx, h.body);
      if walked.Err? {
        return Err(walked.error);
      }
      FitsInside(lines, idx, h.body);
      var (newLines, cursor) := walked.value;
      delta := delta + |newLines| - (cursor - idx);
      lines := lines[..idx] + newLines + lines[cursor..];
    }
    assert hunks[|hunks|..] == [];
    r := Ok(lines);
  }

  lemma OutsideDoesNotFit(lines: seq<string>, idx: int, body: seq<string>)
    requires idx < 0 || idx > |lines|
    ensures !FitsAt(lines, idx, body)
  {
  }

  lemma FitsInside(lines: seq<string>, idx: int, body: seq<string>)
    requires FitsAt(lines, idx, body)
    ensures 0 <= idx && idx + |OldSide(body)| <= |lines|
  {
  }

  // ---- whole texts ----

  /** strings.ReplaceAll(s, "\r\n", "\n"). */
  function NormaliseNewlines(s: string): string {
    if s == "" then ""
    else if |s| > 1 && s[0] == '\r' && s[1] == '\n' then "\n" + NormaliseNewlines(s[2..])
    else [s[0]] + NormaliseNewlines(s[1..])
  }

  /** The working lines of a text. */
  function LinesOf(content: string): seq<string> {
    Split(NormaliseNewlines(content), '\n')
  }

  method CountTouched(hunks: seq<Hunk>) returns (touched: nat)
    ensures touched == Touched(hunks, |hunks|)
  {
    touched := 0;
    for hi := 0 to |hunks|
      invariant touched == Touched(hunks, hi)
    {
      var body := hunks[hi].body;
      for i := 0 to |body|
        invariant touched == Touched(hunks, hi) + Changes(body, i)
      {
        if body[i] == "" {
          continue;
        }
        if body[i][0] == '+' || body[i][0] == '-' {
          touched := touched + 1;
        }
      }
    }
  }

  /** What applying parsed hunks to a text yields. */
  ghost function Patched(content: string, hunks: seq<Hunk>): Option<string> {
    if Touched(hunks, |hunks|) > MAX_PATCH_LINE_CHANGES then None
    else match ApplyFrom(LinesOf(content), hunks, 0) { case Some(lines) => Some(Join(lines, '\n')) case None => None }
  }

  method ApplyToContent(content: string, hunks: seq<Hunk>) returns (r: Result<string, PatchError>)
    ensures match r {
      case Ok(text) => Patched(content, hunks) == Some(text)
      case Err(_) => Patched(content, hunks) == None
    }
    ensures r == Err(TooManyChanges) <==> Touched(hunks, |hunks|) > 50
  {
    var touched := CountTouched(hunks);
    if touched > MAX_PATCH_LINE_CHANGES {
      return Err(TooManyChanges);
    }
    var applied := ApplyHunks(LinesOf(content), hunks);
    if applied.Err? {
      return Err(applied.error);
    }
    r := Ok(Join(applied.value, '\n'));
  }
}
