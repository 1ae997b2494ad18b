/** Where the program applies a hunk, against where the unified diff format says it goes
    (sidecar/internal/ihr/evolver.go, ApplyPatch). */
module PatchPlacement {
  import opened Text
  import opened PatchApply
  import opened PatchTheorems
  import opened PatchParse

  /** The format's rule: a hunk without old lines goes after the line it names, any other starts at it. */
  function StandardIndex(h: Hunk): int {
    if h.oldCount == 0 then h.oldStart else StartIndex(h)
  }

  /** A pure insertion after some line. */
  predicate InsertsAfterLine(h: Hunk) {
    h.oldCount == 0 && h.oldStart != 0
  }

  /** Application by the format's rule. */
  ghost function StandardFrom(lines: seq<string>, hunks: seq<Hunk>, delta: int): Option<seq<string>>
    decreases |hunks|
  {
    if hunks == [] then Some(lines)
    else
      var idx, body := StandardIndex(hunks[0]) + delta, hunks[0].body;
      if FitsAt(lines, idx, body) then
        StandardFrom(Splice(lines, idx, body), hunks[1..], delta + |NewSide(body)| - |OldSide(body)|)
      else None
  }

  /** The program departs from the format for pure insertions after a line and for no other hunk. */
  lemma PlacementIff(h: Hunk)
    ensures StartIndex(h) == StandardIndex(h) <==> !InsertsAfterLine(h)
  {
  }

  /** A patch without such hunks is applied as the format says, at every offset. */
  lemma {:induction false} StandardWithoutInsertions(lines: seq<string>, hunks: seq<Hunk>, delta: int)
    requires forall i :: 0 <= i < |hunks| ==> !InsertsAfterLine(hunks[i])
    ensures ApplyFrom(lines, hunks, delta) == StandardFrom(lines, hunks, delta)
    decreases |hunks|
  {
    hide FitsAt, OldSide, NewSide, StartIndex, StandardIndex, InsertsAfterLine;
    if hunks != [] {
      PlacementIff(hunks[0]);
      var idx, body := StartIndex(hunks[0]) + delta, hunks[0].body;
      if FitsAt(lines, idx, body) {
        FitsInside(lines, idx, body);
        StandardWithoutInsertions(Splice(lines, idx, body), hunks[1..], delta + |NewSide(body)| - |OldSide(body)|);
      }
    }
  }

  /** An ordered patch without such hunks replaces, by the format's own rule, exactly the slices it names. */
  lemma OrderedPatchIsStandard(original: seq<string>, hunks: seq<Hunk>)
    requires Ordered(hunks, 0) && forall i :: 0 <= i < |hunks| ==> !InsertsAfterLine(hunks[i])
    ensures StandardFrom(original, hunks, 0) ==
      if AllMatch(original, hunks) then Some(Replaced(original, hunks, 0)) else None
  {
    hide Ordered, AllMatch, Replaced, InsertsAfterLine;
    StandardWithoutInsertions(original, hunks, 0);
    OrderedPatchReplacesSlices(original, hunks);
  }

  // ---- one insertion ----

  lemma {:induction false} AllSame(n: seq<string>, x: string, i: nat)
    requires n + [x] == [x] + n && i < |n|
    ensures n[i] == x
  {
    assert (n + [x])[i] == ([x] + n)[i];
    if i > 0 {
      AllSame(n, x, i - 1);
    }
  }

  lemma SwapIff(n: seq<string>, x: string)
    ensures n + [x] == [x] + n <==> forall i :: 0 <= i < |n| ==> n[i] == x
  {
    if n + [x] == [x] + n {
      forall i | 0 <= i < |n| ensures n[i] == x { AllSame(n, x, i); }
    }
  }

  lemma Cancel(front: seq<string>, a: seq<string>, b: seq<string>, back: seq<string>)
    requires |a| == |b|
    ensures front + a + back == front + b + back <==> a == b
  {
    var s, t := front + a + back, front + b + back;
    if s == t {
      assert s[|front|..|front| + |a|] == a && t[|front|..|front| + |b|] == b;
    }
  }

  /** Inserting before line k or after it is the same exactly when every inserted line equals line k. */
  lemma InsertionIff(lines: seq<string>, k: nat, n: seq<string>)
    requires k < |lines|
    ensures lines[..k] + n + lines[k..] == lines[..k + 1] + n + lines[k + 1..] <==>
      forall i :: 0 <= i < |n| ==> n[i] == lines[k]
  {
    var front, x, back := lines[..k], lines[k], lines[k + 1..];
    assert lines[k..] == [x] + back && lines[..k + 1] == front + [x];
    assert lines[..k] + n + lines[k..] == front + (n + [x]) + back;
    assert lines[..k + 1] + n + lines[k + 1..] == front + ([x] + n) + back;
    Cancel(front, n + [x], [x] + n, back);
    SwapIff(n, x);
  }

  lemma ApplyOne(lines: seq<string>, h: Hunk)
    ensures var idx := StartIndex(h);
      ApplyFrom(lines, [h], 0) == if FitsAt(lines, idx, h.body) then Some(Splice(lines, idx, h.body)) else None
    ensures var idx := StandardIndex(h);
      StandardFrom(lines, [h], 0) == if FitsAt(lines, idx, h.body) then Some(Splice(lines, idx, h.body)) else None
  {
    hide FitsAt, Splice, StartIndex, StandardIndex;
    assert [h][1..] == [];
    assert forall s, d :: ApplyFrom(s, [], d) == Some(s) && StandardFrom(s, [], d) == Some(s);
  }

  lemma InsertionFits(lines: seq<string>, h: Hunk, idx: int)
    requires HunkFault(h) == None && h.oldCount == 0
    ensures FitsAt(lines, idx, h.body) <==> 0 <= idx <= |lines|
    ensures 0 <= idx <= |lines| ==> Splice(lines, idx, h.body) == lines[..idx] + NewSide(h.body) + lines[idx..]
  {
    hide IsBodyLine;
    assert |OldSide(h.body)| == 0;
    assert forall l :: l in h.body ==> IsBodyLine(l);
    if 0 <= idx <= |lines| {
      assert lines[idx..idx] == OldSide(h.body);
    }
  }

  /** A pure insertion after line a gives what the format says exactly when both refuse it, or line a is there and every
      inserted line equals it. */
  lemma InsertionIsStandardIff(lines: seq<string>, h: Hunk)
    requires HunkFault(h) == None && InsertsAfterLine(h)
    ensures var a, n := h.oldStart, NewSide(h.body);
      ApplyFrom(lines, [h], 0) == StandardFrom(lines, [h], 0) <==>
        a < 0 || a > |lines| + 1 || (a <= |lines| && forall i :: 0 <= i < |n| ==> n[i] == lines[a - 1])
  {
    hide HunkFault, FitsAt, Splice, NewSide, OldSide;
    var a, n := h.oldStart, NewSide(h.body);
    ApplyOne(lines, h);
    InsertionFits(lines, h, StartIndex(h));
    InsertionFits(lines, h, StandardIndex(h));
    if 1 <= a <= |lines| {
      InsertionIff(lines, a - 1, n);
    }
  }

  /** A case: "-1,0 +2,1" with one added line puts it before the first line instead of after it. */
  lemma InsertionIsMisplaced(added: string, first: string, rest: seq<string>)
    requires added != first
    ensures var h := Hunk(1, 0, 2, 1, ["+" + added]);
      && HunkFault(h) == None
      && ApplyFrom([first] + rest, [h], 0) == Some([added, first] + rest)
      && StandardFrom([first] + rest, [h], 0) == Some([first, added] + rest)
  {
    hide FitsAt, Splice, HunkFault, OldSide, NewSide, ApplyFrom, StandardFrom;
    var h, lines := Hunk(1, 0, 2, 1, ["+" + added]), [first] + rest;
    OneAddedLine(added, h);
    ApplyOne(lines, h);
    InsertionFits(lines, h, 0);
    InsertionFits(lines, h, 1);
    BothPlaces(first, rest, added);
  }

  lemma BothPlaces(first: string, rest: seq<string>, added: string)
    ensures var lines := [first] + rest;
      && lines[..0] + [added] + lines[0..] == [added, first] + rest
      && lines[..1] + [added] + lines[1..] == [first, added] + rest
  {
  }

  lemma OneAddedLine(added: string, h: Hunk)
    requires h.body == ["+" + added] && h.oldCount == 0 && h.newCount == 1
    ensures OldSide(h.body) == [] && NewSide(h.body) == [added] && HunkFault(h) == None
  {
    var body := h.body;
    assert body[0][1..] == added;
    assert OldPart(body, |body| - 1) == [] && NewPart(body, |body| - 1) == [];
  }
}
