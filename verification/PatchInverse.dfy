/** Undoing a patch whose headers are numbered as the unified diff format prescribes
    (sidecar/internal/ihr/evolver.go, ApplyPatch). */
module PatchInverse {
  import opened Text
  import opened PatchApply
  import opened PatchTheorems
  import opened PatchParse
  import opened PatchPlacement

  /** Every new start is the old one shifted by the net growth so far, both read by the format's rule: the line before
      for a side without lines. */
  ghost predicate StandardStartsAgree(hunks: seq<Hunk>, delta: int) {
    hunks == [] ||
    (var h := hunks[0];
     && StandardIndex(InvertHunk(h)) == StandardIndex(h) + delta
     && StandardStartsAgree(hunks[1..], delta + |NewSide(h.body)| - |OldSide(h.body)|))
  }

  ghost predicate AllCounted(hunks: seq<Hunk>) {
    forall i :: 0 <= i < |hunks| ==> HunkFault(hunks[i]) == None
  }

  /** A patch as the format numbers it, which the program reads in order. */
  ghost predicate IsStandard(hunks: seq<Hunk>) {
    AllCounted(hunks) && Ordered(hunks, 0) && StandardStartsAgree(hunks, 0)
  }

  // ---- when one hunk is undone ----

  ghost predicate AllEqual(lines: seq<string>, x: string) {
    forall i :: 0 <= i < |lines| ==> lines[i] == x
  }

  /** The inverse of h undoes it. The program puts a hunk without old lines one line too early. If that happens to h or
      to its inverse and not to both, the lines put in have to equal the line that follows them, or the lines taken out
      the line before them. */
  ghost predicate IsUndone(original: seq<string>, patched: seq<string>, h: Hunk, delta: int) {
    if InsertsAfterLine(h) && !InsertsAfterLine(InvertHunk(h)) then
      var k := StartIndex(h) + delta + |NewSide(h.body)|;
      0 <= k < |patched| && AllEqual(NewSide(h.body), patched[k])
    else if !InsertsAfterLine(h) && InsertsAfterLine(InvertHunk(h)) then
      0 < StartIndex(h) <= |original| && AllEqual(OldSide(h.body), original[StartIndex(h) - 1])
    else true
  }

  ghost predicate AllUndone(original: seq<string>, patched: seq<string>, hunks: seq<Hunk>, delta: int) {
    hunks == [] ||
    (var h := hunks[0];
     && IsUndone(original, patched, h, delta)
     && AllUndone(original, patched, hunks[1..], delta + |NewSide(h.body)| - |OldSide(h.body)|))
  }

  // ---- the place of an inverse hunk ----

  function Shift(h: Hunk): int {
    (if InsertsAfterLine(h) then 1 else 0) - (if InsertsAfterLine(InvertHunk(h)) then 1 else 0)
  }

  lemma InversePlace(h: Hunk, delta: int)
    requires StandardIndex(InvertHunk(h)) == StandardIndex(h) + delta
    ensures StartIndex(InvertHunk(h)) == StartIndex(h) + delta + Shift(h)
  {
  }

  lemma CountedSides(h: Hunk)
    requires HunkFault(h) == None
    ensures |OldSide(h.body)| == h.oldCount && |NewSide(h.body)| == h.newCount
    ensures forall l :: l in h.body ==> IsBodyLine(l)
  {
    hide IsBodyLine, OldSide, NewSide;
    assert !HasStrayLine(h.body, |h.body|);
  }

  /** The inverse hunk fits where the new side stands, and puts the old side there. */
  lemma InverseFitsAt(lines: seq<string>, h: Hunk, idx: int)
    requires HunkFault(h) == None
    ensures var n := |NewSide(h.body)|;
      FitsAt(lines, idx, InvertHunk(h).body) <==>
        0 <= idx && idx + n <= |lines| && lines[idx..idx + n] == NewSide(h.body)
    ensures FitsAt(lines, idx, InvertHunk(h).body) ==>
      Splice(lines, idx, InvertHunk(h).body) == lines[..idx] + OldSide(h.body) + lines[idx + |NewSide(h.body)|..]
  {
    hide OldSide, NewSide, IsBodyLine, HunkFault, InvertBody;
    CountedSides(h);
    InvertSides(h);
  }

  lemma InvertCons(lines: seq<string>, hunks: seq<Hunk>, delta: int)
    requires hunks != [] && StandardStartsAgree(hunks, delta)
    ensures var h := hunks[0]; var idx := StartIndex(h) + Shift(h);
      if FitsAt(lines, idx, InvertHunk(h).body) then
        && 0 <= idx && idx + |OldSide(InvertHunk(h).body)| <= |lines|
        && ApplyFrom(lines, Invert(hunks), -delta)
           == ApplyFrom(Splice(lines, idx, InvertHunk(h).body), Invert(hunks[1..]),
                        -(delta + |NewSide(h.body)| - |OldSide(h.body)|))
      else ApplyFrom(lines, Invert(hunks), -delta) == None
  {
    hide ApplyFrom, FitsAt, Splice, OldSide, NewSide, Shift, StandardIndex, StartIndex, InvertHunk;
    var h := hunks[0];
    InvertTail(hunks);
    InvertSides(h);
    InversePlace(h, delta);
    ApplyCons(lines, Invert(hunks), -delta);
  }

  // ---- steps on the right change nothing on the left ----

  lemma OrderedMeans(hunks: seq<Hunk>, from: int)
    requires hunks != [] && Ordered(hunks, from)
    ensures from <= StartIndex(hunks[0]) <= End(hunks[0]) && Ordered(hunks[1..], End(hunks[0]))
    ensures Ordered(hunks[1..], from)
  {
    hide StartIndex, OldSide;
    OrderedLater(hunks[1..], from, End(hunks[0]));
  }

  lemma OrderedLater(hunks: seq<Hunk>, early: int, late: int)
    requires Ordered(hunks, late) && early <= late
    ensures Ordered(hunks, early)
  {
  }

  lemma CountedTail(hunks: seq<Hunk>)
    requires AllCounted(hunks) && hunks != []
    ensures HunkFault(hunks[0]) == None && AllCounted(hunks[1..])
  {
    hide HunkFault;
  }

  lemma ShiftRange(h: Hunk)
    ensures -1 <= Shift(h) <= 1
    ensures HunkFault(h) == None && Shift(h) == 1 ==>
      OldSide(h.body) == [] && InsertsAfterLine(h) && !InsertsAfterLine(InvertHunk(h))
    ensures HunkFault(h) == None && Shift(h) == -1 ==>
      NewSide(h.body) == [] && !InsertsAfterLine(h) && InsertsAfterLine(InvertHunk(h))
    ensures Shift(h) == 0 ==> InsertsAfterLine(h) == InsertsAfterLine(InvertHunk(h))
  {
    hide OldSide, NewSide, InvertBody;
    if HunkFault(h) == None {
      CountedSides(h);
    }
  }

  lemma StandardTail(hunks: seq<Hunk>, delta: int)
    requires hunks != [] && StandardStartsAgree(hunks, delta)
    ensures StandardStartsAgree(hunks[1..], delta + |NewSide(hunks[0].body)| - |OldSide(hunks[0].body)|)
  {
  }

  /** The inverse of hunks from line from on leaves everything before the line before that alone. */
  lemma {:induction false} KeepsFront(lines: seq<string>, hunks: seq<Hunk>, from: int, delta: int)
    requires AllCounted(hunks) && Ordered(hunks, from) && StandardStartsAgree(hunks, delta)
    requires 1 <= from <= |lines| + 1
    ensures ApplyFrom(lines, Invert(hunks), -delta).Some? ==>
      var after := ApplyFrom(lines, Invert(hunks), -delta).value;
      from - 1 <= |after| && after[..from - 1] == lines[..from - 1]
    decreases |hunks|
  {
    hide FitsAt, Splice, OldSide, NewSide, Shift, StandardIndex, StartIndex, InvertHunk, HunkFault, InsertsAfterLine;
    hide AllCounted, Ordered, StandardStartsAgree, ApplyFrom;
    if hunks == [] {
      NothingToUndo(lines, delta);
    } else {
      var h := hunks[0];
      var idx := StartIndex(h) + Shift(h);
      ShiftRange(h);
      InvertCons(lines, hunks, delta);
      CountedTail(hunks);
      if FitsAt(lines, idx, InvertHunk(h).body) {
        InverseFitsAt(lines, h, idx);
        OrderedMeans(hunks, from);
        StandardTail(hunks, delta);
        var next := Splice(lines, idx, InvertHunk(h).body);
        assert next[..from - 1] == lines[..from - 1];
        KeepsFront(next, hunks[1..], from, delta + |NewSide(h.body)| - |OldSide(h.body)|);
      }
    }
  }

  lemma NothingToUndo(lines: seq<string>, delta: int)
    ensures Invert([]) == [] && ApplyFrom(lines, Invert([]), -delta) == Some(lines)
  {
  }

  // ---- one hunk ----

  /** The inverse one line too late: it takes out the new lines exactly when they equal the line that follows. */
  lemma TakenOutLate(front: seq<string>, n: seq<string>, rest: seq<string>)
    ensures var buffer, idx := front + n + rest, |front| + 1;
      && (idx + |n| <= |buffer| && buffer[idx..idx + |n|] == n <==> rest != [] && AllEqual(n, rest[0]))
      && (rest != [] && AllEqual(n, rest[0]) ==> buffer[..idx] + [] + buffer[idx + |n|..] == front + rest)
  {
    if rest != [] {
      var buffer, idx, y := front + n + rest, |front| + 1, rest[0];
      assert buffer == front + ((n + [y]) + rest[1..]);
      assert buffer[idx..idx + |n|] == (n + [y])[1..];
      if (n + [y])[1..] == n {
        forall i | 0 <= i < |n| ensures n[i] == y { AllSameLater(n, y, i); }
      }
      if AllEqual(n, y) {
        assert (n + [y])[1..] == n;
        assert buffer[..idx] == front + [y];
        assert buffer[idx + |n|..] == rest[1..];
      }
    }
  }

  lemma {:induction false} AllSameLater(n: seq<string>, y: string, i: nat)
    requires (n + [y])[1..] == n && i < |n|
    ensures n[i] == y
    decreases |n| - i
  {
    assert (n + [y])[1..][i] == (n + [y])[i + 1];
    if i + 1 < |n| {
      AllSameLater(n, y, i + 1);
    }
  }

  /** The inverse one line too early: it puts the old lines back where they were exactly when they equal the line before
      them; otherwise the text is wrong before its last restored line. */
  lemma PutBackEarly(front: seq<string>, x: string, o: seq<string>, rest: seq<string>)
    ensures var bad, good := front + o + ([x] + rest), front + [x] + o + rest; var m := |front| + |o|;
      && (AllEqual(o, x) ==> bad == good)
      && (!AllEqual(o, x) ==> bad[..m] != good[..m])
  {
    var bad, good, m := front + o + ([x] + rest), front + [x] + o + rest, |front| + |o|;
    if AllEqual(o, x) {
      assert o + [x] == [x] + o;
      assert bad == front + (o + [x]) + rest && good == front + ([x] + o) + rest;
    } else if bad[..m] == good[..m] {
      forall i | 0 <= i < |o| ensures o[i] == x { SameAsBefore(front, x, o, rest, i); }
    }
  }

  lemma {:induction false} SameAsBefore(front: seq<string>, x: string, o: seq<string>, rest: seq<string>, i: nat)
    requires var bad, good := front + o + ([x] + rest), front + [x] + o + rest; var m := |front| + |o|;
      bad[..m] == good[..m]
    requires i < |o|
    ensures o[i] == x
  {
    var bad, good, m := front + o + ([x] + rest), front + [x] + o + rest, |front| + |o|;
    assert bad[..m][|front| + i] == o[i];
    if i == 0 {
      assert good[..m][|front|] == x;
    } else {
      SameAsBefore(front, x, o, rest, i - 1);
      assert good[..m][|front| + i] == o[i - 1];
    }
  }

  // ---- the whole patch ----

  /** What the buffer looks like while the inverse is applied: restored up to from, patched from there on. */
  ghost predicate InStep(original: seq<string>, patched: seq<string>, from: nat, hunks: seq<Hunk>, delta: int) {
    && AllCounted(hunks) && StandardStartsAgree(hunks, delta)
    && from <= |original| && Ordered(hunks, from) && AllMatch(original, hunks)
    && 0 <= from + delta <= |patched| && patched[from + delta..] == Replaced(original, hunks, from)
  }

  ghost function Buffer(original: seq<string>, from: nat, hunks: seq<Hunk>): seq<string>
    requires from <= |original| && Ordered(hunks, from) && AllMatch(original, hunks)
  {
    original[..from] + Replaced(original, hunks, from)
  }

  lemma Suffixes(original: seq<string>, patched: seq<string>, from: nat, start: int, n: seq<string>, rest: seq<string>,
                 delta: int)
    requires from <= start <= |original| && 0 <= from + delta <= |patched|
    requires patched[from + delta..] == original[from..start] + n + rest
    ensures 0 <= start + delta && start + delta + |n| <= |patched| && patched[start + delta + |n|..] == rest
    ensures original[..from] + (original[from..start] + n + rest) == original[..start] + n + rest
  {
    var tail, k := original[from..start] + n + rest, start - from + |n|;
    assert |patched| == from + delta + |tail|;
    assert tail[k..] == rest;
    assert patched[from + delta..][k..] == patched[from + delta + k..];
    assert original[..from] + original[from..start] == original[..start];
  }

  /** The first hunk and the buffer around it. */
  lemma InStepHead(original: seq<string>, patched: seq<string>, from: nat, hunks: seq<Hunk>, delta: int)
    requires InStep(original, patched, from, hunks, delta) && hunks != []
    ensures var h := hunks[0];
      && from <= StartIndex(h) <= End(h) <= |original| && original[StartIndex(h)..End(h)] == OldSide(h.body)
    ensures Ordered(hunks[1..], End(hunks[0])) && AllMatch(original, hunks[1..])
    ensures var h := hunks[0]; var rest := Replaced(original, hunks[1..], End(h));
      && Buffer(original, from, hunks) == original[..StartIndex(h)] + NewSide(h.body) + rest
      && 0 <= StartIndex(h) + delta && StartIndex(h) + delta + |NewSide(h.body)| <= |patched|
      && patched[StartIndex(h) + delta + |NewSide(h.body)|..] == rest
  {
    hide StartIndex, OldSide, NewSide, Replaced, AllMatch, FitsAt, HunkFault, Ordered, StandardStartsAgree, AllCounted;
    var h := hunks[0];
    ReplacedCons(original, hunks, from);
    assert FitsAt(original, StartIndex(h), h.body) by { TailMatch(original, hunks); }
    OldSideIsSlice(original, StartIndex(h), h.body);
    Suffixes(original, patched, from, StartIndex(h), NewSide(h.body), Replaced(original, hunks[1..], End(h)), delta);
  }

  lemma InStepTail(original: seq<string>, patched: seq<string>, from: nat, hunks: seq<Hunk>, delta: int)
    requires InStep(original, patched, from, hunks, delta) && hunks != []
    ensures var h := hunks[0];
      && HunkFault(h) == None && from <= StartIndex(h) <= End(h) <= |original| && StartIndex(h) + delta >= 0
      && original[StartIndex(h)..End(h)] == OldSide(h.body)
    ensures var h := hunks[0];
      InStep(original, patched, End(h), hunks[1..], delta + |NewSide(h.body)| - |OldSide(h.body)|)
    ensures var h := hunks[0]; var rest := Replaced(original, hunks[1..], End(h));
      && Buffer(original, from, hunks) == original[..StartIndex(h)] + NewSide(h.body) + rest
      && StartIndex(h) + delta + |NewSide(h.body)| <= |patched|
      && patched[StartIndex(h) + delta + |NewSide(h.body)|..] == rest
  {
    hide StartIndex, OldSide, NewSide, Replaced, AllMatch, FitsAt, HunkFault, Ordered, StandardStartsAgree, AllCounted;
    hide Buffer;
    InStepHead(original, patched, from, hunks, delta);
    StandardTail(hunks, delta);
    CountedTail(hunks);
  }

  ghost predicate Restores(lines: seq<string>, hunks: seq<Hunk>, delta: int, original: seq<string>) {
    ApplyFrom(lines, Invert(hunks), -delta) == Some(original)
  }

  /** The hunk is undone: the buffer after it is the one restored up to its end. */
  lemma UndoStep(lines: seq<string>, hunks: seq<Hunk>, delta: int, original: seq<string>, next: seq<string>)
    requires hunks != [] && StandardStartsAgree(hunks, delta) && HunkFault(hunks[0]) == None
    requires var h := hunks[0]; var idx, n := StartIndex(h) + Shift(h), |NewSide(h.body)|;
      && 0 <= idx && idx + n <= |lines| && lines[idx..idx + n] == NewSide(h.body)
      && next == lines[..idx] + OldSide(h.body) + lines[idx + n..]
    ensures var h := hunks[0];
      Restores(lines, hunks, delta, original)
      <==> Restores(next, hunks[1..], delta + |NewSide(h.body)| - |OldSide(h.body)|, original)
  {
    hide StartIndex, OldSide, NewSide, FitsAt, Splice, HunkFault, StandardStartsAgree, ApplyFrom, Shift, InvertHunk;
    var h := hunks[0];
    InverseFitsAt(lines, h, StartIndex(h) + Shift(h));
    InvertCons(lines, hunks, delta);
  }

  lemma NoUndoStep(lines: seq<string>, hunks: seq<Hunk>, delta: int, original: seq<string>)
    requires hunks != [] && StandardStartsAgree(hunks, delta) && HunkFault(hunks[0]) == None
    requires var h := hunks[0]; var idx, n := StartIndex(h) + Shift(h), |NewSide(h.body)|;
      idx < 0 || idx + n > |lines| || lines[idx..idx + n] != NewSide(h.body)
    ensures !Restores(lines, hunks, delta, original)
  {
    hide StartIndex, OldSide, NewSide, FitsAt, Splice, HunkFault, StandardStartsAgree, ApplyFrom, Shift, InvertHunk;
    var h := hunks[0];
    InverseFitsAt(lines, h, StartIndex(h) + Shift(h));
    InvertCons(lines, hunks, delta);
  }

  /** One hunk, against what the buffer then has to be. */
  ghost predicate HeadDecides(original: seq<string>, patched: seq<string>, from: nat, hunks: seq<Hunk>, delta: int)
    requires hunks != [] && InStep(original, patched, from, hunks, delta)
    requires InStep(original, patched, End(hunks[0]), hunks[1..],
                    delta + |NewSide(hunks[0].body)| - |OldSide(hunks[0].body)|)
  {
    var h := hunks[0];
    Restores(Buffer(original, from, hunks), hunks, delta, original) <==>
      && IsUndone(original, patched, h, delta)
      && Restores(Buffer(original, End(h), hunks[1..]), hunks[1..],
                  delta + |NewSide(h.body)| - |OldSide(h.body)|, original)
  }

  lemma HeadInPlace(original: seq<string>, patched: seq<string>, from: nat, hunks: seq<Hunk>, delta: int)
    requires InStep(original, patched, from, hunks, delta) && hunks != [] && Shift(hunks[0]) == 0
    ensures InStep(original, patched, End(hunks[0]), hunks[1..],
                   delta + |NewSide(hunks[0].body)| - |OldSide(hunks[0].body)|)
    ensures HeadDecides(original, patched, from, hunks, delta)
  {
    hide StartIndex, OldSide, NewSide, Replaced, HunkFault, StandardStartsAgree, Shift, InvertHunk, InsertsAfterLine;
    hide Restores, AllEqual, Ordered, AllMatch, AllCounted;
    var h := hunks[0];
    InStepTail(original, patched, from, hunks, delta);
    ShiftRange(h);
    var front, rest := original[..StartIndex(h)], Replaced(original, hunks[1..], End(h));
    var buffer := Buffer(original, from, hunks);
    Middle(front, NewSide(h.body), rest);
    assert original[..End(h)] == front + OldSide(h.body);
    UndoStep(buffer, hunks, delta, original, Buffer(original, End(h), hunks[1..]));
  }

  lemma Middle(front: seq<string>, n: seq<string>, rest: seq<string>)
    ensures var all := front + n + rest;
      all[..|front|] == front && all[|front|..|front| + |n|] == n && all[|front| + |n|..] == rest
  {
  }

  lemma HeadLate(original: seq<string>, patched: seq<string>, from: nat, hunks: seq<Hunk>, delta: int)
    requires InStep(original, patched, from, hunks, delta) && hunks != [] && Shift(hunks[0]) == 1
    ensures InStep(original, patched, End(hunks[0]), hunks[1..],
                   delta + |NewSide(hunks[0].body)| - |OldSide(hunks[0].body)|)
    ensures HeadDecides(original, patched, from, hunks, delta)
  {
    hide StartIndex, OldSide, NewSide, Replaced, HunkFault, StandardStartsAgree, Shift, InvertHunk, InsertsAfterLine;
    hide Restores, AllEqual, Ordered, AllMatch, AllCounted;
    var h := hunks[0];
    InStepTail(original, patched, from, hunks, delta);
    ShiftRange(h);
    var front, n, rest := original[..StartIndex(h)], NewSide(h.body), Replaced(original, hunks[1..], End(h));
    var buffer := Buffer(original, from, hunks);
    TakenOutLate(front, n, rest);
    FollowingLine(patched, StartIndex(h) + delta + |n|, rest);
    if rest != [] && AllEqual(n, rest[0]) {
      UndoStep(buffer, hunks, delta, original, Buffer(original, End(h), hunks[1..]));
    } else {
      NoUndoStep(buffer, hunks, delta, original);
    }
  }

  lemma FollowingLine(patched: seq<string>, k: int, rest: seq<string>)
    requires 0 <= k <= |patched| && patched[k..] == rest
    ensures k < |patched| <==> rest != []
    ensures k < |patched| ==> patched[k] == rest[0]
  {
  }

  lemma HeadEarly(original: seq<string>, patched: seq<string>, from: nat, hunks: seq<Hunk>, delta: int)
    requires InStep(original, patched, from, hunks, delta) && hunks != [] && Shift(hunks[0]) == -1
    ensures InStep(original, patched, End(hunks[0]), hunks[1..],
                   delta + |NewSide(hunks[0].body)| - |OldSide(hunks[0].body)|)
    ensures HeadDecides(original, patched, from, hunks, delta)
  {
    hide StartIndex, OldSide, NewSide, Replaced, HunkFault, StandardStartsAgree, Shift, InvertHunk, InsertsAfterLine;
    hide Restores, AllEqual, Ordered, AllMatch, AllCounted;
    var h := hunks[0];
    InStepTail(original, patched, from, hunks, delta);
    ShiftRange(h);
    var start, o, rest := StartIndex(h), OldSide(h.body), Replaced(original, hunks[1..], End(h));
    var buffer := Buffer(original, from, hunks);
    if start == 0 {
      NoUndoStep(buffer, hunks, delta, original);
    } else {
      EarlyStep(original, hunks, delta, start, o, rest, buffer);
    }
  }

  /** Put back one line early: right exactly when the lines equal the one before, and wrong for good otherwise. */
  lemma EarlyStep(original: seq<string>, hunks: seq<Hunk>, delta: int, start: int, o: seq<string>, rest: seq<string>,
                  buffer: seq<string>)
    requires hunks != [] && StandardStartsAgree(hunks, delta) && AllCounted(hunks) && Shift(hunks[0]) == -1
    requires NewSide(hunks[0].body) == [] && OldSide(hunks[0].body) == o && StartIndex(hunks[0]) == start > 0
    requires End(hunks[0]) == start + |o| <= |original| && original[start..start + |o|] == o
    requires buffer == original[..start] + [] + rest && Ordered(hunks[1..], start + |o|)
    ensures Restores(buffer, hunks, delta, original) <==>
      && AllEqual(o, original[start - 1])
      && Restores(original[..start + |o|] + rest, hunks[1..], delta - |o|, original)
  {
    hide StartIndex, OldSide, NewSide, HunkFault, StandardStartsAgree, Shift, InvertHunk, InsertsAfterLine, AllEqual;
    hide Ordered, AllCounted, Restores;
    var front, x := original[..start - 1], original[start - 1];
    var bad := front + o + ([x] + rest);
    assert buffer == front + [] + ([x] + rest);
    Middle(front, [], [x] + rest);
    CountedTail(hunks);
    UndoStep(buffer, hunks, delta, original, bad);
    PutBackEarly(front, x, o, rest);
    assert original[..start + |o|] == front + [x] + o;
    if !AllEqual(o, x) {
      StandardTail(hunks, delta);
      StaysWrong(bad, hunks[1..], start + |o|, delta - |o|, original);
    }
  }

  lemma StaysWrong(bad: seq<string>, hunks: seq<Hunk>, from: int, delta: int, original: seq<string>)
    requires AllCounted(hunks) && Ordered(hunks, from) && StandardStartsAgree(hunks, delta)
    requires 1 <= from <= |bad| && from <= |original| && bad[..from - 1] != original[..from - 1]
    ensures !Restores(bad, hunks, delta, original)
  {
    hide AllCounted, Ordered, StandardStartsAgree, ApplyFrom;
    KeepsFront(bad, hunks, from, delta);
  }

  lemma {:induction false} UndoIff(original: seq<string>, patched: seq<string>, from: nat, hunks: seq<Hunk>, delta: int)
    requires InStep(original, patched, from, hunks, delta)
    ensures Restores(Buffer(original, from, hunks), hunks, delta, original) <==>
      AllUndone(original, patched, hunks, delta)
    decreases |hunks|
  {
    hide StartIndex, OldSide, NewSide, Shift, InvertHunk, InsertsAfterLine, InStep, IsUndone;
    if hunks == [] {
      UndoneNothing(original, patched, from, delta);
    } else {
      var h := hunks[0];
      hide Restores, Buffer;
      ShiftRange(h);
      if Shift(h) == 0 {
        HeadInPlace(original, patched, from, hunks, delta);
      } else if Shift(h) == 1 {
        HeadLate(original, patched, from, hunks, delta);
      } else {
        HeadEarly(original, patched, from, hunks, delta);
      }
      assert End(h) >= 0 by { InStepTail(original, patched, from, hunks, delta); }
      UndoIff(original, patched, End(h), hunks[1..], delta + |NewSide(h.body)| - |OldSide(h.body)|);
    }
  }

  lemma UndoneNothing(original: seq<string>, patched: seq<string>, from: nat, delta: int)
    requires InStep(original, patched, from, [], delta)
    ensures Restores(Buffer(original, from, []), [], delta, original)
  {
    NothingToUndo(Buffer(original, from, []), delta);
    assert original[..from] + original[from..] == original;
  }

  /** Applying a patch numbered by the format and then its inverse gives back the lines exactly when every hunk is
      undone: only hunks with an empty side can fail to be. */
  lemma InverseUndoesStandardIff(original: seq<string>, hunks: seq<Hunk>, patched: seq<string>)
    requires IsStandard(hunks) && ApplyFrom(original, hunks, 0) == Some(patched)
    ensures ApplyFrom(patched, Invert(hunks), 0) == Some(original) <==> AllUndone(original, patched, hunks, 0)
  {
    hide Ordered, AllMatch, AllCounted, StandardStartsAgree, AllUndone, ApplyFrom;
    OrderedPatchReplacesSlices(original, hunks);
    assert patched[0..] == patched;
    assert original[..0] + Replaced(original, hunks, 0) == patched;
    UndoIff(original, patched, 0, hunks, 0);
  }

  /** Every hunk has lines on both sides. */
  ghost predicate NoEmptySide(hunks: seq<Hunk>) {
    forall i :: 0 <= i < |hunks| ==> hunks[i].oldCount != 0 && hunks[i].newCount != 0
  }

  lemma {:induction false} FullSidesAreUndone(original: seq<string>, patched: seq<string>, hunks: seq<Hunk>, delta: int)
    requires NoEmptySide(hunks)
    ensures AllUndone(original, patched, hunks, delta)
    decreases |hunks|
  {
    if hunks != [] {
      FullSidesAreUndone(original, patched, hunks[1..],
                         delta + |NewSide(hunks[0].body)| - |OldSide(hunks[0].body)|);
    }
  }

  /** So without empty sides the inverse always restores the lines. */
  lemma InverseUndoesFullHunks(original: seq<string>, hunks: seq<Hunk>, patched: seq<string>)
    requires IsStandard(hunks) && NoEmptySide(hunks) && ApplyFrom(original, hunks, 0) == Some(patched)
    ensures ApplyFrom(patched, Invert(hunks), 0) == Some(original)
  {
    hide IsStandard, NoEmptySide, AllUndone, ApplyFrom;
    FullSidesAreUndone(original, patched, hunks, 0);
    InverseUndoesStandardIff(original, hunks, patched);
  }

  /** The same on texts, with the line left and the line ends as further conditions. */
  lemma InverseUndoesStandardTextIff(content: string, hunks: seq<Hunk>, text: string)
    requires IsStandard(hunks) && HunksOfLines(hunks) && Patched(content, hunks) == Some(text)
    ensures ApplyFrom(LinesOf(content), hunks, 0).Some?
    ensures Patched(text, Invert(hunks)) == Some(NormaliseNewlines(content)) <==>
      && AllUndone(LinesOf(content), ApplyFrom(LinesOf(content), hunks, 0).value, hunks, 0)
      && |LinesOf(content)| + NetGrowth(hunks) > 0 && NoCrLf(text)
  {
    hide IsStandard, AllUndone, HunksOfLines, NoCrLf, LinesOf, NormaliseNewlines;
    UndoesTextIff(content, hunks, text);
    var patched := ApplyFrom(LinesOf(content), hunks, 0).value;
    ApplyGrowth(LinesOf(content), hunks, 0);
    InverseUndoesStandardIff(LinesOf(content), hunks, patched);
  }

  // ---- patches of a diff program ----

  /** Hunks in the format's own order, with at least one line between two of them: closer ones are one hunk. */
  ghost predicate Separated(hunks: seq<Hunk>, from: int) {
    hunks == [] ||
    (StandardIndex(hunks[0]) >= from && Separated(hunks[1..], StandardIndex(hunks[0]) + |OldSide(hunks[0].body)| + 1))
  }

  /** Such hunks are in order for the program too, although it moves some of them by a line. */
  lemma {:induction false} SeparatedIsOrdered(hunks: seq<Hunk>, from: nat)
    requires Separated(hunks, from)
    ensures Ordered(hunks, if from == 0 then 0 else from - 1)
    decreases |hunks|
  {
    hide OldSide;
    if hunks != [] {
      var h := hunks[0];
      var next := StandardIndex(h) + |OldSide(h.body)| + 1;
      SeparatedIsOrdered(hunks[1..], next);
      OrderedLater(hunks[1..], End(h), next - 1);
    }
  }

  // ---- what fails ----

  lemma OneLine(l: string)
    requires IsBodyLine(l)
    ensures OldSide([l]) == OldLine(l) && NewSide([l]) == NewLine(l) && !HasStrayLine([l], 1)
    ensures InvertBody([l]) == [InvertLine(l)]
  {
    hide OldLine, NewLine;
    assert OldPart([l], 0) == [] && NewPart([l], 0) == [];
  }

  lemma OneHunk(h: Hunk, l: string)
    requires h.body == [l] && IsBodyLine(l) && h.oldCount == |OldLine(l)| && h.newCount == |NewLine(l)|
    requires StartIndex(h) >= 0
    ensures HunkFault(h) == None && AllCounted([h]) && Ordered([h], 0) && Invert([h]) == [InvertHunk(h)]
  {
    hide OldLine, NewLine;
    OneLine(l);
    assert [h][1..] == [];
  }

  lemma OneStart(h: Hunk)
    ensures StandardIndex(InvertHunk(h)) == StandardIndex(h) ==> StandardStartsAgree([h], 0)
    ensures StartIndex(InvertHunk(h)) == StartIndex(h) ==> NewStartsAgree([h], 0)
  {
    hide StandardIndex, StartIndex, InvertHunk, OldSide, NewSide;
    var tail, d := [h][1..], 0 + |NewSide(h.body)| - |OldSide(h.body)|;
    assert tail == [];
    assert StandardStartsAgree(tail, d) && NewStartsAgree(tail, d);
  }

  /** The second line deleted, numbered "-2,1 +1,0": the inverse puts it back before the first line. */
  lemma DeletionComesBackEarly(a: string, b: string, rest: seq<string>)
    requires a != b
    ensures var h := Hunk(2, 1, 1, 0, ["-" + b]);
      && IsStandard([h]) && ApplyFrom([a, b] + rest, [h], 0) == Some([a] + rest)
      && ApplyFrom([a] + rest, Invert([h]), 0) == Some([b, a] + rest)
  {
    hide ApplyFrom, StandardFrom, AllCounted, Ordered, OldSide, NewSide, StandardStartsAgree;
    var l := "-" + b;
    var h := Hunk(2, 1, 1, 0, [l]);
    assert l[1..] == b;
    OneLine(l);
    OneHunk(h, l);
    OneStart(h);
    InvertSides(h);
    ApplyOne([a, b] + rest, h);
    ApplyOne([a] + rest, InvertHunk(h));
    assert ([a, b] + rest)[1..2] == [b];
    assert ([a, b] + rest)[..1] + [] + ([a, b] + rest)[2..] == [a] + rest;
    assert ([a] + rest)[..0] + [b] + ([a] + rest)[0..] == [b, a] + rest;
    assert InvertLine(l) == "+" + b;
  }

  lemma TwoLines()
    ensures NormaliseNewlines("\r\r\n") == "\r\n" && NormaliseNewlines("\r\n") == "\n"
    ensures LinesOf("\r\r\n") == ["\r", ""] && LinesOf("\r\n") == ["", ""]
    ensures Join(["\r", ""], '\n') == "\r\n"
  {
    assert "\r\n"[2..] == "" && "\r\r\n"[1..] == "\r\n" && "\n"[1..] == "";
    assert Split("", '\n') == [""] && Split("\n", '\n') == ["", ""];
    assert "\r\n"[1..] == "\n";
    var rest := Split("\n", '\n');
    assert rest[0] == "" && rest[1..] == [""];
    assert ['\r'] + rest[0] == "\r";
    assert Split("\r\n", '\n') == [['\r'] + rest[0]] + rest[1..];
    assert ["\r", ""][1..] == [""];
  }

  /** The conditions on texts fail too. A line of the original that ends in two carriage returns ends in one after the
      patch, and the inverse reads that as a line end of two characters. */
  lemma CrLfIsLost()
    ensures var h := Hunk(2, 1, 2, 1, [" "]);
      && IsConsistent([h]) && IsStandard([h]) && Patched("\r\r\n", [h]) == Some("\r\n")
      && Patched("\r\n", Invert([h])) != Some(NormaliseNewlines("\r\r\n"))
  {
    hide ApplyFrom, StandardFrom, AllCounted, Ordered, OldSide, NewSide, LinesOf, Join, StandardStartsAgree;
    hide NewStartsAgree;
    var h := Hunk(2, 1, 2, 1, [" "]);
    TwoLines();
    assert " "[1..] == "";
    OneLine(" ");
    OneHunk(h, " ");
    OneStart(h);
    ApplyOne(["\r", ""], h);
    assert ["\r", ""][1..2] == [""];
    assert ["\r", ""][..1] + [""] + ["\r", ""][2..] == ["\r", ""];
    assert Touched([h], 1) == 0;
    assert Patched("\r\r\n", [h]) == Some("\r\n");
    var text := "\r\n";
    assert text[0] == '\r' && text[1] == '\n';
    assert HunksOfLines([h]) by { assert IsLine(" "); }
    InverseUndoesTextIff("\r\r\n", [h], text);
  }

  /** And a text all of whose lines are deleted comes back with an empty line behind them. */
  lemma EmptiedTextGrows()
    ensures var h := Hunk(1, 1, 0, 0, ["-x"]);
      && IsConsistent([h]) && IsStandard([h]) && Patched("x", [h]) == Some("")
      && Patched("", Invert([h])) != Some("x")
  {
    hide ApplyFrom, StandardFrom, AllCounted, Ordered, OldSide, NewSide, NoCrLf, StandardStartsAgree, NewStartsAgree;
    var h := Hunk(1, 1, 0, 0, ["-x"]);
    assert "-x"[1..] == "x";
    OneLine("-x");
    OneHunk(h, "-x");
    OneStart(h);
    assert "x"[1..] == "" && NormaliseNewlines("x") == "x" && LinesOf("x") == ["x"];
    ApplyOne(["x"], h);
    assert ["x"][0..1] == ["x"] && ["x"][..0] + [] + ["x"][1..] == [];
    assert Touched([h], 1) == 1;
    assert Patched("x", [h]) == Some("");
    assert NetGrowth([h]) == -1;
    assert HunksOfLines([h]) by { assert IsLine("-x"); }
    InverseUndoesTextIff("x", [h], "");
  }
}
