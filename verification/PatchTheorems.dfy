/** What applying an ordered patch means: the original text with exactly the addressed slices replaced,
    and a patch that undoes it. */
module PatchTheorems {
  import opened Text
  import opened PatchApply

  // ---- replacing slices of the original ----

  function End(h: Hunk): int {
    StartIndex(h) + |OldSide(h.body)|
  }

  /** The hunks address disjoint slices of the original, left to right, none before from. */
  ghost predicate Ordered(hunks: seq<Hunk>, from: int) {
    hunks == [] || (StartIndex(hunks[0]) >= from && Ordered(hunks[1..], End(hunks[0])))
  }

  /** Every hunk's old side is the slice of the original its header addresses. */
  ghost predicate AllMatch(original: seq<string>, hunks: seq<Hunk>) {
    forall i :: 0 <= i < |hunks| ==> FitsAt(original, StartIndex(hunks[i]), hunks[i].body)
  }

  /** The original from position from on, with the addressed slices replaced by the new sides. */
  ghost function Replaced(original: seq<string>, hunks: seq<Hunk>, from: nat): seq<string>
    requires Ordered(hunks, from) && AllMatch(original, hunks) && from <= |original|
    decreases |hunks|
  {
    if hunks == [] then original[from..]
    else
      var h := hunks[0];
      original[from..StartIndex(h)] + NewSide(h.body) + Replaced(original, hunks[1..], End(h))
  }

  lemma ReplacedCons(original: seq<string>, hunks: seq<Hunk>, from: nat)
    requires hunks != [] && Ordered(hunks, from) && AllMatch(original, hunks) && from <= |original|
    ensures from <= StartIndex(hunks[0]) <= End(hunks[0]) <= |original|
    ensures Ordered(hunks[1..], End(hunks[0])) && AllMatch(original, hunks[1..])
    ensures Replaced(original, hunks, from)
            == original[from..StartIndex(hunks[0])] + NewSide(hunks[0].body)
               + Replaced(original, hunks[1..], End(hunks[0]))
  {
  }

  lemma ApplyCons(lines: seq<string>, hunks: seq<Hunk>, delta: int)
    requires hunks != []
    ensures var idx, body := StartIndex(hunks[0]) + delta, hunks[0].body;
            if FitsAt(lines, idx, body) then
              0 <= idx && idx + |OldSide(body)| <= |lines| &&
              ApplyFrom(lines, hunks, delta)
              == ApplyFrom(Splice(lines, idx, body), hunks[1..], delta + |NewSide(body)| - |OldSide(body)|)
            else ApplyFrom(lines, hunks, delta) == None
  {
  }

  /** A slice of the untouched rest reads the same in the working buffer, shifted by the net growth. */
  lemma ShiftedFit(prefix: seq<string>, original: seq<string>, from: nat, start: int, body: seq<string>)
    requires from <= |original| && start >= from
    ensures FitsAt(prefix + original[from..], start - from + |prefix|, body) <==> FitsAt(original, start, body)
  {
    var n := |OldSide(body)|;
    var buffer, idx := prefix + original[from..], start - from + |prefix|;
    if start + n <= |original| {
      assert buffer[idx..idx + n] == original[start..start + n];
    }
  }

  lemma SpliceBuffer(prefix: seq<string>, original: seq<string>, from: nat, start: int, body: seq<string>)
    requires from <= start && FitsAt(original, start, body)
    requires FitsAt(prefix + original[from..], start - from + |prefix|, body)
    ensures Splice(prefix + original[from..], start - from + |prefix|, body)
            == (prefix + original[from..start] + NewSide(body)) + original[start + |OldSide(body)|..]
  {
    var n := |OldSide(body)|;
    var buffer, idx := prefix + original[from..], start - from + |prefix|;
    assert buffer[..idx] == prefix + original[from..start];
    assert buffer[idx + n..] == original[start + n..];
  }

  /** The buffer invariant of the apply loop: what is done, then the untouched rest of the original. */
  lemma {:induction false} ApplyIsReplacement(prefix: seq<string>, original: seq<string>, from: nat, hunks: seq<Hunk>)
    requires from <= |original| && Ordered(hunks, from)
    ensures AllMatch(original, hunks) ==>
              ApplyFrom(prefix + original[from..], hunks, |prefix| - from)
                == Some(prefix + Replaced(original, hunks, from))
    ensures !AllMatch(original, hunks) ==> ApplyFrom(prefix + original[from..], hunks, |prefix| - from) == None
    decreases |hunks|
  {
    hide FitsAt, AllMatch, Replaced, ApplyFrom, OldSide, NewSide;
    if hunks == [] {
      ApplyNothing(prefix, original, from);
    } else {
      var h := hunks[0];
      ApplyOneHunk(prefix, original, from, hunks);
      TailMatch(original, hunks);
      if FitsAt(original, StartIndex(h), h.body) {
        var prefix' := prefix + original[from..StartIndex(h)] + NewSide(h.body);
        ApplyIsReplacement(prefix', original, End(h), hunks[1..]);
        if AllMatch(original, hunks) {
          ReplacedCons(original, hunks, from);
          assert prefix' + Replaced(original, hunks[1..], End(h)) == prefix + Replaced(original, hunks, from);
        }
      }
    }
  }

  lemma ApplyNothing(prefix: seq<string>, original: seq<string>, from: nat)
    requires from <= |original|
    ensures AllMatch(original, [])
    ensures ApplyFrom(prefix + original[from..], [], |prefix| - from) == Some(prefix + Replaced(original, [], from))
  {
  }

  /** One step of the loop: the finished part grows by the gap and the new side, the rest starts after the old side. */
  lemma ApplyOneHunk(prefix: seq<string>, original: seq<string>, from: nat, hunks: seq<Hunk>)
    requires from <= |original| && hunks != [] && StartIndex(hunks[0]) >= from
    ensures var h := hunks[0];
            var result := ApplyFrom(prefix + original[from..], hunks, |prefix| - from);
            if FitsAt(original, StartIndex(h), h.body) then
              StartIndex(h) <= End(h) <= |original| &&
              (var prefix' := prefix + original[from..StartIndex(h)] + NewSide(h.body);
               result == ApplyFrom(prefix' + original[End(h)..], hunks[1..], |prefix'| - End(h)))
            else result == None
  {
    hide ApplyFrom, FitsAt, NewSide, OldSide, Splice;
    var h := hunks[0];
    var start := StartIndex(h);
    ApplyCons(prefix + original[from..], hunks, |prefix| - from);
    ShiftedFit(prefix, original, from, start, h.body);
    if FitsAt(original, start, h.body) {
      OldSideIsSlice(original, start, h.body);
      SpliceBuffer(prefix, original, from, start, h.body);
    }
  }

  lemma TailMatch(original: seq<string>, hunks: seq<Hunk>)
    requires hunks != []
    ensures AllMatch(original, hunks) <==>
              FitsAt(original, StartIndex(hunks[0]), hunks[0].body) && AllMatch(original, hunks[1..])
  {
    hide FitsAt;
    if FitsAt(original, StartIndex(hunks[0]), hunks[0].body) && AllMatch(original, hunks[1..]) {
      forall i | 0 <= i < |hunks|
        ensures FitsAt(original, StartIndex(hunks[i]), hunks[i].body)
      {
        if i > 0 { assert hunks[i] == hunks[1..][i - 1]; }
      }
    }
    if AllMatch(original, hunks) {
      forall i | 0 <= i < |hunks[1..]|
        ensures FitsAt(original, StartIndex(hunks[1..][i]), hunks[1..][i].body)
      {
        assert hunks[1..][i] == hunks[i + 1];
      }
    }
  }

  /** For hunks in order, applying them one by one succeeds exactly when every old side equals its slice of the
      original, and the result is the original with exactly those slices replaced. */
  lemma OrderedPatchReplacesSlices(original: seq<string>, hunks: seq<Hunk>)
    requires Ordered(hunks, 0)
    ensures AllMatch(original, hunks) ==> ApplyFrom(original, hunks, 0) == Some(Replaced(original, hunks, 0))
    ensures !AllMatch(original, hunks) ==> ApplyFrom(original, hunks, 0) == None
  {
    assert [] + original[0..] == original;
    ApplyIsReplacement([], original, 0, hunks);
    if AllMatch(original, hunks) {
      assert [] + Replaced(original, hunks, 0) == Replaced(original, hunks, 0);
    }
  }

  // ---- the inverse patch ----

  function InvertLine(l: string): string {
    if l == "" then ""
    else if l[0] == '+' then "-" + l[1..]
    else if l[0] == '-' then "+" + l[1..]
    else l
  }

  function InvertBody(body: seq<string>): seq<string> {
    seq(|body|, i requires 0 <= i < |body| => InvertLine(body[i]))
  }

  function InvertHunk(h: Hunk): Hunk {
    Hunk(h.newStart, h.newCount, h.oldStart, h.oldCount, InvertBody(h.body))
  }

  function Invert(hunks: seq<Hunk>): seq<Hunk> {
    seq(|hunks|, i requires 0 <= i < |hunks| => InvertHunk(hunks[i]))
  }

  lemma InvertLineSides(l: string)
    ensures OldLine(InvertLine(l)) == NewLine(l) && NewLine(InvertLine(l)) == OldLine(l)
    ensures IsBodyLine(InvertLine(l)) <==> IsBodyLine(l)
    ensures InvertLine(InvertLine(l)) == l
    ensures IsChange(InvertLine(l)) <==> IsChange(l)
  {
    if l != "" && (l[0] == '+' || l[0] == '-') {
      var m := InvertLine(l);
      assert m[1..] == l[1..];
      assert InvertLine(m) == [l[0]] + l[1..] == l;
    }
  }

  lemma {:induction false} InvertParts(body: seq<string>, n: nat)
    requires n <= |body|
    ensures OldPart(InvertBody(body), n) == NewPart(body, n) && NewPart(InvertBody(body), n) == OldPart(body, n)
    ensures Changes(InvertBody(body), n) == Changes(body, n)
  {
    hide InvertLine, OldLine, NewLine, IsChange;
    if n > 0 {
      InvertParts(body, n - 1);
      InvertLineSides(body[n - 1]);
    }
  }

  /** Inverting swaps the two sides and keeps the number of changed lines. */
  lemma InvertSides(h: Hunk)
    ensures OldSide(InvertHunk(h).body) == NewSide(h.body) && NewSide(InvertHunk(h).body) == OldSide(h.body)
    ensures (forall l :: l in InvertBody(h.body) ==> IsBodyLine(l)) <==> (forall l :: l in h.body ==> IsBodyLine(l))
  {
    hide InvertLine, IsBodyLine;
    InvertParts(h.body, |h.body|);
    forall i | 0 <= i < |h.body|
      ensures IsBodyLine(InvertBody(h.body)[i]) <==> IsBodyLine(h.body[i])
    {
      InvertLineSides(h.body[i]);
    }
  }

  /** The new start of every hunk is its old start shifted by the net growth of the hunks before it. */
  ghost predicate NewStartsAgree(hunks: seq<Hunk>, delta: int) {
    hunks == [] ||
    (var h := hunks[0];
     && StartIndex(InvertHunk(h)) == StartIndex(h) + delta
     && NewStartsAgree(hunks[1..], delta + |NewSide(h.body)| - |OldSide(h.body)|))
  }

  /** Ordered, with new ranges that agree with the old ones. */
  ghost predicate IsConsistent(hunks: seq<Hunk>) {
    Ordered(hunks, 0) && NewStartsAgree(hunks, 0)
  }

  lemma InvertTail(hunks: seq<Hunk>)
    requires hunks != []
    ensures Invert(hunks) != [] && Invert(hunks)[0] == InvertHunk(hunks[0]) && Invert(hunks)[1..] == Invert(hunks[1..])
  {
  }

  lemma {:induction false} InvertKeepsOrder(hunks: seq<Hunk>, from: int, delta: int)
    requires Ordered(hunks, from) && NewStartsAgree(hunks, delta)
    ensures Ordered(Invert(hunks), from + delta) && NewStartsAgree(Invert(hunks), -delta)
    decreases |hunks|
  {
    hide OldSide, NewSide;
    if hunks != [] {
      var h := hunks[0];
      InvertSides(h);
      InvertTail(hunks);
      InvertKeepsOrder(hunks[1..], End(h), delta + |NewSide(h.body)| - |OldSide(h.body)|);
    }
  }

  /** The inverse of a consistent patch is a consistent patch. */
  lemma InvertIsConsistent(hunks: seq<Hunk>)
    requires IsConsistent(hunks)
    ensures IsConsistent(Invert(hunks))
  {
    InvertKeepsOrder(hunks, 0, 0);
  }

  lemma InverseFits(before: seq<string>, h: Hunk, after: seq<string>, original: seq<string>)
    requires FitsAt(original, StartIndex(h), h.body) && StartIndex(InvertHunk(h)) == |before|
    ensures FitsAt(before + NewSide(h.body) + after, StartIndex(InvertHunk(h)), InvertHunk(h).body)
  {
    InvertSides(h);
    var s := before + NewSide(h.body) + after;
    assert s[|before|..|before| + |NewSide(h.body)|] == NewSide(h.body);
  }

  lemma {:induction false} UndoFrom(prefix: seq<string>, original: seq<string>, from: nat, hunks: seq<Hunk>)
    requires from <= |original| && Ordered(hunks, from) && AllMatch(original, hunks)
    requires NewStartsAgree(hunks, |prefix| - from)
    ensures var patched := prefix + Replaced(original, hunks, from);
            && Ordered(Invert(hunks), |prefix|) && AllMatch(patched, Invert(hunks))
            && Replaced(patched, Invert(hunks), |prefix|) == original[from..]
    decreases |hunks|
  {
    hide FitsAt, Ordered, NewStartsAgree, Replaced, OldSide, NewSide, InvertHunk, AllMatch;
    InvertKeepsOrder(hunks, from, |prefix| - from);
    if hunks == [] {
      UndoNothing(prefix, original, from);
    } else {
      var h := hunks[0];
      ReplacedCons(original, hunks, from);
      NewStartsTail(hunks, |prefix| - from);
      var gap := original[from..StartIndex(h)];
      var prefix' := prefix + gap + NewSide(h.body);
      var rest := Replaced(original, hunks[1..], End(h));
      UndoFrom(prefix', original, End(h), hunks[1..]);
      var patched := prefix' + rest;
      assert patched == prefix + Replaced(original, hunks, from);
      assert patched == (prefix + gap) + NewSide(h.body) + rest;
      TailMatch(original, hunks);
      InverseFits(prefix + gap, h, rest, original);
      UndoHead(prefix, gap, h, rest, original, hunks);
    }
  }

  lemma NewStartsTail(hunks: seq<Hunk>, delta: int)
    requires hunks != [] && NewStartsAgree(hunks, delta)
    ensures StartIndex(InvertHunk(hunks[0])) == StartIndex(hunks[0]) + delta
    ensures NewStartsAgree(hunks[1..], delta + |NewSide(hunks[0].body)| - |OldSide(hunks[0].body)|)
  {
  }

  lemma UndoNothing(prefix: seq<string>, original: seq<string>, from: nat)
    requires from <= |original|
    ensures Invert([]) == [] && AllMatch(original, [])
    ensures var patched := prefix + Replaced(original, [], from);
            AllMatch(patched, []) && Replaced(patched, [], |prefix|) == original[from..]
  {
  }

  /** Replacing the new side of the first hunk by its old side, once the rest has been undone. */
  lemma UndoHead(prefix: seq<string>, gap: seq<string>, h: Hunk, rest: seq<string>, original: seq<string>,
                 hunks: seq<Hunk>)
    requires hunks != [] && h == hunks[0] && FitsAt(original, StartIndex(h), h.body) && End(h) <= |original|
    requires |gap| <= StartIndex(h) && gap == original[StartIndex(h) - |gap|..StartIndex(h)]
    requires StartIndex(InvertHunk(h)) == |prefix + gap|
    requires Ordered(Invert(hunks), |prefix|)
    requires var patched := (prefix + gap) + NewSide(h.body) + rest;
             && FitsAt(patched, StartIndex(InvertHunk(h)), InvertHunk(h).body)
             && AllMatch(patched, Invert(hunks[1..])) && Ordered(Invert(hunks[1..]), |prefix + gap + NewSide(h.body)|)
             && Replaced(patched, Invert(hunks[1..]), |prefix + gap + NewSide(h.body)|) == original[End(h)..]
    ensures var patched := (prefix + gap) + NewSide(h.body) + rest;
            && AllMatch(patched, Invert(hunks))
            && Replaced(patched, Invert(hunks), |prefix|) == original[StartIndex(h) - |gap|..]
  {
    hide FitsAt, Ordered, Replaced, AllMatch, OldSide, NewSide, InvertHunk, Invert, StartIndex;
    var patched := (prefix + gap) + NewSide(h.body) + rest;
    InvertTail(hunks);
    InvertSides(h);
    TailMatch(patched, Invert(hunks));
    ReplacedCons(patched, Invert(hunks), |prefix|);
    OldSideIsSlice(original, StartIndex(h), h.body);
    HeadPieces(prefix, gap, NewSide(h.body) + rest, original, StartIndex(h), OldSide(h.body));
    assert patched == prefix + gap + (NewSide(h.body) + rest);
  }

  lemma HeadPieces(prefix: seq<string>, gap: seq<string>, rest: seq<string>, original: seq<string>, start: int,
                   old_: seq<string>)
    requires |gap| <= start && start + |old_| <= |original| && original[start..start + |old_|] == old_
    requires gap == original[start - |gap|..start]
    ensures (prefix + gap + rest)[|prefix|..|prefix + gap|] == gap
    ensures gap + old_ + original[start + |old_|..] == original[start - |gap|..]
  {
  }

  lemma OldSideIsSlice(original: seq<string>, start: int, body: seq<string>)
    requires FitsAt(original, start, body)
    ensures 0 <= start && start + |OldSide(body)| <= |original|
    ensures original[start..start + |OldSide(body)|] == OldSide(body)
  {
  }

  /** Applying a consistent patch and then its inverse gives back the lines it started from. */
  lemma InverseUndoesLines(original: seq<string>, hunks: seq<Hunk>, patched: seq<string>)
    requires IsConsistent(hunks) && ApplyFrom(original, hunks, 0) == Some(patched)
    ensures ApplyFrom(patched, Invert(hunks), 0) == Some(original)
  {
    OrderedPatchReplacesSlices(original, hunks);
    UndoFrom([], original, 0, hunks);
    assert [] + Replaced(original, hunks, 0) == patched;
    InvertIsConsistent(hunks);
    OrderedPatchReplacesSlices(patched, Invert(hunks));
  }

  // ---- the inverse on whole texts ----

  ghost predicate NoCrLf(s: string) {
    forall i, j :: 0 <= i && j == i + 1 && j < |s| ==> !(s[i] == '\r' && s[j] == '\n')
  }

  lemma {:induction false} NormaliseIdentity(s: string)
    ensures |NormaliseNewlines(s)| <= |s|
    ensures NormaliseNewlines(s) == s <==> NoCrLf(s)
  {
    if s != "" {
      if |s| > 1 && s[0] == '\r' && s[1] == '\n' {
        NormaliseIdentity(s[2..]);
      } else {
        NormaliseIdentity(s[1..]);
        assert s == [s[0]] + s[1..];
        if NoCrLf(s[1..]) {
          forall i, j | 0 <= i && j == i + 1 && j < |s|
            ensures !(s[i] == '\r' && s[j] == '\n')
          {
            if i > 0 { assert s[1..][i - 1] == s[i] && s[1..][j - 1] == s[j]; }
          }
        }
        if NoCrLf(s) {
          forall i, j | 0 <= i && j == i + 1 && j < |s[1..]|
            ensures !(s[1..][i] == '\r' && s[1..][j] == '\n')
          {
            assert s[1..][i] == s[i + 1] && s[1..][j] == s[j + 1];
          }
        }
      }
    }
  }

  ghost predicate IsLine(l: string) {
    '\n' !in l
  }

  ghost predicate AllLines(s: seq<string>) {
    forall i :: 0 <= i < |s| ==> IsLine(s[i])
  }

  ghost predicate HunksOfLines(hunks: seq<Hunk>) {
    forall i :: 0 <= i < |hunks| ==> AllLines(hunks[i].body)
  }

  lemma {:induction false} NewPartLines(body: seq<string>, n: nat)
    requires n <= |body| && AllLines(body)
    ensures AllLines(NewPart(body, n))
  {
    if n > 0 {
      NewPartLines(body, n - 1);
      assert IsLine(body[n - 1]);
    }
  }

  lemma {:induction false} ApplyKeepsLines(lines: seq<string>, hunks: seq<Hunk>, delta: int)
    requires AllLines(lines) && HunksOfLines(hunks)
    ensures ApplyFrom(lines, hunks, delta).Some? ==> AllLines(ApplyFrom(lines, hunks, delta).value)
    decreases |hunks|
  {
    hide FitsAt, IsLine;
    if hunks != [] {
      var idx, body := StartIndex(hunks[0]) + delta, hunks[0].body;
      if FitsAt(lines, idx, body) {
        FitsInside(lines, idx, body);
        NewPartLines(body, |body|);
        ApplyKeepsLines(Splice(lines, idx, body), hunks[1..], delta + |NewSide(body)| - |OldSide(body)|);
      }
    }
  }

  lemma InvertKeepsHunkLines(hunks: seq<Hunk>)
    requires HunksOfLines(hunks)
    ensures HunksOfLines(Invert(hunks))
  {
    forall i, j | 0 <= i < |hunks| && 0 <= j < |hunks[i].body|
      ensures IsLine(InvertLine(hunks[i].body[j]))
    {
      var l := hunks[i].body[j];
      assert IsLine(l);
      if l != "" { assert l == [l[0]] + l[1..]; }
    }
  }

  /** How many lines the hunks add, net. */
  ghost function NetGrowth(hunks: seq<Hunk>): int {
    if hunks == [] then 0
    else |NewSide(hunks[0].body)| - |OldSide(hunks[0].body)| + NetGrowth(hunks[1..])
  }

  lemma {:induction false} ApplyGrowth(lines: seq<string>, hunks: seq<Hunk>, delta: int)
    ensures ApplyFrom(lines, hunks, delta).Some? ==>
              |ApplyFrom(lines, hunks, delta).value| == |lines| + NetGrowth(hunks)
    decreases |hunks|
  {
    hide OldSide, NewSide, FitsAt;
    if hunks != [] {
      ApplyCons(lines, hunks, delta);
      var idx, body := StartIndex(hunks[0]) + delta, hunks[0].body;
      if FitsAt(lines, idx, body) {
        ApplyGrowth(Splice(lines, idx, body), hunks[1..], delta + |NewSide(body)| - |OldSide(body)|);
      }
    }
  }

  lemma {:induction false} InvertGrowth(hunks: seq<Hunk>)
    ensures NetGrowth(Invert(hunks)) == -NetGrowth(hunks)
  {
    hide OldSide, NewSide, InvertHunk;
    if hunks != [] {
      InvertTail(hunks);
      InvertSides(hunks[0]);
      InvertGrowth(hunks[1..]);
    }
  }

  lemma {:induction false} InvertTouched(hunks: seq<Hunk>, n: nat)
    requires n <= |hunks|
    ensures Touched(Invert(hunks), n) == Touched(hunks, n)
  {
    hide Changes, InvertLine, OldPart, NewPart;
    if n > 0 {
      InvertTouched(hunks, n - 1);
      var body := hunks[n - 1].body;
      InvertParts(body, |body|);
      assert Invert(hunks)[n - 1].body == InvertBody(body);
    }
  }

  lemma {:induction false} NormaliseKeepsLineCount(s: string)
    ensures |Split(NormaliseNewlines(s), '\n')| == |Split(s, '\n')|
  {
    if s != "" {
      if |s| > 1 && s[0] == '\r' && s[1] == '\n' {
        NormaliseKeepsLineCount(s[2..]);
        assert s[1..][1..] == s[2..];
        assert ("\n" + NormaliseNewlines(s[2..]))[1..] == NormaliseNewlines(s[2..]);
      } else {
        NormaliseKeepsLineCount(s[1..]);
        assert ([s[0]] + NormaliseNewlines(s[1..]))[1..] == NormaliseNewlines(s[1..]);
      }
    }
  }

  /** Reading a patched text back as lines gives the patched lines exactly when there are any and no CRLF was formed. */
  lemma RereadIff(lines: seq<string>)
    requires AllLines(lines)
    ensures LinesOf(Join(lines, '\n')) == lines <==> lines != [] && NoCrLf(Join(lines, '\n'))
    ensures |LinesOf(Join(lines, '\n'))| == if lines == [] then 1 else |lines|
  {
    var text := Join(lines, '\n');
    NormaliseIdentity(text);
    NormaliseKeepsLineCount(text);
    if lines != [] {
      forall i | 0 <= i < |lines| ensures '\n' !in lines[i] { assert IsLine(lines[i]); }
      SplitJoin(lines, '\n');
      JoinSplit(NormaliseNewlines(text), '\n');
    }
  }

  /** On texts the inverse gives back what it was made from, with its line ends normalised, exactly when it does so on
      the patched lines, some line is left in between and the patched text contains no CRLF. */
  lemma UndoesTextIff(content: string, hunks: seq<Hunk>, text: string)
    requires HunksOfLines(hunks) && Patched(content, hunks) == Some(text)
    ensures ApplyFrom(LinesOf(content), hunks, 0).Some?
    ensures var patched := ApplyFrom(LinesOf(content), hunks, 0).value;
      Patched(text, Invert(hunks)) == Some(NormaliseNewlines(content)) <==>
        && ApplyFrom(patched, Invert(hunks), 0) == Some(LinesOf(content))
        && patched != [] && NoCrLf(text)
  {
    hide NoCrLf, LinesOf, Join, AllLines, HunksOfLines;
    var original, inverse := LinesOf(content), Invert(hunks);
    var patched := ApplyFrom(original, hunks, 0).value;
    LinesAreLines(content);
    InvertTouched(hunks, |hunks|);
    ApplyKeepsLines(original, hunks, 0);
    RereadIff(patched);
    if Patched(text, inverse) == Some(NormaliseNewlines(content)) {
      BackOnlyFromPatched(original, hunks, patched, ApplyFrom(LinesOf(text), inverse, 0).value);
    }
  }

  /** For a consistent patch the lines are always restored, so only the line left and the line ends matter. */
  lemma InverseUndoesTextIff(content: string, hunks: seq<Hunk>, text: string)
    requires IsConsistent(hunks) && HunksOfLines(hunks) && Patched(content, hunks) == Some(text)
    ensures Patched(text, Invert(hunks)) == Some(NormaliseNewlines(content))
            <==> |LinesOf(content)| + NetGrowth(hunks) > 0 && NoCrLf(text)
  {
    hide IsConsistent, NoCrLf, LinesOf, Join, HunksOfLines;
    var patched := ApplyFrom(LinesOf(content), hunks, 0).value;
    UndoesTextIff(content, hunks, text);
    ApplyGrowth(LinesOf(content), hunks, 0);
    InverseUndoesLines(LinesOf(content), hunks, patched);
  }

  lemma LinesAreLines(content: string)
    ensures AllLines(LinesOf(content)) && LinesOf(content) != []
    ensures Join(LinesOf(content), '\n') == NormaliseNewlines(content)
  {
    JoinSplit(NormaliseNewlines(content), '\n');
    forall i | 0 <= i < |LinesOf(content)| ensures IsLine(LinesOf(content)[i]) { }
  }

  function Chars(lines: seq<string>): nat {
    if lines == [] then 0 else |lines[0]| + Chars(lines[1..])
  }

  lemma {:induction false} CharsConcat(a: seq<string>, b: seq<string>)
    ensures Chars(a + b) == Chars(a) + Chars(b)
  {
    if a == [] {
      assert a + b == b;
    } else {
      CharsConcat(a[1..], b);
      assert (a + b)[1..] == a[1..] + b;
    }
  }

  /** How many characters the hunks add, net. */
  ghost function CharGrowth(hunks: seq<Hunk>): int {
    if hunks == [] then 0
    else Chars(NewSide(hunks[0].body)) - Chars(OldSide(hunks[0].body)) + CharGrowth(hunks[1..])
  }

  lemma SpliceChars(lines: seq<string>, idx: int, body: seq<string>)
    requires FitsAt(lines, idx, body)
    ensures 0 <= idx && idx + |OldSide(body)| <= |lines|
    ensures Chars(Splice(lines, idx, body)) == Chars(lines) + Chars(NewSide(body)) - Chars(OldSide(body))
  {
    hide Chars, OldSide, NewSide;
    var front, back := lines[..idx], lines[idx + |OldSide(body)|..];
    assert lines == front + OldSide(body) + back;
    CharsConcat(front + OldSide(body), back);
    CharsConcat(front, OldSide(body));
    CharsConcat(front + NewSide(body), back);
    CharsConcat(front, NewSide(body));
  }

  lemma {:induction false} ApplyChars(lines: seq<string>, hunks: seq<Hunk>, delta: int)
    ensures ApplyFrom(lines, hunks, delta).Some? ==>
      Chars(ApplyFrom(lines, hunks, delta).value) == Chars(lines) + CharGrowth(hunks)
    decreases |hunks|
  {
    hide OldSide, NewSide, FitsAt, Splice, Chars;
    if hunks != [] {
      ApplyCons(lines, hunks, delta);
      var idx, body := StartIndex(hunks[0]) + delta, hunks[0].body;
      if FitsAt(lines, idx, body) {
        SpliceChars(lines, idx, body);
        ApplyChars(Splice(lines, idx, body), hunks[1..], delta + |NewSide(body)| - |OldSide(body)|);
      }
    }
  }

  lemma {:induction false} InvertChars(hunks: seq<Hunk>)
    ensures CharGrowth(Invert(hunks)) == -CharGrowth(hunks)
  {
    hide OldSide, NewSide, InvertHunk, Chars;
    if hunks != [] {
      InvertTail(hunks);
      InvertSides(hunks[0]);
      InvertChars(hunks[1..]);
    }
  }

  lemma {:induction false} JoinLength(lines: seq<string>)
    requires lines != []
    ensures |Join(lines, '\n')| == Chars(lines) + |lines| - 1
  {
    if |lines| == 1 {
      assert lines[1..] == [];
    } else {
      JoinLength(lines[1..]);
    }
  }

  /** Dropping a carriage return shortens the text. */
  lemma ShorterNormalised(s: string)
    requires |NormaliseNewlines(s)| == |s|
    ensures NoCrLf(s)
    decreases |s|
  {
    NormaliseIdentity(s);
    if s != "" {
      if |s| > 1 && s[0] == '\r' && s[1] == '\n' {
        NormaliseIdentity(s[2..]);
      } else {
        ShorterNormalised(s[1..]);
        NormaliseIdentity(s[1..]);
        assert s == [s[0]] + s[1..];
      }
    }
  }

  /** Whatever its hunks, a patch is undone by its inverse, applied to the reread text, only when that text holds the
      patched lines: line ends that were lost are missing from the result. */
  lemma BackOnlyFromPatched(original: seq<string>, hunks: seq<Hunk>, patched: seq<string>, back: seq<string>)
    requires AllLines(original) && AllLines(patched) && HunksOfLines(hunks) && original != []
    requires ApplyFrom(original, hunks, 0) == Some(patched)
    requires ApplyFrom(LinesOf(Join(patched, '\n')), Invert(hunks), 0) == Some(back)
    requires Join(back, '\n') == Join(original, '\n')
    ensures LinesOf(Join(patched, '\n')) == patched && back == original
  {
    hide AllLines, HunksOfLines, Join, NormaliseNewlines, Split, Chars, CharGrowth, NoCrLf;
    var text := Join(patched, '\n');
    var reread := LinesOf(text);
    LinesAreLines(text);
    RereadIff(patched);
    InvertKeepsHunkLines(hunks);
    ApplyKeepsLines(reread, Invert(hunks), 0);
    ApplyGrowth(original, hunks, 0);
    ApplyGrowth(reread, Invert(hunks), 0);
    InvertGrowth(hunks);
    assert back != [];
    SameJoin(back, original);
    assert patched != [];
    ApplyChars(original, hunks, 0);
    ApplyChars(reread, Invert(hunks), 0);
    InvertChars(hunks);
    JoinLength(patched);
    JoinLength(reread);
    ShorterNormalised(text);
  }

  lemma SameJoin(a: seq<string>, b: seq<string>)
    requires AllLines(a) && AllLines(b) && a != [] && b != [] && Join(a, '\n') == Join(b, '\n')
    ensures a == b
  {
    forall i | 0 <= i < |a| ensures '\n' !in a[i] { assert IsLine(a[i]); }
    forall i | 0 <= i < |b| ensures '\n' !in b[i] { assert IsLine(b[i]); }
    SplitJoin(a, '\n');
    SplitJoin(b, '\n');
  }
}
