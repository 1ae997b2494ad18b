/** The overlap test against one notion of file identity: spellings that differ in case, by empty segments or by "."
    segments are one file, with and without wildcards
    (sidecar/internal/orchestrator/orchestrator.go, pathsIntersect). */
module DiskOverlap {
  import opened Text
  import opened WritePaths
  import opened FileIdentity

  /** A case rule that also keeps dots what they are. */
  ghost predicate IsFileFold(fold: char -> char) {
    IsCaseFold(fold) && forall c :: fold(c) == '.' <==> c == '.'
  }

  /** The two normalised tokens may name one file under some spellings. */
  ghost predicate ShareOneFile(fold: char -> char, x: string, y: string) {
    exists f, g ::
      MayCover(x, f) && MayCover(y, g) && Segments(Folded(fold, f)) == Segments(Folded(fold, g))
  }

  // ---- what a token may name, as segments ----

  /** Everything below a directory whose next segment begins with a stem. */
  datatype Cone = Cone(dir: seq<string>, stem: string)

  function LastSlash(s: string): (i: int)
    ensures -1 <= i < |s|
    ensures i >= 0 ==> s[i] == '/'
    ensures '/' !in s[i + 1..]
  {
    if s == "" then -1 else if s[|s| - 1] == '/' then |s| - 1 else LastSlash(s[..|s| - 1])
  }

  function DirOf(p: string): seq<string> {
    if LastSlash(p) < 0 then [] else Segments(p[..LastSlash(p)])
  }

  function RawStem(p: string): string {
    p[LastSlash(p) + 1..]
  }

  /** A token without wildcards is a directory; a wildcard leaves the segment it stands in open. */
  function ConeOf(token: string): Cone {
    if !IsGlob(token) then Cone(Segments(token), "")
    else
      var stem := RawStem(LiteralPrefix(token));
      Cone(DirOf(LiteralPrefix(token)), if stem == "." then "" else stem)
  }

  predicate InCone(c: Cone, file: seq<string>) {
    c.dir <= file && (c.stem != "" ==> |file| > |c.dir| && c.stem <= file[|c.dir|])
  }

  /** The cone with the shorter directory reaches the other one. */
  predicate Reaches(a: Cone, b: Cone) {
    a.dir <= b.dir && if |a.dir| < |b.dir| then a.stem <= b.dir[|a.dir|] else a.stem <= b.stem
  }

  predicate ConesMeet(a: Cone, b: Cone) {
    Reaches(a, b) || Reaches(b, a)
  }

  lemma CommonMember(a: Cone, b: Cone, file: seq<string>)
    requires InCone(a, file) && InCone(b, file)
    ensures ConesMeet(a, b)
  {
    if |a.dir| <= |b.dir| {
      assert a.dir == file[..|a.dir|] == b.dir[..|a.dir|];
    } else {
      assert b.dir == file[..|b.dir|] == a.dir[..|b.dir|];
    }
  }

  // ---- covered files are in the cone ----

  lemma OneSegment(s: string)
    requires '/' !in s
    ensures Segments(s) == if s == "" || s == "." then [] else [s]
  {
    hide Split;
    SplitWhole(s, '/');
    assert RealSegments([s], 0) == [];
  }

  lemma FirstSegment(t: string, w: string)
    requires '/' !in t && t != "" && t != "."
    ensures Segments(t + w) != [] && t <= Segments(t + w)[0]
  {
    hide Segments;
    var j := IndexByte(w, '/');
    if j < 0 {
      OneSegment(t + w);
    } else {
      assert t + w == (t + w[..j]) + "/" + w[j + 1..];
      SegmentsJoin(t + w[..j], w[j + 1..]);
      OneSegment(t + w[..j]);
    }
  }

  lemma LastCut(p: string)
    requires LastSlash(p) >= 0
    ensures p == p[..LastSlash(p)] + "/" + RawStem(p)
  {
    hide LastSlash;
    assert p == p[..LastSlash(p)] + [p[LastSlash(p)]] + p[LastSlash(p) + 1..];
  }

  lemma BehindDir(d: string, t: string, w: string)
    ensures Segments((d + "/" + t) + w) == Segments(d) + Segments(t + w)
  {
    hide Segments;
    assert (d + "/" + t) + w == d + "/" + (t + w);
    SegmentsJoin(d, t + w);
  }

  /** The segments of a text that begins with p. */
  lemma SegmentsBehind(p: string, w: string)
    ensures Segments(p + w) == DirOf(p) + Segments(RawStem(p) + w)
  {
    hide Segments, LastSlash, RawStem;
    if LastSlash(p) >= 0 {
      LastCut(p);
      BehindDir(p[..LastSlash(p)], RawStem(p), w);
    } else {
      WholeStem(p);
      assert [] + Segments(p + w) == Segments(p + w);
    }
  }

  lemma WholeStem(p: string)
    requires LastSlash(p) < 0
    ensures RawStem(p) == p
  {
  }

  lemma CoveredIsInCone(token: string, f: string)
    requires MayCover(token, f)
    ensures InCone(ConeOf(token), Segments(f))
  {
    hide Segments, LiteralPrefix;
    if IsGlob(token) {
      var p := LiteralPrefix(token);
      var w := f[|p|..];
      assert f == p + w;
      SegmentsBehind(p, w);
      var t := RawStem(p);
      if t != "" && t != "." {
        FirstSegment(t, w);
      }
    } else {
      CoveredSegments(token, f);
    }
  }

  // ---- folding ----

  function FoldAll(fold: char -> char, parts: seq<string>): (r: seq<string>)
    ensures |r| == |parts|
  {
    seq(|parts|, i requires 0 <= i < |parts| => Folded(fold, parts[i]))
  }

  lemma FoldConcat(fold: char -> char, a: string, b: string)
    ensures Folded(fold, a + b) == Folded(fold, a) + Folded(fold, b)
  {
  }

  lemma FoldAllConcat(fold: char -> char, a: seq<string>, b: seq<string>)
    ensures FoldAll(fold, a + b) == FoldAll(fold, a) + FoldAll(fold, b)
  {
    hide Folded;
  }

  lemma {:induction false} SplitFolds(fold: char -> char, s: string)
    requires IsFileFold(fold)
    ensures Split(Folded(fold, s), '/') == FoldAll(fold, Split(s, '/'))
  {
    if s == "" {
      assert Folded(fold, s) == "";
    } else {
      SplitFolds(fold, s[1..]);
      assert Folded(fold, s)[1..] == Folded(fold, s[1..]);
      var rest := Split(s[1..], '/');
      if s[0] == '/' {
        assert Folded(fold, "") == "";
        FoldAllConcat(fold, [""], rest);
      } else {
        assert Folded(fold, [s[0]] + rest[0]) == [fold(s[0])] + Folded(fold, rest[0]);
      }
    }
  }

  lemma {:induction false} RealSegmentsFold(fold: char -> char, parts: seq<string>, n: nat)
    requires IsFileFold(fold) && n <= |parts|
    ensures RealSegments(FoldAll(fold, parts), n) == FoldAll(fold, RealSegments(parts, n))
  {
    hide Folded, IsFileFold;
    if n > 0 {
      RealSegmentsFold(fold, parts, n - 1);
      KeepsDot(fold, parts[n - 1]);
      FoldAllConcat(fold, RealSegments(parts, n - 1), [parts[n - 1]]);
    }
  }

  lemma KeepsDot(fold: char -> char, s: string)
    requires IsFileFold(fold)
    ensures Folded(fold, s) == "" <==> s == ""
    ensures Folded(fold, s) == "." <==> s == "."
    ensures '/' in Folded(fold, s) <==> '/' in s
  {
    if '/' in s {
      var i :| 0 <= i < |s| && s[i] == '/';
      assert Folded(fold, s)[i] == '/';
    }
  }

  /** Folding commutes with cutting into segments. */
  lemma SegmentsFold(fold: char -> char, s: string)
    requires IsFileFold(fold)
    ensures Segments(Folded(fold, s)) == FoldAll(fold, Segments(s))
  {
    hide Split, RealSegments, IsFileFold, Folded;
    SplitFolds(fold, s);
    RealSegmentsFold(fold, Split(s, '/'), |Split(s, '/')|);
  }

  lemma {:induction false} LastSlashFolds(fold: char -> char, s: string)
    requires IsFileFold(fold)
    ensures LastSlash(Folded(fold, s)) == LastSlash(s)
  {
    if s != "" && s[|s| - 1] != '/' {
      LastSlashFolds(fold, s[..|s| - 1]);
      assert Folded(fold, s)[..|s| - 1] == Folded(fold, s[..|s| - 1]);
    }
  }

  lemma DirFolds(fold: char -> char, p: string)
    requires IsFileFold(fold)
    ensures DirOf(Folded(fold, p)) == FoldAll(fold, DirOf(p))
  {
    hide Segments, LastSlash;
    var i := LastSlash(p);
    LastSlashFolds(fold, p);
    if i >= 0 {
      assert Folded(fold, p)[..i] == Folded(fold, p[..i]);
      SegmentsFold(fold, p[..i]);
    }
  }

  lemma StemFolds(fold: char -> char, p: string)
    requires IsFileFold(fold)
    ensures RawStem(Folded(fold, p)) == Folded(fold, RawStem(p))
  {
    hide LastSlash;
    LastSlashFolds(fold, p);
    var i := LastSlash(p) + 1;
    assert Folded(fold, p)[i..] == Folded(fold, p[i..]);
  }

  lemma ConeFolds(fold: char -> char, token: string)
    requires IsFileFold(fold)
    ensures ConeOf(Folded(fold, token)).dir == FoldAll(fold, ConeOf(token).dir)
    ensures ConeOf(Folded(fold, token)).stem == Folded(fold, ConeOf(token).stem)
  {
    hide Segments, LiteralPrefix, LastSlash, Folded, DirOf, RawStem, FoldAll, IsGlob;
    FoldedGlob(fold, token);
    KeepsDot(fold, "");
    if IsGlob(token) {
      FoldedLiteral(fold, token);
      var p := LiteralPrefix(token);
      DirFolds(fold, p);
      StemFolds(fold, p);
      KeepsDot(fold, RawStem(p));
    } else {
      SegmentsFold(fold, token);
    }
  }

  // ---- members of the cone are covered, under some spelling ----

  /** A spelling of the file, up to case, that the token covers. */
  ghost predicate Spells(fold: char -> char, token: string, file: seq<string>, f: string) {
    MayCover(token, f) && FoldAll(fold, Segments(f)) == FoldAll(fold, file)
  }

  function Spelt(parts: seq<string>): string {
    Join(parts, '/')
  }

  lemma SpeltSegments(parts: seq<string>)
    requires AreReal(parts)
    ensures Segments(Spelt(parts)) == parts
  {
    hide Segments;
    if parts == [] {
      NothingHasNoSegments();
    } else {
      SpellSegments(parts);
    }
  }

  lemma PlainSpells(fold: char -> char, token: string, file: seq<string>) returns (f: string)
    requires !IsGlob(token) && AreReal(file) && |Segments(token)| <= |file|
    requires FoldAll(fold, Segments(token)) == FoldAll(fold, file[..|Segments(token)|])
    ensures Spells(fold, token, file, f)
  {
    hide Segments, FoldAll;
    var n := |Segments(token)|;
    assert file == file[..n] + file[n..];
    FoldAllConcat(fold, file[..n], file[n..]);
    SpeltSegments(file[n..]);
    if n == |file| {
      f := token;
      assert file[..n] == file;
    } else if token == "" {
      NothingHasNoSegments();
      f := Spelt(file[n..]);
      assert file[n..] == file;
    } else {
      f := token + "/" + Spelt(file[n..]);
      SegmentsJoin(token, Spelt(file[n..]));
      FoldAllConcat(fold, Segments(token), file[n..]);
    }
  }

  /** How to go on from a stem. */
  lemma Continues(fold: char -> char, t: string, file: seq<string>) returns (w: string)
    requires IsFileFold(fold) && AreReal(file) && '/' !in t
    requires t == "" || t == "." || (file != [] && Folded(fold, t) <= Folded(fold, file[0]))
    ensures FoldAll(fold, Segments(t + w)) == FoldAll(fold, file)
  {
    hide Segments, FoldAll, IsFileFold;
    SpeltSegments(file);
    if t == "" {
      w := Spelt(file);
      assert t + w == w;
    } else if t == "." {
      w := "/" + Spelt(file);
      assert t + w == "." + "/" + Spelt(file);
      OneSegment(".");
      SegmentsJoin(".", Spelt(file));
      assert [] + file == file;
    } else {
      w := ContinuesStem(fold, t, file);
    }
  }

  lemma ContinuesStem(fold: char -> char, t: string, file: seq<string>) returns (w: string)
    requires IsFileFold(fold) && AreReal(file) && '/' !in t
    requires file != [] && Folded(fold, t) <= Folded(fold, file[0])
    ensures FoldAll(fold, Segments(t + w)) == FoldAll(fold, file)
  {
    hide Segments, FoldAll, IsFileFold;
    var segment, rest := file[0], file[1..];
    var respelt := Respelt(fold, t, segment);
    KeepsDot(fold, segment);
    KeepsDot(fold, respelt);
    OneSegment(respelt);
    SpeltSegments(rest);
    w := segment[|t|..] + "/" + Spelt(rest);
    assert t + w == respelt + "/" + Spelt(rest);
    SegmentsJoin(respelt, Spelt(rest));
    FoldAllConcat(fold, [respelt], rest);
    FoldAllConcat(fold, [segment], rest);
    assert file == [segment] + rest;
    FoldOne(fold, respelt, segment);
  }

  lemma FoldOne(fold: char -> char, a: string, b: string)
    requires Folded(fold, a) == Folded(fold, b)
    ensures FoldAll(fold, [a]) == FoldAll(fold, [b])
  {
  }

  lemma GlobSpells(fold: char -> char, token: string, file: seq<string>) returns (f: string)
    requires IsFileFold(fold) && IsGlob(token) && AreReal(file)
    requires var c := ConeOf(token);
      && |c.dir| <= |file| && FoldAll(fold, c.dir) == FoldAll(fold, file[..|c.dir|])
      && (c.stem != "" ==> |file| > |c.dir| && Folded(fold, c.stem) <= Folded(fold, file[|c.dir|]))
    ensures Spells(fold, token, file, f)
  {
    hide Segments, FoldAll, IsFileFold, LiteralPrefix, LastSlash;
    var p := LiteralPrefix(token);
    var n := |DirOf(p)|;
    var w := Continues(fold, RawStem(p), file[n..]);
    f := p + w;
    SegmentsBehind(p, w);
    assert file == file[..n] + file[n..];
    FoldAllConcat(fold, file[..n], file[n..]);
    FoldAllConcat(fold, DirOf(p), Segments(RawStem(p) + w));
  }

  lemma FoldAllPrefix(fold: char -> char, a: seq<string>, b: seq<string>)
    requires FoldAll(fold, a) <= FoldAll(fold, b)
    ensures |a| <= |b| && FoldAll(fold, b[..|a|]) == FoldAll(fold, a)
  {
    hide Folded;
    assert |FoldAll(fold, a)| <= |FoldAll(fold, b)|;
    assert FoldAll(fold, b)[..|a|] == FoldAll(fold, b[..|a|]);
  }

  lemma MemberIsSpelt(fold: char -> char, token: string, file: seq<string>) returns (f: string)
    requires IsFileFold(fold) && AreReal(file)
    requires InCone(ConeOf(Folded(fold, token)), FoldAll(fold, file))
    ensures Spells(fold, token, file, f)
  {
    hide Segments, IsFileFold, LiteralPrefix, LastSlash;
    var c := ConeOf(token);
    ConeFolds(fold, token);
    FoldAllPrefix(fold, c.dir, file);
    KeepsDot(fold, c.stem);
    if IsGlob(token) {
      f := GlobSpells(fold, token, file);
    } else {
      f := PlainSpells(fold, token, file);
    }
  }

  // ---- the exact condition ----

  /** The tip of a cone: its directory and, as a segment, its stem. */
  function Tip(c: Cone): seq<string> {
    if c.stem == "" then c.dir else c.dir + [c.stem]
  }

  lemma TipIsReal(token: string)
    ensures AreReal(Tip(ConeOf(token)))
  {
    hide Segments, LiteralPrefix, LastSlash;
    if IsGlob(token) {
      var p := LiteralPrefix(token);
      if LastSlash(p) >= 0 { SegmentsAreReal(p[..LastSlash(p)]); }
    } else {
      SegmentsAreReal(token);
    }
  }

  lemma TipIsReached(a: Cone, b: Cone)
    requires Reaches(a, b)
    ensures InCone(a, Tip(b)) && InCone(b, Tip(b))
  {
  }

  lemma TipFolds(fold: char -> char, token: string)
    requires IsFileFold(fold)
    ensures Tip(ConeOf(Folded(fold, token))) == FoldAll(fold, Tip(ConeOf(token)))
  {
    hide Segments, ConeOf;
    ConeFolds(fold, token);
    KeepsDot(fold, ConeOf(token).stem);
    FoldAllConcat(fold, ConeOf(token).dir, [ConeOf(token).stem]);
  }

  lemma ReachedIsShared(fold: char -> char, x: string, y: string)
    requires IsFileFold(fold) && Reaches(ConeOf(Folded(fold, x)), ConeOf(Folded(fold, y)))
    ensures exists f, g :: MayCover(x, f) && MayCover(y, g) && Segments(Folded(fold, f)) == Segments(Folded(fold, g))
  {
    hide Segments, ConeOf, IsFileFold, MayCover;
    var file := Tip(ConeOf(y));
    TipIsReal(y);
    TipFolds(fold, y);
    TipIsReached(ConeOf(Folded(fold, x)), ConeOf(Folded(fold, y)));
    var f := MemberIsSpelt(fold, x, file);
    var g := MemberIsSpelt(fold, y, file);
    SegmentsFold(fold, f);
    SegmentsFold(fold, g);
  }

  /** Two tokens, with or without wildcards, may name one file, up to case and to empty and "." segments, exactly when
      the cones of their folded forms meet. */
  lemma ShareOneFileIff(fold: char -> char, x: string, y: string)
    requires IsFileFold(fold)
    ensures ShareOneFile(fold, x, y) <==> ConesMeet(ConeOf(Folded(fold, x)), ConeOf(Folded(fold, y)))
  {
    hide Segments, ConeOf, Reaches, MayCover;
    if ShareOneFile(fold, x, y) {
      var f, g :| MayCover(x, f) && MayCover(y, g) && Segments(Folded(fold, f)) == Segments(Folded(fold, g));
      CoverFolds(fold, x, f);
      CoverFolds(fold, y, g);
      CoveredIsInCone(Folded(fold, x), Folded(fold, f));
      CoveredIsInCone(Folded(fold, y), Folded(fold, g));
      CommonMember(ConeOf(Folded(fold, x)), ConeOf(Folded(fold, y)), Segments(Folded(fold, f)));
    }
    if Reaches(ConeOf(Folded(fold, x)), ConeOf(Folded(fold, y))) {
      ReachedIsShared(fold, x, y);
    }
    if Reaches(ConeOf(Folded(fold, y)), ConeOf(Folded(fold, x))) {
      ReachedIsShared(fold, y, x);
    }
  }

  /** So the overlap test misses a pair of declared paths that can name one file exactly when it judges them disjoint
      and those cones meet. */
  lemma MissedFileIff(fold: char -> char, a: string, b: string)
    requires IsFileFold(fold)
    ensures var x, y := NormaliseWritePath(a), NormaliseWritePath(b);
      ShareOneFile(fold, x, y) && !PathsIntersect(a, b) <==>
        !TokensIntersect(x, y) && ConesMeet(ConeOf(Folded(fold, x)), ConeOf(Folded(fold, y)))
  {
    hide ShareOneFile, TokensIntersect, ConeOf, ConesMeet, NormaliseWritePath, IsFileFold;
    ShareOneFileIff(fold, NormaliseWritePath(a), NormaliseWritePath(b));
  }

  // ---- what is missed ----

  /** A name that the file system sees as it is, without wildcards. */
  ghost predicate IsName(s: string) {
    s != "" && s[0] != '.' && forall i :: 0 <= i < |s| ==> s[i] != '/' && !IsWildcard(s[i])
  }

  lemma TwoSegments(a: string, b: string)
    requires IsName(a) && IsName(b)
    ensures Segments(a + "/" + b) == [a, b] && Segments(a + "/./" + b) == [a, b]
  {
    hide Segments;
    OneSegment(a);
    OneSegment(b);
    OneSegment(".");
    SegmentsJoin(a, b);
    assert a + "/./" + b == a + "/" + ("." + "/" + b);
    SegmentsJoin(a, "." + "/" + b);
    SegmentsJoin(".", b);
    assert [] + [b] == [b];
  }

  lemma PathIsPlain(dir: string, b: string)
    requires IsName(dir) && IsName(b)
    ensures LiteralPrefix(dir + "/" + b) == dir + "/" + b && LiteralPrefix(dir + "/./" + b) == dir + "/./" + b
    ensures LiteralPrefix(dir + "/./*") == dir + "/./"
  {
    var x, y := dir + "/" + b, dir + "/./" + b;
    LiteralOf(x, "");
    LiteralOf(y, "");
    assert x + "" == x && y + "" == y;
    LiteralOf(dir + "/./", "*");
    assert dir + "/./" + "*" == dir + "/./*";
  }

  lemma SameFoldedPair(fold: char -> char, dir: string, b: string, c: string)
    requires Folded(fold, b) == Folded(fold, c)
    ensures FoldAll(fold, [dir, b]) == FoldAll(fold, [dir, c]) && |b| == |c|
  {
    assert |Folded(fold, b)| == |Folded(fold, c)|;
  }

  lemma PlainCovers(token: string)
    requires LiteralPrefix(token) == token
    ensures MayCover(token, token)
  {
  }

  lemma PlainIntersect(x: string, y: string)
    requires LiteralPrefix(x) == x && LiteralPrefix(y) == y
    requires !PathPrefixMatch(x, y) && !PathPrefixMatch(y, x)
    ensures !TokensIntersect(x, y)
  {
    assert LiteralPrefix("**") == "";
  }

  /** Case and a "." segment together: "src/./App.go" against "src/app.go". */
  lemma CaseBehindDotIsMissed(fold: char -> char, dir: string, b: string, c: string)
    requires IsFileFold(fold) && IsName(dir) && IsName(b) && IsName(c) && Folded(fold, b) == Folded(fold, c)
    ensures ShareOneFile(fold, dir + "/./" + b, dir + "/" + c) && !TokensIntersect(dir + "/./" + b, dir + "/" + c)
  {
    hide Segments, IsFileFold, LiteralPrefix, MayCover, TokensIntersect, PathPrefixMatch, FoldAll, Folded;
    var x, y := dir + "/./" + b, dir + "/" + c;
    TwoSegments(dir, b);
    TwoSegments(dir, c);
    SegmentsFold(fold, x);
    SegmentsFold(fold, y);
    SameFoldedPair(fold, dir, b, c);
    PathIsPlain(dir, b);
    PathIsPlain(dir, c);
    PlainCovers(x);
    PlainCovers(y);
    assert x == dir + "/" + ("./" + b);
    DotHides(dir, "./" + b, c);
    PlainIntersect(x, y);
  }

  lemma DotHides(dir: string, b: string, c: string)
    requires dir != "" && c != "" && c[0] != '.' && b != "" && b[0] == '.'
    ensures !PathPrefixMatch(dir + "/" + b, dir + "/" + c) && !PathPrefixMatch(dir + "/" + c, dir + "/" + b)
  {
    var x, y := dir + "/" + b, dir + "/" + c;
    assert x[|dir| + 1] == '.' && y[|dir| + 1] == c[0];
  }

  /** A wildcard behind a "." segment: everything in "src/." against "src/a". */
  lemma WildcardBehindDotIsMissed(fold: char -> char, dir: string, c: string)
    requires IsFileFold(fold) && IsName(dir) && IsName(c)
    ensures ShareOneFile(fold, dir + "/./*", dir + "/" + c) && !TokensIntersect(dir + "/./*", dir + "/" + c)
  {
    hide Segments, IsFileFold, LiteralPrefix;
    var x, y, f := dir + "/./*", dir + "/" + c, dir + "/./" + c;
    PathIsPlain(dir, c);
    TwoSegments(dir, c);
    SegmentsFold(fold, f);
    SegmentsFold(fold, y);
    assert MayCover(x, f) && MayCover(y, y);
    DotHides(dir, "./", c);
    assert dir + "/./" == dir + "/" + "./";
    assert x[|dir|] == '/' && y[|dir|] == '/';
  }
}
