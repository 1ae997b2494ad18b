/** The overlap test against the files the tokens name on disk: names that differ in case, or by empty and "."
    segments, are one file (sidecar/internal/orchestrator/orchestrator.go, pathsIntersect;
    sidecar/internal/worktree/manager.go). */
module FileIdentity {
  import opened Text
  import opened WritePaths

  // ---- case ----

  /** A mapping that says which characters the file system tells apart. Separators and wildcards stay what they are. */
  ghost predicate IsCaseFold(fold: char -> char) {
    forall c ::
      && (fold(c) == '/' <==> c == '/')
      && (IsWildcard(c) ==> fold(c) == c) && (IsWildcard(fold(c)) ==> IsWildcard(c))
  }

  function Folded(fold: char -> char, s: string): (r: string)
    ensures |r| == |s| && forall i :: 0 <= i < |s| ==> r[i] == fold(s[i])
  {
    seq(|s|, i requires 0 <= i < |s| => fold(s[i]))
  }

  /** The two normalised tokens may name files that are one on disk. */
  ghost predicate ShareOnDisk(fold: char -> char, x: string, y: string) {
    exists f, g :: MayCover(x, f) && MayCover(y, g) && Folded(fold, f) == Folded(fold, g)
  }

  /** Two normalised tokens may name a common file, as a text, exactly when the test says so or a wildcard stops inside
      a component. */
  lemma ShareIff(x: string, y: string)
    ensures ShareAFile(x, y) <==> TokensIntersect(x, y) || Clash(x, y)
  {
    if ShareAFile(x, y) {
      var file :| MayCover(x, file) && MayCover(y, file);
      LiteralCovered(x, file);
      LiteralCovered(y, file);
      if LiteralPrefix(x) <= LiteralPrefix(y) {
        if !TokensIntersect(x, y) { NoMatchMeansStop(x, y, file); }
      } else {
        if !TokensIntersect(x, y) { NoMatchMeansStop(y, x, file); }
      }
    }
    if TokensIntersect(x, y) || Clash(x, y) {
      var file := CommonFile(x, y);
    }
  }

  /** The longer of the two literal texts is a common file. */
  lemma CommonFile(x: string, y: string) returns (file: string)
    requires TokensIntersect(x, y) || Clash(x, y)
    ensures MayCover(x, file) && MayCover(y, file)
    ensures file == LiteralPrefix(x) || file == LiteralPrefix(y)
  {
    file := if |LiteralPrefix(x)| <= |LiteralPrefix(y)| then LiteralPrefix(y) else LiteralPrefix(x);
  }

  lemma {:induction false} FoldedLiteral(fold: char -> char, token: string)
    requires IsCaseFold(fold)
    ensures LiteralPrefix(Folded(fold, token)) == Folded(fold, LiteralPrefix(token))
  {
    if token != "" && !IsWildcard(token[0]) {
      FoldedLiteral(fold, token[1..]);
      assert Folded(fold, token)[1..] == Folded(fold, token[1..]);
    }
  }

  lemma FoldedGlob(fold: char -> char, token: string)
    requires IsCaseFold(fold)
    ensures IsGlob(Folded(fold, token)) <==> IsGlob(token)
  {
    FoldedLiteral(fold, token);
    assert |LiteralPrefix(token)| == |token| <==> LiteralPrefix(token) == token;
  }

  lemma FoldedPrefix(fold: char -> char, p: string, s: string)
    requires p <= s
    ensures Folded(fold, p) <= Folded(fold, s)
  {
  }

  lemma CoverFolds(fold: char -> char, token: string, file: string)
    requires IsCaseFold(fold) && MayCover(token, file)
    ensures MayCover(Folded(fold, token), Folded(fold, file))
  {
    FoldedGlob(fold, token);
    FoldedLiteral(fold, token);
    if IsGlob(token) {
      FoldedPrefix(fold, LiteralPrefix(token), file);
    } else if token + "/" <= file {
      FoldedPrefix(fold, token + "/", file);
      assert Folded(fold, token + "/") == Folded(fold, token) + "/";
    } else if token <= file {
      FoldedPrefix(fold, token, file);
    }
  }

  /** A text made of the literal text of a token and the rest of a name, when the folded forms agree that far. */
  lemma Respelt(fold: char -> char, p: string, name: string) returns (file: string)
    requires Folded(fold, p) <= Folded(fold, name)
    ensures |p| <= |name| && file == p + name[|p|..] && Folded(fold, file) == Folded(fold, name)
  {
    assert |Folded(fold, p)| <= |Folded(fold, name)|;
    file := p + name[|p|..];
    forall i | 0 <= i < |name|
      ensures fold(file[i]) == fold(name[i])
    {
      if i < |p| {
        assert Folded(fold, p)[i] == Folded(fold, name)[i];
      }
    }
    assert Folded(fold, file) == Folded(fold, name);
  }

  lemma CoverBegins(token: string, file: string)
    requires MayCover(token, file)
    ensures LiteralPrefix(token) <= file
  {
  }

  /** The file named by the token itself that is one, on disk, with the literal text of another. */
  lemma CoverUnfolds(fold: char -> char, token: string, name: string) returns (file: string)
    requires IsCaseFold(fold) && MayCover(Folded(fold, token), Folded(fold, name))
    ensures MayCover(token, file) && Folded(fold, file) == Folded(fold, name)
  {
    hide IsCaseFold, LiteralPrefix;
    FoldedGlob(fold, token);
    FoldedLiteral(fold, token);
    CoverBegins(Folded(fold, token), Folded(fold, name));
    file := Respelt(fold, LiteralPrefix(token), name);
    if !IsGlob(token) && token != "" && file != token {
      UnfoldedBoundary(fold, token, name, file);
    }
  }

  lemma UnfoldedBoundary(fold: char -> char, token: string, name: string, file: string)
    requires IsCaseFold(fold) && token != "" && |token| <= |name| && file == token + name[|token|..] && file != token
    requires Folded(fold, token) + "/" <= Folded(fold, name)
      || (Folded(fold, token)[|token| - 1] == '/' && Folded(fold, token) <= Folded(fold, name))
      || Folded(fold, name) == Folded(fold, token)
    ensures token + "/" <= file || (token[|token| - 1] == '/' && token <= file)
  {
    var n := |token|;
    assert |name| > n;
    if Folded(fold, token) + "/" <= Folded(fold, name) {
      assert Folded(fold, name)[n] == '/';
      assert fold(name[n]) == '/';
      assert file[n] == name[n] == '/';
    }
  }

  /** Whatever the file system's case rule, two tokens may name one file exactly when their folded forms pass the test
      or a wildcard stops inside a component of the folded forms. */
  lemma ShareOnDiskIff(fold: char -> char, x: string, y: string)
    requires IsCaseFold(fold)
    ensures ShareOnDisk(fold, x, y) <==>
              TokensIntersect(Folded(fold, x), Folded(fold, y)) || Clash(Folded(fold, x), Folded(fold, y))
  {
    hide TokensIntersect, Clash, MayCover, LiteralPrefix, IsCaseFold;
    var fx, fy := Folded(fold, x), Folded(fold, y);
    ShareIff(fx, fy);
    if ShareOnDisk(fold, x, y) {
      var f, g :| MayCover(x, f) && MayCover(y, g) && Folded(fold, f) == Folded(fold, g);
      CoverFolds(fold, x, f);
      CoverFolds(fold, y, g);
    }
    if TokensIntersect(fx, fy) || Clash(fx, fy) {
      var h := CommonFile(fx, fy);
      FoldedLiteral(fold, x);
      FoldedLiteral(fold, y);
      var name := if h == LiteralPrefix(fx) then LiteralPrefix(x) else LiteralPrefix(y);
      var f := CoverUnfolds(fold, x, name);
      var g := CoverUnfolds(fold, y, name);
    }
  }

  /** On disk the overlap test misses two declared paths that can name one file exactly when it judges them disjoint as
      written, but would not do so in folded form, or a wildcard stops inside a component there. */
  lemma MissedOnDiskIff(fold: char -> char, a: string, b: string)
    requires IsCaseFold(fold)
    ensures var x, y := NormaliseWritePath(a), NormaliseWritePath(b); var fx, fy := Folded(fold, x), Folded(fold, y);
      ShareOnDisk(fold, x, y) && !PathsIntersect(a, b) <==>
        !PathsIntersect(a, b) && (TokensIntersect(fx, fy) || Clash(fx, fy))
  {
    hide TokensIntersect, Clash, MayCover, IsCaseFold, NormaliseWritePath, ShareOnDisk, PathsIntersect;
    ShareOnDiskIff(fold, NormaliseWritePath(a), NormaliseWritePath(b));
  }

  /** Declared paths already written in folded form, whose wildcards start a component, share no file on disk once they
      are judged disjoint. */
  lemma DisjointFoldedTokensShareNoFile(fold: char -> char, a: string, b: string)
    requires IsCaseFold(fold) && WildcardStartsComponent(a) && WildcardStartsComponent(b) && !PathsIntersect(a, b)
    requires Folded(fold, NormaliseWritePath(a)) == NormaliseWritePath(a)
    requires Folded(fold, NormaliseWritePath(b)) == NormaliseWritePath(b)
    ensures !ShareOnDisk(fold, NormaliseWritePath(a), NormaliseWritePath(b))
  {
    hide TokensIntersect, IsCaseFold, NormaliseWritePath, ShareOnDisk, MayCover;
    ShareOnDiskIff(fold, NormaliseWritePath(a), NormaliseWritePath(b));
  }

  /** Plain paths of the same length that differ only in case are judged disjoint and name one file: "src/App.go" and
      "src/app.go". */
  lemma CaseVariantsAreMissed(fold: char -> char, a: string, b: string)
    requires IsCaseFold(fold) && IsPlain(a) && IsPlain(b) && a != b && Folded(fold, a) == Folded(fold, b)
    requires forall i :: 0 <= i < |a| ==> !IsWildcard(a[i]) && !IsWildcard(b[i])
    ensures !PathsIntersect(a, b) && ShareOnDisk(fold, NormaliseWritePath(a), NormaliseWritePath(b))
  {
    hide IsCaseFold, NormaliseWritePath, IsPlain;
    PlainToken(a);
    PlainToken(b);
    assert a != "" && b != "" by { PlainIsNotEmpty(a); PlainIsNotEmpty(b); }
    LiteralOf(a, "");
    LiteralOf(b, "");
    assert a + "" == a && b + "" == b;
    assert |a| == |b|;
    assert MayCover(a, a) && MayCover(b, b);
  }

  lemma PlainIsNotEmpty(s: string)
    requires IsPlain(s)
    ensures s != ""
  {
  }

  // ---- empty and "." segments, for paths without wildcards ----

  function RealSegments(parts: seq<string>, n: nat): seq<string>
    requires n <= |parts|
  {
    if n == 0 then []
    else RealSegments(parts, n - 1) + if parts[n - 1] == "" || parts[n - 1] == "." then [] else [parts[n - 1]]
  }

  /** What of a path the file system sees: its segments without empty ones and ".". */
  function Segments(path: string): seq<string> {
    var parts := Split(path, '/');
    RealSegments(parts, |parts|)
  }

  /** The plain token covers, under some spelling, the file with these segments. */
  ghost predicate CoversSegments(token: string, file: seq<string>) {
    exists f :: MayCover(token, f) && Segments(f) == file
  }

  lemma {:induction false} RealSegmentsConcat(a: seq<string>, b: seq<string>, n: nat)
    requires n <= |b|
    ensures RealSegments(a + b, |a| + n) == RealSegments(a, |a|) + RealSegments(b, n)
  {
    if n == 0 {
      RealSegmentsPrefix(a, b, |a|);
    } else {
      RealSegmentsConcat(a, b, n - 1);
      assert (a + b)[|a| + n - 1] == b[n - 1];
    }
  }

  lemma {:induction false} RealSegmentsPrefix(a: seq<string>, b: seq<string>, n: nat)
    requires n <= |a|
    ensures RealSegments(a + b, n) == RealSegments(a, n)
  {
    if n > 0 {
      RealSegmentsPrefix(a, b, n - 1);
    }
  }

  lemma {:induction false} SplitAtSeparator(a: string, b: string)
    ensures Split(a + "/" + b, '/') == Split(a, '/') + Split(b, '/')
    decreases |a|
  {
    hide Split;
    var i := IndexByte(a, '/');
    if i < 0 {
      SplitWhole(a, '/');
      SplitPart(a, b, '/');
    } else {
      var part, rest := a[..i], a[i + 1..];
      assert a == part + ['/'] + rest;
      assert a + "/" + b == part + ['/'] + (rest + "/" + b);
      SplitPart(part, rest, '/');
      SplitPart(part, rest + "/" + b, '/');
      SplitAtSeparator(rest, b);
    }
  }

  lemma SegmentsJoin(a: string, b: string)
    ensures Segments(a + "/" + b) == Segments(a) + Segments(b)
  {
    hide Split, RealSegments;
    SplitAtSeparator(a, b);
    RealSegmentsConcat(Split(a, '/'), Split(b, '/'), |Split(b, '/')|);
  }

  lemma NothingHasNoSegments()
    ensures Segments("") == []
  {
    var parts := Split("", '/');
    assert |parts| == 1 && parts[0] == "";
    assert RealSegments(parts, |parts|) == RealSegments(parts, |parts| - 1) + [];
  }

  /** A plain token covers exactly the paths whose segments its own are the beginning of. */
  lemma CoveredSegments(token: string, f: string)
    requires !IsGlob(token) && MayCover(token, f)
    ensures Segments(token) <= Segments(f)
  {
    hide Segments;
    NothingHasNoSegments();
    if token != "" && f != token {
      if token + "/" <= f {
        assert f == token + "/" + f[|token| + 1..];
        SegmentsJoin(token, f[|token| + 1..]);
      } else {
        var front := token[..|token| - 1];
        assert token == front + "/" + "" && f == front + "/" + f[|token|..];
        SegmentsJoin(front, "");
        SegmentsJoin(front, f[|token|..]);
      }
    }
  }

  lemma CoversLonger(token: string, longer: string)
    requires !IsGlob(token) && Segments(token) <= Segments(longer)
    ensures CoversSegments(token, Segments(longer))
  {
    hide Segments;
    if Segments(token) == Segments(longer) {
      assert MayCover(token, token);
    } else if token == "" {
      assert MayCover(token, longer);
    } else {
      var rest := Segments(longer)[|Segments(token)|..];
      SegmentsAreReal(longer);
      SpellSegments(rest);
      var f := token + "/" + Join(rest, '/');
      SegmentsJoin(token, Join(rest, '/'));
      assert MayCover(token, f);
    }
  }

  ghost predicate AreReal(parts: seq<string>) {
    forall i :: 0 <= i < |parts| ==> parts[i] != "" && parts[i] != "." && '/' !in parts[i]
  }

  lemma {:induction false} RealSegmentsAreReal(parts: seq<string>, n: nat)
    requires n <= |parts| && forall i :: 0 <= i < |parts| ==> '/' !in parts[i]
    ensures AreReal(RealSegments(parts, n))
  {
    if n > 0 {
      RealSegmentsAreReal(parts, n - 1);
    }
  }

  lemma SegmentsAreReal(path: string)
    ensures AreReal(Segments(path))
  {
    hide RealSegments;
    RealSegmentsAreReal(Split(path, '/'), |Split(path, '/')|);
  }

  lemma {:induction false} KeepsReal(parts: seq<string>, n: nat)
    requires n <= |parts| && AreReal(parts)
    ensures RealSegments(parts, n) == parts[..n]
  {
    if n > 0 {
      KeepsReal(parts, n - 1);
    }
  }

  lemma SpellSegments(parts: seq<string>)
    requires AreReal(parts) && parts != []
    ensures Segments(Join(parts, '/')) == parts
  {
    hide Split, RealSegments;
    SplitJoin(parts, '/');
    KeepsReal(parts, |parts|);
    assert parts[..|parts|] == parts;
  }

  ghost predicate ShareSegments(x: string, y: string) {
    exists file :: CoversSegments(x, file) && CoversSegments(y, file)
  }

  /** Two plain tokens name one file, up to empty and "." segments, exactly when the segments of one begin those of the
      other. */
  lemma PlainShareIff(x: string, y: string)
    requires !IsGlob(x) && !IsGlob(y)
    ensures ShareSegments(x, y) <==> Segments(x) <= Segments(y) || Segments(y) <= Segments(x)
  {
    hide Segments, CoversSegments, IsGlob;
    if ShareSegments(x, y) {
      var file :| CoversSegments(x, file) && CoversSegments(y, file);
      var f := Spelling(x, file);
      var g := Spelling(y, file);
      CoveredSegments(x, f);
      CoveredSegments(y, g);
    }
    if Segments(x) <= Segments(y) {
      CoversLonger(x, y);
      CoversLonger(y, y);
    } else if Segments(y) <= Segments(x) {
      CoversLonger(x, x);
      CoversLonger(y, x);
    }
  }

  lemma Spelling(token: string, file: seq<string>) returns (f: string)
    requires CoversSegments(token, file)
    ensures MayCover(token, f) && Segments(f) == file
  {
    f :| MayCover(token, f) && Segments(f) == file;
  }

  /** A path spelt without empty and "." segments. */
  predicate IsTidy(path: string) {
    path == Join(Segments(path), '/')
  }

  /** Tidy plain paths are judged exactly: the test says overlap if and only if they name a common file. */
  lemma TidyPathsAreJudgedExactly(x: string, y: string)
    requires !IsGlob(x) && !IsGlob(y) && IsTidy(x) && IsTidy(y)
    ensures TokensIntersect(x, y) <==> ShareSegments(x, y)
  {
    hide Segments, ShareSegments, IsGlob;
    PlainShareIff(x, y);
    PlainMatch(x, y);
    PlainMatch(y, x);
    PlainTokenTest(x, y);
  }

  lemma PlainTokenTest(x: string, y: string)
    requires !IsGlob(x) && !IsGlob(y)
    ensures TokensIntersect(x, y) <==> PathPrefixMatch(x, y) || PathPrefixMatch(y, x)
  {
    assert LiteralPrefix("**") == "";
  }

  lemma PlainMatch(x: string, y: string)
    requires IsTidy(x) && IsTidy(y)
    ensures PathPrefixMatch(x, y) <==> Segments(x) <= Segments(y)
  {
    hide Segments;
    var a, b := Segments(x), Segments(y);
    SegmentsAreReal(x);
    SegmentsAreReal(y);
    NothingHasNoSegments();
    if a <= b && a != b && a != [] {
      assert b == a + b[|a|..];
      JoinConcat(a, b[|a|..]);
    }
    if PathPrefixMatch(x, y) && x != "" && x != y {
      NoTrailingSeparator(a);
      assert y == x + "/" + y[|x| + 1..];
      SegmentsJoin(x, y[|x| + 1..]);
    }
  }

  lemma {:induction false} JoinConcat(a: seq<string>, b: seq<string>)
    requires a != [] && b != []
    ensures Join(a + b, '/') == Join(a, '/') + "/" + Join(b, '/')
  {
    if |a| == 1 {
      assert (a + b)[1..] == b;
    } else {
      assert (a + b)[1..] == a[1..] + b;
      JoinConcat(a[1..], b);
    }
  }

  lemma {:induction false} NoTrailingSeparator(parts: seq<string>)
    requires AreReal(parts) && parts != []
    ensures Join(parts, '/') != "" && Join(parts, '/')[|Join(parts, '/')| - 1] != '/'
  {
    if |parts| > 1 {
      NoTrailingSeparator(parts[1..]);
    }
  }

  /** A "." segment hides an overlap: any tidy path against the same path behind one. */
  lemma DotSegmentIsMissed(first: string, rest: string)
    requires !IsGlob(first + "/./" + rest) && !IsGlob(first + "/" + rest)
    requires first != "" && rest != "" && rest[0] != '.'
    ensures ShareSegments(first + "/./" + rest, first + "/" + rest)
    ensures !TokensIntersect(first + "/./" + rest, first + "/" + rest)
  {
    hide Segments, IsGlob;
    var x, y := first + "/./" + rest, first + "/" + rest;
    assert x == first + "/" + ("." + "/" + rest);
    SegmentsJoin(first, "." + "/" + rest);
    SegmentsJoin(".", rest);
    SegmentsJoin(first, rest);
    DotHasNoSegments();
    PlainShareIff(x, y);
    PlainTokenTest(x, y);
    assert x[|first| + 1] == '.' && y[|first| + 1] == rest[0];
    assert |x| > |y|;
  }

  lemma DotHasNoSegments()
    ensures Segments(".") == []
  {
    SplitWhole(".", '/');
  }
}
