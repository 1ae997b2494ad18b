/** Overlap of declared write paths
    (sidecar/internal/orchestrator/orchestrator.go, pathsIntersect and its helpers). */
module WritePaths {
  import opened Text

  function ReplaceBackslashes(s: string): string {
    seq(|s|, i requires 0 <= i < |s| => if s[i] == '\\' then '/' else s[i])
  }

  function TrimPrefix(s: string, prefix: string): string {
    if prefix <= s then s[|prefix|..] else s
  }

  function NormaliseWritePath(s: string): string {
    TrimPrefix(TrimPrefix(ReplaceBackslashes(TrimSpace(s)), "./"), "/")
  }

  predicate IsWildcard(c: char) {
    c in {'*', '?', '[', '{'}
  }

  /** The leading text before the first wildcard. */
  function LiteralPrefix(glob: string): (p: string)
    ensures p <= glob
    ensures p == glob || IsWildcard(glob[|p|])
  {
    if glob == "" || IsWildcard(glob[0]) then "" else [glob[0]] + LiteralPrefix(glob[1..])
  }

  predicate PathPrefixMatch(short: string, long: string) {
    || short == ""
    || short == long
    || (short <= long && (short[|short| - 1] == '/' || (|long| > |short| && long[|short|] == '/')))
  }

  /** The overlap test on normalised tokens. */
  predicate TokensIntersect(x: string, y: string) {
    || x == "" || y == "" || x == "**" || y == "**"
    || PathPrefixMatch(LiteralPrefix(x), LiteralPrefix(y))
    || PathPrefixMatch(LiteralPrefix(y), LiteralPrefix(x))
  }

  predicate PathsIntersect(a: string, b: string) {
    TokensIntersect(NormaliseWritePath(a), NormaliseWritePath(b))
  }

  /** Whether a group of tokens overlaps the tokens of a batch; an empty group touches everything. */
  predicate PathsIntersectAny(group: seq<string>, batch: seq<string>) {
    if batch == [] then false
    else if group == [] then true
    else exists g, b :: g in group && b in batch && PathsIntersect(g, b)
  }

  // ---- what a token may write ----

  predicate IsGlob(token: string) {
    LiteralPrefix(token) != token
  }

  /** The files a normalised token may stand for, under any glob semantics in which a match starts with the
      literal text before the first wildcard. A token without wildcards is a file or a whole directory. */
  predicate MayCover(token: string, file: string) {
    if IsGlob(token) then LiteralPrefix(token) <= file
    else token == "" || file == token || token + "/" <= file || (token[|token| - 1] == '/' && token <= file)
  }

  /** The glob's literal text stops inside a path component of the other token's literal text. */
  predicate StopsInsideComponent(glob: string, other: string) {
    var p, q := LiteralPrefix(glob), LiteralPrefix(other);
    && IsGlob(glob) && p != "" && p[|p| - 1] != '/'
    && p < q && q[|p|] != '/'
  }

  predicate Clash(a: string, b: string) {
    StopsInsideComponent(a, b) || StopsInsideComponent(b, a)
  }

  ghost predicate ShareAFile(a: string, b: string) {
    exists file :: MayCover(a, file) && MayCover(b, file)
  }

  lemma LiteralCovered(token: string, file: string)
    requires MayCover(token, file)
    ensures LiteralPrefix(token) <= file
  {
  }

  lemma NoMatchMeansStop(a: string, b: string, file: string)
    requires MayCover(a, file) && MayCover(b, file) && a != ""
    requires LiteralPrefix(a) <= LiteralPrefix(b) && !PathPrefixMatch(LiteralPrefix(a), LiteralPrefix(b))
    ensures StopsInsideComponent(a, b)
  {
    var p, q := LiteralPrefix(a), LiteralPrefix(b);
    LiteralCovered(b, file);
    assert p != q;
    assert |p| < |q|;
  }

  /** Taking file names as texts, the overlap test misses a pair of tokens that can name a common file exactly when a
      wildcard of one stops inside a path component of the other. */
  lemma MissedOverlapIff(a: string, b: string)
    ensures var x, y := NormaliseWritePath(a), NormaliseWritePath(b);
            ShareAFile(x, y) && !PathsIntersect(a, b) <==> Clash(x, y)
  {
    var x, y := NormaliseWritePath(a), NormaliseWritePath(b);
    if ShareAFile(x, y) && !PathsIntersect(a, b) {
      var file :| MayCover(x, file) && MayCover(y, file);
      LiteralCovered(x, file);
      LiteralCovered(y, file);
      if LiteralPrefix(x) <= LiteralPrefix(y) {
        NoMatchMeansStop(x, y, file);
      } else {
        NoMatchMeansStop(y, x, file);
      }
    }
    if StopsInsideComponent(x, y) {
      ClashIsMissed(x, y);
    }
    if StopsInsideComponent(y, x) {
      ClashIsMissed(y, x);
    }
  }

  lemma ClashIsMissed(glob: string, other: string)
    requires StopsInsideComponent(glob, other)
    ensures ShareAFile(glob, other) && glob != "" && glob != "**" && other != "" && other != "**"
    ensures !PathPrefixMatch(LiteralPrefix(glob), LiteralPrefix(other))
    ensures !PathPrefixMatch(LiteralPrefix(other), LiteralPrefix(glob))
  {
    var q := LiteralPrefix(other);
    assert MayCover(glob, q) && MayCover(other, q);
    assert LiteralPrefix("**") == "";
  }

  // Wildcards that start a path component, as in "ui/lib/features/kanban/**" or "proto/v1/*.proto".
  predicate WildcardStartsComponent(token: string) {
    var p := LiteralPrefix(NormaliseWritePath(token));
    IsGlob(NormaliseWritePath(token)) ==> p == "" || p[|p| - 1] == '/'
  }

  /** For tokens of that shape, and for plain paths, disjoint means no common file. */
  lemma DisjointTokensShareNoFile(a: string, b: string, file: string)
    requires WildcardStartsComponent(a) && WildcardStartsComponent(b) && !PathsIntersect(a, b)
    ensures !(MayCover(NormaliseWritePath(a), file) && MayCover(NormaliseWritePath(b), file))
  {
    MissedOverlapIff(a, b);
  }

  /** The shape matters: stem followed by a wildcard, against any longer name with that stem, is judged
      disjoint although the glob may write that file; "src/a*" and "src/ab.go" are such a pair. */
  lemma GlobInsideComponentIsMissed(stem: string, rest: string)
    requires IsPlain(stem + "*") && IsPlain(stem + rest)
    requires stem != "" && stem[|stem| - 1] != '/' && rest != "" && rest[0] != '/'
    requires forall i :: 0 <= i < |stem + rest| ==> !IsWildcard((stem + rest)[i])
    ensures !PathsIntersect(stem + "*", stem + rest)
    ensures MayCover(NormaliseWritePath(stem + "*"), stem + rest)
    ensures MayCover(NormaliseWritePath(stem + rest), stem + rest)
  {
    hide TrimSpace, NormaliseWritePath, IsPlain, StopsInsideComponent, LiteralPrefix;
    PlainToken(stem + "*");
    PlainToken(stem + rest);
    StemStops(stem, rest);
    ClashIsMissed(stem + "*", stem + rest);
  }

  lemma StemStops(stem: string, rest: string)
    requires stem != "" && stem[|stem| - 1] != '/' && rest != "" && rest[0] != '/'
    requires forall i :: 0 <= i < |stem + rest| ==> !IsWildcard((stem + rest)[i])
    ensures StopsInsideComponent(stem + "*", stem + rest)
    ensures MayCover(stem + "*", stem + rest) && MayCover(stem + rest, stem + rest)
  {
    assert forall i :: 0 <= i < |stem| ==> stem[i] == (stem + rest)[i];
    LiteralOf(stem, "*");
    LiteralOf(stem + rest, "");
    assert stem + rest + "" == stem + rest;
  }

  predicate IsPlain(s: string) {
    IsTrimmed(s) && '\\' !in s && s != "" && s[0] != '.' && s[0] != '/'
  }

  lemma PlainToken(s: string)
    requires IsPlain(s)
    ensures NormaliseWritePath(s) == s
  {
    hide TrimSpace;
    TrimIdentity(s);
    assert ReplaceBackslashes(s) == s;
  }

  lemma {:induction false} LiteralOf(p: string, rest: string)
    requires forall i :: 0 <= i < |p| ==> !IsWildcard(p[i])
    requires rest == "" || IsWildcard(rest[0])
    ensures LiteralPrefix(p + rest) == p
  {
    if p == "" {
      assert p + rest == rest;
    } else {
      assert (p + rest)[1..] == p[1..] + rest;
      LiteralOf(p[1..], rest);
    }
  }
}
