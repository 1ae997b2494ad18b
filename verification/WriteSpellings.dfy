/** The overlap test on declared paths as they are written, with either separator, padding and a leading "." or
    separator (sidecar/internal/orchestrator/orchestrator.go, pathsIntersect, normaliseWritePath). */
module WriteSpellings {
  import opened Text
  import opened DepGraph
  import opened Planner
  import opened WritePaths
  import opened FileIdentity
  import opened SubtaskLoop

  // ---- the parts of a written path ----

  predicate IsSeparator(c: char) {
    c == '/' || c == '\\'
  }

  /** The texts between the separators, of either kind. */
  function Cut(s: string): (parts: seq<string>)
    ensures parts != []
  {
    if s == "" then [""]
    else
      var rest := Cut(s[1..]);
      if IsSeparator(s[0]) then [""] + rest else [[s[0]] + rest[0]] + rest[1..]
  }

  /** Without one "." in front and then one empty part in front. */
  function WithoutLead(parts: seq<string>): (r: seq<string>)
    requires parts != []
    ensures r != []
  {
    var undotted := if |parts| > 1 && parts[0] == "." then parts[1..] else parts;
    if |undotted| > 1 && undotted[0] == "" then undotted[1..] else undotted
  }

  /** What of a declaration counts: its parts up to the first wildcard, without padding and lead. */
  function Parts(declared: string): (r: seq<string>)
    ensures r != []
  {
    WithoutLead(Cut(LiteralPrefix(TrimSpace(declared))))
  }

  /** Without the empty part behind a separator at the end. */
  function Trunk(parts: seq<string>): seq<string>
    requires parts != []
  {
    if parts[|parts| - 1] == "" then parts[..|parts| - 1] else parts
  }

  predicate Begins(a: seq<string>, b: seq<string>)
    requires a != []
  {
    Trunk(a) <= b
  }

  // ---- cutting ----

  lemma {:induction false} CutIsSplit(s: string)
    ensures Split(ReplaceBackslashes(s), '/') == Cut(s)
  {
    if s == "" {
      assert ReplaceBackslashes(s) == "";
    } else {
      CutIsSplit(s[1..]);
      assert ReplaceBackslashes(s)[1..] == ReplaceBackslashes(s[1..]);
    }
  }

  /** x ends where a part of y ends. */
  predicate EndsAtPart(x: string, y: string) {
    x <= y && (|x| == |y| || y[|x|] == '/')
  }

  lemma EndsAtPartCons(x: string, y: string)
    requires x != "" && y != ""
    ensures EndsAtPart(x, y) <==> x[0] == y[0] && EndsAtPart(x[1..], y[1..])
  {
    assert x == [x[0]] + x[1..] && y == [y[0]] + y[1..];
  }

  /** The parts of one text begin those of another exactly when it ends where a part of the other ends. */
  lemma {:induction false} SplitBegins(x: string, y: string)
    ensures Split(x, '/') <= Split(y, '/') <==> EndsAtPart(x, y)
  {
    hide Split;
    if x == "" {
      SplitWhole("", '/');
      NothingBegins(y);
    } else if y != "" {
      SplitBegins(x[1..], y[1..]);
      EndsAtPartCons(x, y);
      HeadBegins(x, y);
    } else {
      SplitWhole("", '/');
      FirstPart(x);
    }
  }

  lemma NothingBegins(y: string)
    ensures [""] <= Split(y, '/') <==> y == "" || y[0] == '/'
  {
    hide Split;
    var i := IndexByte(y, '/');
    if i < 0 {
      SplitWhole(y, '/');
      assert [""] <= [y] ==> [""][0] == [y][0];
    } else {
      assert y == y[..i] + ['/'] + y[i + 1..];
      SplitPart(y[..i], y[i + 1..], '/');
      assert [""] <= Split(y, '/') ==> [""][0] == y[..i];
    }
  }

  lemma FirstPart(x: string)
    requires x != ""
    ensures Split(x, '/') != [""]
  {
    if x[0] == '/' {
      assert |Split(x, '/')| >= 2;
    } else {
      assert Split(x, '/')[0] != "";
    }
  }

  lemma HeadBegins(x: string, y: string)
    requires x != "" && y != ""
    ensures Split(x, '/') <= Split(y, '/') <==> x[0] == y[0] && Split(x[1..], '/') <= Split(y[1..], '/')
  {
    var a, b := Split(x[1..], '/'), Split(y[1..], '/');
    if x[0] == '/' && y[0] == '/' {
      EmptyCons(a, b);
    } else if x[0] != '/' && y[0] != '/' {
      ConsBegins(x[0], a, y[0], b);
    } else {
      assert Split(x, '/')[0] != Split(y, '/')[0];
    }
  }

  lemma EmptyCons(a: seq<string>, b: seq<string>)
    ensures [""] + a <= [""] + b <==> a <= b
  {
    var u, v := [""] + a, [""] + b;
    if u <= v {
      forall i | 0 <= i < |a| ensures a[i] == b[i] { assert u[i + 1] == v[i + 1]; }
    }
  }

  lemma ConsBegins(c: char, a: seq<string>, d: char, b: seq<string>)
    requires a != [] && b != []
    ensures [[c] + a[0]] + a[1..] <= [[d] + b[0]] + b[1..] <==> c == d && a <= b
  {
    var u, v := [[c] + a[0]] + a[1..], [[d] + b[0]] + b[1..];
    if u <= v {
      assert u[0] == v[0];
      assert ([c] + a[0])[0] == c && ([d] + b[0])[0] == d;
      assert ([c] + a[0])[1..] == a[0] && ([d] + b[0])[1..] == b[0];
      forall i | 0 <= i < |a| ensures a[i] == b[i] { assert u[i] == v[i]; }
    }
    if c == d && a <= b {
      assert a[0] == b[0];
      assert forall i :: 0 <= i < |u| ==> u[i] == v[i];
    }
  }

  lemma {:induction false} LastPart(x: string)
    ensures var parts := Split(x, '/');
      parts[|parts| - 1] == "" <==> x == "" || x[|x| - 1] == '/'
  {
    if x != "" {
      LastPart(x[1..]);
      var rest := Split(x[1..], '/');
      assert |rest| == 1 ==> rest[0] == x[1..] by { if |rest| == 1 { OnlyPart(x[1..]); } }
    }
  }

  lemma {:induction false} OnlyPart(x: string)
    requires |Split(x, '/')| == 1
    ensures Split(x, '/') == [x] && '/' !in x
  {
    if x != "" {
      OnlyPart(x[1..]);
      assert [x[0]] + x[1..] == x;
    }
  }

  lemma TrunkOf(x: string)
    requires x != "" && x[|x| - 1] == '/'
    ensures Trunk(Split(x, '/')) == Split(x[..|x| - 1], '/')
  {
    var front := x[..|x| - 1];
    assert x == front + "/" + "";
    SplitAtSeparator(front, "");
    assert Split("", '/') == [""];
  }

  /** The prefix test, in parts. */
  lemma MatchIff(x: string, y: string)
    ensures PathPrefixMatch(x, y) || PathPrefixMatch(y, x)
      <==> Begins(Split(x, '/'), Split(y, '/')) || Begins(Split(y, '/'), Split(x, '/'))
  {
    hide Split;
    OneMatch(x, y);
    OneMatch(y, x);
  }

  /** A text that matches begins the other; one that begins the other matches it or is matched by it. */
  lemma OneMatch(x: string, y: string)
    ensures PathPrefixMatch(x, y) ==> Begins(Split(x, '/'), Split(y, '/'))
    ensures Begins(Split(x, '/'), Split(y, '/')) ==> PathPrefixMatch(x, y) || PathPrefixMatch(y, x)
  {
    hide Split;
    LastPart(x);
    SplitBegins(x, y);
    if x == "" {
      assert Split(x, '/') == [""] by { SplitWhole("", '/'); }
    } else if x[|x| - 1] == '/' {
      TrunkOf(x);
      SplitBegins(x[..|x| - 1], y);
    }
  }

  // ---- what the test computes ----

  lemma LeadOfSplit(s: string)
    ensures WithoutLead(Split(s, '/')) == Split(TrimPrefix(TrimPrefix(s, "./"), "/"), '/')
  {
    hide Split;
    var t := TrimPrefix(s, "./");
    DotLead(s);
    SlashLead(t);
  }

  lemma DotLead(s: string)
    ensures var parts := Split(s, '/');
      Split(TrimPrefix(s, "./"), '/') == if |parts| > 1 && parts[0] == "." then parts[1..] else parts
  {
    hide Split;
    if "./" <= s {
      assert s == "." + ['/'] + s[2..];
      SplitPart(".", s[2..], '/');
    } else {
      LeadPart(s, ".");
    }
  }

  lemma SlashLead(s: string)
    ensures var parts := Split(s, '/');
      Split(TrimPrefix(s, "/"), '/') == if |parts| > 1 && parts[0] == "" then parts[1..] else parts
  {
    hide Split;
    if "/" <= s {
      assert s == "" + ['/'] + s[1..];
      SplitPart("", s[1..], '/');
    } else {
      LeadPart(s, "");
    }
  }

  /** A first part that is followed by another stands in front of a separator. */
  lemma LeadPart(s: string, part: string)
    ensures |Split(s, '/')| > 1 && Split(s, '/')[0] == part ==> part + "/" <= s
  {
    hide Split;
    var i := IndexByte(s, '/');
    if i < 0 {
      SplitWhole(s, '/');
    } else {
      assert s == s[..i] + ['/'] + s[i + 1..];
      SplitPart(s[..i], s[i + 1..], '/');
    }
  }

  lemma {:induction false} LiteralReplaced(s: string)
    ensures LiteralPrefix(ReplaceBackslashes(s)) == ReplaceBackslashes(LiteralPrefix(s))
  {
    if s != "" && !IsWildcard(s[0]) {
      LiteralReplaced(s[1..]);
      assert ReplaceBackslashes(s)[1..] == ReplaceBackslashes(s[1..]);
    }
  }

  lemma {:induction false} LiteralDropped(s: string, n: nat)
    requires n <= |LiteralPrefix(s)|
    ensures LiteralPrefix(s[n..]) == LiteralPrefix(s)[n..]
  {
    if n == 0 {
      assert s[0..] == s;
    } else {
      LiteralDropped(s[1..], n - 1);
      assert s[1..][n - 1..] == s[n..];
    }
  }

  /** The literal text before the first wildcard loses the same prefix as the whole. */
  lemma LiteralTrimmed(s: string, prefix: string)
    requires forall i :: 0 <= i < |prefix| ==> !IsWildcard(prefix[i])
    ensures LiteralPrefix(TrimPrefix(s, prefix)) == TrimPrefix(LiteralPrefix(s), prefix)
  {
    var p := LiteralPrefix(s);
    if prefix <= s {
      assert |p| >= |prefix|;
      LiteralDropped(s, |prefix|);
    }
  }

  /** The parts of the normalised literal text are the parts of the declaration. */
  lemma PartsAreSplit(declared: string)
    ensures Split(LiteralPrefix(NormaliseWritePath(declared)), '/') == Parts(declared)
  {
    hide Split, LiteralPrefix, TrimSpace, Cut, ReplaceBackslashes, TrimPrefix;
    var t := TrimSpace(declared);
    var r := ReplaceBackslashes(t);
    LiteralReplaced(t);
    LiteralTrimmed(r, "./");
    LiteralTrimmed(TrimPrefix(r, "./"), "/");
    LeadOfSplit(LiteralPrefix(r));
    CutIsSplit(LiteralPrefix(t));
  }

  /** Two declarations overlap exactly when the parts of one begin those of the other: whatever their separators, their
      padding, one "." and one separator in front, and up to the first wildcard. */
  lemma PathsIntersectIff(a: string, b: string)
    ensures PathsIntersect(a, b) <==> Begins(Parts(a), Parts(b)) || Begins(Parts(b), Parts(a))
  {
    hide Split, Parts, NormaliseWritePath, PathPrefixMatch, Begins;
    PartsAreSplit(a);
    PartsAreSplit(b);
    MatchIff(LiteralPrefix(NormaliseWritePath(a)), LiteralPrefix(NormaliseWritePath(b)));
    EverythingMatches(NormaliseWritePath(a), NormaliseWritePath(b));
  }

  /** The tokens that touch everything have no literal text. */
  lemma EverythingMatches(x: string, y: string)
    ensures TokensIntersect(x, y) <==>
      PathPrefixMatch(LiteralPrefix(x), LiteralPrefix(y)) || PathPrefixMatch(LiteralPrefix(y), LiteralPrefix(x))
  {
    assert LiteralPrefix("") == "" && LiteralPrefix("**") == "";
  }

  // ---- spellings of one path ----

  /** The ways to begin that the program takes off. */
  predicate IsLead(lead: string) {
    lead in {"", "./", ".\\", "/", "\\", ".//", "./\\", ".\\/", ".\\\\"}
  }

  /** The same text but for the kind of the separators. */
  ghost predicate SameButSeparators(body: string, path: string) {
    |body| == |path| && forall i :: 0 <= i < |path| ==> body[i] == path[i] || (path[i] == '/' && body[i] == '\\')
  }

  /** The declaration is the path behind a lead, with either separator and with padding. */
  ghost predicate IsSpelling(declared: string, path: string) {
    exists left, lead, body, right ::
      IsSpelledAs(declared, path, left, lead, body, right)
  }

  ghost predicate IsSpelledAs(declared: string, path: string, left: string, lead: string, body: string, right: string) {
    && declared == left + (lead + body) + right && AllSpace(left) && AllSpace(right) && IsLead(lead)
    && SameButSeparators(body, path)
  }

  lemma {:induction false} LiteralOfBody(body: string, path: string)
    requires SameButSeparators(body, path)
    ensures SameButSeparators(LiteralPrefix(body), LiteralPrefix(path))
  {
    if body != "" && !IsWildcard(path[0]) {
      LiteralOfBody(body[1..], path[1..]);
    }
  }

  lemma {:induction false} CutOfBody(body: string, path: string)
    requires SameButSeparators(body, path)
    ensures Cut(body) == Cut(path)
  {
    if body != "" {
      CutOfBody(body[1..], path[1..]);
    }
  }

  lemma LiteralCons(c: char, s: string)
    requires !IsWildcard(c)
    ensures LiteralPrefix([c] + s) == [c] + LiteralPrefix(s)
  {
    assert ([c] + s)[1..] == s;
  }

  lemma {:induction false} LiteralBehind(lead: string, s: string)
    requires forall i :: 0 <= i < |lead| ==> !IsWildcard(lead[i])
    ensures LiteralPrefix(lead + s) == lead + LiteralPrefix(s)
  {
    hide LiteralPrefix, IsWildcard;
    if lead == "" {
      assert lead + s == s && lead + LiteralPrefix(s) == LiteralPrefix(s);
    } else {
      var c, rest := lead[0], lead[1..];
      LiteralBehind(rest, s);
      LiteralCons(c, rest + s);
      assert lead + s == [c] + (rest + s);
      assert lead + LiteralPrefix(s) == [c] + (rest + LiteralPrefix(s));
    }
  }

  lemma CutDot(s: string, sep: char)
    requires IsSeparator(sep)
    ensures Cut(['.', sep] + s) == ["."] + Cut(s)
  {
    var t := ['.', sep] + s;
    assert t[1..] == [sep] + s;
    CutSeparator(s, sep);
    var rest := [""] + Cut(s);
    assert ['.'] + rest[0] == "." && rest[1..] == Cut(s);
  }

  lemma CutSeparator(s: string, sep: char)
    requires IsSeparator(sep)
    ensures Cut([sep] + s) == [""] + Cut(s)
  {
    assert ([sep] + s)[1..] == s;
  }

  /** A text that a plain path begins with. */
  predicate IsPlainStart(s: string) {
    s == "" || (s[0] != '.' && !IsSeparator(s[0]))
  }

  lemma PlainFirst(s: string)
    requires IsPlainStart(s)
    ensures Cut(s)[0] != "." && (|Cut(s)| > 1 ==> Cut(s)[0] != "")
  {
    if s != "" {
      assert Cut(s)[0] == [s[0]] + Cut(s[1..])[0];
      assert Cut(s)[0][0] == s[0];
    }
  }

  lemma OnePartLess(part: string, parts: seq<string>)
    requires parts != [] && parts[0] != "." && (|parts| > 1 ==> parts[0] != "")
    ensures WithoutLead(parts) == parts
    ensures part == "." || part == "" ==> WithoutLead([part] + parts) == parts
    ensures WithoutLead(["."] + ([""] + parts)) == parts
  {
    assert ([part] + parts)[1..] == parts && ([""] + parts)[1..] == parts;
    assert (["."] + ([""] + parts))[1..] == [""] + parts;
  }

  lemma LeadIsDropped(lead: string, s: string)
    requires IsLead(lead) && IsPlainStart(s)
    ensures WithoutLead(Cut(lead + s)) == Cut(s)
  {
    hide Cut, WithoutLead;
    PlainFirst(s);
    OnePartLess("", Cut(s));
    if lead == "" {
      assert lead + s == s;
    } else if lead[0] == '.' {
      DottedLead(lead, s);
    } else {
      assert lead + s == [lead[0]] + s;
      CutSeparator(s, lead[0]);
    }
  }

  lemma DottedLead(lead: string, s: string)
    requires IsLead(lead) && lead != "" && lead[0] == '.' && IsPlainStart(s)
    ensures WithoutLead(Cut(lead + s)) == Cut(s)
  {
    hide Cut, WithoutLead;
    PlainFirst(s);
    OnePartLess(".", Cut(s));
    if |lead| == 2 {
      assert lead + s == ['.', lead[1]] + s;
      CutDot(s, lead[1]);
    } else {
      var rest := [lead[2]] + s;
      assert lead + s == ['.', lead[1]] + rest;
      CutDot(rest, lead[1]);
      CutSeparator(s, lead[2]);
    }
  }

  lemma SpelledParts(declared: string, path: string, left: string, lead: string, body: string, right: string)
    requires IsPlain(path) && IsSpelledAs(declared, path, left, lead, body, right)
    ensures Parts(declared) == Cut(LiteralPrefix(path))
  {
    hide Cut, LiteralPrefix, TrimSpace;
    var written := lead + body;
    assert IsTrimmed(written) by { SpellingIsTrimmed(path, lead, body); }
    TrimPadded(left, written, right);
    assert forall i :: 0 <= i < |lead| ==> !IsWildcard(lead[i]);
    LiteralBehind(lead, body);
    LiteralOfBody(body, path);
    CutOfBody(LiteralPrefix(body), LiteralPrefix(path));
    LeadIsDropped(lead, LiteralPrefix(body));
  }

  lemma SpellingIsTrimmed(path: string, lead: string, body: string)
    requires IsPlain(path) && IsLead(lead) && SameButSeparators(body, path)
    ensures IsTrimmed(lead + body)
  {
    var written := lead + body;
    assert written[|written| - 1] == body[|body| - 1];
    assert written[0] == if lead == "" then body[0] else lead[0];
  }

  /** Every spelling of a plain path overlaps every other spelling of it, and overlaps exactly what the path does. */
  lemma SpellingsAreJudgedAlike(path: string, a: string, b: string, other: string)
    requires IsPlain(path) && IsSpelling(a, path) && IsSpelling(b, path)
    ensures PathsIntersect(a, b)
    ensures PathsIntersect(a, other) <==> PathsIntersect(path, other)
  {
    hide IsPlain, IsSpelledAs, Parts, Begins, PathsIntersect, LiteralPrefix, Cut;
    var l, e, body, r :| IsSpelledAs(a, path, l, e, body, r);
    SpelledParts(a, path, l, e, body, r);
    var l', e', body', r' :| IsSpelledAs(b, path, l', e', body', r');
    SpelledParts(b, path, l', e', body', r');
    PathSpellsItself(path);
    SpelledParts(path, path, "", "", path, "");
    PathsIntersectIff(a, b);
    PathsIntersectIff(a, other);
    PathsIntersectIff(path, other);
    BeginsItself(Parts(a));
  }

  lemma BeginsItself(parts: seq<string>)
    requires parts != []
    ensures Begins(parts, parts)
  {
  }

  lemma PathSpellsItself(path: string)
    ensures IsSpelledAs(path, path, "", "", path, "")
  {
    assert "" + ("" + path) + "" == path;
  }

  function WithBackslashes(path: string): string {
    seq(|path|, i requires 0 <= i < |path| => if path[i] == '/' then '\\' else path[i])
  }

  /** The usual ones: behind "./" or a separator, padded, and with backslashes. */
  lemma UsualSpellings(path: string, pad: string)
    requires AllSpace(pad)
    ensures IsSpelling("./" + path, path) && IsSpelling("/" + path, path) && IsSpelling(pad + path + pad, path)
    ensures IsSpelling(WithBackslashes(path), path) && IsSpelling(".\\" + WithBackslashes(path), path)
  {
    hide AllSpace, SameButSeparators;
    assert SameButSeparators(path, path) && SameButSeparators(WithBackslashes(path), path) by { OnlySeparators(path); }
    var back := WithBackslashes(path);
    assert AllSpace("") by { NoPadding(); }
    assert "" + ("./" + path) + "" == "./" + path;
    assert IsSpelledAs("./" + path, path, "", "./", path, "");
    assert "" + ("/" + path) + "" == "/" + path;
    assert IsSpelledAs("/" + path, path, "", "/", path, "");
    assert pad + ("" + path) + pad == pad + path + pad;
    assert IsSpelledAs(pad + path + pad, path, pad, "", path, pad);
    assert "" + ("" + back) + "" == back;
    assert IsSpelledAs(back, path, "", "", back, "");
    assert "" + (".\\" + back) + "" == ".\\" + back;
    assert IsSpelledAs(".\\" + back, path, "", ".\\", back, "");
  }

  lemma OnlySeparators(path: string)
    ensures SameButSeparators(path, path) && SameButSeparators(WithBackslashes(path), path)
  {
  }

  lemma NoPadding()
    ensures AllSpace("")
  {
  }

  // ---- the names of a path without wildcards ----

  ghost predicate HasNoWildcard(s: string) {
    forall i :: 0 <= i < |s| ==> !IsWildcard(s[i])
  }

  /** The names between separators of either kind, without empty ones and ".". */
  function Names(declared: string): seq<string> {
    var parts := Cut(TrimSpace(declared));
    RealSegments(parts, |parts|)
  }

  function Real(parts: seq<string>): seq<string> {
    RealSegments(parts, |parts|)
  }

  lemma RealConcat(a: seq<string>, b: seq<string>)
    ensures Real(a + b) == Real(a) + Real(b)
  {
    RealSegmentsConcat(a, b, |b|);
  }

  lemma RealOfLead(part: string)
    requires part == "" || part == "."
    ensures Real([part]) == []
  {
    assert RealSegments([part], 0) == [];
  }

  lemma LeadHasNoNames(parts: seq<string>)
    requires parts != []
    ensures Real(WithoutLead(parts)) == Real(parts) && Real(Trunk(parts)) == Real(parts)
  {
    hide Real;
    var undotted := if |parts| > 1 && parts[0] == "." then parts[1..] else parts;
    DropNothing(parts, ".");
    DropNothing(undotted, "");
    var n := |parts| - 1;
    if parts[n] == "" {
      assert parts == parts[..n] + [parts[n]];
      RealConcat(parts[..n], [parts[n]]);
      RealOfLead(parts[n]);
    }
  }

  lemma DropNothing(parts: seq<string>, part: string)
    requires part == "" || part == "."
    ensures |parts| > 1 && parts[0] == part ==> Real(parts[1..]) == Real(parts)
  {
    hide Real;
    if |parts| > 1 && parts[0] == part {
      assert parts == [parts[0]] + parts[1..];
      RealConcat([parts[0]], parts[1..]);
      RealOfLead(parts[0]);
    }
  }

  lemma NamesOfParts(declared: string)
    requires HasNoWildcard(TrimSpace(declared))
    ensures Names(declared) == Real(Parts(declared))
  {
    hide Cut, TrimSpace;
    var t := TrimSpace(declared);
    LiteralOf(t, "");
    assert t + "" == t;
    LeadHasNoNames(Cut(t));
  }

  /** Nothing but names, behind the lead and before a separator at the end. */
  ghost predicate IsTidyDeclared(declared: string) {
    AreReal(Trunk(Parts(declared)))
  }

  lemma TidyNames(declared: string)
    requires HasNoWildcard(TrimSpace(declared)) && IsTidyDeclared(declared)
    ensures Names(declared) == Trunk(Parts(declared))
  {
    hide Parts, Cut, TrimSpace;
    var parts := Parts(declared);
    NamesOfParts(declared);
    LeadHasNoNames(parts);
    KeepsReal(Trunk(parts), |Trunk(parts)|);
    assert Trunk(parts)[..|Trunk(parts)|] == Trunk(parts);
  }

  lemma BeginsInNames(a: string, b: string)
    requires HasNoWildcard(TrimSpace(a)) && HasNoWildcard(TrimSpace(b)) && Begins(Parts(a), Parts(b))
    ensures Names(a) <= Names(b)
  {
    hide Parts, Cut, TrimSpace, Trunk;
    NamesOfParts(a);
    NamesOfParts(b);
    LeadHasNoNames(Parts(a));
    var front, all := Trunk(Parts(a)), Parts(b);
    assert all == front + all[|front|..];
    RealConcat(front, all[|front|..]);
  }

  /** Declarations without wildcards that overlap name one file or directory inside the other; the test misses such a
      pair exactly when its parts do not begin one another, which takes an empty or "." part behind the lead. */
  lemma MissedSpellingIff(a: string, b: string)
    requires HasNoWildcard(TrimSpace(a)) && HasNoWildcard(TrimSpace(b))
    ensures PathsIntersect(a, b) ==> Names(a) <= Names(b) || Names(b) <= Names(a)
    ensures (Names(a) <= Names(b) || Names(b) <= Names(a)) && !PathsIntersect(a, b) <==>
      && (Names(a) <= Names(b) || Names(b) <= Names(a))
      && !(Begins(Parts(a), Parts(b)) || Begins(Parts(b), Parts(a)))
    ensures (Names(a) <= Names(b) || Names(b) <= Names(a)) && !PathsIntersect(a, b) ==>
      !IsTidyDeclared(a) || !IsTidyDeclared(b)
  {
    hide PathsIntersect, Names, Parts, TrimSpace;
    PathsIntersectIff(a, b);
    if Begins(Parts(a), Parts(b)) { BeginsInNames(a, b); }
    if Begins(Parts(b), Parts(a)) { BeginsInNames(b, a); }
    if IsTidyDeclared(a) && IsTidyDeclared(b) {
      TidyNames(a);
      TidyNames(b);
      if Names(a) <= Names(b) { TrunkBegins(Parts(a), Parts(b)); }
      if Names(b) <= Names(a) { TrunkBegins(Parts(b), Parts(a)); }
    }
  }

  lemma TrunkBegins(a: seq<string>, b: seq<string>)
    requires a != [] && b != [] && Trunk(a) <= Trunk(b)
    ensures Begins(a, b)
  {
  }

  /** So tidy declarations without wildcards overlap exactly when the names of one begin those of the other. */
  lemma TidySpellingsAreJudgedExactly(a: string, b: string)
    requires HasNoWildcard(TrimSpace(a)) && HasNoWildcard(TrimSpace(b)) && IsTidyDeclared(a) && IsTidyDeclared(b)
    ensures PathsIntersect(a, b) <==> Names(a) <= Names(b) || Names(b) <= Names(a)
  {
    hide PathsIntersect, Names, Parts, TrimSpace, IsTidyDeclared;
    MissedSpellingIff(a, b);
  }

  // ---- wildcards ----

  predicate IsGlobMark(c: char) {
    c == '*' || c == '?' || c == '[' || c == '{'
  }

  /** Of a token, the text before its first star, question mark, bracket or brace counts. */
  lemma {:induction false} LiteralStopsAtMark(text: string, c: char, rest: string)
    requires IsGlobMark(c) && forall i :: 0 <= i < |text| ==> !IsGlobMark(text[i])
    ensures LiteralPrefix(text + [c] + rest) == text && LiteralPrefix(text) == text
  {
    if text == "" {
      assert text + [c] + rest == [c] + rest;
    } else {
      LiteralStopsAtMark(text[1..], c, rest);
      assert (text + [c] + rest)[1..] == text[1..] + [c] + rest;
      assert [text[0]] + text[1..] == text;
    }
  }

  // ---- waves ----

  /** No two members of a batch declare paths whose parts begin one another. */
  lemma BatchPartsAreApart(table: Table, batch: seq<Id>, x: Id, y: Id, a: string, b: string)
    requires IsDisjointBatch(table, batch) && x in batch && y in batch && x != y && x in table && y in table
    requires a in table[x].writePaths && b in table[y].writePaths
    ensures !Begins(Parts(a), Parts(b)) && !Begins(Parts(b), Parts(a))
  {
    hide IsDisjointBatch, PathsIntersect, Parts, Begins;
    BatchSafeTogether(table, batch, x, y);
    PathsIntersectIff(a, b);
  }

  /** However two subtasks spell a path, only one of them is in a batch. */
  lemma SpellingsAreNeverTogether(table: Table, batch: seq<Id>, x: Id, y: Id, path: string, a: string, b: string)
    requires IsDisjointBatch(table, batch) && x != y && x in table && y in table
    requires a in table[x].writePaths && b in table[y].writePaths
    requires IsPlain(path) && IsSpelling(a, path) && IsSpelling(b, path)
    ensures x !in batch || y !in batch
  {
    hide IsDisjointBatch, PathsIntersect, IsPlain, IsSpelling;
    SpellingsAreJudgedAlike(path, a, b, path);
    if x in batch && y in batch {
      BatchSafeTogether(table, batch, x, y);
    }
  }

  /** And no session is opened while another subtask that spells one of its paths is doing. */
  lemma SpellingsNeverRunTogether(table: Table, slots: nat, starts: seq<Start>, i: nat, r: Id, path: string, a: string,
                                  b: string)
    requires LogOk(table, slots, starts) && i < |starts| && r != starts[i].id && r in starts[i].statuses
    requires r in table && starts[i].id in table && a in table[starts[i].id].writePaths && b in table[r].writePaths
    requires IsPlain(path) && IsSpelling(a, path) && IsSpelling(b, path)
    ensures starts[i].statuses[r] != Doing
  {
    hide PathsIntersect, IsPlain, IsSpelling, LogOk;
    SpellingsAreJudgedAlike(path, a, b, path);
    if starts[i].statuses[r] == Doing {
      DoingIsSafe(table, slots, starts, i, r);
    }
  }

  lemma DoingIsSafe(table: Table, slots: nat, starts: seq<Start>, i: nat, r: Id)
    requires LogOk(table, slots, starts) && i < |starts| && r != starts[i].id && r in starts[i].statuses
    requires starts[i].statuses[r] == Doing
    ensures r in table && starts[i].id in table
    ensures SafeTogether(table[starts[i].id].writePaths, table[r].writePaths)
  {
    hide SafeTogether;
    assert Justified(table, slots, starts[i]);
    assert r in starts[i].running;
  }
}
