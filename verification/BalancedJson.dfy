/** Cutting the first JSON object out of a transcript (sidecar/internal/copilot/planner.go, firstBalancedJSON). */
module BalancedJson {
  import opened Text

  // ---- the scanner ----

  datatype ScanState = ScanState(depth: int, inStr: bool, escape: bool)

  const START := ScanState(0, false, false)

  function Step(st: ScanState, c: char): ScanState {
    if st.inStr then
      if st.escape then st.(escape := false)
      else if c == '\\' then st.(escape := true)
      else if c == '"' then st.(inStr := false)
      else st
    else if c == '"' then st.(inStr := true)
    else if c == '{' then st.(depth := st.depth + 1)
    else if c == '}' then st.(depth := st.depth - 1)
    else st
  }

  /** The character closes the outermost brace. */
  predicate Closes(st: ScanState, c: char) {
    !st.inStr && c == '}' && st.depth == 1
  }

  function StateAfter(st: ScanState, text: string): ScanState
    decreases |text|
  {
    if text == "" then st else StateAfter(Step(st, text[0]), text[1..])
  }

  /** How many characters it takes to close the outermost brace. */
  function FirstClose(st: ScanState, text: string): (r: Option<nat>)
    ensures r.Some? ==> 1 <= r.value <= |text|
    decreases |text|
  {
    if text == "" then None
    else if Closes(st, text[0]) then Some(1)
    else Later(1, FirstClose(Step(st, text[0]), text[1..]))
  }

  function Later(n: nat, r: Option<nat>): Option<nat> {
    match r { case Some(k) => Some(n + k) case None => None }
  }

  lemma FirstCloseStep(st: ScanState, s: string, i: nat)
    requires i < |s|
    ensures FirstClose(st, s[i..]) ==
      if Closes(st, s[i]) then Some(1) else Later(1, FirstClose(Step(st, s[i]), s[i + 1..]))
  {
    assert s[i..][0] == s[i] && s[i..][1..] == s[i + 1..];
  }

  method FirstBalancedJson(s: string) returns (r: string)
    ensures IndexByte(s, '{') < 0 ==> r == ""
    ensures IndexByte(s, '{') >= 0 ==>
      var start := IndexByte(s, '{');
      r == match FirstClose(START, s[start..]) { case Some(n) => s[start..start + n] case None => "" }
  {
    hide FirstClose;
    var start := IndexByte(s, '{');
    if start < 0 {
      return "";
    }
    var depth, inStr, escape := 0, false, false;
    for i := start to |s|
      invariant FirstClose(START, s[start..]) == Later(i - start, FirstClose(ScanState(depth, inStr, escape), s[i..]))
      invariant escape ==> inStr
    {
      var c := s[i];
      FirstCloseStep(ScanState(depth, inStr, escape), s, i);
      if inStr {
        if escape {
          escape := false;
          continue;
        }
        if c == '\\' {
          escape := true;
          continue;
        }
        if c == '"' {
          inStr := false;
        }
        continue;
      }
      match c {
        case '"' => inStr := true;
        case '{' => depth := depth + 1;
        case '}' =>
          depth := depth - 1;
          if depth == 0 {
            return s[start..i + 1];
          }
        case _ =>
      }
    }
    assert s[|s|..] == "";
    NothingToScan(ScanState(depth, inStr, escape));
    r := "";
  }

  // ---- printed JSON ----

  /** One piece of a string literal: a character as it is, or a backslash and the character it escapes. */
  datatype Piece = Plain(c: char) | Escape(c: char)

  /** A JSON value with its white space. An atom is a number, true, false or null. */
  datatype Json =
    | Atom(text: string)
    | Str(pieces: seq<Piece>)
    | Arr(gap: string, items: Items)
    | Obj(gap: string, members: Members)
    | Spaced(left: string, value: Json, right: string)

  datatype Items = NoItems | Item(head: Json, tail: Items)

  datatype Members = NoMembers | Member(before: string, key: seq<Piece>, after: string, value: Json, tail: Members)

  function PieceText(p: Piece): string {
    match p { case Plain(c) => [c] case Escape(c) => ['\\', c] }
  }

  function PiecesText(pieces: seq<Piece>): string {
    if pieces == [] then "" else PieceText(pieces[0]) + PiecesText(pieces[1..])
  }

  function StrText(pieces: seq<Piece>): string {
    "\"" + (PiecesText(pieces) + "\"")
  }

  function Print(j: Json): string {
    match j
    case Atom(text) => text
    case Str(pieces) => StrText(pieces)
    case Arr(gap, items) => "[" + (gap + (PrintItems(items) + "]"))
    case Obj(gap, members) => "{" + (ObjectBody(gap, members) + "}")
    case Spaced(left, value, right) => left + (Print(value) + right)
  }

  function ObjectBody(gap: string, members: Members): string
    decreases members, 1
  {
    gap + PrintMembers(members)
  }

  function PrintItems(items: Items): string {
    match items
    case NoItems => ""
    case Item(head, NoItems) => Print(head)
    case Item(head, tail) => Print(head) + ("," + PrintItems(tail))
  }

  function PrintMembers(members: Members): string
    decreases members, 0
  {
    match members
    case NoMembers => ""
    case Member(before, key, after, value, tail) =>
      var more := if tail == NoMembers then "" else "," + PrintMembers(tail);
      before + (StrText(key) + (after + (":" + (Print(value) + more))))
  }

  /** Text outside strings without quotes and braces. */
  ghost predicate IsBland(text: string) {
    forall i :: 0 <= i < |text| ==> text[i] != '"' && text[i] != '{' && text[i] != '}'
  }

  /** A string literal shows no bare quote or backslash. */
  ghost predicate IsLiteral(pieces: seq<Piece>) {
    forall i :: 0 <= i < |pieces| && pieces[i].Plain? ==> pieces[i].c != '"' && pieces[i].c != '\\'
  }

  ghost predicate IsJson(j: Json) {
    match j
    case Atom(text) => IsBland(text)
    case Str(pieces) => IsLiteral(pieces)
    case Arr(gap, items) => IsBland(gap) && AreItems(items)
    case Obj(gap, members) => IsBland(gap) && AreMembers(members)
    case Spaced(left, value, right) => IsBland(left) && IsJson(value) && IsBland(right)
  }

  ghost predicate AreItems(items: Items) {
    match items
    case NoItems => true
    case Item(head, tail) => IsJson(head) && AreItems(tail)
  }

  ghost predicate AreMembers(members: Members) {
    match members
    case NoMembers => true
    case Member(before, key, after, value, tail) =>
      IsBland(before) && IsLiteral(key) && IsBland(after) && IsJson(value) && AreMembers(tail)
  }

  // ---- scanning printed text ----

  lemma {:induction false} ScanOver(st: ScanState, a: string, b: string)
    requires FirstClose(st, a) == None
    ensures StateAfter(st, a + b) == StateAfter(StateAfter(st, a), b)
    ensures FirstClose(st, a + b) ==
      Later(|a|, FirstClose(StateAfter(st, a), b))
    decreases |a|
  {
    hide Step, Closes;
    if a == "" {
      assert a + b == b;
    } else {
      assert (a + b)[1..] == a[1..] + b;
      ScanOver(Step(st, a[0]), a[1..], b);
    }
  }

  /** Inside an object the scanner passes over the text and is where it was. */
  ghost predicate IsNeutral(text: string, depth: int) {
    FirstClose(ScanState(depth, false, false), text) == None
    && StateAfter(ScanState(depth, false, false), text) == ScanState(depth, false, false)
  }

  lemma NeutralConcat(a: string, b: string, depth: int)
    requires IsNeutral(a, depth) && IsNeutral(b, depth)
    ensures IsNeutral(a + b, depth)
  {
    hide FirstClose, StateAfter;
    ScanOver(ScanState(depth, false, false), a, b);
  }

  lemma {:induction false} BlandIsNeutral(text: string, depth: int)
    requires IsBland(text)
    ensures IsNeutral(text, depth)
  {
    if text != "" {
      BlandIsNeutral(text[1..], depth);
    }
  }

  lemma PieceStaysInString(p: Piece, depth: int)
    requires p.Plain? ==> p.c != '"' && p.c != '\\'
    ensures FirstClose(ScanState(depth, true, false), PieceText(p)) == None
    ensures StateAfter(ScanState(depth, true, false), PieceText(p)) == ScanState(depth, true, false)
  {
    hide FirstClose, StateAfter;
    var in_ := ScanState(depth, true, false);
    match p {
      case Plain(c) => ScanChar(in_, c);
      case Escape(c) =>
        ScanChar(in_, '\\');
        ScanChar(ScanState(depth, true, true), c);
        ScanOver(in_, ['\\'], [c]);
        assert ['\\'] + [c] == PieceText(p);
    }
  }

  lemma {:induction false} PiecesStayInString(pieces: seq<Piece>, depth: int)
    requires IsLiteral(pieces)
    ensures FirstClose(ScanState(depth, true, false), PiecesText(pieces)) == None
    ensures StateAfter(ScanState(depth, true, false), PiecesText(pieces)) == ScanState(depth, true, false)
  {
    hide FirstClose, StateAfter, PieceText, Step, Closes;
    if pieces == [] {
      NothingToScan(ScanState(depth, true, false));
    } else {
      PieceStaysInString(pieces[0], depth);
      PiecesStayInString(pieces[1..], depth);
      ScanOver(ScanState(depth, true, false), PieceText(pieces[0]), PiecesText(pieces[1..]));
    }
  }

  lemma NothingToScan(st: ScanState)
    ensures FirstClose(st, "") == None && StateAfter(st, "") == st
  {
  }

  lemma ScanChar(st: ScanState, c: char)
    requires !Closes(st, c)
    ensures FirstClose(st, [c]) == None && StateAfter(st, [c]) == Step(st, c)
  {
    assert [c][1..] == "";
  }

  lemma StringIsNeutral(pieces: seq<Piece>, depth: int)
    requires IsLiteral(pieces)
    ensures IsNeutral(StrText(pieces), depth)
  {
    hide FirstClose, StateAfter, PiecesText;
    var out, in_ := ScanState(depth, false, false), ScanState(depth, true, false);
    ScanChar(out, '"');
    ScanChar(in_, '"');
    PiecesStayInString(pieces, depth);
    ScanOver(in_, PiecesText(pieces), "\"");
    ScanOver(out, "\"", PiecesText(pieces) + "\"");
  }

  lemma ObjectIsNeutral(body: string, depth: int)
    requires depth >= 1 && IsNeutral(body, depth + 1)
    ensures IsNeutral("{" + (body + "}"), depth)
  {
    hide FirstClose, StateAfter;
    var outer, inner := ScanState(depth, false, false), ScanState(depth + 1, false, false);
    ScanChar(outer, '{');
    ScanChar(inner, '}');
    ScanOver(inner, body, "}");
    ScanOver(outer, "{", body + "}");
  }

  lemma BracketIsNeutral(c: char, depth: int)
    requires c in {'[', ']', ',', ':'}
    ensures IsNeutral([c], depth)
  {
    BlandIsNeutral([c], depth);
  }

  lemma {:induction false} ValueIsNeutral(j: Json, depth: int)
    requires IsJson(j) && depth >= 1
    ensures IsNeutral(Print(j), depth)
    decreases j
  {
    hide IsNeutral, IsBland, IsLiteral, StrText;
    match j {
      case Atom(text) => BlandIsNeutral(text, depth);
      case Str(pieces) => StringIsNeutral(pieces, depth);
      case Arr(gap, items) =>
        BlandIsNeutral(gap, depth);
        ItemsAreNeutral(items, depth);
        BracketIsNeutral('[', depth);
        BracketIsNeutral(']', depth);
        NeutralConcat(PrintItems(items), "]", depth);
        NeutralConcat(gap, PrintItems(items) + "]", depth);
        NeutralConcat("[", gap + (PrintItems(items) + "]"), depth);
      case Obj(gap, members) =>
        BodyIsNeutral(gap, members, depth + 1);
        ObjectIsNeutral(ObjectBody(gap, members), depth);
      case Spaced(left, value, right) =>
        BlandIsNeutral(left, depth);
        BlandIsNeutral(right, depth);
        ValueIsNeutral(value, depth);
        NeutralConcat(Print(value), right, depth);
        NeutralConcat(left, Print(value) + right, depth);
    }
  }

  lemma {:induction false} BodyIsNeutral(gap: string, members: Members, depth: int)
    requires IsBland(gap) && AreMembers(members) && depth >= 1
    ensures IsNeutral(ObjectBody(gap, members), depth)
    decreases members, 1
  {
    hide IsNeutral, IsBland;
    BlandIsNeutral(gap, depth);
    MembersAreNeutral(members, depth);
    NeutralConcat(gap, PrintMembers(members), depth);
  }

  lemma {:induction false} ItemsAreNeutral(items: Items, depth: int)
    requires AreItems(items) && depth >= 1
    ensures IsNeutral(PrintItems(items), depth)
    decreases items
  {
    hide IsNeutral, Print;
    match items {
      case NoItems => BlandIsNeutral("", depth);
      case Item(head, tail) =>
        ValueIsNeutral(head, depth);
        if tail != NoItems {
          ItemsAreNeutral(tail, depth);
          BracketIsNeutral(',', depth);
          NeutralConcat(",", PrintItems(tail), depth);
          NeutralConcat(Print(head), "," + PrintItems(tail), depth);
        }
    }
  }

  lemma {:induction false} MembersAreNeutral(members: Members, depth: int)
    requires AreMembers(members) && depth >= 1
    ensures IsNeutral(PrintMembers(members), depth)
    decreases members, 0
  {
    hide IsNeutral, Print, IsLiteral, IsBland, StrText;
    match members {
      case NoMembers => BlandIsNeutral("", depth) by { EmptyIsBland(); }
      case Member(before, key, after, value, tail) =>
        var rest := if tail == NoMembers then "" else "," + PrintMembers(tail);
        if tail == NoMembers {
          EmptyIsBland();
          BlandIsNeutral("", depth);
        } else {
          MembersAreNeutral(tail, depth);
          BracketIsNeutral(',', depth);
          NeutralConcat(",", PrintMembers(tail), depth);
        }
        ValueIsNeutral(value, depth);
        BracketIsNeutral(':', depth);
        BlandIsNeutral(before, depth);
        BlandIsNeutral(after, depth);
        StringIsNeutral(key, depth);
        NeutralConcat(Print(value), rest, depth);
        NeutralConcat(":", Print(value) + rest, depth);
        NeutralConcat(after, ":" + (Print(value) + rest), depth);
        NeutralConcat(StrText(key), after + (":" + (Print(value) + rest)), depth);
        NeutralConcat(before, StrText(key) + (after + (":" + (Print(value) + rest))), depth);
    }
  }

  lemma EmptyIsBland()
    ensures IsBland("")
  {
  }

  // ---- the theorem ----

  lemma ClosesAtEnd(body: string, trailing: string)
    requires IsNeutral(body, 1)
    ensures FirstClose(START, "{" + (body + "}") + trailing) == Some(|body| + 2)
  {
    hide StateAfter;
    var inner := ScanState(1, false, false);
    var text := "{" + (body + "}") + trailing;
    ScanOver(inner, body, "}" + trailing);
    assert text[0] == '{' && text[1..] == body + ("}" + trailing);
    assert ("}" + trailing)[0] == '}';
  }

  /** From a transcript without braces before it, any printed object is cut out exactly, whatever follows it. */
  lemma FirstObjectIsFound(preamble: string, gap: string, members: Members, trailing: string)
    requires '{' !in preamble && IsJson(Obj(gap, members))
    ensures var object_ := Print(Obj(gap, members)); var s := preamble + object_ + trailing;
      && IndexByte(s, '{') == |preamble|
      && FirstClose(START, s[|preamble|..]) == Some(|object_|)
      && s[|preamble|..|preamble| + |object_|] == object_
  {
    hide FirstClose, IsBland, ObjectBody, PrintMembers;
    var object_ := Print(Obj(gap, members));
    var s := preamble + object_ + trailing;
    BodyIsNeutral(gap, members, 1);
    ClosesAtEnd(ObjectBody(gap, members), trailing);
    assert s[|preamble|..] == object_ + trailing;
    assert object_[0] == '{';
    assert s[|preamble|] == '{';
  }
}
