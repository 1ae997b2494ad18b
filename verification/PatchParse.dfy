/** Reading a unified diff into hunks (sidecar/internal/ihr/evolver.go, parseHunks and its helpers). */
module PatchParse {
  import opened Text
  import opened PatchApply

  const INT64_MIN := -0x8000_0000_0000_0000
  const INT64_MAX := 0x7fff_ffff_ffff_ffff

  // ---- numbers ----

  predicate IsDigit(c: char) {
    '0' <= c <= '9'
  }

  function DigitValue(c: char): nat
    requires IsDigit(c)
  {
    (c - '0') as nat
  }

  predicate AllDigits(s: string) {
    forall i :: 0 <= i < |s| ==> IsDigit(s[i])
  }

  function DecimalValue(s: string): nat
    requires AllDigits(s)
  {
    if s == "" then 0 else DecimalValue(s[..|s| - 1]) * 10 + DigitValue(s[|s| - 1])
  }

  /** strconv.Atoi: an optional sign, decimal digits, a value that fits 64 bits. */
  function Atoi(s: string): Option<int> {
    var negative := s != "" && s[0] == '-';
    var digits := if s != "" && (s[0] == '-' || s[0] == '+') then s[1..] else s;
    if digits == "" || !AllDigits(digits) then None
    else
      var n: int := if negative then 0 - DecimalValue(digits) else DecimalValue(digits);
      if INT64_MIN <= n <= INT64_MAX then Some(n) else None
  }

  lemma {:induction false} DecimalRoundTrip(n: nat)
    ensures Decimal(n) != "" && AllDigits(Decimal(n)) && DecimalValue(Decimal(n)) == n
  {
    if n >= 10 {
      DecimalRoundTrip(n / 10);
      var d := ['0' + (n % 10) as char];
      assert (Decimal(n / 10) + d)[..|Decimal(n / 10)|] == Decimal(n / 10);
    }
  }

  lemma AtoiItoa(n: int)
    requires INT64_MIN <= n <= INT64_MAX
    ensures Atoi(Itoa(n)) == Some(n)
  {
    hide Decimal, DecimalValue, AllDigits;
    DecimalRoundTrip(if n < 0 then -n else n);
    if n < 0 {
      assert Itoa(n)[1..] == Decimal(-n);
    } else {
      StartsWithDigit(Decimal(n));
    }
  }

  lemma StartsWithDigit(s: string)
    requires AllDigits(s) && s != ""
    ensures s[0] != '-' && s[0] != '+'
  {
  }

  // ---- hunk headers ----

  /** The position of the first space in s, or |s|. */
  function SpaceAt(s: string): (n: nat)
    ensures n <= |s|
    ensures forall i :: 0 <= i < n ==> !IsSpace(s[i])
    ensures n < |s| ==> IsSpace(s[n])
  {
    if s == "" || IsSpace(s[0]) then 0 else 1 + SpaceAt(s[1..])
  }

  /** strings.Fields. */
  function Fields(s: string): seq<string>
    decreases |s|
  {
    var t := TrimLeft(s);
    if t == "" then [] else [t[..SpaceAt(t)]] + Fields(t[SpaceAt(t)..])
  }

  /** "a,b", or a bare "a" for a count of 1. */
  function ParseRange(s: string): Option<(int, int)> {
    var i := IndexByte(s, ',');
    if i >= 0 then
      match (Atoi(s[..i]), Atoi(s[i + 1..])) {
        case (Some(start), Some(count)) => Some((start, count))
        case _ => None
      }
    else
      match Atoi(s) {
        case Some(start) => Some((start, 1))
        case None => None
      }
  }

  /** "@@ -a,b +c,d @@ optional section heading". */
  function ParseHunkHeader(line: string): Option<Hunk>
    requires "@@" <= line
  {
    var rest := line[2..];
    var end := Index(rest, "@@");
    if end < 0 then None
    else
      var fields := Fields(TrimSpace(rest[..end]));
      if |fields| < 2 || !("-" <= fields[0]) || !("+" <= fields[1]) then None
      else
        match (ParseRange(fields[0][1..]), ParseRange(fields[1][1..])) {
          case (Some(old_), Some(new_)) => Some(Hunk(old_.0, old_.1, new_.0, new_.1, []))
          case _ => None
        }
  }

  // ---- lines of the diff ----

  function DropCr(l: string): string {
    if l != "" && l[|l| - 1] == '\r' then l[..|l| - 1] else l
  }

  /** The scanner's buffer, in bytes. */
  const MAX_TOKEN_SIZE: nat := 1024 * 1024

  function Utf8Size(c: char): (n: nat)
    ensures 1 <= n <= 4
  {
    if c as int < 0x80 then 1 else if c as int < 0x800 then 2 else if c as int < 0x1_0000 then 3 else 4
  }

  function Utf8Length(s: string): nat {
    if s == "" then 0 else Utf8Length(s[..|s| - 1]) + Utf8Size(s[|s| - 1])
  }

  /** A line that leaves no room in the buffer for its end; its own carriage return counts. */
  predicate IsTooLong(l: string) {
    Utf8Length(l) >= MAX_TOKEN_SIZE
  }

  /** The lines as they stand, without their LF, and no line after a final LF. */
  function RawLines(s: string): seq<string> {
    var parts := Split(s, '\n');
    if parts[|parts| - 1] == "" then parts[..|parts| - 1] else parts
  }

  function CleanLines(lines: seq<string>): (clean: seq<string>)
    ensures |clean| == |lines|
  {
    seq(|lines|, i requires 0 <= i < |lines| => DropCr(lines[i]))
  }

  /** How many of the lines the scanner delivers: it stops at the first that is too long. */
  function Delivered(lines: seq<string>): (n: nat)
    ensures n <= |lines|
    ensures forall i :: 0 <= i < n ==> !IsTooLong(lines[i])
    ensures n < |lines| ==> IsTooLong(lines[n])
  {
    if lines == [] || IsTooLong(lines[0]) then 0 else 1 + Delivered(lines[1..])
  }

  /** File headers, which are skipped wherever they stand. */
  predicate IsNoise(l: string) {
    "---" <= l || "+++" <= l || "diff " <= l || "index " <= l
  }

  datatype Scan = Scan(out: seq<Hunk>, current: Option<Hunk>)

  function Flush(st: Scan): Scan {
    if st.current.Some? then Scan(st.out + [st.current.value], None) else st
  }

  function ScanStep(st: Scan, line: string): Option<Scan> {
    if "@@" <= line then
      match ParseHunkHeader(line) {
        case Some(h) => Some(Flush(st).(current := Some(h)))
        case None => None
      }
    else if IsNoise(line) || st.current.None? then Some(st)
    else Some(st.(current := Some(st.current.value.(body := st.current.value.body + [line]))))
  }

  /** Reading the remaining lines from state st; None for a malformed header. */
  function ScanFrom(st: Scan, lines: seq<string>): Option<Scan>
    decreases |lines|
  {
    if lines == [] then Some(st)
    else match ScanStep(st, lines[0]) { case Some(next) => ScanFrom(next, lines[1..]) case None => None }
  }

  // ---- validation ----

  predicate HasStrayLine(body: seq<string>, n: nat)
    requires n <= |body|
  {
    exists i :: 0 <= i < n && !IsBodyLine(body[i])
  }

  function HunkFault(h: Hunk): Option<PatchError> {
    if HasStrayLine(h.body, |h.body|) then Some(StrayLine)
    else if |OldSide(h.body)| != h.oldCount then Some(OldCountMismatch)
    else if |NewSide(h.body)| != h.newCount then Some(NewCountMismatch)
    else None
  }

  function FirstFault(hunks: seq<Hunk>, n: nat): Option<PatchError>
    requires n <= |hunks|
  {
    if n == 0 then None
    else if FirstFault(hunks, n - 1).Some? then FirstFault(hunks, n - 1)
    else HunkFault(hunks[n - 1])
  }

  lemma {:induction false} FirstFaultStays(hunks: seq<Hunk>, m: nat, n: nat)
    requires m <= n <= |hunks| && FirstFault(hunks, m).Some?
    ensures FirstFault(hunks, n) == FirstFault(hunks, m)
  {
    if m < n {
      FirstFaultStays(hunks, m, n - 1);
    }
  }

  method CheckHunk(h: Hunk) returns (fault: Option<PatchError>)
    ensures fault == HunkFault(h)
  {
    hide IsBodyLine;
    var gotMinus, gotPlus := 0, 0;
    for i := 0 to |h.body|
      invariant !HasStrayLine(h.body, i)
      invariant gotMinus == |OldPart(h.body, i)| && gotPlus == |NewPart(h.body, i)|
    {
      var minus, plus, stray := CountLine(h.body[i]);
      if stray {
        return Some(StrayLine);
      }
      gotMinus, gotPlus := gotMinus + minus, gotPlus + plus;
    }
    if gotMinus != h.oldCount {
      return Some(OldCountMismatch);
    }
    if gotPlus != h.newCount {
      return Some(NewCountMismatch);
    }
    fault := None;
  }

  method CountLine(l: string) returns (minus: nat, plus: nat, stray: bool)
    ensures stray <==> !IsBodyLine(l)
    ensures !stray ==> minus == |OldLine(l)| && plus == |NewLine(l)|
  {
    minus, plus, stray := 0, 0, false;
    if l == "" {
      minus, plus := 1, 1;
    } else if l[0] == ' ' {
      minus, plus := 1, 1;
    } else if l[0] == '-' {
      minus := 1;
    } else if l[0] == '+' {
      plus := 1;
    } else if l[0] != '\\' {
      stray := true;
    }
  }

  // ---- parseHunks ----

  /** The last position of sub in s, or -1. */
  function LastIndex(s: string, sub: string): (i: int)
    ensures i == -1 || OccursAt(s, sub, i)
    ensures forall j :: i < j ==> !OccursAt(s, sub, j)
  {
    if s == "" then (if sub == "" then 0 else -1)
    else
      var i := LastIndex(s[1..], sub);
      assert forall j :: 1 <= j <= |s| ==> s[j..] == s[1..][j - 1..];
      assert forall j :: 1 <= j ==> (OccursAt(s, sub, j) <==> OccursAt(s[1..], sub, j - 1));
      if i >= 0 then i + 1 else if sub <= s then 0 else -1
  }

  /** Removes a surrounding code fence. */
  function StripDiffFence(s: string): string {
    var t := TrimSpace(s);
    if !("```" <= t) then s
    else
      var nl := IndexByte(t, '\n');
      var inner := if nl >= 0 then t[nl + 1..] else t;
      var end := LastIndex(inner, "```");
      if end >= 0 then inner[..end] else inner
  }

  /** What is read from the delivered lines; a malformed header among them comes before a line that is too long. */
  function ParsedHunks(diff: string): Result<seq<Hunk>, PatchError> {
    var raw := RawLines(StripDiffFence(diff));
    match ScanFrom(Scan([], None), CleanLines(raw[..Delivered(raw)])) {
      case None => Err(MalformedHeader)
      case Some(st) => if Delivered(raw) < |raw| then Err(LineTooLong) else CheckedHunks(Flush(st).out)
    }
  }

  function CheckedHunks(hunks: seq<Hunk>): Result<seq<Hunk>, PatchError> {
    if hunks == [] then Err(NoHunkHeader)
    else match FirstFault(hunks, |hunks|) { case Some(e) => Err(e) case None => Ok(hunks) }
  }

  method ParseHunks(diff: string) returns (r: Result<seq<Hunk>, PatchError>)
    ensures r == ParsedHunks(diff)
  {
    hide ParseHunkHeader, IsNoise, HunkFault, StripDiffFence, RawLines, IsTooLong, DropCr, Delivered, FirstFault;
    var raw := RawLines(StripDiffFence(diff));
    ghost var lines := CleanLines(raw[..Delivered(raw)]);
    var out: seq<Hunk>, current: Option<Hunk>, sawAny := [], None, false;
    var i := 0;
    assert lines[0..] == lines;
    while i < |raw| && !IsTooLong(raw[i])
      invariant 0 <= i <= Delivered(raw)
      invariant ScanFrom(Scan([], None), lines) == ScanFrom(Scan(out, current), lines[i..])
      invariant sawAny <==> current.Some?
      invariant out != [] ==> sawAny
    {
      var line := DropCr(raw[i]);
      assert i < Delivered(raw) && lines[i] == line;
      assert lines[i..][1..] == lines[i + 1..];
      i := i + 1;
      if "@@" <= line {
        if current.Some? {
          out := out + [current.value];
        }
        var h := ParseHunkHeader(line);
        if h.None? {
          return Err(MalformedHeader);
        }
        current := h;
        sawAny := true;
      } else if IsNoise(line) {
        continue;
      } else if current.None? {
        continue;
      } else {
        current := Some(current.value.(body := current.value.body + [line]));
      }
    }
    assert i == Delivered(raw);
    assert lines[|lines|..] == [];
    if i < |raw| {
      return Err(LineTooLong);
    }
    if current.Some? {
      out := out + [current.value];
    }
    if !sawAny {
      return Err(NoHunkHeader);
    }
    r := CheckAll(out);
  }

  /** The counts of every hunk, in order. */
  method CheckAll(out: seq<Hunk>) returns (r: Result<seq<Hunk>, PatchError>)
    requires out != []
    ensures r == CheckedHunks(out)
  {
    hide HunkFault;
    for i := 0 to |out|
      invariant FirstFault(out, i) == None
    {
      var fault := CheckHunk(out[i]);
      if fault.Some? {
        FirstFaultStays(out, i + 1, |out|);
        return Err(fault.value);
      }
    }
    r := Ok(out);
  }

  /** A diff as text against a text. */
  method ApplyPatch(content: string, unifiedDiff: string) returns (r: Result<string, PatchError>)
    ensures match r {
      case Ok(text) =>
        && TrimSpace(unifiedDiff) != "" && ParsedHunks(unifiedDiff).Ok?
        && Patched(content, ParsedHunks(unifiedDiff).value) == Some(text)
      case Err(e) =>
        || TrimSpace(unifiedDiff) == ""
        || ParsedHunks(unifiedDiff) == Err(e)
        || (ParsedHunks(unifiedDiff).Ok? && Patched(content, ParsedHunks(unifiedDiff).value) == None)
    }
  {
    hide ParsedHunks, Patched, TrimSpace;
    if TrimSpace(unifiedDiff) == "" {
      return Err(EmptyDiff);
    }
    var hunks := ParseHunks(unifiedDiff);
    if hunks.Err? {
      return Err(hunks.error);
    }
    r := ApplyToContent(content, hunks.value);
  }
}
