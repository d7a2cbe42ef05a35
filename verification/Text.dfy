/** The string operations of the C++ standard library that the server relies on,
    over `string`. A byte is a `char`; nothing below needs codes under 256, so
    every law holds for byte strings in particular. */
module Text {

  datatype Option<+T> = None | Some(value: T)

  /** `s.find(c)` */
  function IndexOf(s: string, c: char): (r: Option<nat>)
    ensures r.Some? ==> r.value < |s| && s[r.value] == c && c !in s[..r.value]
    ensures r.None? ==> c !in s
  {
    if s == "" then None
    else if s[0] == c then Some(0)
    else match IndexOf(s[1..], c)
      case None => None
      case Some(i) => Some(i + 1)
  }

  predicate LineEndAt(s: string, i: nat) {
    i + 1 < |s| && s[i] == '\r' && s[i + 1] == '\n'
  }

  /** `s.find("\r\n")` */
  function FindLineEnd(s: string): (r: Option<nat>)
    ensures r.Some? ==> LineEndAt(s, r.value) && forall i: nat :: i < r.value ==> !LineEndAt(s, i)
    ensures r.None? ==> forall i: nat :: !LineEndAt(s, i)
  {
    if |s| < 2 then None
    else if LineEndAt(s, 0) then Some(0)
    else match FindLineEnd(s[1..])
      case None =>
        assert forall i: nat :: 0 < i ==> LineEndAt(s, i) == LineEndAt(s[1..], i - 1);
        None
      case Some(i) =>
        assert forall j: nat :: 0 < j ==> LineEndAt(s, j) == LineEndAt(s[1..], j - 1);
        Some(i + 1)
  }

  /** The line end found in a buffer is still the one found when more bytes follow. */
  lemma FindLineEndExtends(s: string, more: string)
    ensures FindLineEnd(s).Some? ==> FindLineEnd(s + more) == FindLineEnd(s)
    ensures FindLineEnd(s).None? && FindLineEnd(s + more).Some? ==>
              FindLineEnd(s + more).value + 1 >= |s|
  {
    assert forall i: nat :: i + 1 < |s| ==> LineEndAt(s + more, i) == LineEndAt(s, i);
    var a, b := FindLineEnd(s), FindLineEnd(s + more);
    if a.Some? {
      assert LineEndAt(s + more, a.value);
    }
  }

  /** A line free of LF is delimited exactly by the CRLF that follows it. */
  lemma FindLineEndAfter(line: string, rest: string)
    requires '\n' !in line
    ensures FindLineEnd(line + "\r\n" + rest) == Some(|line|)
  {
    var s := line + "\r\n" + rest;
    assert LineEndAt(s, |line|);
    forall i: nat | i < |line| ensures !LineEndAt(s, i) {
      assert i + 1 < |line| ==> s[i + 1] == line[i + 1];
      assert i + 1 == |line| ==> s[i + 1] == '\r';
    }
  }

  lemma IndexOfAt(before: string, c: char, rest: string)
    requires c !in before
    ensures IndexOf(before + [c] + rest, c) == Some(|before|)
  {
    var s := before + [c] + rest;
    assert s[|before|] == c;
    assert forall i :: 0 <= i < |before| ==> s[i] == before[i];
    assert forall k :: |before| < k <= |s| ==> s[..k][|before|] == c;
  }

  lemma IndexOfSplits(s: string, c: char)
    requires IndexOf(s, c).Some?
    ensures var i := IndexOf(s, c).value; s == s[..i] + [c] + s[i + 1..] && c !in s[..i]
  {
    var i := IndexOf(s, c).value;
    assert s[i] == c;
  }

  lemma IndexOfAbsent(s: string, c: char)
    requires c !in s
    ensures IndexOf(s, c).None?
  {
    assert forall i :: 0 <= i < |s| ==> s[i] != c;
  }

  /** `s.find(pattern) != npos` */
  predicate Contains(s: string, pattern: string) {
    exists i :: 0 <= i <= |s| && OccursAt(s, pattern, i)
  }

  predicate OccursAt(s: string, pattern: string, i: nat) {
    i + |pattern| <= |s| && s[i..i + |pattern|] == pattern
  }

  /** A list written with ", " between its elements. */
  function Joined(names: seq<string>): string {
    if names == [] then ""
    else if |names| == 1 then names[0]
    else Joined(names[..|names| - 1]) + ", " + names[|names| - 1]
  }

  lemma JoinedAppend(names: seq<string>, name: string)
    ensures Joined(names + [name]) == if names == [] then name else Joined(names) + ", " + name
  {
    assert (names + [name])[..|names|] == names;
  }

  /** A pattern occurs exactly when the text can be cut around it. */
  lemma ContainsExact(s: string, pattern: string)
    ensures Contains(s, pattern) <==> exists before, after :: s == before + (pattern + after)
  {
    if Contains(s, pattern) {
      var i :| 0 <= i <= |s| && OccursAt(s, pattern, i);
      assert s == s[..i] + (pattern + s[i + |pattern|..]);
    }
    if before, after :| s == before + (pattern + after) {
      assert OccursAt(s, pattern, |before|);
    }
  }

  function LowerChar(c: char): char {
    if 'A' <= c <= 'Z' then (c as int + 32) as char else c
  }

  function ToLower(s: string): (r: string)
    ensures |r| == |s|
  {
    seq(|s|, i requires 0 <= i < |s| => LowerChar(s[i]))
  }

  predicate IsBlank(c: char) { c == ' ' || c == '\t' }

  function TrimLeft(s: string): (r: string)
    ensures |r| <= |s|
    ensures r != "" ==> !IsBlank(r[0])
  {
    if s != "" && IsBlank(s[0]) then TrimLeft(s[1..]) else s
  }

  function TrimRight(s: string): (r: string)
    ensures r <= s
    ensures r != "" ==> !IsBlank(r[|r| - 1])
  {
    if s != "" && IsBlank(s[|s| - 1]) then TrimRight(s[..|s| - 1]) else s
  }

  /** `trim`: drop spaces and tabs at both ends. */
  function Trim(s: string): (r: string)
    ensures |r| <= |s|
  {
    TrimRight(TrimLeft(s))
  }

  predicate Trimmed(s: string) {
    s == "" || (s[0] !in {' ', '\t'} && s[|s| - 1] !in {' ', '\t'})
  }

  function DropOneSpace(s: string): string { if s != "" && s[0] == ' ' then s[1..] else s }

  predicate AllBlank(s: string) { forall i :: 0 <= i < |s| ==> s[i] == ' ' || s[i] == '\t' }

  lemma {:induction false} LeftTrimmed(s: string) returns (before: string)
    ensures AllBlank(before) && s == before + TrimLeft(s)
  {
    if s != "" && IsBlank(s[0]) {
      var more := LeftTrimmed(s[1..]);
      before := [s[0]] + more;
      assert s == [s[0]] + s[1..];
      assert before + TrimLeft(s) == [s[0]] + (more + TrimLeft(s[1..]));
    } else {
      before := "";
    }
  }

  lemma {:induction false} RightTrimmed(s: string) returns (after: string)
    ensures AllBlank(after) && s == TrimRight(s) + after
  {
    if s != "" && IsBlank(s[|s| - 1]) {
      var more := RightTrimmed(s[..|s| - 1]);
      after := more + [s[|s| - 1]];
      assert s == s[..|s| - 1] + [s[|s| - 1]];
      assert TrimRight(s) + after == (TrimRight(s[..|s| - 1]) + more) + [s[|s| - 1]];
    } else {
      after := "";
    }
  }

  /** `trim` takes away blanks only, and all there are at either end. */
  lemma TrimExact(s: string) returns (before: string, after: string)
    ensures AllBlank(before) && AllBlank(after) && Trimmed(Trim(s)) && s == before + (Trim(s) + after)
  {
    before := LeftTrimmed(s);
    after := RightTrimmed(TrimLeft(s));
    assert Trim(s) != "" ==> Trim(s)[0] == TrimLeft(s)[0];
  }

  // ---- numbers -------------------------------------------------------------

  predicate IsDigit(c: char) { '0' <= c <= '9' }

  predicate IsSpace(c: char) { c == ' ' || 9 as char <= c <= 13 as char }

  function DigitOf(c: char): nat
    requires IsDigit(c)
  {
    c as nat - '0' as nat
  }

  function DigitChar(d: nat): (c: char)
    requires d < 10
    ensures IsDigit(c) && DigitOf(c) == d
  {
    (d + '0' as nat) as char
  }

  predicate AllDigits(s: string) { forall i :: 0 <= i < |s| ==> IsDigit(s[i]) }

  function DigitsValue(s: string): nat
    requires AllDigits(s)
  {
    if s == "" then 0 else DigitsValue(s[..|s| - 1]) * 10 + DigitOf(s[|s| - 1])
  }

  /** Digits are ten, in order, and count by tens. */
  lemma DigitsCount(digits: string, d: nat)
    requires AllDigits(digits) && d < 10
    ensures IsDigit("0123456789"[d]) && DigitOf("0123456789"[d]) == d
    ensures AllDigits(digits + ["0123456789"[d]])
    ensures DigitsValue(digits + ["0123456789"[d]]) == 10 * DigitsValue(digits) + d
  {
    assert (digits + ["0123456789"[d]])[..|digits|] == digits;
  }

  /** `stream << n` */
  function Decimal(n: nat): (r: string)
    ensures r != "" && AllDigits(r)
    ensures DigitsValue(r) == n && (n > 0 ==> r[0] != '0') && (n < 10 ==> |r| == 1)
  {
    if n < 10 then [DigitChar(n)]
    else
      var front := Decimal(n / 10);
      var r := front + [DigitChar(n % 10)];
      assert r[..|r| - 1] == front;
      r
  }

  /** Length of the longest all-digit prefix. */
  function DigitRun(s: string): (n: nat)
    ensures n <= |s| && AllDigits(s[..n])
    ensures n < |s| ==> !IsDigit(s[n])
  {
    if s == "" || !IsDigit(s[0]) then 0
    else
      var n := 1 + DigitRun(s[1..]);
      assert s[..n] == [s[0]] + s[1..][..n - 1];
      n
  }

  function DropSpace(s: string): (r: string)
    ensures |r| <= |s|
  {
    if s != "" && IsSpace(s[0]) then DropSpace(s[1..]) else s
  }

  predicate IsHex(c: char) { IsDigit(c) || 'a' <= c <= 'f' || 'A' <= c <= 'F' }

  function HexValue(c: char): (n: nat)
    requires IsHex(c)
    ensures n < 16
  {
    if IsDigit(c) then c as nat - '0' as nat
    else if 'a' <= c <= 'f' then c as nat - 'a' as nat + 10
    else c as nat - 'A' as nat + 10
  }

  /** The sixteen digits, in both cases. */
  lemma HexDigitsRead()
    ensures forall d :: 0 <= d < 16 ==>
              IsHex("0123456789abcdef"[d]) && HexValue("0123456789abcdef"[d]) == d &&
              IsHex("0123456789ABCDEF"[d]) && HexValue("0123456789ABCDEF"[d]) == d
  {
  }

  /** Spaces, tabs, line feeds, vertical tabs, form feeds and carriage returns. */
  predicate AllSpace(s: string) {
    forall i :: 0 <= i < |s| ==> s[i] in {' ', '\t', '\n', 11 as char, 12 as char, '\r'}
  }

  lemma {:induction false} SpaceDropped(ws: string, s: string)
    requires AllSpace(ws)
    ensures DropSpace(ws + s) == DropSpace(s)
  {
    if ws == "" {
      assert ws + s == s;
    } else {
      SpaceDropped(ws[1..], s);
      assert (ws + s)[1..] == ws[1..] + s;
    }
  }

  lemma {:induction false} SpaceSplits(s: string) returns (ws: string)
    ensures AllSpace(ws) && s == ws + DropSpace(s)
  {
    if s != "" && IsSpace(s[0]) {
      var tail := SpaceSplits(s[1..]);
      ws := [s[0]] + tail;
      assert s == [s[0]] + s[1..];
      assert ws + DropSpace(s) == [s[0]] + (tail + DropSpace(s[1..]));
    } else {
      ws := "";
    }
  }

  const LLONG_MAX := 0x7fff_ffff_ffff_ffff
  const LLONG_MIN := -0x8000_0000_0000_0000

  datatype Number = NoNumber | Number(value: int, rest: string)

  /** `strtoll(s, &end, 10)`: leading white space, optional sign, digits; saturating. */
  function StrToLL(s: string): Number {
    var t := DropSpace(s);
    var signed := t != "" && (t[0] == '-' || t[0] == '+');
    var u := if signed then t[1..] else t;
    var n := DigitRun(u);
    if n == 0 then NoNumber
    else
      var v: int := DigitsValue(u[..n]);
      var w: int := if signed && t[0] == '-' then -v else v;
      Number(if w > LLONG_MAX then LLONG_MAX else if w < LLONG_MIN then LLONG_MIN else w, u[n..])
  }

  /** Reading back a printed number followed by anything that is not a digit. */
  lemma ReadsPrinted(n: nat, rest: string)
    requires rest == "" || !IsDigit(rest[0])
    ensures DigitRun(Decimal(n) + rest) == |Decimal(n)|
    ensures (Decimal(n) + rest)[..|Decimal(n)|] == Decimal(n)
    ensures n <= LLONG_MAX ==> StrToLL(Decimal(n) + rest) == Number(n, rest)
  {
    var d := Decimal(n);
    var s := d + rest;
    assert s[..|d|] == d && s[|d|..] == rest;
    assert forall i :: 0 <= i < |d| ==> s[i] == d[i];
    assert forall k :: |d| < k <= |s| ==> s[..k][|d|] == rest[0];
    assert s[0] == d[0] && IsDigit(d[0]);
    assert DropSpace(s) == s;
  }
}
