/** The string operations the runtime leans on, over Unicode code points. */
module Text {

  /** `unicode.IsSpace`. */
  predicate IsSpace(c: char) {
    || '\t' <= c <= '\r' || c == ' ' || c == '\U{85}' || c == '\U{A0}' || c == '\U{1680}'
    || '\U{2000}' <= c <= '\U{200A}' || c == '\U{2028}' || c == '\U{2029}' || c == '\U{202F}'
    || c == '\U{205F}' || c == '\U{3000}'
  }

  /** No white space at either end. */
  predicate Trimmed(s: string) {
    s != [] ==> !IsSpace(s[0]) && !IsSpace(s[|s| - 1])
  }

  /** `strings.TrimSpace`: no white space is left at either end, and trimming again changes nothing. */
  function Trim(s: string): (r: string)
    ensures Trimmed(r) && (Trimmed(s) ==> r == s)
  {
    if Trimmed(s) then s else if IsSpace(s[0]) then Trim(s[1..]) else Trim(s[..|s| - 1])
  }

  /** Trimming cuts off white space at both ends and nothing else. */
  lemma {:induction false} TrimExactly(s: string) returns (a: nat, b: nat)
    ensures a <= b <= |s| && Trim(s) == s[a..b]
    ensures forall i :: 0 <= i < a || b <= i < |s| ==> IsSpace(s[i])
  {
    if Trimmed(s) {
      return 0, |s|;
    } else if IsSpace(s[0]) {
      a, b := TrimExactly(s[1..]);
      assert s[1..][a..b] == s[a + 1..b + 1];
      assert forall i :: 0 < i < |s| ==> s[i] == s[1..][i - 1];
      a, b := a + 1, b + 1;
    } else {
      a, b := TrimExactly(s[..|s| - 1]);
      assert s[..|s| - 1][a..b] == s[a..b];
    }
  }

  /** `unicode.ToLower`, exact on every code point whose lower case is ASCII (including the Kelvin sign
      and the dotted capital I); comparisons are only ever made against ASCII words. */
  function LowerChar(c: char): char {
    if 'A' <= c <= 'Z' then c - 'A' + 'a'
    else if c == '\U{212A}' then 'k'
    else if c == '\U{130}' then 'i'
    else c
  }

  /** On ASCII only the capitals change, each to its small letter. */
  lemma LowerAscii(c: char)
    requires c < '\U{80}'
    ensures LowerChar(c) as int == c as int + if 'A' <= c <= 'Z' then 32 else 0
  {
  }

  function Lower(s: string): (r: string)
    ensures |r| == |s|
    ensures forall i :: 0 <= i < |s| ==> r[i] == LowerChar(s[i])
  {
    seq(|s|, i requires 0 <= i < |s| => LowerChar(s[i]))
  }

  /** Bytes of one code point in UTF-8. */
  function Utf8Width(c: char): (n: nat)
    ensures 1 <= n <= 4
  {
    if c < '\U{80}' then 1 else if c < '\U{800}' then 2 else if c < '\U{10000}' then 3 else 4
  }

  /** The last code point of each width, and the first of the next. */
  lemma Utf8Boundaries()
    ensures Utf8Width('\U{7F}') == 1 && Utf8Width('\U{80}') == 2
    ensures Utf8Width('\U{7FF}') == 2 && Utf8Width('\U{800}') == 3
    ensures Utf8Width('\U{FFFF}') == 3 && Utf8Width('\U{10000}') == 4
  {
  }

  /** Go's `len` of a string. */
  function ByteLen(s: string): (n: nat)
    ensures n >= |s|
  {
    if s == [] then 0 else Utf8Width(s[0]) + ByteLen(s[1..])
  }

  const DIGITS: string := "0123456789"

  predicate IsDigit(c: char) { '0' <= c <= '9' }

  /** `%d` of a non-negative integer. */
  function Decimal(n: nat): (s: string)
    ensures |s| >= 1 && forall i :: 0 <= i < |s| ==> IsDigit(s[i])
  {
    if n < 10 then [DIGITS[n]] else Decimal(n / 10) + [DIGITS[n % 10]]
  }

  /** The number a run of decimal digits denotes. */
  function Value(s: string): int {
    if s == [] then 0 else 10 * Value(s[..|s| - 1]) + s[|s| - 1] as int - '0' as int
  }

  /** `%d` spells the number in base ten without a leading zero. */
  lemma {:induction false} DecimalDenotes(n: nat)
    ensures Value(Decimal(n)) == n
    ensures n > 0 ==> Decimal(n)[0] != '0'
  {
    var d := Decimal(n)[..|Decimal(n)| - 1];
    if n >= 10 {
      DecimalDenotes(n / 10);
      assert d == Decimal(n / 10);
    } else {
      assert Value(d) == 0;
    }
  }

  /** `%d` is injective. */
  lemma {:induction false} DecimalInjective(a: nat, b: nat)
    requires Decimal(a) == Decimal(b)
    ensures a == b
  {
    var s, t := Decimal(a), Decimal(b);
    assert s[|s| - 1] == DIGITS[a % 10] && t[|t| - 1] == DIGITS[b % 10];
    if a >= 10 && b >= 10 {
      assert Decimal(a / 10) == s[..|s| - 1] == t[..|t| - 1] == Decimal(b / 10);
      DecimalInjective(a / 10, b / 10);
    }
  }

  /** Two digit runs closed by the same non-digit, with the same text around them, are the same run. */
  lemma DigitRunUnique(d: string, x: string, e: string, y: string, sep: char)
    requires !IsDigit(sep)
    requires forall i :: 0 <= i < |d| ==> IsDigit(d[i])
    requires forall i :: 0 <= i < |e| ==> IsDigit(e[i])
    requires d + ([sep] + x) == e + ([sep] + y)
    ensures d == e && x == y
  {
    var s := d + ([sep] + x);
    assert s[|d|] == sep && s[|e|] == sep;
    assert d == s[..|d|] && e == s[..|e|];
    assert x == s[|d| + 1..] && y == s[|e| + 1..];
  }

  /** Strings of the same byte length that start the same text are the same string. */
  lemma {:induction false} BytePrefixUnique(a: string, x: string, b: string, y: string)
    requires a + x == b + y && ByteLen(a) == ByteLen(b)
    ensures a == b && x == y
  {
    if a == [] || b == [] {
      assert a == b == [];
      assert a + x == x && b + y == y;
    } else {
      assert (a + x)[0] == a[0] && (b + y)[0] == b[0];
      assert a[1..] + x == (a + x)[1..] == (b + y)[1..] == b[1..] + y;
      BytePrefixUnique(a[1..], x, b[1..], y);
      assert a == [a[0]] + a[1..] && b == [b[0]] + b[1..];
    }
  }
}
