/** String helpers the page relies on: JavaScript's `trim`, decimal rendering of
    whole numbers (`toString`) and two-digit zero padding (`padStart(2, "0")`). */
module Text {

  /** The characters `String.prototype.trim` removes: ECMAScript WhiteSpace and
      LineTerminator code points. */
  const WhitespaceChars: set<char> := {
    '\t', '\n', '\U{000B}', '\U{000C}', '\r', ' ', '\U{00A0}', '\U{1680}',
    '\U{2000}', '\U{2001}', '\U{2002}', '\U{2003}', '\U{2004}', '\U{2005}',
    '\U{2006}', '\U{2007}', '\U{2008}', '\U{2009}', '\U{200A}',
    '\U{2028}', '\U{2029}', '\U{202F}', '\U{205F}', '\U{3000}', '\U{FEFF}'
  }

  predicate IsWhitespace(c: char) {
    c in WhitespaceChars
  }

  predicate AllWhitespace(s: string) {
    forall i :: 0 <= i < |s| ==> IsWhitespace(s[i])
  }

  /** Every character of `s` at a position in `[lo, hi)` is whitespace. */
  predicate WhitespaceBetween(s: string, lo: nat, hi: nat)
    requires lo <= hi <= |s|
  {
    forall i :: lo <= i < hi ==> IsWhitespace(s[i])
  }

  /** End of the whitespace run that starts at position `i`. */
  function WhitespaceRunFrom(s: string, i: nat): (j: nat)
    requires i <= |s|
    ensures i <= j <= |s| && WhitespaceBetween(s, i, j)
    ensures j < |s| ==> !IsWhitespace(s[j])
    decreases |s| - i
  {
    if i == |s| || !IsWhitespace(s[i]) then i else WhitespaceRunFrom(s, i + 1)
  }

  /** Start of the whitespace run that ends just before position `j`. */
  function WhitespaceRunBefore(s: string, j: nat): (i: nat)
    requires j <= |s|
    ensures i <= j && WhitespaceBetween(s, i, j)
    ensures 0 < i ==> !IsWhitespace(s[i - 1])
  {
    if j == 0 || !IsWhitespace(s[j - 1]) then j else WhitespaceRunBefore(s, j - 1)
  }

  /** `r` is `s` cut at `a` and `b`, with only whitespace outside the cut and
      none at either end of what is kept. */
  ghost predicate TrimmedAt(r: string, s: string, a: nat, b: nat) {
    a <= b <= |s| && r == s[a..b] &&
    WhitespaceBetween(s, 0, a) && WhitespaceBetween(s, b, |s|) &&
    (a < b ==> !IsWhitespace(s[a]) && !IsWhitespace(s[b - 1]))
  }

  /** `r` is `s` with its leading and trailing whitespace removed. */
  ghost predicate IsTrimOf(r: string, s: string) {
    exists a: nat, b: nat {:trigger TrimmedAt(r, s, a, b)} :: TrimmedAt(r, s, a, b)
  }

  /** JavaScript's `s.trim()`. */
  function Trim(s: string): (r: string)
    ensures IsTrimOf(r, s)
  {
    var a := WhitespaceRunFrom(s, 0);
    if a == |s| then
      assert TrimmedAt([], s, a, a);
      []
    else
      var b := WhitespaceRunBefore(s, |s|);
      assert a < b;
      assert TrimmedAt(s[a..b], s, a, b);
      s[a..b]
  }

  /** The source's blank test `!s.trim()`: the trimmed string is empty (falsy). */
  predicate IsBlank(s: string) {
    Trim(s) == []
  }

  /** A string is blank exactly when every one of its characters is whitespace. */
  lemma BlankIffAllWhitespace(s: string)
    ensures IsBlank(s) <==> AllWhitespace(s)
  {
    var r := Trim(s);
    var a: nat, b: nat :| TrimmedAt(r, s, a, b);
    if r == [] {
      assert a == b;
      forall i | 0 <= i < |s| ensures IsWhitespace(s[i]) {
        if i < a { assert WhitespaceBetween(s, 0, a); } else { assert WhitespaceBetween(s, b, |s|); }
      }
    } else {
      assert s[a] == r[0];
    }
  }

  predicate IsDigit(c: char) {
    '0' <= c <= '9'
  }

  predicate AllDigits(s: string) {
    forall i :: 0 <= i < |s| ==> IsDigit(s[i])
  }

  function DigitChar(d: nat): (c: char)
    requires d < 10
    ensures IsDigit(c)
  {
    ('0' as int + d) as char
  }

  function DigitValue(c: char): (d: nat)
    requires IsDigit(c)
    ensures d < 10 && DigitChar(d) == c
  {
    (c as int - '0' as int) as nat
  }

  /** Decimal digits with no leading zero: how JavaScript writes a whole number. */
  predicate IsDecimal(d: string) {
    |d| >= 1 && AllDigits(d) && (|d| == 1 || d[0] != '0')
  }

  /** Decimal rendering of a whole number, as JavaScript's `n.toString()`:
      digits only, and no leading zero unless the number is zero. */
  function NatToString(n: nat): (r: string)
    ensures IsDecimal(r)
    ensures r[0] == '0' ==> n == 0
  {
    if n < 10 then [DigitChar(n)]
    else NatToString(n / 10) + [DigitChar(n % 10)]
  }

  /** Reads a string of decimal digits as a whole number. */
  function ParseNat(s: string): nat
    requires AllDigits(s)
  {
    if s == [] then 0
    else ParseNat(s[..|s| - 1]) * 10 + DigitValue(s[|s| - 1])
  }

  /** Rendering a number and reading it back gives the number. */
  lemma {:induction false} ParseNatToString(n: nat)
    ensures ParseNat(NatToString(n)) == n
  {
    if n >= 10 {
      var s := NatToString(n);
      assert s[..|s| - 1] == NatToString(n / 10);
      ParseNatToString(n / 10);
    }
  }

  /** Every decimal numeral is the rendering of the number it reads as, so a
      number has exactly one rendering. */
  lemma {:induction false} NatToStringParseNat(d: string)
    requires IsDecimal(d)
    ensures NatToString(ParseNat(d)) == d
  {
    var p := d[..|d| - 1];
    if |d| == 1 {
      assert p == [];
      assert ParseNat(d) == DigitValue(d[0]);
    } else {
      assert p[0] == d[0];
      NatToStringParseNat(p);
      var m := ParseNat(p);
      assert m >= 1;
      var n := ParseNat(d);
      assert n / 10 == m && n % 10 == DigitValue(d[|d| - 1]);
      assert d == p + [d[|d| - 1]];
    }
  }

  /** Two two-digit numerals that read as the same number are the same string. */
  lemma TwoDigitsDetermined(a: string, b: string)
    requires |a| == 2 && |b| == 2 && AllDigits(a) && AllDigits(b)
    requires ParseNat(a) == ParseNat(b)
    ensures a == b
  {
    assert a[..1] == [a[0]] && [a[0]][..0] == [];
    assert b[..1] == [b[0]] && [b[0]][..0] == [];
    assert ParseNat([a[0]]) == DigitValue(a[0]) && ParseNat([b[0]]) == DigitValue(b[0]);
    assert ParseNat(a) == ParseNat(a[..1]) * 10 + DigitValue(a[1]);
    assert ParseNat(b) == ParseNat(b[..1]) * 10 + DigitValue(b[1]);
    assert DigitValue(a[0]) == DigitValue(b[0]) && DigitValue(a[1]) == DigitValue(b[1]);
  }

  /** Distinct numbers render differently. */
  lemma NatToStringInjective(m: nat, n: nat)
    ensures NatToString(m) == NatToString(n) ==> m == n
  {
    ParseNatToString(m);
    ParseNatToString(n);
  }

  /** `n.toString().padStart(2, "0")` for a number below 100. */
  function PadTwo(n: nat): (r: string)
    requires n < 100
    ensures |r| == 2 && AllDigits(r) && ParseNat(r) == n
  {
    var r := if n < 10 then ['0', DigitChar(n)] else [DigitChar(n / 10), DigitChar(n % 10)];
    assert r[..1] == [r[0]] && [r[0]][..0] == [];
    assert ParseNat([r[0]]) == DigitValue(r[0]);
    assert ParseNat(r) == ParseNat(r[..1]) * 10 + DigitValue(r[1]);
    r
  }
}
