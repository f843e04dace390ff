/**
 * The string operations the analysis relies on: Python's `str.strip()`,
 * `str.lower()`, `str.replace()`, `str(n)` for integers and the decimal
 * branch of `int(s)`.  Only ASCII is modelled: `strip` removes the ASCII
 * characters Python classes as whitespace, `int` skips the smaller set it
 * treats as blanks, and `lower` folds `A`..`Z`.
 */
module Text {

  import opened Wrappers

  /** Python's `str.isspace()` restricted to ASCII: \t \n \v \f \r, \x1c-\x1f and space. */
  predicate IsSpace(c: char) {
    (9 <= c as int <= 13) || (28 <= c as int <= 32)
  }

  /** The whitespace `int()` skips around a literal: \t \n \v \f \r and space.
      Unlike `strip()` it keeps the separators \x1c-\x1f. */
  predicate IsIntSpace(c: char) {
    (9 <= c as int <= 13) || c as int == 32
  }

  /** Drops the leading characters satisfying `ws` and nothing else. */
  function TrimStart(s: string, ws: char -> bool): (r: string)
    ensures |r| <= |s| && r == s[|s| - |r|..]
    ensures forall k :: 0 <= k < |s| - |r| ==> ws(s[k])
    ensures r == [] || !ws(r[0])
  {
    if s != [] && ws(s[0]) then TrimStart(s[1..], ws) else s
  }

  /** Drops the trailing characters satisfying `ws` and nothing else. */
  function TrimEnd(s: string, ws: char -> bool): (r: string)
    ensures |r| <= |s| && r == s[..|r|]
    ensures forall k :: |r| <= k < |s| ==> ws(s[k])
    ensures r == [] || !ws(r[|r| - 1])
  {
    if s != [] && ws(s[|s| - 1]) then TrimEnd(s[..|s| - 1], ws) else s
  }

  /** `r` is `s` with the first `i` characters and everything after `i + |r|`
      cut off, and all that was cut off satisfies `ws`. */
  ghost predicate PaddedBy(s: string, r: string, i: int, ws: char -> bool) {
    && 0 <= i <= |s| - |r|
    && r == s[i..i + |r|]
    && (forall k :: 0 <= k < i ==> ws(s[k]))
    && (forall k :: i + |r| <= k < |s| ==> ws(s[k]))
  }

  /** Cuts the characters satisfying `ws` off both ends: the result is an
      infix of `s` that neither starts nor ends with one, and everything cut
      off on either side is one. */
  function StripWith(s: string, ws: char -> bool): (r: string)
    ensures r == [] || (!ws(r[0]) && !ws(r[|r| - 1]))
    ensures PaddedBy(s, r, |s| - |TrimStart(s, ws)|, ws)
  {
    var t := TrimStart(s, ws);
    PaddingCut(s, t, TrimEnd(t, ws), ws);
    TrimEnd(t, ws)
  }

  /** `strip()`: the result is an infix of `s` that neither starts nor ends
      with whitespace, and everything cut off on either side is whitespace. */
  function Strip(s: string): (r: string)
    ensures r == [] || (!IsSpace(r[0]) && !IsSpace(r[|r| - 1]))
    ensures PaddedBy(s, r, |s| - |TrimStart(s, IsSpace)|, IsSpace)
  {
    StripWith(s, IsSpace)
  }

  /** Cutting leading padding off `s` and then trailing padding off the rest
      pads the result by the first cut. */
  lemma PaddingCut(s: string, t: string, r: string, ws: char -> bool)
    requires |t| <= |s| && t == s[|s| - |t|..] && forall k :: 0 <= k < |s| - |t| ==> ws(s[k])
    requires |r| <= |t| && r == t[..|r|] && forall k :: |r| <= k < |t| ==> ws(t[k])
    ensures PaddedBy(s, r, |s| - |t|, ws)
  {
    var i := |s| - |t|;
    assert r == s[i..i + |r|];
    forall k | i + |r| <= k < |s| ensures ws(s[k]) {
      assert s[k] == t[k - i];
    }
  }

  lemma {:induction false} TrimStartPadding(p: string, s: string, ws: char -> bool)
    requires forall k :: 0 <= k < |p| ==> ws(p[k])
    requires s == [] || !ws(s[0])
    ensures TrimStart(p + s, ws) == s
  {
    if p == [] {
      assert p + s == s;
    } else {
      assert (p + s)[1..] == p[1..] + s;
      TrimStartPadding(p[1..], s, ws);
    }
  }

  lemma {:induction false} TrimEndPadding(s: string, q: string, ws: char -> bool)
    requires forall k :: 0 <= k < |q| ==> ws(q[k])
    requires s == [] || !ws(s[|s| - 1])
    ensures TrimEnd(s + q, ws) == s
  {
    if q == [] {
      assert s + q == s;
    } else {
      assert (s + q)[..|s + q| - 1] == s + q[..|q| - 1];
      TrimEndPadding(s, q[..|q| - 1], ws);
    }
  }

  /** `strip()` removes exactly the whitespace padding around a word. */
  lemma StripPadding(p: string, s: string, q: string)
    requires forall k :: 0 <= k < |p| ==> IsSpace(p[k])
    requires forall k :: 0 <= k < |q| ==> IsSpace(q[k])
    requires s != [] && !IsSpace(s[0]) && !IsSpace(s[|s| - 1])
    ensures Strip(p + s + q) == s
  {
    assert p + s + q == p + (s + q);
    TrimStartPadding(p, s + q, IsSpace);
    TrimEndPadding(s, q, IsSpace);
  }

  /** A string that neither starts nor ends with a padding character is left as it is. */
  lemma StripUnchanged(s: string, ws: char -> bool)
    requires s == [] || (!ws(s[0]) && !ws(s[|s| - 1]))
    ensures StripWith(s, ws) == s
  {
  }

  function LowerChar(c: char): char {
    if 'A' <= c <= 'Z' then (c as int + 32) as char else c
  }

  /** ASCII `lower()`: each capital becomes its small letter, and every
      other character is kept. */
  function Lower(s: string): (r: string)
    ensures |r| == |s|
    ensures forall k :: 0 <= k < |r| ==> !('A' <= r[k] <= 'Z')
    ensures forall k :: 0 <= k < |s| && !('A' <= s[k] <= 'Z') ==> r[k] == s[k]
    ensures forall k :: 0 <= k < |s| && 'A' <= s[k] <= 'Z' ==> 'a' <= r[k] <= 'z' && r[k] as int - s[k] as int == 32
  {
    seq(|s|, i requires 0 <= i < |s| => LowerChar(s[i]))
  }

  /** `s.replace(from, to)` for single characters: every `from` becomes `to`. */
  function ReplaceChar(s: string, from: char, to: char): (r: string)
    ensures |r| == |s|
    ensures from != to ==> from !in r
    ensures forall k :: 0 <= k < |s| && s[k] != from ==> r[k] == s[k]
    ensures forall k :: 0 <= k < |s| && s[k] == from ==> r[k] == to
  {
    seq(|s|, i requires 0 <= i < |s| => if s[i] == from then to else s[i])
  }

  predicate IsDigit(c: char) {
    '0' <= c <= '9'
  }

  predicate AllDigits(s: string) {
    forall k :: 0 <= k < |s| ==> IsDigit(s[k])
  }

  function DigitChar(d: int): (c: char)
    requires 0 <= d < 10
    ensures IsDigit(c)
  {
    ('0' as int + d) as char
  }

  function DigitValue(c: char): int
    requires IsDigit(c)
  {
    c as int - '0' as int
  }

  /** The decimal digits of `n`, most significant first, without leading zeros. */
  function NatDigits(n: nat): (r: string)
    ensures |r| >= 1 && AllDigits(r)
    ensures |r| > 1 ==> r[0] != '0'
  {
    if n < 10 then [DigitChar(n)] else NatDigits(n / 10) + [DigitChar(n % 10)]
  }

  /** The value of a string of decimal digits. */
  function ParseDigits(s: string): nat
    requires AllDigits(s)
  {
    if s == [] then 0 else ParseDigits(s[..|s| - 1]) * 10 + DigitValue(s[|s| - 1])
  }

  lemma {:induction false} ParseNatDigits(n: nat)
    ensures ParseDigits(NatDigits(n)) == n
  {
    if n >= 10 {
      var d := NatDigits(n);
      assert d[..|d| - 1] == NatDigits(n / 10);
      ParseNatDigits(n / 10);
    }
  }

  /** Python's `str(n)` for an integer (and how pandas writes an integer cell). */
  function DecimalText(n: int): (r: string)
    ensures |r| >= 1 && !IsSpace(r[0]) && !IsSpace(r[|r| - 1])
    ensures n >= 0 ==> AllDigits(r)
    ensures n < 0 ==> r[0] == '-' && AllDigits(r[1..])
  {
    if n < 0 then "-" + NatDigits(-n) else NatDigits(n)
  }

  /** An optionally signed, non-empty run of decimal digits. */
  predicate IsIntLiteral(t: string) {
    (t != [] && AllDigits(t)) || (|t| >= 2 && (t[0] == '+' || t[0] == '-') && AllDigits(t[1..]))
  }

  /** Python's `int(s)` on an ASCII decimal literal: `int()`'s whitespace
      around an optional sign and at least one digit.  `None` where `int(s)`
      raises. */
  function ParseIntLiteral(s: string): Option<int> {
    var t := StripWith(s, IsIntSpace);
    if t != [] && (t[0] == '+' || t[0] == '-') then
      var body := t[1..];
      if body != [] && AllDigits(body) then
        var v: int := ParseDigits(body);
        Some(if t[0] == '-' then -v else v)
      else None
    else if t != [] && AllDigits(t) then Some(ParseDigits(t))
    else None
  }

  /** `int(s)` succeeds exactly on a literal padded by `int()`'s whitespace;
      a literal with a minus sign is negative and one without is not. */
  lemma ParseIntLiteralAccepts(s: string)
    ensures ParseIntLiteral(s).Some? <==> IsIntLiteral(StripWith(s, IsIntSpace))
    ensures ParseIntLiteral(s).Some? && StripWith(s, IsIntSpace)[0] == '-' ==> ParseIntLiteral(s).value <= 0
    ensures ParseIntLiteral(s).Some? && StripWith(s, IsIntSpace)[0] != '-' ==> ParseIntLiteral(s).value >= 0
  {
  }

  /** A leading information separator (U+001C) is whitespace to `strip()`
      but not to `int()`: the cell text `"\x1c5"` strips to `"5"` yet does
      not parse as an integer. */
  lemma SeparatorNotSkippedByInt()
    ensures Strip([28 as char, '5']) == "5"
    ensures ParseIntLiteral([28 as char, '5']).None?
  {
    var s := [28 as char, '5'];
    assert s == [28 as char] + "5";
    StripPadding([28 as char], "5", []);
    assert s == [28 as char] + "5" + [];
    StripUnchanged(s, IsIntSpace);
  }

  /** `int(str(n)) == n`. */
  lemma DecimalTextRoundTrip(n: int)
    ensures ParseIntLiteral(DecimalText(n)) == Some(n)
  {
    StripUnchanged(DecimalText(n), IsIntSpace);
    ParseNatDigits(if n < 0 then -n else n);
    if n < 0 {
      NegativeRoundTrip(n);
    } else {
      assert IsDigit(DecimalText(n)[0]);
    }
  }

  lemma NegativeRoundTrip(n: int)
    requires n < 0 && StripWith(DecimalText(n), IsIntSpace) == DecimalText(n) && ParseDigits(NatDigits(-n)) == -n
    ensures ParseIntLiteral(DecimalText(n)) == Some(n)
  {
    var d := DecimalText(n);
    assert d[1..] == NatDigits(-n);
  }
}
