/** The JavaScript string behaviour the server relies on: whitespace as `trim`
    and the regular-expression class `\s` see it, `trim` itself, decimal
    rendering of integers in template literals, and `Array.prototype.join`. */
module Text {

  /** ECMAScript WhiteSpace and LineTerminator code points. */
  predicate IsWhitespace(c: char) {
    || c == '\t' || c == '\n' || c == '\U{000B}' || c == '\U{000C}' || c == '\r' || c == ' '
    || c == '\U{00A0}' || c == '\U{1680}' || ('\U{2000}' <= c <= '\U{200A}')
    || c == '\U{2028}' || c == '\U{2029}' || c == '\U{202F}' || c == '\U{205F}'
    || c == '\U{3000}' || c == '\U{FEFF}'
  }

  predicate AllWhitespace(s: string) {
    forall i | 0 <= i < |s| :: IsWhitespace(s[i])
  }

  predicate NoWhitespace(s: string) {
    forall i | 0 <= i < |s| :: !IsWhitespace(s[i])
  }

  /** Drops leading whitespace. */
  function TrimStart(s: string): (r: string)
    ensures |r| <= |s| && r == s[|s| - |r|..]
    ensures r == [] || !IsWhitespace(r[0])
  {
    if s != [] && IsWhitespace(s[0]) then TrimStart(s[1..]) else s
  }

  /** Drops trailing whitespace. */
  function TrimEnd(s: string): (r: string)
    ensures |r| <= |s| && r == s[..|r|]
    ensures r == [] || !IsWhitespace(r[|r| - 1])
  {
    if s != [] && IsWhitespace(s[|s| - 1]) then TrimEnd(s[..|s| - 1]) else s
  }

  /** `s` is `r` with `a` characters of whitespace before it and whitespace after it. */
  predicate SurroundedAt(r: string, s: string, a: nat) {
    a + |r| <= |s| && s[a..a + |r|] == r && AllWhitespace(s[..a]) && AllWhitespace(s[a + |r|..])
  }

  /** `r` is `s` less a whitespace prefix and a whitespace suffix, and `r`
      itself neither starts nor ends with whitespace. */
  ghost predicate IsTrimmingOf(r: string, s: string) {
    && (r == [] || (!IsWhitespace(r[0]) && !IsWhitespace(r[|r| - 1])))
    && exists a: nat :: SurroundedAt(r, s, a)
  }

  /** `String.prototype.trim`. */
  function Trim(s: string): (r: string)
    ensures var a := |s| - |TrimStart(s)|; a + |r| <= |s| && s[a..a + |r|] == r
  {
    TrimEnd(TrimStart(s))
  }

  /** What TrimStart drops is whitespace. */
  lemma {:induction false} TrimStartDrops(s: string)
    ensures AllWhitespace(s[..|s| - |TrimStart(s)|])
  {
    if s != [] && IsWhitespace(s[0]) {
      TrimStartDrops(s[1..]);
      var k := |s| - |TrimStart(s)|;
      forall i | 0 <= i < k ensures IsWhitespace(s[..k][i]) {
        if i > 0 {
          assert s[..k][i] == s[1..][..k - 1][i - 1];
        }
      }
    }
  }

  /** What TrimEnd drops is whitespace. */
  lemma {:induction false} TrimEndDrops(s: string)
    ensures AllWhitespace(s[|TrimEnd(s)|..])
  {
    if s != [] && IsWhitespace(s[|s| - 1]) {
      TrimEndDrops(s[..|s| - 1]);
      var k := |TrimEnd(s)|;
      forall i | 0 <= i < |s| - k ensures IsWhitespace(s[k..][i]) {
        if i < |s| - k - 1 {
          assert s[k..][i] == s[..|s| - 1][k..][i];
        }
      }
    }
  }

  /** Trim removes exactly a whitespace prefix and a whitespace suffix. */
  lemma TrimSpec(s: string)
    ensures IsTrimmingOf(Trim(s), s)
  {
    var t := TrimStart(s);
    var r := TrimEnd(t);
    TrimStartDrops(s);
    TrimEndDrops(t);
    var a := |s| - |t|;
    assert s[a..a + |r|] == r;
    assert s[a + |r|..] == t[|r|..];
    if r != [] {
      assert r[0] == t[0];
    }
    assert SurroundedAt(r, s, a);
  }

  /** Leading whitespace up to the first other character is what TrimStart drops. */
  lemma {:induction false} TrimStartAt(s: string, a: nat)
    requires a < |s| && AllWhitespace(s[..a]) && !IsWhitespace(s[a])
    ensures TrimStart(s) == s[a..]
  {
    if a > 0 {
      assert IsWhitespace(s[..a][0]);
      assert s[1..][..a - 1] == s[..a][1..];
      TrimStartAt(s[1..], a - 1);
    }
  }

  lemma {:induction false} TrimStartBlank(s: string)
    requires AllWhitespace(s)
    ensures TrimStart(s) == []
  {
    if s != [] {
      TrimStartBlank(s[1..]);
    }
  }

  lemma {:induction false} TrimEndBlank(s: string)
    requires AllWhitespace(s)
    ensures TrimEnd(s) == []
  {
    if s != [] {
      TrimEndBlank(s[..|s| - 1]);
    }
  }

  /** Trailing whitespace after the last other character is what TrimEnd drops. */
  lemma {:induction false} TrimEndAt(t: string, b: nat)
    requires 0 < b <= |t| && AllWhitespace(t[b..]) && !IsWhitespace(t[b - 1])
    ensures TrimEnd(t) == t[..b]
    decreases |t|
  {
    if b < |t| {
      assert IsWhitespace(t[b..][|t| - b - 1]);
      assert t[..|t| - 1][b..] == t[b..][..|t| - b - 1];
      TrimEndAt(t[..|t| - 1], b);
    }
  }

  /** The trimming of a string with a non-blank core at `a`. */
  lemma TrimAt(s: string, a: nat, n: nat)
    requires 0 < n && a + n <= |s|
    requires AllWhitespace(s[..a]) && AllWhitespace(s[a + n..])
    requires !IsWhitespace(s[a]) && !IsWhitespace(s[a + n - 1])
    ensures TrimEnd(TrimStart(s)) == s[a..a + n]
  {
    TrimStartAt(s, a);
    var t := s[a..];
    assert t[n..] == s[a + n..];
    assert t[n - 1] == s[a + n - 1];
    TrimEndAt(t, n);
    SliceOfSuffix(s, a, n);
  }

  lemma SliceOfSuffix(s: string, a: nat, n: nat)
    requires a + n <= |s|
    ensures s[a..][..n] == s[a..a + n]
  {
  }

  lemma TrimBlank(s: string, a: nat)
    requires a <= |s| && AllWhitespace(s[..a]) && AllWhitespace(s[a..])
    ensures TrimEnd(TrimStart(s)) == []
  {
    forall i | 0 <= i < |s| ensures IsWhitespace(s[i]) {
      if i < a { assert s[..a][i] == s[i]; } else { assert s[a..][i - a] == s[i]; }
    }
    TrimStartBlank(s);
  }

  /** There is only one way to trim a string. */
  lemma TrimUnique(r: string, s: string)
    requires IsTrimmingOf(r, s)
    ensures r == Trim(s)
  {
    var a: nat :| SurroundedAt(r, s, a);
    if r == [] {
      TrimBlank(s, a);
    } else {
      assert s[a] == r[0] && s[a + |r| - 1] == r[|r| - 1];
      TrimAt(s, a, |r|);
    }
  }

  lemma TrimIdempotent(s: string)
    ensures Trim(Trim(s)) == Trim(s)
  {
    TrimSpec(s);
    var r := Trim(s);
    assert r[0..|r|] == r && r[..0] == [] && r[|r|..] == [];
    assert SurroundedAt(r, r, 0);
    TrimUnique(r, r);
  }

  /** A string without whitespace is its own trimming. */
  lemma TrimNoWhitespace(s: string)
    requires NoWhitespace(s)
    ensures Trim(s) == s
  {
    assert s[0..|s|] == s && s[..0] == [] && s[|s|..] == [];
    assert SurroundedAt(s, s, 0);
    TrimUnique(s, s);
  }

  /** A string that neither starts nor ends with whitespace is its own trimming. */
  lemma TrimNoWhitespaceEnds(s: string)
    requires s != [] && !IsWhitespace(s[0]) && !IsWhitespace(s[|s| - 1])
    ensures Trim(s) == s
  {
  }

  lemma TrimStartSkip(s: string)
    requires s != [] && IsWhitespace(s[0])
    ensures TrimStart(s) == TrimStart(s[1..])
  {
  }

  /** Trailing whitespace after a non-whitespace character is dropped, and nothing before it. */
  lemma TrimEndAppend(p: string, q: string)
    requires p != [] && !IsWhitespace(p[|p| - 1])
    ensures TrimEnd(p + q) == p + TrimEnd(q)
    decreases |q|
  {
    if q == [] {
      assert p + q == p;
    } else if IsWhitespace(q[|q| - 1]) {
      assert (p + q)[..|p + q| - 1] == p + q[..|q| - 1];
      TrimEndAppend(p, q[..|q| - 1]);
    }
  }

  predicate IsDigit(c: char) {
    '0' <= c <= '9'
  }

  predicate AllDigits(s: string) {
    forall i | 0 <= i < |s| :: IsDigit(s[i])
  }

  lemma DigitNotWhitespace(c: char)
    requires IsDigit(c)
    ensures !IsWhitespace(c)
  {
  }

  lemma DigitsNoWhitespace(s: string)
    requires AllDigits(s)
    ensures NoWhitespace(s)
  {
    forall i | 0 <= i < |s| ensures !IsWhitespace(s[i]) {
      DigitNotWhitespace(s[i]);
    }
  }

  function DigitChar(d: nat): (c: char)
    requires d < 10
    ensures IsDigit(c) && DigitValue(c) == d
  {
    (d + '0' as int) as char
  }

  function DigitValue(c: char): nat
    requires IsDigit(c)
  {
    c as int - '0' as int
  }

  /** Canonical decimal text: digits only, no superfluous leading zero. */
  predicate IsCanonicalDecimal(s: string) {
    |s| >= 1 && AllDigits(s) && (s[0] == '0' ==> s == "0")
  }

  /** Decimal rendering of a natural number, as in a template literal. */
  function NatToString(n: nat): (s: string)
    ensures IsCanonicalDecimal(s)
  {
    if n < 10 then [DigitChar(n)] else NatToString(n / 10) + [DigitChar(n % 10)]
  }

  /** Decimal rendering of an integer; negatives get a leading '-'. */
  function IntToString(i: int): string {
    if i < 0 then "-" + NatToString(-i) else NatToString(i)
  }

  /** The value of a string of decimal digits (the empty string is 0). */
  function ParseDigits(s: string): nat
    requires AllDigits(s)
  {
    if s == [] then 0 else 10 * ParseDigits(s[..|s| - 1]) + DigitValue(s[|s| - 1])
  }

  lemma {:induction false} ParseNatToString(n: nat)
    ensures ParseDigits(NatToString(n)) == n
  {
    if n >= 10 {
      var s := NatToString(n);
      assert s[..|s| - 1] == NatToString(n / 10);
      ParseNatToString(n / 10);
    }
  }

  lemma {:induction false} ParseDigitsPositive(s: string)
    requires AllDigits(s) && s != [] && s[0] != '0'
    ensures ParseDigits(s) >= 1
  {
    if |s| > 1 {
      ParseDigitsPositive(s[..|s| - 1]);
    }
  }

  lemma {:induction false} NatToStringParse(s: string)
    requires IsCanonicalDecimal(s)
    ensures NatToString(ParseDigits(s)) == s
  {
    if |s| > 1 {
      var p, d := s[..|s| - 1], DigitValue(s[|s| - 1]);
      assert p[0] == s[0];
      ParseDigitsPositive(p);
      NatToStringParse(p);
      var n := ParseDigits(s);
      DivModTen(ParseDigits(p), d);
      assert NatToString(n) == NatToString(ParseDigits(p)) + [DigitChar(d)];
      assert s == p + [s[|s| - 1]];
    } else {
      assert s == [DigitChar(DigitValue(s[0]))];
    }
  }

  lemma DivModTen(q: nat, d: nat)
    requires d < 10
    ensures (10 * q + d) / 10 == q && (10 * q + d) % 10 == d
  {
  }

  /** A digit string denotes a positive number iff one of its digits is not '0'. */
  lemma {:induction false} ParseDigitsZero(s: string)
    requires AllDigits(s)
    ensures ParseDigits(s) == 0 <==> forall i | 0 <= i < |s| :: s[i] == '0'
  {
    if s != [] {
      var p := s[..|s| - 1];
      ParseDigitsZero(p);
      if ParseDigits(s) == 0 {
        forall i | 0 <= i < |s| ensures s[i] == '0' {
          if i < |s| - 1 { assert s[i] == p[i]; }
        }
      }
    }
  }

  /** `Array.prototype.join(sep)`. */
  function Join(xs: seq<string>, sep: string): string {
    if |xs| == 0 then ""
    else if |xs| == 1 then xs[0]
    else xs[0] + sep + Join(xs[1..], sep)
  }

  /** The "s" of the source's `n > 1 ? "s" : ""`. */
  function Plural(n: int): string {
    if n > 1 then "s" else ""
  }
}
