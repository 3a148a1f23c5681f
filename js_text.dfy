/**
 * The JavaScript built-ins the IBAN code leans on, stated over strings as
 * sequences of characters: the character classes it tests, decimal numerals
 * (`Number.prototype.toString`, `parseInt(_, 10)`), `padStart`, the `%`
 * operator, the `\s` class of regular expressions and ASCII case mapping.
 */
module JsText {

  // ---------------------------------------------------------------------------
  // Character classes

  predicate IsDigit(c: char) { '0' <= c <= '9' }

  predicate IsUpper(c: char) { 'A' <= c <= 'Z' }

  predicate IsLower(c: char) { 'a' <= c <= 'z' }

  /** The alphabet of an IBAN: decimal digits and the upper-case Latin letters. */
  predicate IsIbanChar(c: char) { IsDigit(c) || IsUpper(c) }

  predicate AllDigits(s: string) { forall i | 0 <= i < |s| :: IsDigit(s[i]) }

  predicate AllIbanChars(s: string) { forall i | 0 <= i < |s| :: IsIbanChar(s[i]) }

  /**
   * The characters matched by the regular-expression class `\s`; they are
   * also the characters `parseInt` skips before a numeral.
   */
  predicate IsWhitespace(c: char) {
    || c == '\t' || c == '\n' || c == '\U{000B}' || c == '\U{000C}' || c == '\r' || c == ' '
    || c == '\U{00A0}' || c == '\U{1680}' || ('\U{2000}' <= c <= '\U{200A}')
    || c == '\U{2028}' || c == '\U{2029}' || c == '\U{202F}' || c == '\U{205F}'
    || c == '\U{3000}' || c == '\U{FEFF}'
  }

  lemma {:induction false} DigitsAppend(a: string, b: string)
    requires AllDigits(a) && AllDigits(b)
    ensures AllDigits(a + b)
  {
    assert forall i | |a| <= i < |a + b| :: (a + b)[i] == b[i - |a|];
  }

  lemma {:induction false} IbanCharsAppend(a: string, b: string)
    requires AllIbanChars(a) && AllIbanChars(b)
    ensures AllIbanChars(a + b)
  {
    assert forall i | |a| <= i < |a + b| :: (a + b)[i] == b[i - |a|];
  }

  /** The four parts of a four-part concatenation, sliced back out. */
  lemma {:induction false} FourParts(a: string, b: string, c: string, d: string)
    ensures var s := a + b + c + d; var l := |a|; var m := l + |b|; var n := m + |c|;
      s[..l] == a && s[l..m] == b && s[m..n] == c && s[n..] == d
  {
    var s := a + b + c + d;
    assert s[..|a| + |b| + |c|] == a + b + c;
    assert (a + b + c)[..|a| + |b|] == a + b;
  }

  predicate NoWhitespace(s: string) { forall i | 0 <= i < |s| :: !IsWhitespace(s[i]) }

  function DigitValue(c: char): (d: nat)
    requires IsDigit(c)
    ensures d < 10
  {
    c as int - '0' as int
  }

  function DigitChar(d: nat): (c: char)
    requires d < 10
    ensures IsDigit(c) && DigitValue(c) == d
  {
    ('0' as int + d) as char
  }

  // ---------------------------------------------------------------------------
  // Decimal numerals

  function Pow10(k: nat): (p: nat)
    ensures p >= 1
  {
    if k == 0 then 1 else 10 * Pow10(k - 1)
  }

  lemma {:induction false} Pow10Monotone(j: nat, k: nat)
    requires j <= k
    ensures Pow10(j) <= Pow10(k)
  {
    if j < k {
      Pow10Monotone(j, k - 1);
    }
  }

  /** The powers of ten the IBAN fields use: two-digit checks, 4-digit branches, 11-digit accounts. */
  lemma Pow10Widths()
    ensures Pow10(2) == 100 && Pow10(4) == 10000 && Pow10(11) == 100000000000
  {
    assert Pow10(4) == 10000;
    assert Pow10(8) == 100000000;
  }

  /** The number a string of decimal digits denotes, most significant digit first. */
  function DigitsValue(s: string): nat
    requires AllDigits(s)
  {
    if s == [] then 0 else DigitsValue(s[..|s| - 1]) * 10 + DigitValue(s[|s| - 1])
  }

  /** Appending a numeral shifts the first one left by the second one's length. */
  lemma {:induction false} DigitsValueAppend(a: string, b: string)
    requires AllDigits(a) && AllDigits(b)
    ensures AllDigits(a + b)
    ensures DigitsValue(a + b) == DigitsValue(a) * Pow10(|b|) + DigitsValue(b)
  {
    if b == [] {
      assert a + b == a;
    } else {
      var b' := b[..|b| - 1];
      var d := DigitValue(b[|b| - 1]);
      assert (a + b)[..|a + b| - 1] == a + b';
      assert (a + b)[|a + b| - 1] == b[|b| - 1];
      DigitsValueAppend(a, b');
      assert DigitsValue(a + b) == DigitsValue(a + b') * 10 + d;
      assert DigitsValue(b) == DigitsValue(b') * 10 + d;
      ShiftByOneDigit(DigitsValue(a), Pow10(|b'|), DigitsValue(b'), d);
    }
  }

  /** Appending two digits multiplies the first numeral's value by a hundred. */
  lemma {:induction false} DigitsValueAppendTwo(a: string, d: string)
    requires AllDigits(a) && |d| == 2 && AllDigits(d)
    ensures AllDigits(a + d)
    ensures DigitsValue(a + d) == DigitsValue(a) * 100 + DigitsValue(d)
  {
    var a1 := a + d[..1];
    assert (a + d)[..|a + d| - 1] == a1;
    assert a1[..|a1| - 1] == a;
    assert d[..1][..0] == [];
    assert DigitsValue(d[..1]) == DigitValue(d[0]);
  }

  lemma ShiftByOneDigit(x: nat, p: nat, y: nat, d: nat)
    ensures (x * p + y) * 10 + d == x * (10 * p) + (y * 10 + d)
  {
  }

  /** A numeral of k digits denotes less than 10^k. */
  lemma {:induction false} DigitsValueBound(s: string)
    requires AllDigits(s)
    ensures DigitsValue(s) < Pow10(|s|)
  {
    if s != [] {
      DigitsValueBound(s[..|s| - 1]);
    }
  }

  /** `n.toString()` for a non-negative integer: the shortest decimal numeral of `n`. */
  function NatToDecimal(n: nat): (s: string)
    ensures |s| >= 1 && AllDigits(s)
    ensures DigitsValue(s) == n
  {
    if n < 10 then
      var s := [DigitChar(n)];
      assert s[..0] == [];
      s
    else
      var p := NatToDecimal(n / 10);
      var s := p + [DigitChar(n % 10)];
      assert s[..|s| - 1] == p;
      s
  }

  /** The numeral is the shortest one: n has |s| digits exactly. */
  lemma {:induction false} NatToDecimalMagnitude(n: nat)
    ensures var s := NatToDecimal(n); n < Pow10(|s|) && (|s| == 1 || Pow10(|s| - 1) <= n)
  {
    if n >= 10 {
      var q := n / 10;
      NatToDecimalMagnitude(q);
      var p := NatToDecimal(q);
      assert |NatToDecimal(n)| == |p| + 1;
      var w := Pow10(|p|);
      assert Pow10(|p| + 1) == 10 * w;
      assert n < 10 * w by {
        assert q < w;
      }
      if |p| > 1 {
        assert Pow10(|p|) == 10 * Pow10(|p| - 1);
      }
    }
  }

  /** The numeral of a number below 10^k has at most k digits. */
  lemma {:induction false} NatToDecimalLength(n: nat, k: nat)
    requires 1 <= k && n < Pow10(k)
    ensures |NatToDecimal(n)| <= k
  {
    NatToDecimalMagnitude(n);
    var s := NatToDecimal(n);
    if |s| > 1 && k <= |s| - 1 {
      Pow10Monotone(k, |s| - 1);
    }
  }

  // ---------------------------------------------------------------------------
  // padStart

  function Repeat(c: char, n: nat): (r: string)
    ensures |r| == n
    ensures forall i | 0 <= i < n :: r[i] == c
  {
    seq(n, _ => c)
  }

  /**
   * `s.padStart(width, fill)` for a one-character fill: `s` is kept whole
   * (never truncated) at the end of the result, and only `fill` is added
   * before it, up to `width` characters.
   */
  function PadStart(s: string, width: nat, fill: char): (r: string)
    ensures |r| == if |s| >= width then |s| else width
    ensures |s| >= width ==> r == s
  {
    if |s| >= width then s else Repeat(fill, width - |s|) + s
  }

  /** The padded string ends with `s` whole, and every character before it is `fill`. */
  lemma PadStartLayout(s: string, width: nat, fill: char)
    ensures var r := PadStart(s, width, fill);
      && |r| == (if |s| >= width then |s| else width)
      && r[|r| - |s|..] == s
      && forall i | 0 <= i < |r| - |s| :: r[i] == fill
  {
    var r := PadStart(s, width, fill);
    if |s| < width {
      assert r == Repeat(fill, width - |s|) + s;
    }
  }

  // ---------------------------------------------------------------------------
  // Whitespace removal and case mapping

  /** What `replace(/\s/g, '')` keeps of one character. */
  function Kept(c: char): string {
    if IsWhitespace(c) then [] else [c]
  }

  /** `s.replace(/\s/g, '')`. */
  function StripWhitespace(s: string): string {
    if s == [] then [] else Kept(s[0]) + StripWhitespace(s[1..])
  }

  lemma {:induction false} NoWhitespaceAppend(a: string, b: string)
    requires NoWhitespace(a) && NoWhitespace(b)
    ensures NoWhitespace(a + b)
  {
    assert forall i | |a| <= i < |a + b| :: (a + b)[i] == b[i - |a|];
  }

  /** No whitespace is left after stripping. */
  lemma {:induction false} StripWhitespaceRemovesAll(s: string)
    ensures NoWhitespace(StripWhitespace(s))
  {
    if s != [] {
      StripWhitespaceRemovesAll(s[1..]);
      NoWhitespaceAppend(Kept(s[0]), StripWhitespace(s[1..]));
    }
  }

  /** A string without whitespace is left as it is. */
  lemma {:induction false} StripWhitespaceKeepsClean(s: string)
    requires NoWhitespace(s)
    ensures StripWhitespace(s) == s
  {
    if s != [] {
      var t := s[1..];
      assert forall i | 0 <= i < |t| :: t[i] == s[i + 1];
      StripWhitespaceKeepsClean(t);
      assert Kept(s[0]) == [s[0]];
      assert s == [s[0]] + t;
    }
  }

  /** Stripping twice is stripping once. */
  lemma {:induction false} StripWhitespaceIdempotent(s: string)
    ensures StripWhitespace(StripWhitespace(s)) == StripWhitespace(s)
  {
    StripWhitespaceRemovesAll(s);
    StripWhitespaceKeepsClean(StripWhitespace(s));
  }

  /** Removing whitespace from a concatenation removes it from each part. */
  lemma {:induction false} StripWhitespaceAppend(a: string, b: string)
    ensures StripWhitespace(a + b) == StripWhitespace(a) + StripWhitespace(b)
  {
    if a == [] {
      assert a + b == b;
    } else {
      var k := Kept(a[0]);
      assert (a + b)[0] == a[0];
      assert (a + b)[1..] == a[1..] + b;
      assert StripWhitespace(a + b) == k + StripWhitespace(a[1..] + b);
      StripWhitespaceAppend(a[1..], b);
      var x := StripWhitespace(a[1..]);
      var y := StripWhitespace(b);
      assert k + (x + y) == (k + x) + y;
    }
  }

  function UpperChar(c: char): char {
    if IsLower(c) then (c as int - 32) as char else c
  }

  function LowerChar(c: char): char {
    if IsUpper(c) then (c as int + 32) as char else c
  }

  /** `s.toUpperCase()`, restricted to the ASCII letters. */
  function ToUpperAscii(s: string): string {
    seq(|s|, i requires 0 <= i < |s| => UpperChar(s[i]))
  }

  /** `s.toLowerCase()`, restricted to the ASCII letters. */
  function ToLowerAscii(s: string): string {
    seq(|s|, i requires 0 <= i < |s| => LowerChar(s[i]))
  }

  /** Lower-casing works character by character, so it distributes over concatenation. */
  lemma {:induction false} LowerAppend(a: string, b: string)
    ensures ToLowerAscii(a + b) == ToLowerAscii(a) + ToLowerAscii(b)
  {
    assert forall i | 0 <= i < |a + b| :: ToLowerAscii(a + b)[i] == (ToLowerAscii(a) + ToLowerAscii(b))[i];
  }

  /** Lower-casing neither creates nor removes whitespace. */
  lemma KeptLower(c: char)
    ensures Kept(LowerChar(c)) == ToLowerAscii(Kept(c))
  {
  }

  /** Upper-casing after lower-casing is upper-casing. */
  lemma UpperOfLower(s: string)
    ensures ToUpperAscii(ToLowerAscii(s)) == ToUpperAscii(s)
  {
  }

  // ---------------------------------------------------------------------------
  // Numbers as parseInt, % and toString see them

  /** A JavaScript number as this code produces them: an integer or NaN. */
  datatype JsNumber = NaN | Finite(value: int)

  function DropLeadingWhitespace(s: string): (r: string)
    ensures |r| <= |s|
  {
    if s != [] && IsWhitespace(s[0]) then DropLeadingWhitespace(s[1..]) else s
  }

  /** The length of the longest all-digit prefix. */
  function LeadingDigits(s: string): (n: nat)
    ensures n <= |s| && AllDigits(s[..n])
    ensures n < |s| ==> !IsDigit(s[n])
  {
    if s == [] || !IsDigit(s[0]) then 0
    else
      var n := 1 + LeadingDigits(s[1..]);
      assert s[..n] == [s[0]] + s[1..][..n - 1];
      n
  }

  /**
   * `parseInt(s, 10)`: skip leading whitespace, read an optional sign, then
   * the longest run of decimal digits; NaN when there is no digit.
   */
  function ParseInt(s: string): JsNumber {
    ParseSigned(DropLeadingWhitespace(s))
  }

  /** An optional sign, then the digits. */
  function ParseSigned(t: string): JsNumber {
    if t != [] && t[0] == '-' then Negate(ParseDigits(t[1..]))
    else if t != [] && t[0] == '+' then ParseDigits(t[1..])
    else ParseDigits(t)
  }

  /** The value of the longest all-digit prefix, NaN when it is empty. */
  function ParseDigits(u: string): JsNumber {
    var n := LeadingDigits(u);
    if n == 0 then NaN else Finite(DigitsValue(u[..n]))
  }

  function Negate(x: JsNumber): JsNumber {
    match x
    case NaN => NaN
    case Finite(v) => Finite(-v)
  }

  /** `x % m`: the remainder truncated toward zero; NaN stays NaN. */
  function Remainder(x: JsNumber, m: nat): JsNumber
    requires m > 0
  {
    match x
    case NaN => NaN
    case Finite(v) => Finite(if v >= 0 then v % m else -((-v) % m))
  }

  /** `x.toString()` (and the coercion of a number to a string). */
  function NumberToString(x: JsNumber): string {
    match x
    case NaN => "NaN"
    case Finite(v) => if v < 0 then "-" + NatToDecimal(-v) else NatToDecimal(v)
  }

  lemma {:induction false} LeadingDigitsOfDigits(s: string)
    requires AllDigits(s)
    ensures LeadingDigits(s) == |s|
  {
    if s != [] {
      LeadingDigitsOfDigits(s[1..]);
    }
  }

  /** The digit run of a string is exactly the all-digit prefix that a non-digit (or the end) closes. */
  lemma {:induction false} LeadingDigitsOfPrefix(s: string, n: nat)
    requires n <= |s| && AllDigits(s[..n]) && (n < |s| ==> !IsDigit(s[n]))
    ensures LeadingDigits(s) == n
  {
    if n > 0 {
      assert IsDigit(s[0]) by { assert s[..n][0] == s[0]; }
      var t := s[1..];
      assert t[..n - 1] == s[..n][1..];
      assert n - 1 < |t| ==> t[n - 1] == s[n];
      LeadingDigitsOfPrefix(t, n - 1);
    }
  }

  /**
   * `parseInt` reads a leading numeral and stops at the first non-digit:
   * on `digits + rest` with `rest` not starting with a digit it yields the
   * value of `digits`.
   */
  lemma {:induction false} ParseIntOfPrefix(s: string, n: nat)
    requires 1 <= n <= |s| && AllDigits(s[..n]) && (n < |s| ==> !IsDigit(s[n]))
    ensures ParseInt(s) == Finite(DigitsValue(s[..n]))
  {
    assert IsDigit(s[0]) by { assert s[..n][0] == s[0]; }
    assert DropLeadingWhitespace(s) == s;
    assert ParseSigned(s) == ParseDigits(s);
    LeadingDigitsOfPrefix(s, n);
  }

  /** On a non-empty numeral, parseInt is exact: it yields the numeral's value. */
  lemma {:induction false} ParseIntOfDigits(s: string)
    requires s != [] && AllDigits(s)
    ensures ParseInt(s) == Finite(DigitsValue(s))
  {
    assert DropLeadingWhitespace(s) == s by {
      assert IsDigit(s[0]);
    }
    assert ParseSigned(s) == ParseDigits(s) by {
      assert IsDigit(s[0]);
    }
    LeadingDigitsOfDigits(s);
    assert s[..|s|] == s;
  }

  /** parseInt gives NaN on a string that starts with neither a digit, a sign nor whitespace. */
  lemma {:induction false} ParseIntNaN(s: string)
    requires s != [] && !IsDigit(s[0]) && !IsWhitespace(s[0]) && s[0] != '-' && s[0] != '+'
    ensures ParseInt(s) == NaN
  {
    assert DropLeadingWhitespace(s) == s;
    assert ParseSigned(s) == ParseDigits(s);
    assert LeadingDigits(s) == 0;
  }
}
