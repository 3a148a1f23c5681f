/**
 * The checksum half of `src/iban.ts`: decimal zero-padding, the chunked
 * modulo-97 reduction of ISO 7064 MOD 97-10 over a string whose letters are
 * expanded to two-digit codes (A = 10, ..., Z = 35), and the two check-digit
 * formulas built on it (Portuguese NIB control digits, IBAN check digits).
 */
module Checksum {
  import opened JsText

  // ---------------------------------------------------------------------------
  // Padding

  /** A string of zeros denotes 0. */
  lemma {:induction false} ZerosValue(n: nat)
    ensures AllDigits(Repeat('0', n)) && DigitsValue(Repeat('0', n)) == 0
  {
    if n > 0 {
      ZerosValue(n - 1);
      assert Repeat('0', n)[..n - 1] == Repeat('0', n - 1);
    }
  }

  /** Leading zeros do not change a numeral's value. */
  lemma {:induction false} LeadingZerosValue(n: nat, b: string)
    requires AllDigits(b)
    ensures AllDigits(Repeat('0', n) + b) && DigitsValue(Repeat('0', n) + b) == DigitsValue(b)
  {
    ZerosValue(n);
    DigitsValueAppend(Repeat('0', n), b);
  }

  /**
   * `pad(num, length)`: the decimal numeral of `num`, left-padded with '0' to
   * `length` characters. It never truncates: the numeral is always the tail.
   */
  function Pad(n: nat, width: nat): (s: string)
    ensures AllDigits(s) && DigitsValue(s) == n
    ensures 1 <= width && n < Pow10(width) ==> |s| == width
  {
    PaddedNumeral(n, width);
    PadStart(NatToDecimal(n), width, '0')
  }

  /** The layout of a pad: zeros in front of the numeral, as long as the wider of the two. */
  lemma {:induction false} PadLayout(n: nat, width: nat)
    ensures var s, digits := Pad(n, width), NatToDecimal(n);
      && |s| == (if |digits| >= width then |digits| else width)
      && s[|s| - |digits|..] == digits
      && forall i | 0 <= i < |s| - |digits| :: s[i] == '0'
  {
    var s, digits := Pad(n, width), NatToDecimal(n);
    if |digits| < width {
      assert s == Repeat('0', width - |digits|) + digits;
    }
  }

  lemma {:induction false} PaddedNumeral(n: nat, width: nat)
    ensures var s := PadStart(NatToDecimal(n), width, '0');
      AllDigits(s) && DigitsValue(s) == n && (1 <= width && n < Pow10(width) ==> |s| == width)
  {
    var digits := NatToDecimal(n);
    if |digits| < width {
      ZerosValue(width - |digits|);
      DigitsValueAppend(Repeat('0', width - |digits|), digits);
    }
    if 1 <= width && n < Pow10(width) {
      NatToDecimalLength(n, width);
    }
  }

  // ---------------------------------------------------------------------------
  // Letter expansion

  /** The number a letter stands for: `charCodeAt(0) - 55`, so A = 10, ..., Z = 35. */
  function LetterCode(c: char): (n: nat)
    requires IsUpper(c)
    ensures 10 <= n <= 35
  {
    c as int - 55
  }

  /** A letter expands to exactly two digits. */
  lemma {:induction false} LetterExpansionLength(c: char)
    requires IsUpper(c)
    ensures |NatToDecimal(LetterCode(c))| == 2
  {
    assert Pow10(2) == 100;
    NatToDecimalLength(LetterCode(c), 2);
  }

  /**
   * `value.replace(/[A-Z]/g, ch => (ch.charCodeAt(0) - 55).toString())`:
   * every upper-case letter replaced by its two-digit code, every other
   * character kept.
   */
  function Expand(s: string): string {
    if s == [] then []
    else (if IsUpper(s[0]) then NatToDecimal(LetterCode(s[0])) else [s[0]]) + Expand(s[1..])
  }

  /** Over [0-9A-Z] the expansion is a numeral, at least as long as the input. */
  lemma {:induction false} ExpandIsNumeral(s: string)
    requires AllIbanChars(s)
    ensures AllDigits(Expand(s)) && |Expand(s)| >= |s|
  {
    if s != [] {
      var t := s[1..];
      assert forall i | 0 <= i < |t| :: t[i] == s[i + 1];
      ExpandIsNumeral(t);
      var head := if IsUpper(s[0]) then NatToDecimal(LetterCode(s[0])) else [s[0]];
      assert Expand(s) == head + Expand(t);
      if IsUpper(s[0]) {
        LetterExpansionLength(s[0]);
      }
      DigitsAppend(head, Expand(t));
    }
  }

  /** A numeral expands to itself. */
  lemma {:induction false} ExpandOfNumeral(s: string)
    requires AllDigits(s)
    ensures Expand(s) == s
  {
    if s != [] {
      var t := s[1..];
      assert forall i | 0 <= i < |t| :: t[i] == s[i + 1];
      ExpandOfNumeral(t);
      assert s == [s[0]] + t;
    }
  }

  /** The replacement touches only upper-case letters: a string without one expands to itself. */
  lemma {:induction false} ExpandKeepsNonLetters(s: string)
    requires forall i | 0 <= i < |s| :: !IsUpper(s[i])
    ensures Expand(s) == s
  {
    if s != [] {
      var t := s[1..];
      assert forall i | 0 <= i < |t| :: t[i] == s[i + 1];
      ExpandKeepsNonLetters(t);
      assert s == [s[0]] + t;
    }
  }

  /** Expansion works character by character, so it distributes over concatenation. */
  lemma {:induction false} ExpandAppend(a: string, b: string)
    ensures Expand(a + b) == Expand(a) + Expand(b)
  {
    if a == [] {
      assert a + b == b;
    } else {
      assert (a + b)[0] == a[0];
      assert (a + b)[1..] == a[1..] + b;
      ExpandAppend(a[1..], b);
    }
  }

  /** 'P' is 25 and 'T' is 29, so "PT" expands to "2529". */
  lemma ExpandPT()
    ensures Expand("PT") == "2529"
  {
    assert LetterCode('P') == 25 && LetterCode('T') == 29;
    assert NatToDecimal(25) == "25";
    assert NatToDecimal(29) == "29";
    assert "PT"[1..] == "T";
    assert Expand("T") == "29" + Expand([]);
  }

  /** The expansion of a string with "PT" in it: the "PT" becomes "2529". */
  lemma {:induction false} ExpandAroundPT(a: string, b: string)
    requires AllDigits(b)
    ensures Expand(a + "PT" + b) == Expand(a) + "2529" + b
  {
    ExpandAppend(a + "PT", b);
    ExpandAppend(a, "PT");
    ExpandPT();
    ExpandOfNumeral(b);
  }

  // ---------------------------------------------------------------------------
  // The modulo-97 reduction

  /**
   * What `mod97` computes: the number the letter-expanded string denotes,
   * modulo 97.
   */
  function Mod97Value(s: string): (r: nat)
    requires AllIbanChars(s)
    ensures r < 97
  {
    ExpandIsNumeral(s);
    DigitsValue(Expand(s)) % 97
  }

  /**
   * One pass of the loop of `mod97` on any string: the first (up to) nine
   * characters, read by `parseInt(_, 10)`, are replaced by the string of
   * their remainder modulo 97.
   */
  function ReduceStep(remainder: string): string {
    var block := remainder[..if |remainder| < 9 then |remainder| else 9];
    NumberToString(Remainder(ParseInt(block), 97)) + remainder[|block|..]
  }

  /**
   * A pass over a remainder whose first character starts no numeral: the block
   * parses to NaN, and the block is replaced by the text "NaN".
   */
  lemma {:induction false} ReduceStepOnNonNumeral(remainder: string)
    requires remainder != [] && !IsDigit(remainder[0]) && !IsWhitespace(remainder[0])
    requires remainder[0] != '-' && remainder[0] != '+'
    ensures ReduceStep(remainder) == "NaN" + remainder[if |remainder| < 9 then |remainder| else 9..]
  {
    var block := remainder[..if |remainder| < 9 then |remainder| else 9];
    assert block[0] == remainder[0];
    ParseIntNaN(block);
  }

  lemma {:induction false} ShiftedRemainder(a: nat, p: nat, w: nat)
    ensures ((a % 97) * p + w) % 97 == (a * p + w) % 97
  {
    var q := a / 97;
    assert a == 97 * q + a % 97;
    assert a * p + w == (a % 97) * p + w + 97 * (q * p) by {
      assert a * p == (97 * q + a % 97) * p;
    }
  }

  /**
   * On a numeral longer than two digits, one pass reads a block of 3 to 9
   * digits (below 10^9, so exact in a double), leaves a shorter numeral and
   * keeps its value modulo 97.
   */
  lemma {:induction false} ReduceStepOnNumeral(remainder: string)
    requires |remainder| > 2 && AllDigits(remainder)
    ensures AllDigits(ReduceStep(remainder))
    ensures 1 <= |ReduceStep(remainder)| < |remainder|
    ensures DigitsValue(ReduceStep(remainder)) % 97 == DigitsValue(remainder) % 97
  {
    var k := if |remainder| < 9 then |remainder| else 9;
    var block, rest := remainder[..k], remainder[k..];
    var v := DigitsValue(block);
    var head := NatToDecimal(v % 97);
    ReduceStepOfNumeral(remainder);
    assert |head| <= 2 by {
      assert Pow10(2) == 100;
      NatToDecimalLength(v % 97, 2);
    }
    DigitsValueAppend(head, rest);
    assert remainder == block + rest;
    DigitsValueAppend(block, rest);
    StepResidue(DigitsValue(head + rest), DigitsValue(remainder), v, DigitsValue(head),
      Pow10(|rest|), DigitsValue(rest));
  }

  /** Replacing a leading block by its residue keeps the residue of the whole. */
  lemma {:induction false} StepResidue(x: nat, y: nat, v: nat, h: nat, p: nat, w: nat)
    requires h == v % 97 && x == h * p + w && y == v * p + w
    ensures x % 97 == y % 97
  {
    ShiftedRemainder(v, p, w);
  }

  /**
   * On a numeral, a pass reads its first (up to) nine digits exactly (the
   * block is below 10^9) and writes the numeral of their remainder.
   */
  lemma {:induction false} ReduceStepOfNumeral(remainder: string)
    requires remainder != [] && AllDigits(remainder)
    ensures var k := if |remainder| < 9 then |remainder| else 9;
      && AllDigits(remainder[..k]) && DigitsValue(remainder[..k]) < 1_000_000_000
      && ReduceStep(remainder) == NatToDecimal(DigitsValue(remainder[..k]) % 97) + remainder[k..]
  {
    var k := if |remainder| < 9 then |remainder| else 9;
    var block := remainder[..k];
    assert AllDigits(block) && block != [] by {
      assert forall i | 0 <= i < k :: block[i] == remainder[i];
    }
    var v := DigitsValue(block);
    assert v < 1_000_000_000 by {
      DigitsValueBound(block);
      Pow10Monotone(k, 9);
      assert Pow10(9) == 1_000_000_000;
    }
    assert NumberToString(Remainder(ParseInt(block), 97)) == NatToDecimal(v % 97) by {
      ParseIntOfDigits(block);
    }
  }

  /**
   * `mod97(value)`: reduce the letter-expanded string nine characters at a
   * time until at most two characters remain, then read what is left.
   */
  method Mod97(value: string) returns (r: nat)
    requires value != [] && AllIbanChars(value)
    ensures r == Mod97Value(value)
  {
    ExpandIsNumeral(value);
    var expanded := Expand(value);
    var remainder := expanded;
    while |remainder| > 2
      invariant remainder != [] && AllDigits(remainder)
      invariant DigitsValue(remainder) % 97 == DigitsValue(expanded) % 97
      decreases |remainder|
    {
      ReduceStepOnNumeral(remainder);
      remainder := ReduceStep(remainder);
    }
    ParseIntOfDigits(remainder);
    var last := Remainder(ParseInt(remainder), 97);
    r := last.value;
  }

  // ---------------------------------------------------------------------------
  // MOD 97-10 check digits

  /** Appending two digits `d` to `base` shifts base's expanded value by two digits. */
  lemma {:induction false} Mod97WithTwoDigits(base: string, d: string)
    requires AllIbanChars(base) && |d| == 2 && AllDigits(d)
    ensures AllIbanChars(base + d) && AllDigits(Expand(base))
    ensures Mod97Value(base + d) == (DigitsValue(Expand(base)) * 100 + DigitsValue(d)) % 97
  {
    IbanCharsAppend(base, d);
    ExpandIsNumeral(base);
    var e := Expand(base);
    ExpandWithDigits(base, d);
    Mod97ValueOf(base + d, e + d);
    DigitsValueAppendTwo(e, d);
    ShiftedResidue(Mod97Value(base + d), DigitsValue(e + d), DigitsValue(e), DigitsValue(d));
  }

  /** Digits after `base` are kept as they are by the expansion. */
  lemma {:induction false} ExpandWithDigits(base: string, d: string)
    requires AllDigits(d)
    ensures Expand(base + d) == Expand(base) + d
  {
    ExpandOfNumeral(d);
    ExpandAppend(base, d);
  }

  lemma ShiftedResidue(m: int, v: int, a: int, b: int)
    requires m == v % 97 && v == a * 100 + b
    ensures m == (a * 100 + b) % 97
  {
  }

  /** mod97 of a string, read off a known expansion of it. */
  lemma {:induction false} Mod97ValueOf(s: string, e: string)
    requires AllIbanChars(s) && Expand(s) == e
    ensures AllDigits(e) && Mod97Value(s) == DigitsValue(e) % 97
  {
    ExpandIsNumeral(s);
  }

  /**
   * The MOD 97-10 law: with c = 98 - mod97(base + "00"), which lies in
   * [2, 98], the two-digit pad of c completes `base` to a string whose
   * mod97 is 1.
   */
  lemma {:induction false} CheckDigitsLaw(base: string)
    requires AllIbanChars(base)
    ensures AllIbanChars(base + "00")
    ensures var c := 98 - Mod97Value(base + "00");
      && 2 <= c <= 98
      && |Pad(c, 2)| == 2
      && AllIbanChars(base + Pad(c, 2))
      && Mod97Value(base + Pad(c, 2)) == 1
  {
    IbanCharsAppend(base, "00");
    var c := 98 - Mod97Value(base + "00");
    var p := Pad(c, 2);
    assert |p| == 2 && AllDigits(p) && DigitsValue(p) == c by {
      assert Pow10(2) == 100;
    }
    CompletesBase(base, p);
  }

  /** Any two digits whose value is 98 - mod97(base + "00") complete `base` to residue 1. */
  lemma {:induction false} CompletesBase(base: string, p: string)
    requires AllIbanChars(base) && |p| == 2 && AllDigits(p)
    requires AllIbanChars(base + "00") && DigitsValue(p) == 98 - Mod97Value(base + "00")
    ensures AllIbanChars(base + p) && Mod97Value(base + p) == 1
  {
    ExpandIsNumeral(base);
    var x := DigitsValue(Expand(base));
    assert DigitsValue("00") == 0 by { assert "00"[..1] == "0"; assert "0"[..0] == []; }
    Mod97WithTwoDigits(base, "00");
    Mod97WithTwoDigits(base, p);
    CompletesToOne(x * 100, DigitsValue("00"), Mod97Value(base + "00"), DigitsValue(p), Mod97Value(base + p));
  }

  /** Adding 98 minus the residue of y to y leaves residue 1. */
  lemma {:induction false} CompletesToOne(y: nat, z: nat, m: int, u: int, r: int)
    requires z == 0 && m == (y + z) % 97 && u == 98 - m && r == (y + u) % 97
    ensures r == 1
  {
    var q := y / 97;
    assert y + u == 97 * (q + 1) + 1;
  }

  /** With m the residue of y, y + u has residue 1 exactly when u is congruent to 98 - m. */
  lemma {:induction false} ResidueOne(y: nat, z: nat, u: nat, m: int, r: int)
    requires z == 0 && m == (y + z) % 97 && r == (y + u) % 97
    ensures r == 1 <==> u % 97 == (98 - m) % 97
  {
    var q := y / 97;
    assert y + u == 97 * q + (m + u);
  }

  /**
   * The two-digit suffixes that pass are exactly those congruent to the
   * check digits modulo 97: in [00, 99] that is the check digits themselves
   * and, for check digits 97 or 98, also 00 or 01.
   */
  lemma {:induction false} CheckDigitsCharacterized(base: string, d: string)
    requires AllIbanChars(base) && |d| == 2 && AllDigits(d)
    ensures AllIbanChars(base + "00") && AllIbanChars(base + d)
    ensures Mod97Value(base + d) == 1 <==> DigitsValue(d) % 97 == (98 - Mod97Value(base + "00")) % 97
  {
    ExpandIsNumeral(base);
    var x := DigitsValue(Expand(base));
    assert DigitsValue("00") == 0 by { assert "00"[..1] == "0"; assert "0"[..0] == []; }
    Mod97WithTwoDigits(base, "00");
    Mod97WithTwoDigits(base, d);
    ResidueOne(x * 100, DigitsValue("00"), DigitsValue(d), Mod97Value(base + "00"), Mod97Value(base + d));
  }

  /**
   * `calculateNIBControlDigits(bankCode, branchCode, accountNumber)`:
   * two digits that make bank + branch + account + digits pass mod97.
   */
  function NIBControlDigits(bankCode: string, branchCode: string, accountNumber: string): (nib: string)
    requires AllIbanChars(bankCode + branchCode + accountNumber)
    ensures |nib| == 2 && AllDigits(nib)
    ensures 2 <= DigitsValue(nib) <= 98
    ensures AllIbanChars(bankCode + branchCode + accountNumber + nib)
    ensures Mod97Value(bankCode + branchCode + accountNumber + nib) == 1
  {
    var nibBase := bankCode + branchCode + accountNumber;
    CheckDigitsLaw(nibBase);
    Pad(98 - Mod97Value(nibBase + "00"), 2)
  }

  /** The NIB control digits are the numeral of 98 - mod97(bank + branch + account + "00"). */
  lemma {:induction false} NIBControlDigitsValue(bankCode: string, branchCode: string, accountNumber: string)
    requires AllIbanChars(bankCode + branchCode + accountNumber)
    ensures AllIbanChars(bankCode + branchCode + accountNumber + "00")
    ensures DigitsValue(NIBControlDigits(bankCode, branchCode, accountNumber))
      == 98 - Mod97Value(bankCode + branchCode + accountNumber + "00")
  {
    CheckDigitsLaw(bankCode + branchCode + accountNumber);
  }

  /**
   * Two digits d complete a bank + branch + account base exactly when they
   * are congruent, modulo 97, to the NIB control digits of that base.
   */
  lemma {:induction false} NIBControlCharacterized(bankCode: string, branchCode: string, accountNumber: string, d: string)
    requires AllIbanChars(bankCode + branchCode + accountNumber) && |d| == 2 && AllDigits(d)
    ensures AllIbanChars(bankCode + branchCode + accountNumber + d)
    ensures Mod97Value(bankCode + branchCode + accountNumber + d) == 1 <==>
      DigitsValue(d) % 97 == DigitsValue(NIBControlDigits(bankCode, branchCode, accountNumber)) % 97
  {
    var base := bankCode + branchCode + accountNumber;
    CheckDigitsCharacterized(base, d);
    NIBControlDigitsValue(bankCode, branchCode, accountNumber);
    CongruentTo(Mod97Value(base + d) == 1, DigitsValue(d), 98 - Mod97Value(base + "00"),
      DigitsValue(NIBControlDigits(bankCode, branchCode, accountNumber)));
  }

  lemma CongruentTo(p: bool, u: int, v: int, w: int)
    requires p <==> u % 97 == v % 97
    requires v == w
    ensures p <==> u % 97 == w % 97
  {
  }

  /**
   * `calculateIBANCheckDigits(bban, countryCode)`: two digits that make
   * bban + countryCode + digits pass mod97, which is the ISO 13616
   * rearrangement of countryCode + digits + bban.
   */
  function IBANCheckDigits(bban: string, countryCode: string): (check: string)
    requires AllIbanChars(bban + countryCode)
    ensures |check| == 2 && AllDigits(check)
    ensures 2 <= DigitsValue(check) <= 98
    ensures AllIbanChars(bban + countryCode + check)
    ensures Mod97Value(bban + countryCode + check) == 1
  {
    CheckDigitsLaw(bban + countryCode);
    Pad(98 - Mod97Value(bban + countryCode + "00"), 2)
  }

  /** The check digits are the numeral of 98 - mod97(bban + countryCode + "00"). */
  lemma {:induction false} IBANCheckDigitsValue(bban: string, countryCode: string)
    requires AllIbanChars(bban + countryCode)
    ensures AllIbanChars(bban + countryCode + "00")
    ensures DigitsValue(IBANCheckDigits(bban, countryCode)) == 98 - Mod97Value(bban + countryCode + "00")
  {
    CheckDigitsLaw(bban + countryCode);
  }
}
