/**
 * The inspecting half of `src/iban.ts`: `validateIBAN`, `parseIBAN` and
 * `formatIBAN`, with the normalisation they share (whitespace removed,
 * letters upper-cased).
 */
module Inspector {
  import opened Wrappers
  import opened JsText
  import opened Checksum
  import opened Registry

  // ---------------------------------------------------------------------------
  // Normalisation

  /** `iban.replace(/\s/g, '').toUpperCase()`. */
  function Clean(iban: string): string {
    ToUpperAscii(StripWhitespace(iban))
  }

  /** The guard validateIBAN and parseIBAN share: length 25, starting with "PT". */
  predicate HasPortugueseShape(cleaned: string) {
    |cleaned| == 25 && cleaned[..2] == "PT"
  }

  /** The ISO 13616 rearrangement: the first four characters moved to the end. */
  function Rearranged(cleaned: string): string
    requires |cleaned| >= 4
  {
    cleaned[4..] + cleaned[..4]
  }

  lemma {:induction false} RearrangedIbanChars(cleaned: string)
    requires |cleaned| >= 4 && AllIbanChars(cleaned)
    ensures AllIbanChars(Rearranged(cleaned))
  {
    assert forall i | 0 <= i < |cleaned| - 4 :: Rearranged(cleaned)[i] == cleaned[i + 4];
    assert forall i | |cleaned| - 4 <= i < |cleaned| :: Rearranged(cleaned)[i] == cleaned[i - (|cleaned| - 4)];
  }

  /** A string over [0-9A-Z] is already clean. */
  lemma {:induction false} CleanOfIbanString(s: string)
    requires AllIbanChars(s)
    ensures Clean(s) == s
  {
    assert NoWhitespace(s);
    StripWhitespaceKeepsClean(s);
  }

  /** Inserting a whitespace character anywhere does not change the cleaned string. */
  lemma {:induction false} CleanIgnoresInsertedWhitespace(a: string, b: string, w: char)
    requires IsWhitespace(w)
    ensures Clean(a + [w] + b) == Clean(a + b)
  {
    var sa, sb := StripWhitespace(a), StripWhitespace(b);
    assert StripWhitespace(a + [w]) == sa by {
      StripWhitespaceAppend(a, [w]);
      assert StripWhitespace([w]) == Kept(w) + StripWhitespace([]);
      assert sa + [] == sa;
    }
    assert StripWhitespace(a + [w] + b) == sa + sb by {
      StripWhitespaceAppend(a + [w], b);
    }
    assert StripWhitespace(a + b) == sa + sb by {
      StripWhitespaceAppend(a, b);
    }
  }

  lemma {:induction false} StripCommutesWithLower(s: string)
    ensures StripWhitespace(ToLowerAscii(s)) == ToLowerAscii(StripWhitespace(s))
  {
    if s != [] {
      var t := s[1..];
      var l := ToLowerAscii(s);
      assert l != [] && l[0] == LowerChar(s[0]) && l[1..] == ToLowerAscii(t);
      assert StripWhitespace(l) == Kept(LowerChar(s[0])) + StripWhitespace(ToLowerAscii(t));
      StripCommutesWithLower(t);
      KeptLower(s[0]);
      LowerAppend(Kept(s[0]), StripWhitespace(t));
    }
  }

  /** Lower-casing before cleaning does not change the cleaned string. */
  lemma {:induction false} CleanIgnoresCase(s: string)
    ensures Clean(ToLowerAscii(s)) == Clean(s)
  {
    StripCommutesWithLower(s);
    UpperOfLower(StripWhitespace(s));
  }

  // ---------------------------------------------------------------------------
  // validateIBAN

  /**
   * `validateIBAN(iban)`: false unless the cleaned string has length 25 and
   * starts with "PT"; otherwise whether the rearranged string reduces to 1
   * modulo 97. A cleaned string with a character outside [0-9A-Z] is
   * rejected before the reduction (see the finding below).
   */
  function ValidateIBAN(iban: string): (valid: bool)
    ensures valid ==> HasPortugueseShape(Clean(iban)) && AllIbanChars(Clean(iban))
    ensures valid ==> AllIbanChars(Rearranged(Clean(iban))) && Mod97Value(Rearranged(Clean(iban))) == 1
    ensures (&& HasPortugueseShape(Clean(iban)) && AllIbanChars(Clean(iban))
             && AllIbanChars(Rearranged(Clean(iban))) && Mod97Value(Rearranged(Clean(iban))) == 1) ==> valid
  {
    var cleaned := Clean(iban);
    if |cleaned| != 25 then false
    else if cleaned[..2] != "PT" then false
    else if !AllIbanChars(cleaned) then false
    else
      RearrangedIbanChars(cleaned);
      Mod97Value(cleaned[4..] + cleaned[..4]) == 1
  }

  /** Inserting whitespace never changes the verdict. */
  lemma {:induction false} ValidateIgnoresWhitespace(a: string, b: string, w: char)
    requires IsWhitespace(w)
    ensures ValidateIBAN(a + [w] + b) == ValidateIBAN(a + b)
  {
    CleanIgnoresInsertedWhitespace(a, b, w);
  }

  /** Lower-casing never changes the verdict. */
  lemma {:induction false} ValidateIgnoresCase(iban: string)
    ensures ValidateIBAN(ToLowerAscii(iban)) == ValidateIBAN(iban)
  {
    CleanIgnoresCase(iban);
  }

  /** A clean Portuguese string with digit check digits: the rearranged form is bban + "PT" + check digits. */
  lemma {:induction false} RearrangedPortuguese(cleaned: string)
    requires HasPortugueseShape(cleaned) && AllIbanChars(cleaned)
    ensures Rearranged(cleaned) == cleaned[4..] + "PT" + cleaned[2..4]
    ensures AllIbanChars(cleaned[4..] + "PT")
  {
    assert cleaned[..4] == cleaned[..2] + cleaned[2..4];
  }

  /**
   * The validator agrees with the check-digit formula: a clean Portuguese
   * string passes exactly when its check digits are congruent, modulo 97, to
   * 98 - mod97(bban + "PT" + "00"), the value `calculateIBANCheckDigits`
   * pads, that is, to the check digits it computes for the BBAN.
   */
  lemma {:induction false} ValidateAgreesWithCheckDigits(cleaned: string)
    requires HasPortugueseShape(cleaned) && AllIbanChars(cleaned) && AllDigits(cleaned[2..4])
    ensures AllIbanChars(cleaned[4..] + "PT" + "00")
    ensures ValidateIBAN(cleaned) <==>
      DigitsValue(cleaned[2..4]) % 97 == (98 - Mod97Value(cleaned[4..] + "PT" + "00")) % 97
    ensures ValidateIBAN(cleaned) <==>
      DigitsValue(cleaned[2..4]) % 97 == DigitsValue(IBANCheckDigits(cleaned[4..], "PT")) % 97
  {
    ValidateOfClean(cleaned);
    RearrangedPortuguese(cleaned);
    CheckDigitsCharacterized(cleaned[4..] + "PT", cleaned[2..4]);
    IBANCheckDigitsValue(cleaned[4..], "PT");
  }

  /** On a clean Portuguese string, validation is the mod-97 test of the rearranged string. */
  lemma {:induction false} ValidateOfClean(cleaned: string)
    requires HasPortugueseShape(cleaned) && AllIbanChars(cleaned)
    ensures AllIbanChars(Rearranged(cleaned))
    ensures ValidateIBAN(cleaned) == (Mod97Value(Rearranged(cleaned)) == 1)
  {
    CleanOfIbanString(cleaned);
    RearrangedIbanChars(cleaned);
  }

  lemma {:induction false} TwoDigitValue(d: string)
    requires |d| == 2 && AllDigits(d)
    ensures DigitsValue(d) == 10 * DigitValue(d[0]) + DigitValue(d[1])
  {
    var h := d[..1];
    assert h[..0] == [] && h[0] == d[0];
    assert DigitsValue(h) == DigitsValue(h[..0]) * 10 + DigitValue(h[0]);
    assert DigitsValue(d) == DigitsValue(h) * 10 + DigitValue(d[1]);
  }

  /** Replacing one digit of a two-digit numeral by another moves it by 1..9 or 10..90. */
  lemma {:induction false} OneDigitChange(d: string, i: nat, x: char)
    requires |d| == 2 && AllDigits(d) && i < 2 && IsDigit(x) && x != d[i]
    ensures AllDigits(d[i := x])
    ensures DigitsValue(d) % 97 != DigitsValue(d[i := x]) % 97
  {
    var e := d[i := x];
    assert AllDigits(e) by {
      assert forall j | 0 <= j < 2 :: e[j] == if j == i then x else d[j];
    }
    TwoDigitValue(d);
    TwoDigitValue(e);
    assert DigitValue(x) != DigitValue(d[i]);
    DistinctResidues(DigitsValue(d), DigitsValue(e));
  }

  /** Two numbers below 100 whose distance is between 1 and 90 differ modulo 97. */
  lemma {:induction false} DistinctResidues(u: nat, v: nat)
    requires u < 100 && v < 100 && u != v && -90 <= u - v <= 90
    ensures u % 97 != v % 97
  {
    var ru := if u < 97 then u else u - 97;
    var rv := if v < 97 then v else v - 97;
    assert u % 97 == ru && v % 97 == rv;
  }

  /**
   * Changing either check digit of a valid IBAN to another digit always makes
   * it fail validation.
   */
  lemma {:induction false} SingleCheckDigitChangeRejected(iban: string, i: nat, x: char)
    requires ValidateIBAN(iban)
    requires (i == 2 || i == 3) && IsDigit(x) && x != Clean(iban)[i]
    requires AllDigits(Clean(iban)[2..4])
    ensures !ValidateIBAN(Clean(iban)[i := x])
  {
    var cleaned := Clean(iban);
    CleanOfIbanString(cleaned);
    var k := (98 - Mod97Value(cleaned[4..] + "PT" + "00")) % 97;
    assert DigitsValue(cleaned[2..4]) % 97 == k by {
      ValidateAgreesWithCheckDigits(cleaned);
    }
    var changed := cleaned[i := x];
    assert changed[4..] == cleaned[4..];
    assert changed[2..4] == cleaned[2..4][i - 2 := x];
    assert DigitsValue(changed[2..4]) % 97 != k by {
      OneDigitChange(cleaned[2..4], i - 2, x);
    }
    assert HasPortugueseShape(changed) && AllIbanChars(changed);
    ValidateAgreesWithCheckDigits(changed);
  }

  /**
   * Overwriting the check digits of a valid IBAN with "00" keeps it valid
   * exactly when its check digits were "00" or "97" (97 is 0 modulo 97).
   */
  lemma {:induction false} ZeroedCheckDigits(iban: string)
    requires ValidateIBAN(iban)
    requires AllDigits(Clean(iban)[2..4])
    ensures var cleaned := Clean(iban);
      ValidateIBAN(cleaned[..2] + "00" + cleaned[4..]) <==> (cleaned[2..4] == "00" || cleaned[2..4] == "97")
  {
    var cleaned := Clean(iban);
    var zeroed := cleaned[..2] + "00" + cleaned[4..];
    assert zeroed[..2] == "PT" && zeroed[2..4] == "00" && zeroed[4..] == cleaned[4..];
    assert AllIbanChars(zeroed);
    CleanOfIbanString(cleaned);
    assert ValidateIBAN(cleaned);
    var k := (98 - Mod97Value(cleaned[4..] + "PT" + "00")) % 97;
    ValidateAgreesWithCheckDigits(cleaned);
    assert DigitsValue(cleaned[2..4]) % 97 == k;
    ValidateAgreesWithCheckDigits(zeroed);
    var z := zeroed[2..4];
    TwoDigitValue(z);
    assert DigitsValue(z) == 0;
    assert ValidateIBAN(zeroed) <==> DigitsValue(z) % 97 == k;
    MultiplesOf97InTwoDigits(cleaned[2..4]);
  }

  /** The two-digit numerals divisible by 97 are "00" and "97". */
  lemma {:induction false} MultiplesOf97InTwoDigits(d: string)
    requires |d| == 2 && AllDigits(d)
    ensures DigitsValue(d) % 97 == 0 <==> (d == "00" || d == "97")
  {
    TwoDigitValue(d);
    assert d == [d[0], d[1]];
    if d == "97" {
      TwoDigitValue("97");
    }
  }

  // ---------------------------------------------------------------------------
  // parseIBAN

  /**
   * `parseIBAN(iban)`: null unless the cleaned string passes the
   * length/"PT" guard; otherwise its 2/2/4/4/11/2 slices. The checksum is
   * not looked at.
   */
  function ParseIBAN(iban: string): (parsed: Option<IBANStructure>)
    ensures parsed.None? <==> !HasPortugueseShape(Clean(iban))
    ensures parsed.Some? ==> Concat(parsed.value) == Clean(iban)
    ensures parsed.Some? ==> HasDocumentedWidths(parsed.value) && parsed.value.countryCode == "PT"
    ensures parsed.Some? ==> |Concat(parsed.value)| == 25
  {
    var cleaned := Clean(iban);
    if |cleaned| != 25 || cleaned[..2] != "PT" then None
    else
      var p := IBANStructure(
        cleaned[0..2], cleaned[2..4], cleaned[4..8], cleaned[8..12], cleaned[12..23], cleaned[23..25]);
      assert Concat(p) == cleaned;
      Some(p)
  }

  /** Parsing "PT", two check characters and a 21-character BBAN slices the BBAN 4/4/11/2. */
  lemma {:induction false} ParsePortuguese(check: string, bban: string)
    requires |check| == 2 && |bban| == 21 && AllIbanChars(check) && AllIbanChars(bban)
    ensures ParseIBAN("PT" + check + bban) ==
      Some(IBANStructure("PT", check, bban[..4], bban[4..8], bban[8..19], bban[19..]))
  {
    var s := "PT" + check + bban;
    assert AllIbanChars(s) by {
      IbanCharsAppend("PT", check);
      IbanCharsAppend("PT" + check, bban);
    }
    CleanOfIbanString(s);
    assert s[..2] == "PT" && s[2..4] == check && s[4..] == bban;
    assert s[4..8] == bban[..4] && s[8..12] == bban[4..8];
    assert s[12..23] == bban[8..19] && s[23..25] == bban[19..];
  }

  /** Whatever passes validation also parses. */
  lemma ValidIbanParses(iban: string)
    requires ValidateIBAN(iban)
    ensures ParseIBAN(iban).Some?
  {
  }

  const Unchecked: string := "PT00" + Repeat('0', 21)

  /** "252900" denotes 252900. */
  lemma Value252900()
    ensures AllDigits("252900") && DigitsValue("252900") == 252900
  {
    assert "252900"[..5] == "25290" && "25290"[..4] == "2529" && "2529"[..3] == "252";
    assert "252"[..2] == "25" && "25"[..1] == "2" && "2"[..0] == [];
    assert DigitsValue("2") == 2;
    assert DigitsValue("25") == 25;
    assert DigitsValue("252") == 252;
    assert DigitsValue("2529") == 2529;
    assert DigitsValue("25290") == 25290;
  }

  /** Parsing never checks the checksum: "PT00" followed by 21 zeros parses but fails validation. */
  lemma ParseIgnoresChecksum()
    ensures ParseIBAN(Unchecked).Some? && !ValidateIBAN(Unchecked)
  {
    assert AllIbanChars(Unchecked);
    CleanOfIbanString(Unchecked);
    ValidateOfClean(Unchecked);
    assert Mod97Value(Rearranged(Unchecked)) == 21 by {
      UncheckedResidue();
    }
  }

  lemma UncheckedResidue()
    ensures AllIbanChars(Rearranged(Unchecked)) && Mod97Value(Rearranged(Unchecked)) == 21
  {
    assert Rearranged(Unchecked) == Repeat('0', 21) + "PT00";
    ZerosThenPT00(21);
  }

  /** Zeros followed by "PT00" expand to zeros followed by "252900", which is 21 modulo 97. */
  lemma {:induction false} ZerosThenPT00(n: nat)
    ensures AllIbanChars(Repeat('0', n) + "PT00") && Mod97Value(Repeat('0', n) + "PT00") == 21
  {
    var zeros := Repeat('0', n);
    assert zeros + "PT00" == zeros + "PT" + "00";
    ExpandAroundPT(zeros, "00");
    ExpandOfNumeral(zeros);
    assert Expand(zeros + "PT00") == zeros + "252900";
    Value252900();
    LeadingZerosValue(n, "252900");
  }

  // ---------------------------------------------------------------------------
  // formatIBAN

  function Flatten(groups: seq<string>): string {
    if groups == [] then [] else groups[0] + Flatten(groups[1..])
  }

  /**
   * `cleaned.match(/.{1,4}/g)` for a non-empty whitespace-free string (every
   * character it has left matches `.`): consecutive groups of four, the last
   * one possibly shorter.
   */
  function Groups(cleaned: string): (groups: seq<string>)
    requires cleaned != []
    ensures |groups| >= 1
    ensures forall i | 0 <= i < |groups| :: 1 <= |groups[i]| <= 4
    ensures forall i | 0 <= i < |groups| - 1 :: |groups[i]| == 4
    ensures NoWhitespace(cleaned) ==> forall i | 0 <= i < |groups| :: NoWhitespace(groups[i])
    ensures Flatten(groups) == cleaned
    decreases |cleaned|
  {
    if |cleaned| <= 4 then
      assert Flatten([cleaned]) == cleaned + Flatten([]);
      [cleaned]
    else
      var rest := Groups(cleaned[4..]);
      var groups := [cleaned[..4]] + rest;
      assert groups[1..] == rest;
      assert cleaned == cleaned[..4] + cleaned[4..];
      groups
  }

  /** `groups.join(' ')`. */
  function JoinWithSpaces(groups: seq<string>): string
    requires |groups| >= 1
  {
    if |groups| == 1 then groups[0] else groups[0] + " " + JoinWithSpaces(groups[1..])
  }

  lemma {:induction false} StripJoin(groups: seq<string>)
    requires |groups| >= 1 && forall i | 0 <= i < |groups| :: NoWhitespace(groups[i])
    ensures StripWhitespace(JoinWithSpaces(groups)) == Flatten(groups)
  {
    StripWhitespaceKeepsClean(groups[0]);
    if |groups| == 1 {
      assert Flatten(groups) == groups[0] + Flatten([]);
    } else {
      StripJoin(groups[1..]);
      StripWhitespaceAppend(groups[0] + " ", JoinWithSpaces(groups[1..]));
      StripWhitespaceAppend(groups[0], " ");
      assert StripWhitespace(" ") == [];
    }
  }

  /**
   * `formatIBAN(iban)`: the whitespace-free string regrouped in fours
   * separated by single spaces; an input that is empty after stripping is
   * returned as it is (`match` yields null).
   */
  function FormatIBAN(iban: string): (formatted: string)
    ensures StripWhitespace(formatted) == StripWhitespace(iban)
    ensures StripWhitespace(iban) == [] ==> formatted == iban
  {
    var cleaned := StripWhitespace(iban);
    if cleaned == [] then iban
    else
      StripWhitespaceRemovesAll(iban);
      StripJoin(Groups(cleaned));
      JoinWithSpaces(Groups(cleaned))
  }

  /** Formatting an already formatted string changes nothing. */
  lemma FormatIdempotent(iban: string)
    ensures FormatIBAN(FormatIBAN(iban)) == FormatIBAN(iban)
  {
  }

  /** Four characters, a space, four characters, and so on: the layout `formatIBAN` aims at. */
  function Spaced(cleaned: string): string
    decreases |cleaned|
  {
    if |cleaned| <= 4 then cleaned else cleaned[..4] + " " + Spaced(cleaned[4..])
  }

  /** Joining the groups of four with spaces gives that layout. */
  lemma {:induction false} JoinedGroupsSpaced(cleaned: string)
    requires cleaned != []
    ensures JoinWithSpaces(Groups(cleaned)) == Spaced(cleaned)
    decreases |cleaned|
  {
    if |cleaned| > 4 {
      JoinedGroupsSplit(cleaned);
      JoinedGroupsSpaced(cleaned[4..]);
    }
  }

  /**
   * The character at position 5q + r of the layout: the fifth of every five
   * is a space and the others are the stripped input in order.
   */
  lemma {:induction false} SpacedAt(cleaned: string, q: nat, r: nat)
    requires cleaned != [] && r < 5 && 5 * q + r < |cleaned| + (|cleaned| - 1) / 4
    ensures |Spaced(cleaned)| == |cleaned| + (|cleaned| - 1) / 4
    ensures r != 4 ==> 4 * q + r < |cleaned|
    ensures Spaced(cleaned)[5 * q + r] == if r == 4 then ' ' else cleaned[4 * q + r]
    decreases |cleaned|
  {
    SpacedLength(cleaned);
    SpacedIndexBound(q, r, |cleaned|);
    if |cleaned| > 4 && q > 0 {
      var rest := cleaned[4..];
      SpacedAt(rest, q - 1, r);
      var head, tail := cleaned[..4] + " ", Spaced(rest);
      assert |head| == 5 && (head + tail)[5 * q + r] == tail[5 * (q - 1) + r];
      if r != 4 {
        assert rest[4 * (q - 1) + r] == cleaned[4 * q + r];
      }
    }
  }

  /** The layout has one extra character, a space, per complete group of four but the last. */
  lemma {:induction false} SpacedLength(cleaned: string)
    requires cleaned != []
    ensures |Spaced(cleaned)| == |cleaned| + (|cleaned| - 1) / 4
    decreases |cleaned|
  {
    if |cleaned| > 4 {
      SpacedLength(cleaned[4..]);
    }
  }

  /** A formatted string longer than one group is its first group, a space, and the rest formatted. */
  lemma {:induction false} JoinedGroupsSplit(cleaned: string)
    requires |cleaned| > 4
    ensures JoinWithSpaces(Groups(cleaned)) == cleaned[..4] + " " + JoinWithSpaces(Groups(cleaned[4..]))
  {
    var groups := Groups(cleaned);
    assert groups[0] == cleaned[..4] && groups[1..] == Groups(cleaned[4..]);
  }

  /** A non-space position of a formatted string of n characters falls inside the stripped input. */
  lemma {:induction false} SpacedIndexBound(q: nat, r: nat, n: nat)
    requires n >= 1 && r < 5 && 5 * q + r < n + (n - 1) / 4
    ensures r != 4 ==> 4 * q + r < n
  {
    var t, u := (n - 1) / 4, (n - 1) % 4;
    assert n - 1 == 4 * t + u;
    assert q <= t;
  }

  /** The layout, character by character. */
  lemma {:induction false} SpacedLayout(cleaned: string)
    requires cleaned != []
    ensures var f := Spaced(cleaned);
      && |f| == |cleaned| + (|cleaned| - 1) / 4
      && forall i | 0 <= i < |f| :: f[i] == if i % 5 == 4 then ' ' else cleaned[i - i / 5]
  {
    SpacedLength(cleaned);
    forall i | 0 <= i < |Spaced(cleaned)|
      ensures Spaced(cleaned)[i] == if i % 5 == 4 then ' ' else cleaned[i - i / 5]
    {
      var q, r := i / 5, i % 5;
      assert i == 5 * q + r && i - q == 4 * q + r;
      SpacedAt(cleaned, q, r);
    }
  }

  /** The layout of a formatted IBAN, character by character. */
  lemma {:induction false} JoinedGroupsLayout(cleaned: string)
    requires cleaned != []
    ensures var f := JoinWithSpaces(Groups(cleaned));
      && |f| == |cleaned| + (|cleaned| - 1) / 4
      && forall i | 0 <= i < |f| :: f[i] == if i % 5 == 4 then ' ' else cleaned[i - i / 5]
  {
    JoinedGroupsSpaced(cleaned);
    SpacedLayout(cleaned);
  }

  lemma {:induction false} FormatLayout(iban: string)
    requires StripWhitespace(iban) != []
    ensures var cleaned := StripWhitespace(iban); var f := FormatIBAN(iban);
      && |f| == |cleaned| + (|cleaned| - 1) / 4
      && forall i | 0 <= i < |f| :: f[i] == if i % 5 == 4 then ' ' else cleaned[i - i / 5]
  {
    JoinedGroupsLayout(StripWhitespace(iban));
  }

  /** Formatting keeps the cleaned string, so validation and parsing see through it. */
  lemma FormatPreservesInspection(iban: string)
    ensures Clean(FormatIBAN(iban)) == Clean(iban)
    ensures ValidateIBAN(FormatIBAN(iban)) == ValidateIBAN(iban)
    ensures ParseIBAN(FormatIBAN(iban)) == ParseIBAN(iban)
  {
  }

  // ---------------------------------------------------------------------------
  // Finding: the source's validateIBAN does not return on some inputs

  const Stalling: string := "PT00." + Repeat('0', 20)

  /**
   * As written, `validateIBAN` passes any 25-character string that starts
   * with "PT" to `mod97`. For "PT00." followed by twenty zeros, the first
   * block ".00000000" is not a numeral, `parseInt` gives NaN, and the loop's
   * remainder becomes "NaN..." and then "NaN", which is longer than two
   * characters and which one pass maps to itself: the loop never exits.
   */
  lemma ValidateAsWrittenLoopsForever()
    ensures Clean(Stalling) == Stalling && HasPortugueseShape(Stalling)
    ensures var r0 := Expand(Rearranged(Stalling));
      var r1 := ReduceStep(r0); var r2 := ReduceStep(r1); var r3 := ReduceStep(r2);
      && |r0| == 27 && |r1| == 21 && |r2| == 15 && |r3| == 9
      && ReduceStep(r3) == "NaN"
    ensures |"NaN"| > 2 && ReduceStep("NaN") == "NaN"
    ensures !ValidateIBAN(Stalling)
  {
    StallingShape();
    StallingExpansion();
    StallsInto(Expand(Rearranged(Stalling)));
    NaNIsFixed();
  }

  lemma StallingShape()
    ensures Clean(Stalling) == Stalling && HasPortugueseShape(Stalling) && !AllIbanChars(Stalling)
  {
    assert NoWhitespace(Stalling);
    StripWhitespaceKeepsClean(Stalling);
    assert ToUpperAscii(Stalling) == Stalling;
    assert Stalling[4] == '.';
  }

  /** "NaN" is longer than two characters, and one pass maps it to itself. */
  lemma NaNIsFixed()
    ensures |"NaN"| > 2 && ReduceStep("NaN") == "NaN"
  {
    ReduceStepOnNonNumeral("NaN");
    assert "NaN"[3..] == [];
  }

  /** One pass over a remainder of nine or more characters that starts no numeral. */
  lemma {:induction false} NaNPass(r: string)
    requires |r| >= 9 && !IsDigit(r[0]) && !IsWhitespace(r[0]) && r[0] != '-' && r[0] != '+'
    ensures |ReduceStep(r)| == |r| - 6 && ReduceStep(r)[0] == 'N'
    ensures |r| == 9 ==> ReduceStep(r) == "NaN"
  {
    ReduceStepOnNonNumeral(r);
  }

  /** Four passes take such a remainder of 27 characters down to "NaN". */
  lemma {:induction false} StallsInto(r0: string)
    requires |r0| == 27 && !IsDigit(r0[0]) && !IsWhitespace(r0[0]) && r0[0] != '-' && r0[0] != '+'
    ensures var r1 := ReduceStep(r0); var r2 := ReduceStep(r1); var r3 := ReduceStep(r2);
      && |r1| == 21 && |r2| == 15 && |r3| == 9 && ReduceStep(r3) == "NaN"
  {
    NaNPass(r0);
    var r1 := ReduceStep(r0);
    NaNPass(r1);
    var r2 := ReduceStep(r1);
    NaNPass(r2);
    var r3 := ReduceStep(r2);
    NaNPass(r3);
  }

  /** The rearranged, letter-expanded form of the stalling input. */
  lemma StallingExpansion()
    ensures Expand(Rearranged(Stalling)) == "." + Repeat('0', 20) + "252900"
    ensures |Expand(Rearranged(Stalling))| == 27 && Expand(Rearranged(Stalling))[0] == '.'
  {
    assert Rearranged(Stalling) == "." + Repeat('0', 20) + "PT" + "00";
    DotZerosThenPT00(20);
  }

  lemma {:induction false} DotZerosThenPT00(n: nat)
    ensures Expand("." + Repeat('0', n) + "PT" + "00") == "." + Repeat('0', n) + "252900"
  {
    var zeros := Repeat('0', n);
    ExpandAroundPT("." + zeros, "00");
    ExpandAppend(".", zeros);
    ExpandOfNumeral(zeros);
    assert Expand(".") == ".";
  }

  // ---------------------------------------------------------------------------
  // Finding: the source's validateIBAN accepts some malformed inputs

  const Accepted: string := "PT77" + Repeat('0', 8) + "-" + Repeat('0', 12)

  /**
   * As written, `validateIBAN` also returns true on some 25-character "PT"
   * strings that are not IBANs. For "PT77", eight zeros, "-" and twelve zeros,
   * `parseInt` reads the first block "00000000-" as 0 and stops at the "-",
   * so the minus sign disappears, and the remaining passes reduce the digits
   * "2529" of "PT" and the check "77" to a final remainder of 1.
   */
  lemma ValidateAsWrittenAccepts()
    ensures Clean(Accepted) == Accepted && HasPortugueseShape(Accepted) && !AllIbanChars(Accepted)
    ensures var r0 := Expand(Rearranged(Accepted));
      var r1 := ReduceStep(r0); var r2 := ReduceStep(r1); var r3 := ReduceStep(r2); var r4 := ReduceStep(r3);
      && |r0| > 2 && |r1| > 2 && |r2| > 2 && |r3| > 2 && r4 == "1"
      && Remainder(ParseInt(r4), 97) == Finite(1)
    ensures !ValidateIBAN(Accepted)
  {
    AcceptedShape();
    AcceptedExpansion();
    AcceptedReduces(Expand(Rearranged(Accepted)));
  }

  /** Four passes take the expanded form to "1", and `parseInt` reads 1 from it. */
  lemma AcceptedReduces(r0: string)
    requires r0 == (Repeat('0', 8) + "-") + (Repeat('0', 12) + "2529" + "77")
    ensures var r1 := ReduceStep(r0); var r2 := ReduceStep(r1); var r3 := ReduceStep(r2); var r4 := ReduceStep(r3);
      && |r0| > 2 && |r1| > 2 && |r2| > 2 && |r3| > 2 && r4 == "1"
      && Remainder(ParseInt(r4), 97) == Finite(1)
  {
    var r1 := AcceptedPass1(r0);
    var r2 := AcceptedPass2(r1);
    var r3 := AcceptedPass3(r2);
    AcceptedPass4(r3);
    FinalRemainderOne();
  }

  lemma FinalRemainderOne()
    ensures Remainder(ParseInt("1"), 97) == Finite(1)
  {
    ParseIntOfDigits("1");
  }

  lemma AcceptedShape()
    ensures Clean(Accepted) == Accepted && HasPortugueseShape(Accepted) && !AllIbanChars(Accepted)
  {
    assert NoWhitespace(Accepted);
    StripWhitespaceKeepsClean(Accepted);
    assert ToUpperAscii(Accepted) == Accepted;
    assert Accepted[12] == '-';
  }

  /** The rearranged, letter-expanded form of the accepted input. */
  lemma AcceptedExpansion()
    ensures Expand(Rearranged(Accepted)) == (Repeat('0', 8) + "-") + (Repeat('0', 12) + "2529" + "77")
  {
    var a := Repeat('0', 8) + "-" + Repeat('0', 12);
    assert Rearranged(Accepted) == a + "PT" + "77";
    ExpandAroundPT(a, "77");
    assert forall i | 0 <= i < |a| :: a[i] == '0' || a[i] == '-';
    ExpandKeepsNonLetters(a);
  }

  /**
   * One pass of the loop when `parseInt` reads the value `v` from the block
   * `head`: nine characters, or the whole remainder when it is shorter.
   */
  lemma {:induction false} ReduceStepSplit(head: string, tail: string, v: nat)
    requires head != [] && (|head| == 9 || (|head| < 9 && tail == []))
    requires ParseInt(head) == Finite(v)
    ensures ReduceStep(head + tail) == NatToDecimal(v % 97) + tail
  {
    var r := head + tail;
    assert r[..|head|] == head && r[|head|..] == tail;
  }

  /** The first pass: "00000000-" is read as 0, and the minus sign is lost. */
  lemma AcceptedPass1(r0: string) returns (r1: string)
    requires r0 == (Repeat('0', 8) + "-") + (Repeat('0', 12) + "2529" + "77")
    ensures ReduceStep(r0) == r1 && r1 == "0" + (Repeat('0', 12) + "2529" + "77") && |r0| > 2 && |r1| > 2
  {
    var tail := Repeat('0', 12) + "2529" + "77";
    var head := Repeat('0', 8) + "-";
    assert head[..8] == Repeat('0', 8);
    ZerosValue(8);
    ParseIntOfPrefix(head, 8);
    ReduceStepSplit(head, tail, 0);
    assert NatToDecimal(0) == "0";
    r1 := "0" + tail;
  }

  /** Two runs of zeros make one. */
  lemma ZerosJoin(a: nat, b: nat)
    ensures Repeat('0', a) + Repeat('0', b) == Repeat('0', a + b)
  {
    assert forall i | 0 <= i < a + b :: (Repeat('0', a) + Repeat('0', b))[i] == '0';
  }

  /** The second pass: nine zeros are 0. */
  lemma AcceptedPass2(r1: string) returns (r2: string)
    requires r1 == "0" + (Repeat('0', 12) + "2529" + "77")
    ensures ReduceStep(r1) == r2 && r2 == "0" + (Repeat('0', 4) + "2529" + "77") && |r2| > 2
  {
    var digits := "2529" + "77";
    var rest := Repeat('0', 4) + digits;
    assert Repeat('0', 4) + "2529" + "77" == rest;
    assert Repeat('0', 12) + "2529" + "77" == Repeat('0', 12) + digits;
    assert "0" == Repeat('0', 1);
    ZerosJoin(1, 12);
    ZerosJoin(9, 4);
    assert "0" + (Repeat('0', 12) + digits) == Repeat('0', 13) + digits;
    assert Repeat('0', 9) + rest == Repeat('0', 13) + digits;
    ZerosValue(9);
    ParseIntOfDigits(Repeat('0', 9));
    ReduceStepSplit(Repeat('0', 9), rest, 0);
    assert NatToDecimal(0) == "0";
    r2 := "0" + rest;
  }

  /** "2529" denotes 2529. */
  lemma Value2529()
    ensures AllDigits("2529") && DigitsValue("2529") == 2529
  {
    assert NatToDecimal(25) == "25" && NatToDecimal(29) == "29";
    assert "2529" == "25" + "29";
    DigitsValueAppendTwo("25", "29");
  }

  /** The third pass: 2529 is 7 modulo 97. */
  lemma AcceptedPass3(r2: string) returns (r3: string)
    requires r2 == "0" + (Repeat('0', 4) + "2529" + "77")
    ensures ReduceStep(r2) == r3 && r3 == NatToDecimal(7) + "77" && |r3| == 3
  {
    var head := Repeat('0', 5) + "2529";
    assert r2 == head + "77";
    Value2529();
    LeadingZerosValue(5, "2529");
    ParseIntOfDigits(head);
    ReduceStepSplit(head, "77", 2529);
    r3 := NatToDecimal(7) + "77";
    assert |NatToDecimal(7)| == 1;
  }

  /** The fourth pass: 777 is 1 modulo 97. */
  lemma AcceptedPass4(r3: string)
    requires r3 == NatToDecimal(7) + "77"
    ensures ReduceStep(r3) == "1"
  {
    assert NatToDecimal(77) == "77";
    DigitsValueAppendTwo(NatToDecimal(7), "77");
    assert |NatToDecimal(7)| == 1;
    ParseIntOfDigits(r3);
    ReduceStepSplit(r3, [], 777);
    assert r3 + [] == r3;
    assert NatToDecimal(1) == "1";
  }
}
