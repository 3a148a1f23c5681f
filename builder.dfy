/**
 * The generating half of `src/iban.ts`: `createIBAN`, which picks a bank
 * code, draws a branch and an account number, derives the NIB control digits
 * and the IBAN check digits, and `createMultipleIBANs`.
 *
 * Each `Math.floor(Math.random() * max)` becomes a number the caller supplies,
 * below the same `max`: a `Draws` value holds the three draws of one call.
 */
module Builder {
  import opened Wrappers
  import opened JsText
  import opened Checksum
  import opened Registry
  import opened Inspector

  /** The three random draws of one `createIBAN` call. */
  datatype Draws = Draws(bankIndex: nat, branch: nat, account: nat)

  /** The ranges `Math.floor(Math.random() * max)` keeps to. */
  predicate DrawsInRange(d: Draws) {
    d.bankIndex < |BankCodes()| && d.branch < 10000 && d.account < 100000000000
  }

  const NoBankCodes: string := "No bank codes available"

  const UnknownBank: string := "Unknown Bank"

  /** `bankMap[bankCode] ?? 'Unknown Bank'`. */
  function BankNameOf(code: string): string {
    if code in BankMap() then BankMap()[code] else UnknownBank
  }

  /** The bank code `createIBAN` uses: the one supplied, verbatim, else the drawn entry of `bankCodes`. */
  function ChosenCode(specificBankCode: Option<string>, draws: Draws): (code: string)
    requires DrawsInRange(draws)
    ensures specificBankCode.Some? ==> code == specificBankCode.value
    ensures specificBankCode.None? ==> code in BankMap() && |code| == 4 && AllDigits(code) && AllIbanChars(code)
  {
    if specificBankCode.Some? then specificBankCode.value
    else
      ListedCodeShape(draws.bankIndex);
      BankCodes()[draws.bankIndex]
  }

  /** `bankCode + branchCode + accountNumber + nibControlDigits`: the BBAN. */
  function Bban(bankCode: string, branchCode: string, accountNumber: string): (bban: string)
    requires AllIbanChars(bankCode) && AllDigits(branchCode) && AllDigits(accountNumber)
    ensures AllIbanChars(bankCode + branchCode + accountNumber)
    ensures AllIbanChars(bban) && |bban| == |bankCode| + |branchCode| + |accountNumber| + 2
  {
    IbanCharsAppend(bankCode, branchCode);
    IbanCharsAppend(bankCode + branchCode, accountNumber);
    var nib := NIBControlDigits(bankCode, branchCode, accountNumber);
    IbanCharsAppend(bankCode + branchCode + accountNumber, nib);
    bankCode + branchCode + accountNumber + nib
  }

  /** `countryCode + ibanCheckDigits + bban` with the country code "PT". */
  function PortugueseIBAN(bban: string): (iban: string)
    requires AllIbanChars(bban)
    ensures AllIbanChars(bban + "PT")
    ensures |iban| == |bban| + 4 && iban[..2] == "PT" && AllIbanChars(iban)
  {
    IbanCharsAppend(bban, "PT");
    var check := IBANCheckDigits(bban, "PT");
    IbanCharsAppend("PT", check);
    IbanCharsAppend("PT" + check, bban);
    "PT" + check + bban
  }

  const InvalidBankCode: string := "Invalid bank code"

  /**
   * `createIBAN(specificBankCode)`: "PT", the IBAN check digits, then the
   * BBAN: bank code, 4-digit branch, 11-digit account and the NIB control
   * digits. An empty supplied code is falsy and throws. A supplied code with
   * a character outside 0-9 and A-Z is rejected too (`LowerCaseCodeStalls`
   * shows what the unguarded code does with one).
   */
  function CreateIBAN(specificBankCode: Option<string>, draws: Draws): (r: Result<IBANResult, string>)
    requires DrawsInRange(draws)
    ensures r.Failure? <==>
      specificBankCode.Some? && (specificBankCode.value == [] || !AllIbanChars(specificBankCode.value))
    ensures specificBankCode == Some([]) ==> r == Failure(NoBankCodes)
    ensures specificBankCode.Some? && specificBankCode.value != [] && !AllIbanChars(specificBankCode.value) ==>
      r == Failure(InvalidBankCode)
    ensures specificBankCode.None? ==> r.Success? && r.value.bankCode == BankCodes()[draws.bankIndex]
    ensures specificBankCode.Some? && r.Success? ==> r.value.bankCode == specificBankCode.value
    ensures r.Success? ==> r.value.bankCode == ChosenCode(specificBankCode, draws)
    ensures r.Success? ==> |r.value.iban| == 21 + |r.value.bankCode| && r.value.iban[..2] == "PT"
    ensures r.Success? ==> AllIbanChars(r.value.iban)
    ensures r.Success? ==> r.value.bankName == BankNameOf(r.value.bankCode)
  {
    var bankCode := ChosenCode(specificBankCode, draws);
    if bankCode == [] then Failure(NoBankCodes)
    else if !AllIbanChars(bankCode) then Failure(InvalidBankCode)
    else
      var branchCode := Pad(draws.branch, 4);
      var accountNumber := Pad(draws.account, 11);
      Pow10Widths();
      assert |branchCode| == 4 && |accountNumber| == 11;
      var bban := Bban(bankCode, branchCode, accountNumber);
      Success(IBANResult(PortugueseIBAN(bban), bankCode, BankNameOf(bankCode)))
  }

  // ---------------------------------------------------------------------------
  // Layout

  /** The BBAN is the three fields followed by the NIB control digits they determine. */
  lemma {:induction false} BbanLayout(bankCode: string, branchCode: string, accountNumber: string)
    requires AllIbanChars(bankCode) && AllDigits(branchCode) && AllDigits(accountNumber)
    ensures var b := Bban(bankCode, branchCode, accountNumber);
      var l := |bankCode|; var m := l + |branchCode|; var n := m + |accountNumber|;
      && b[..l] == bankCode && b[l..m] == branchCode && b[m..n] == accountNumber
      && b[n..] == NIBControlDigits(bankCode, branchCode, accountNumber)
  {
    var b := Bban(bankCode, branchCode, accountNumber);
    var nib := NIBControlDigits(bankCode, branchCode, accountNumber);
    assert b == bankCode + branchCode + accountNumber + nib;
    FourParts(bankCode, branchCode, accountNumber, nib);
  }

  /** The assembled IBAN carries the check digits the calculator derives for its BBAN. */
  lemma {:induction false} PortugueseIBANLayout(bban: string)
    requires AllIbanChars(bban)
    ensures AllIbanChars(bban + "PT")
    ensures var iban := PortugueseIBAN(bban);
      iban[2..4] == IBANCheckDigits(bban, "PT") && iban[4..] == bban
  {
    IbanCharsAppend(bban, "PT");
  }

  /** A 21-character BBAN with its computed check digits passes validation. */
  lemma {:induction false} PortugueseIBANIsValid(bban: string)
    requires AllIbanChars(bban) && |bban| == 21
    ensures ValidateIBAN(PortugueseIBAN(bban))
  {
    IbanCharsAppend(bban, "PT");
    var check := IBANCheckDigits(bban, "PT");
    var iban := PortugueseIBAN(bban);
    assert iban == "PT" + check + bban;
    ValidateOfClean(iban);
    RearrangedAround("PT", check, bban);
  }

  /** "PT", the check digits and the BBAN rearrange to the BBAN, "PT" and the check digits. */
  lemma {:induction false} RearrangedAround(country: string, check: string, bban: string)
    requires |country| == 2 && |check| == 2
    ensures Rearranged(country + check + bban) == bban + country + check
  {
    var s := country + check + bban;
    assert s[..4] == country + check && s[4..] == bban;
    assert bban + (country + check) == bban + country + check;
  }

  // ---------------------------------------------------------------------------
  // What createIBAN returns

  /** The four-digit case: a supplied code of four characters, or any drawn code. */
  predicate FourCharCode(specificBankCode: Option<string>, draws: Draws)
    requires DrawsInRange(draws)
  {
    |ChosenCode(specificBankCode, draws)| == 4
  }

  /** Parsing an assembled IBAN gives back the fields it was assembled from. */
  lemma {:induction false} AssembledParses(bankCode: string, branchCode: string, accountNumber: string)
    requires AllIbanChars(bankCode) && AllDigits(branchCode) && AllDigits(accountNumber)
    requires |bankCode| == 4 && |branchCode| == 4 && |accountNumber| == 11
    ensures var bban := Bban(bankCode, branchCode, accountNumber);
      && AllIbanChars(bban + "PT")
      && ParseIBAN(PortugueseIBAN(bban)) == Some(IBANStructure(
        "PT", IBANCheckDigits(bban, "PT"), bankCode, branchCode, accountNumber,
        NIBControlDigits(bankCode, branchCode, accountNumber)))
  {
    var bban := Bban(bankCode, branchCode, accountNumber);
    BbanLayout(bankCode, branchCode, accountNumber);
    PortugueseIBANLayout(bban);
    var check := IBANCheckDigits(bban, "PT");
    assert PortugueseIBAN(bban) == "PT" + check + bban;
    ParsePortuguese(check, bban);
  }

  /**
   * Parsing a generated IBAN gives back its parts: the bank code used, the
   * padded draws and the NIB control digits of those three.
   */
  lemma {:induction false} CreatedParses(specificBankCode: Option<string>, draws: Draws)
    requires DrawsInRange(draws)
    requires specificBankCode.Some? ==> AllIbanChars(specificBankCode.value)
    requires FourCharCode(specificBankCode, draws)
    ensures CreateIBAN(specificBankCode, draws).Success?
    ensures var res := CreateIBAN(specificBankCode, draws).value;
      var branchCode := Pad(draws.branch, 4); var accountNumber := Pad(draws.account, 11);
      && AllIbanChars(res.bankCode + branchCode + accountNumber)
      && ParseIBAN(res.iban) == Some(IBANStructure(
        "PT", res.iban[2..4], res.bankCode, branchCode, accountNumber,
        NIBControlDigits(res.bankCode, branchCode, accountNumber)))
  {
    var code := ChosenCode(specificBankCode, draws);
    var branchCode := Pad(draws.branch, 4);
    var accountNumber := Pad(draws.account, 11);
    Pow10Widths();
    var bban := Bban(code, branchCode, accountNumber);
    assert CreateIBAN(specificBankCode, draws).value.iban == PortugueseIBAN(bban);
    AssembledParses(code, branchCode, accountNumber);
    PortugueseIBANLayout(bban);
  }

  /** A generated IBAN passes validation exactly when its bank code has four characters. */
  lemma {:induction false} CreatedIsValid(specificBankCode: Option<string>, draws: Draws)
    requires DrawsInRange(draws)
    requires specificBankCode.Some? ==> AllIbanChars(specificBankCode.value)
    requires specificBankCode != Some([])
    ensures CreateIBAN(specificBankCode, draws).Success?
    ensures ValidateIBAN(CreateIBAN(specificBankCode, draws).value.iban) <==>
      |CreateIBAN(specificBankCode, draws).value.bankCode| == 4
  {
    var res := CreateIBAN(specificBankCode, draws).value;
    CleanOfIbanString(res.iban);
    if |res.bankCode| == 4 {
      Pow10Widths();
      var bban := Bban(res.bankCode, Pad(draws.branch, 4), Pad(draws.account, 11));
      assert res.iban == PortugueseIBAN(bban);
      PortugueseIBANIsValid(bban);
    }
  }

  /** The NIB fields of a generated IBAN, read back by the parser, pass the NIB check. */
  lemma {:induction false} CreatedNibConsistent(specificBankCode: Option<string>, draws: Draws)
    requires DrawsInRange(draws)
    requires specificBankCode.Some? ==> AllIbanChars(specificBankCode.value)
    requires FourCharCode(specificBankCode, draws)
    ensures CreateIBAN(specificBankCode, draws).Success?
    ensures ParseIBAN(CreateIBAN(specificBankCode, draws).value.iban).Some?
    ensures var p := ParseIBAN(CreateIBAN(specificBankCode, draws).value.iban).value;
      && AllIbanChars(p.bankCode + p.branchCode + p.accountNumber + p.nibControlDigits)
      && Mod97Value(p.bankCode + p.branchCode + p.accountNumber + p.nibControlDigits) == 1
  {
    CreatedParses(specificBankCode, draws);
  }

  /**
   * Without a supplied code the call never throws: the drawn code is a key
   * of the registry, the name is its registry name, and the IBAN has 25
   * characters and passes validation.
   */
  lemma {:induction false} RandomCodeNeverFails(draws: Draws)
    requires DrawsInRange(draws)
    ensures CreateIBAN(None, draws).Success?
    ensures var res := CreateIBAN(None, draws).value;
      && res.bankCode == BankCodes()[draws.bankIndex]
      && res.bankCode in BankMap() && res.bankName == BankMap()[res.bankCode] && |res.bankName| > 0
      && |res.iban| == 25 && ValidateIBAN(res.iban)
  {
    BankMapShape();
    CreatedIsValid(None, draws);
  }

  /** Only codes outside the ten registry codes get the name "Unknown Bank". */
  lemma {:induction false} UnknownCodeName(code: string)
    ensures BankNameOf(code) == UnknownBank <==> code !in TenCodes
  {
    RegistryKeysAreTheTenCodes(code);
    if code in BankMap() {
      var i := KeyIndex(code);
      NoBankIsUnknown();
      assert BankEntries[i].1 != UnknownBank;
    }
  }

  lemma {:induction false} RegistryKeysAreTheTenCodes(code: string)
    ensures code in BankMap() <==> code in TenCodes
  {
    BankCodesAreKeys();
    BankCodesAreTheTenCodes();
  }

  lemma NoBankIsUnknown()
    ensures forall i | 0 <= i < |BankEntries| :: BankEntries[i].1 != UnknownBank
  {
  }

  /**
   * Overwriting the check digits of a generated IBAN with "00" still passes
   * validation exactly when they were "97": they are never "00", being at
   * least 2.
   */
  lemma {:induction false} CreatedZeroedCheckDigits(specificBankCode: Option<string>, draws: Draws)
    requires DrawsInRange(draws)
    requires specificBankCode.Some? ==> AllIbanChars(specificBankCode.value)
    requires FourCharCode(specificBankCode, draws)
    ensures CreateIBAN(specificBankCode, draws).Success?
    ensures var iban := CreateIBAN(specificBankCode, draws).value.iban;
      ValidateIBAN(iban[..2] + "00" + iban[4..]) <==> iban[2..4] == "97"
  {
    var iban := CreateIBAN(specificBankCode, draws).value.iban;
    CreatedParses(specificBankCode, draws);
    CreatedIsValid(specificBankCode, draws);
    CleanOfIbanString(iban);
    var check := IBANCheckDigits(iban[4..], "PT");
    assert iban[2..4] == check;
    assert iban[2..4] != "00" by {
      if iban[2..4] == "00" {
        TwoDigitValue(check);
      }
    }
    ZeroedCheckDigits(iban);
  }

  /** The NIB input for the code "abcd": 21 characters, starting with 'a', none an upper-case letter. */
  lemma {:induction false} LowerCaseNibInput(draws: Draws)
    requires DrawsInRange(draws)
    ensures var nibInput := "abcd" + Pad(draws.branch, 4) + Pad(draws.account, 11) + "00";
      && |nibInput| == 21 && nibInput[0] == 'a'
      && forall i | 0 <= i < |nibInput| :: !IsUpper(nibInput[i])
  {
    Pow10Widths();
    var tail := Pad(draws.branch, 4) + Pad(draws.account, 11) + "00";
    DigitsAppend(Pad(draws.branch, 4), Pad(draws.account, 11));
    DigitsAppend(Pad(draws.branch, 4) + Pad(draws.account, 11), "00");
    var nibInput := "abcd" + tail;
    assert nibInput == "abcd" + Pad(draws.branch, 4) + Pad(draws.account, 11) + "00";
    assert forall i | 4 <= i < |nibInput| :: nibInput[i] == tail[i - 4];
  }

  /**
   * As written, `createIBAN` passes a supplied code straight to `mod97`,
   * which expands only the upper-case letters. For "abcd" the NIB input
   * "abcd", branch, account, "00" stays as it is; `parseInt` reads NaN from
   * each block, three passes shrink it to "NaN", and "NaN" is a fixed point
   * of the pass, so the loop never ends. The model rejects such a code.
   */
  lemma {:induction false} LowerCaseCodeStalls(draws: Draws)
    requires DrawsInRange(draws)
    ensures var nibInput := "abcd" + Pad(draws.branch, 4) + Pad(draws.account, 11) + "00";
      var r0 := Expand(nibInput);
      var r1 := ReduceStep(r0); var r2 := ReduceStep(r1); var r3 := ReduceStep(r2);
      && r0 == nibInput && |r0| == 21 && |r1| == 15 && |r2| == 9
      && r3 == "NaN" && |r3| > 2 && ReduceStep(r3) == r3
    ensures CreateIBAN(Some("abcd"), draws) == Failure(InvalidBankCode)
  {
    var nibInput := "abcd" + Pad(draws.branch, 4) + Pad(draws.account, 11) + "00";
    LowerCaseNibInput(draws);
    ExpandKeepsNonLetters(nibInput);
    NaNPass(nibInput);
    var r1 := ReduceStep(nibInput);
    NaNPass(r1);
    var r2 := ReduceStep(r1);
    NaNPass(r2);
    NaNIsFixed();
    assert !IsIbanChar('a') && "abcd"[0] == 'a';
  }

  // ---------------------------------------------------------------------------
  // createMultipleIBANs

  /** `Math.min(Math.max(1, count), 100)`. */
  function SafeCount(count: int): (n: nat)
    ensures 1 <= n <= 100
    ensures 1 <= count <= 100 ==> n == count
    ensures count < 1 ==> n == 1
    ensures count > 100 ==> n == 100
  {
    if count < 1 then 1 else if count > 100 then 100 else count
  }

  /** `createIBAN()` with no code, given its draws: always a result. */
  function RandomIBAN(draws: Draws): (res: IBANResult)
    requires DrawsInRange(draws)
    ensures CreateIBAN(None, draws) == Success(res)
  {
    RandomCodeNeverFails(draws);
    CreateIBAN(None, draws).value
  }

  lemma {:induction false} RandomIBANValid(draws: Draws)
    requires DrawsInRange(draws)
    ensures var res := RandomIBAN(draws);
      |res.iban| == 25 && ValidateIBAN(res.iban) && res.bankCode in BankMap()
  {
    RandomCodeNeverFails(draws);
  }

  /**
   * `createMultipleIBANs(count)`: `SafeCount(count)` results, the i-th one
   * made from the i-th draws; each one passes validation.
   */
  function CreateMultipleIBANs(count: int, draws: nat -> Draws): (results: seq<IBANResult>)
    requires forall i: nat :: DrawsInRange(draws(i))
    ensures |results| == SafeCount(count)
    ensures forall i | 0 <= i < |results| :: CreateIBAN(None, draws(i)) == Success(results[i])
  {
    seq(SafeCount(count), i requires 0 <= i => RandomIBAN(draws(i)))
  }

  /** Every IBAN `createMultipleIBANs` returns has 25 characters, a registry bank and passes validation. */
  lemma {:induction false} MultipleAllValid(count: int, draws: nat -> Draws)
    requires forall i: nat :: DrawsInRange(draws(i))
    ensures var results := CreateMultipleIBANs(count, draws);
      forall i | 0 <= i < |results| ::
        |results[i].iban| == 25 && ValidateIBAN(results[i].iban) && results[i].bankCode in BankMap()
  {
    var results := CreateMultipleIBANs(count, draws);
    forall i | 0 <= i < |results|
      ensures |results[i].iban| == 25 && ValidateIBAN(results[i].iban) && results[i].bankCode in BankMap()
    {
      RandomIBANValid(draws(i));
      assert results[i] == RandomIBAN(draws(i));
    }
  }
}
