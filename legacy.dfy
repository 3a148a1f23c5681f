/**
 * The legacy browser script `js/scripts.js`: its own copy of the bank
 * registry, and a `createIBAN` that draws the NIB control digits at random
 * and appends the expansion "2529" of "PT" to the BBAN by hand before
 * `mod97`. Its `pad` and `mod97` are the same code as in `src/iban.ts`
 * (`Checksum.Pad`, `Checksum.Mod97`): a number concatenated with a string
 * and a number returned by the `replace` callback are both converted by
 * `Number#toString`.
 */
module Legacy {
  import opened JsText
  import opened Checksum
  import opened Registry
  import opened Wrappers
  import opened Inspector
  import Builder

  /** The entries of the script's `bankMap`, as written in its literal. */
  const LegacyBankEntries: Entries := [
    ("0007", "Novo Banco"),
    ("0010", "BPI"),
    ("0018", "Santander Totta"),
    ("0033", "Millennium BCP"),
    ("0035", "Caixa Geral de Depósitos"),
    ("0045", "Crédito Agrícola"),
    ("0079", "Abanca"),
    ("0086", "Banco Invest"),
    ("0103", "Banco BIC"),
    ("0121", "Banco Carregosa")
  ]

  /** The script's `bankMap`. */
  function LegacyBankMap(): map<string, string> {
    ToRecord(LegacyBankEntries)
  }

  /** The script's `bankCodes = Object.keys(bankMap)`. */
  function LegacyBankCodes(): seq<string> {
    KeysOf(LegacyBankEntries)
  }

  /** The script's registry is the typed module's registry, entry for entry. */
  lemma LegacyRegistryAgrees()
    ensures LegacyBankEntries == BankEntries
    ensures LegacyBankMap() == BankMap() && LegacyBankCodes() == BankCodes()
  {
  }

  /** The four random draws of one legacy `createIBAN` call. */
  datatype LegacyDraws = LegacyDraws(bankIndex: nat, branch: nat, account: nat, control: nat)

  /** The ranges `Math.floor(Math.random() * max)` keeps to. */
  predicate LegacyDrawsInRange(d: LegacyDraws) {
    && d.bankIndex < |LegacyBankCodes()|
    && d.branch < 10000 && d.account < 100000000000 && d.control < 100
  }

  /** What the legacy `createIBAN` returns. */
  datatype LegacyResult = LegacyResult(iban: string, bankCode: string)

  /** The drawn bank code. */
  function LegacyCode(draws: LegacyDraws): (code: string)
    requires LegacyDrawsInRange(draws)
    ensures code in LegacyBankMap() && code in BankMap() && |code| == 4 && AllDigits(code)
  {
    LegacyRegistryAgrees();
    ListedCodeShape(draws.bankIndex);
    LegacyBankCodes()[draws.bankIndex]
  }

  /** `bankCode + branchCode + accountNumber + controlDigits`, the control digits drawn at random. */
  function LegacyBban(draws: LegacyDraws): (bban: string)
    requires LegacyDrawsInRange(draws)
    ensures |bban| == 21 && AllDigits(bban)
  {
    var code := LegacyCode(draws);
    var branchCode, accountNumber, controlDigits := Pad(draws.branch, 4), Pad(draws.account, 11), Pad(draws.control, 2);
    Pow10Widths();
    DigitsAppend(code, branchCode);
    DigitsAppend(code + branchCode, accountNumber);
    DigitsAppend(code + branchCode + accountNumber, controlDigits);
    code + branchCode + accountNumber + controlDigits
  }

  /** `98 - mod97(bban + "2529" + "00")`. */
  function LegacyChecksum(bban: string): (checksum: nat)
    requires AllDigits(bban)
    ensures 2 <= checksum <= 98
  {
    DigitsAppend(bban, "2529");
    DigitsAppend(bban + "2529", "00");
    98 - Mod97Value(bban + "2529" + "00")
  }

  /** `countryCode + pad(checksum, 2) + bban`. */
  function LegacyIban(bban: string): (iban: string)
    requires |bban| == 21 && AllDigits(bban)
    ensures |iban| == 25 && iban[..2] == "PT" && iban[4..] == bban
  {
    var checksum := Pad(LegacyChecksum(bban), 2);
    Pow10Widths();
    assert |checksum| == 2;
    "PT" + checksum + bban
  }

  /**
   * The legacy `createIBAN()`: "PT", the padded checksum, then the BBAN,
   * with the bank code drawn from `bankCodes`.
   */
  function CreateIBAN(draws: LegacyDraws): (r: LegacyResult)
    requires LegacyDrawsInRange(draws)
    ensures r.bankCode == LegacyBankCodes()[draws.bankIndex] && r.bankCode in LegacyBankMap()
    ensures |r.iban| == 25 && r.iban[..2] == "PT" && r.iban[4..] == LegacyBban(draws)
  {
    LegacyResult(LegacyIban(LegacyBban(draws)), LegacyCode(draws))
  }

  /**
   * Writing "2529" for "PT" by hand changes nothing: the legacy checksum is
   * the check digits `calculateIBANCheckDigits(bban, 'PT')` computes.
   */
  lemma {:induction false} LegacyChecksumIsCheckDigits(bban: string)
    requires AllDigits(bban)
    ensures AllIbanChars(bban + "PT")
    ensures Pad(LegacyChecksum(bban), 2) == IBANCheckDigits(bban, "PT")
  {
    IbanCharsAppend(bban, "PT");
    DigitsAppend(bban, "2529");
    DigitsAppend(bban + "2529", "00");
    IbanCharsAppend(bban + "PT", "00");
    ExpandAroundPT(bban, "00");
    var byHand := bban + "2529" + "00";
    ExpandOfNumeral(byHand);
    ExpandOfNumeral(bban);
    assert Expand(byHand) == Expand(bban + "PT" + "00");
  }

  /** The legacy IBAN is the BBAN with its ISO 13616 check digits in front. */
  lemma {:induction false} LegacyIsPortugueseIBAN(draws: LegacyDraws)
    requires LegacyDrawsInRange(draws)
    ensures CreateIBAN(draws).iban == Builder.PortugueseIBAN(LegacyBban(draws))
  {
    var bban := LegacyBban(draws);
    LegacyChecksumIsCheckDigits(bban);
  }

  /** Every legacy IBAN has 25 characters and passes validation, whatever control digits were drawn. */
  lemma {:induction false} LegacyCreatedIsValid(draws: LegacyDraws)
    requires LegacyDrawsInRange(draws)
    ensures |CreateIBAN(draws).iban| == 25 && ValidateIBAN(CreateIBAN(draws).iban)
  {
    LegacyIsPortugueseIBAN(draws);
    Builder.PortugueseIBANIsValid(LegacyBban(draws));
  }

  /** Parsing a legacy IBAN gives back the drawn code, the padded draws and the drawn control digits. */
  lemma {:induction false} LegacyCreatedParses(draws: LegacyDraws)
    requires LegacyDrawsInRange(draws)
    ensures var iban := CreateIBAN(draws).iban;
      ParseIBAN(iban) == Some(IBANStructure("PT", iban[2..4], LegacyCode(draws),
        Pad(draws.branch, 4), Pad(draws.account, 11), Pad(draws.control, 2)))
  {
    var iban := CreateIBAN(draws).iban;
    var code := LegacyCode(draws);
    var branchCode, accountNumber, controlDigits := Pad(draws.branch, 4), Pad(draws.account, 11), Pad(draws.control, 2);
    Pow10Widths();
    var bban := LegacyBban(draws);
    assert iban == iban[..2] + iban[2..4] + iban[4..];
    FourParts(code, branchCode, accountNumber, controlDigits);
    ParsePortuguese(iban[2..4], bban);
  }

  /**
   * The BBAN of a legacy IBAN passes the NIB check exactly when the drawn
   * control number is congruent, modulo 97, to the NIB control digits of its
   * bank, branch and account.
   */
  lemma {:induction false} LegacyNibCheck(draws: LegacyDraws)
    requires LegacyDrawsInRange(draws)
    ensures var base := LegacyCode(draws) + Pad(draws.branch, 4) + Pad(draws.account, 11);
      && AllIbanChars(base) && AllIbanChars(LegacyBban(draws))
      && (Mod97Value(LegacyBban(draws)) == 1 <==>
          draws.control % 97 == DigitsValue(NIBControlDigits(LegacyCode(draws), Pad(draws.branch, 4), Pad(draws.account, 11))) % 97)
  {
    var code, branchCode, accountNumber := LegacyCode(draws), Pad(draws.branch, 4), Pad(draws.account, 11);
    var base := code + branchCode + accountNumber;
    var controlDigits := Pad(draws.control, 2);
    Pow10Widths();
    DigitsAppend(code, branchCode);
    DigitsAppend(code + branchCode, accountNumber);
    assert LegacyBban(draws) == base + controlDigits;
    NIBControlCharacterized(code, branchCode, accountNumber, controlDigits);
  }

  /**
   * The legacy IBAN is the one `src/iban.ts` builds from the same bank,
   * branch and account exactly when the drawn control digits are the NIB
   * control digits.
   */
  lemma {:induction false} LegacyAgreesWithCurrent(draws: LegacyDraws)
    requires LegacyDrawsInRange(draws)
    ensures Builder.DrawsInRange(Builder.Draws(draws.bankIndex, draws.branch, draws.account))
    ensures var current := Builder.CreateIBAN(None, Builder.Draws(draws.bankIndex, draws.branch, draws.account));
      var code := LegacyCode(draws);
      && AllIbanChars(code + Pad(draws.branch, 4) + Pad(draws.account, 11))
      && current.Success?
      && (CreateIBAN(draws).iban == current.value.iban <==>
          Pad(draws.control, 2) == NIBControlDigits(code, Pad(draws.branch, 4), Pad(draws.account, 11)))
  {
    LegacyRegistryAgrees();
    var d := Builder.Draws(draws.bankIndex, draws.branch, draws.account);
    Builder.RandomCodeNeverFails(d);
    var code, branchCode, accountNumber := LegacyCode(draws), Pad(draws.branch, 4), Pad(draws.account, 11);
    Pow10Widths();
    var controlDigits := Pad(draws.control, 2);
    var nib := NIBControlDigits(code, branchCode, accountNumber);
    var legacyBban, currentBban := LegacyBban(draws), Builder.Bban(code, branchCode, accountNumber);
    assert Builder.CreateIBAN(None, d).value.iban == Builder.PortugueseIBAN(currentBban);
    LegacyIsPortugueseIBAN(draws);
    Builder.PortugueseIBANLayout(legacyBban);
    Builder.PortugueseIBANLayout(currentBban);
    var prefix := code + branchCode + accountNumber;
    assert legacyBban == prefix + controlDigits && currentBban == prefix + nib;
    if legacyBban == currentBban {
      assert controlDigits == legacyBban[19..] && nib == currentBban[19..];
    }
  }
}
