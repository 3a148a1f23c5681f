/**
 * The bank registry and the record shapes of `src/types.ts`: the constant
 * object literal that maps 4-digit bank codes to bank names, the key list
 * `Object.keys` gives of it, and the generator's and parser's result records.
 */
module Registry {
  import opened JsText

  /** The entries of an object literal, in the order they are written. */
  type Entries = seq<(string, string)>

  /** The entries of `bankMap`, as written in the literal. */
  const BankEntries: Entries := [
    ("0007", "Novo Banco"),
    ("0010", "BPI"),
    ("0018", "Santander Totta"),
    ("0033", "Millennium BCP"),
    ("0035", "Caixa Geral de Depósitos"),
    ("0045", "Crédito Agrícola"),
    ("0079", "Abanca"),
    ("0086", "Banco Invest"),
    ("0103", "Banco BIC"),
    ("0121", "Banco Carregosa")
  ]

  /** The value written last for key k in the literal ("" when k is not written). */
  function LastValue(entries: Entries, k: string): string
    decreases |entries|
  {
    if entries == [] then ""
    else if entries[|entries| - 1].0 == k then entries[|entries| - 1].1
    else LastValue(entries[..|entries| - 1], k)
  }

  /** The record an object literal builds: each written key, bound to the value written last for it. */
  function ToRecord(entries: Entries): map<string, string> {
    map i | 0 <= i < |entries| :: entries[i].0 := LastValue(entries, entries[i].0)
  }

  /** A later entry for a key overrides an earlier one: an entry not followed by its key is the one kept. */
  lemma {:induction false} LastEntryWins(entries: Entries, i: nat)
    requires i < |entries| && forall j | i < j < |entries| :: entries[j].0 != entries[i].0
    ensures entries[i].0 in ToRecord(entries) && ToRecord(entries)[entries[i].0] == entries[i].1
    decreases |entries|
  {
    var n := |entries|;
    if i < n - 1 {
      var prefix := entries[..n - 1];
      assert forall j | i < j < n - 1 :: prefix[j] == entries[j];
      LastEntryWins(prefix, i);
      assert prefix[i] == entries[i];
    }
  }

  /**
   * `Object.keys` of a record built from duplicate-free entries whose keys
   * are not array indices (none of them is canonical: each has a leading zero):
   * the keys in the order they were written.
   */
  function KeysOf(entries: Entries): (keys: seq<string>)
    ensures |keys| == |entries|
    ensures forall i | 0 <= i < |entries| :: keys[i] == entries[i].0
  {
    seq(|entries|, i requires 0 <= i < |entries| => entries[i].0)
  }

  predicate Distinct(keys: seq<string>) {
    forall i, j | 0 <= i < j < |keys| :: keys[i] != keys[j]
  }

  /** With distinct keys, the record maps each key to the name written beside it. */
  lemma {:induction false} ToRecordLookup(entries: Entries, i: nat)
    requires Distinct(KeysOf(entries)) && i < |entries|
    ensures entries[i].0 in ToRecord(entries) && ToRecord(entries)[entries[i].0] == entries[i].1
  {
    var keys := KeysOf(entries);
    assert forall j | i < j < |entries| :: keys[i] != keys[j];
    LastEntryWins(entries, i);
  }

  /** `bankMap`: bank code to bank name. */
  function BankMap(): map<string, string> {
    ToRecord(BankEntries)
  }

  /** `bankCodes = Object.keys(bankMap)`. */
  function BankCodes(): seq<string> {
    KeysOf(BankEntries)
  }

  /** The ten codes of the registry, in order. */
  const TenCodes: seq<string> :=
    ["0007", "0010", "0018", "0033", "0035", "0045", "0079", "0086", "0103", "0121"]

  /** `bankCodes` holds exactly the ten registry codes, each once, in the literal's order. */
  lemma BankCodesAreTheTenCodes()
    ensures BankCodes() == TenCodes
    ensures |BankCodes()| == 10
    ensures Distinct(BankCodes())
  {
  }

  /**
   * `bankCodes` is the key list of `bankMap`: every listed code is a key, with
   * the name written beside it, and every key is listed.
   */
  lemma BankCodesAreKeys()
    ensures |BankCodes()| > 0 && Distinct(BankCodes())
    ensures forall i | 0 <= i < |BankCodes()| ::
      BankCodes()[i] in BankMap() && BankMap()[BankCodes()[i]] == BankEntries[i].1
    ensures forall code | code in BankMap() :: code in BankCodes()
  {
    BankCodesAreTheTenCodes();
    forall i | 0 <= i < |BankCodes()|
      ensures BankCodes()[i] in BankMap() && BankMap()[BankCodes()[i]] == BankEntries[i].1
    {
      ToRecordLookup(BankEntries, i);
    }
    forall code | code in BankMap() ensures code in BankCodes() {
      var i :| 0 <= i < |BankEntries| && BankEntries[i].0 == code;
      assert BankCodes()[i] == code;
    }
  }

  /** The keys written in the literal. */
  function KeySet(entries: Entries): set<string> {
    set i | 0 <= i < |entries| :: entries[i].0
  }

  lemma {:induction false} KeySetSnoc(entries: Entries)
    requires entries != []
    ensures KeySet(entries) == KeySet(entries[..|entries| - 1]) + {entries[|entries| - 1].0}
  {
    var n := |entries|;
    var prefix := entries[..n - 1];
    forall x | x in KeySet(entries) ensures x in KeySet(prefix) + {entries[n - 1].0} {
      var j :| 0 <= j < n && entries[j].0 == x;
      if j < n - 1 {
        assert prefix[j] == entries[j];
      }
    }
    forall x | x in KeySet(prefix) ensures x in KeySet(entries) {
      var j :| 0 <= j < n - 1 && prefix[j].0 == x;
      assert entries[j] == prefix[j];
    }
  }

  /** With distinct keys, the literal writes one key per entry. */
  lemma {:induction false} KeySetSize(entries: Entries)
    requires Distinct(KeysOf(entries))
    ensures |KeySet(entries)| == |entries|
    decreases |entries|
  {
    if entries != [] {
      var n := |entries|;
      var prefix, k := entries[..n - 1], entries[n - 1].0;
      var keys := KeysOf(entries);
      assert KeysOf(prefix) == keys[..n - 1];
      KeySetSize(prefix);
      KeySetSnoc(entries);
      assert forall j | 0 <= j < n - 1 :: prefix[j].0 == keys[j] != keys[n - 1] == k;
    }
  }

  /** With distinct keys, the record has one key per entry. */
  lemma {:induction false} ToRecordSize(entries: Entries)
    requires Distinct(KeysOf(entries))
    ensures |ToRecord(entries)| == |entries|
  {
    assert ToRecord(entries).Keys == KeySet(entries);
    KeySetSize(entries);
  }

  /**
   * `Object.keys` of a record built from duplicate-free entries lists exactly
   * the record's keys, each once: a string is a key of the record if and only
   * if it is in the list.
   */
  lemma {:induction false} KeysOfRecord(entries: Entries)
    requires Distinct(KeysOf(entries))
    ensures forall k :: k in ToRecord(entries) <==> k in KeysOf(entries)
    ensures |KeysOf(entries)| == |ToRecord(entries)|
  {
    var keys := KeysOf(entries);
    forall k ensures k in ToRecord(entries) <==> k in keys {
      if k in keys {
        var i :| 0 <= i < |keys| && keys[i] == k;
        assert entries[i].0 == k;
      }
    }
    ToRecordSize(entries);
  }

  /** The registry has exactly ten keys. */
  lemma BankMapSize()
    ensures |BankMap()| == 10
  {
    BankCodesAreTheTenCodes();
    ToRecordSize(BankEntries);
  }

  lemma TenCodesAreFourDigitNumerals()
    ensures forall i | 0 <= i < |TenCodes| :: |TenCodes[i]| == 4 && AllDigits(TenCodes[i])
  {
    assert AllDigits("0007") && AllDigits("0010");
  }

  lemma BankNamesAreNonEmpty()
    ensures forall i | 0 <= i < |BankEntries| :: |BankEntries[i].1| > 0
  {
  }

  /** Every key of the registry is one of the ten codes, a 4-digit numeral with a non-empty name. */
  lemma BankMapShape()
    ensures forall code | code in BankMap() :: code in TenCodes
    ensures forall code | code in BankMap() :: |code| == 4 && AllDigits(code)
    ensures forall code | code in BankMap() :: |BankMap()[code]| > 0
  {
    forall code | code in BankMap()
      ensures code in TenCodes && |code| == 4 && AllDigits(code) && |BankMap()[code]| > 0
    {
      BankKeyShape(code);
    }
  }

  /** Each key of the registry is listed in `bankCodes`, with the name written beside it. */
  lemma {:induction false} KeyIndex(code: string) returns (i: nat)
    requires code in BankMap()
    ensures i < |BankCodes()| && BankCodes()[i] == code && BankMap()[code] == BankEntries[i].1
  {
    BankCodesAreKeys();
    i :| 0 <= i < |BankCodes()| && BankCodes()[i] == code;
  }

  lemma {:induction false} BankKeyShape(code: string)
    requires code in BankMap()
    ensures code in TenCodes && |code| == 4 && AllDigits(code) && |BankMap()[code]| > 0
  {
    var i := KeyIndex(code);
    BankCodesAreTheTenCodes();
    TenCodesAreFourDigitNumerals();
    BankNamesAreNonEmpty();
    assert code == TenCodes[i];
  }

  /** The drawn entry of `bankCodes`: a key of the registry and a 4-digit numeral. */
  lemma {:induction false} ListedCodeShape(i: nat)
    requires i < |BankCodes()|
    ensures var code := BankCodes()[i];
      && code in BankMap() && BankMap()[code] == BankEntries[i].1
      && |code| == 4 && AllDigits(code)
  {
    BankCodesAreTheTenCodes();
    ToRecordLookup(BankEntries, i);
    TenCodesAreFourDigitNumerals();
    assert BankCodes()[i] == TenCodes[i];
  }

  /** `IBANResult`: the generated IBAN, the bank code used and the bank's name. */
  datatype IBANResult = IBANResult(iban: string, bankCode: string, bankName: string)

  /** `IBANStructure`: the six fields of a Portuguese IBAN. */
  datatype IBANStructure = IBANStructure(
    countryCode: string,
    checkDigits: string,
    bankCode: string,
    branchCode: string,
    accountNumber: string,
    nibControlDigits: string)

  /** The widths the record documents: 2 + 2 + 4 + 4 + 11 + 2. */
  predicate HasDocumentedWidths(p: IBANStructure) {
    && |p.countryCode| == 2 && |p.checkDigits| == 2 && |p.bankCode| == 4
    && |p.branchCode| == 4 && |p.accountNumber| == 11 && |p.nibControlDigits| == 2
  }

  /** The six fields in field order, concatenated. */
  function Concat(p: IBANStructure): string {
    p.countryCode + p.checkDigits + p.bankCode + p.branchCode + p.accountNumber + p.nibControlDigits
  }
}
