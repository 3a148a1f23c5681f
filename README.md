# Portuguese IBAN generator and validator: a Dafny model of its checksum core

This project models the checksum core of `iban-fresquinho`, a generator and validator of Portuguese IBANs:

- the ISO 7064 MOD 97-10 reduction (`mod97`) and the zero-padding helper (`pad`);
- the two check-digit calculators: the NIB control digits and the ISO 13616 IBAN check digits;
- the builder (`createIBAN` and `createMultipleIBANs`);
- the inspector (`validateIBAN`, `parseIBAN`, `formatIBAN`);
- the bank registry and the two result records of `src/types.ts`;
- the older browser script `js/scripts.js`, which has its own registry, `pad`, `mod97` and `createIBAN`.

A Portuguese IBAN has 25 characters:

- "PT" (2 characters);
- the IBAN check digits (2);
- the BBAN (21), which is the bank code (4), the branch code (4), the account number (11) and the NIB control digits (2).

Modules:

- `Wrappers`: `Option` and `Result`.
- `JsText`: the JavaScript built-ins the core relies on, stated exactly on the values the core produces (integers below 10^11). `Number#toString` would switch to exponent notation from 10^21 on, and `parseInt` would lose digits beyond about 15; the core reaches neither. The built-ins are:
  - `Number#toString` of a non-negative integer (`NatToDecimal`);
  - `String#padStart`;
  - `parseInt(s, 10)`, with its whitespace skipping, its sign and its `NaN` result;
  - the truncating `%` on numbers, including `NaN`;
  - the regular-expression class `\s`;
  - `toUpperCase`, restricted to ASCII.
- `Checksum` (`src/iban.ts`):
  - `Pad`;
  - the reference value `Mod97Value(s)`, which is the decimal number spelled by `s` with every letter replaced by its two-digit code (A=10 … Z=35), taken modulo 97;
  - the imperative `Mod97` method, the loop of the source proved equal to `Mod97Value`;
  - the two check-digit functions and their characterisation.
- `Registry` (`src/types.ts`): `bankMap` as the map its object literal denotes, `bankCodes` as `Object.keys` of it, and the `IBANResult` and `IBANStructure` records as the datatypes of the same names. `Legacy.LegacyResult` is the script's result record.
- `Inspector` (`src/iban.ts`): cleaning, validation, parsing and formatting.
- `Builder` (`src/iban.ts`): `createIBAN` and `createMultipleIBANs`. Each random draw becomes a parameter, a `Draws` value that `DrawsInRange` restricts to the ranges `Math.floor(Math.random() * max)` can produce.
- `Legacy` (`js/scripts.js`): the older generator, which draws the NIB control digits at random.

Three behaviours of the code are easy to miss; the model follows the code:

- `createIBAN` also fails when the caller supplies the empty string as the bank code, because `!bankCode` holds for `""`.
- `validateIBAN` accepts any characters after the length and prefix checks. On a 25-character "PT" string with a character outside [0-9A-Z], the source's `mod97` can loop forever, or return 1 for a string that is no IBAN (see "## Findings").
- `createIBAN` passes a supplied bank code to `mod97` unchecked. A code whose first character is a lower-case letter makes the loop run forever (see "## Findings").

## Model

| member | source | states |
|---|---|---|
| Checksum.Pad | src/iban.ts:9-11 | the padded string is a decimal numeral with value `num`; it has exactly `length` characters when `num` fits in that many digits |
| Checksum.PadLayout | src/iban.ts:9-11 | the padded string is `num.toString()` preceded by only zeros, and its length is the larger of the two widths |
| Checksum.PaddedNumeral | src/iban.ts:10 | `padStart` with '0' on `num.toString()` keeps the numeral's value and reaches the requested width |
| Checksum.LetterCode | src/iban.ts:21-23 | `charCodeAt(0) - 55` maps an upper-case letter to 10..35 |
| Checksum.LetterExpansionLength | src/iban.ts:22 | every letter expands to exactly two digits |
| Checksum.Expand | src/iban.ts:21-23 | defines `value.replace(/[A-Z]/g, …)`: each upper-case letter becomes the decimal text of its code minus 55 and every other character is kept; the lemmas below state its properties |
| Checksum.ExpandKeepsNonLetters | src/iban.ts:21-23 | a string with no upper-case letter, such as one with lower-case letters or punctuation, is left unchanged |
| Checksum.ExpandIsNumeral | src/iban.ts:21-23 | expanding a string over [0-9A-Z] gives a numeral at least as long as the input |
| Checksum.ExpandOfNumeral | src/iban.ts:21-23 | the letter replacement leaves a string of digits unchanged |
| Checksum.ExpandAppend | src/iban.ts:21-23 | the replacement works character by character, so it distributes over concatenation |
| Checksum.ExpandPT | src/iban.ts:21-23 | "PT" expands to "2529" |
| Checksum.ExpandAroundPT | js/scripts.js:104 | the expansion of `a + "PT" + digits` is the expansion of `a`, then "2529", then the digits |
| Checksum.ReduceStep | src/iban.ts:28-29 | defines one pass of the loop: the first at most nine characters are read by `parseInt(block, 10)`, and the text of `% 97` of the result replaces them; the lemmas below state what a pass does |
| Checksum.Mod97Value | src/iban.ts:19-33 | the reference remainder is below 97 |
| Checksum.ReduceStepOnNumeral | src/iban.ts:28-29 | one pass over a numeral longer than 2 characters gives a shorter, non-empty numeral with the same residue modulo 97 |
| Checksum.ReduceStepOfNumeral | src/iban.ts:28-29 | one pass replaces the first at most 9 digits, a number below 10^9, by the decimal text of their remainder |
| Checksum.ReduceStepOnNonNumeral | src/iban.ts:28-29 | when the block does not start a numeral, `parseInt` gives NaN and the pass writes "NaN" in its place |
| Checksum.Mod97 | src/iban.ts:19-33 | the chunked loop returns the reference remainder `Mod97Value(value)` for every non-empty string over [0-9A-Z] |
| Checksum.Mod97WithTwoDigits | src/iban.ts:58 | appending two digits multiplies the expanded value by 100 and adds the digits, modulo 97 |
| Checksum.CheckDigitsLaw | src/iban.ts:58 | `98 - mod97(base + "00")` lies in 2..98, pads to two digits, and completes `base` to remainder 1 |
| Checksum.CompletesBase | src/iban.ts:58 | two digits worth `98 - mod97(base + "00")` give `base + digits` remainder 1 |
| Checksum.CheckDigitsCharacterized | src/iban.ts:58 | `base + d` has remainder 1 exactly when `d` is congruent modulo 97 to `98 - mod97(base + "00")` |
| Checksum.NIBControlDigits | src/iban.ts:52-59 | the NIB control digits are two decimal digits worth 2..98, and they complete bank + branch + account to remainder 1 |
| Checksum.NIBControlCharacterized | src/iban.ts:52-59 | two digits complete bank + branch + account to remainder 1 exactly when they are congruent modulo 97 to the computed control digits |
| Checksum.IBANCheckDigits | src/iban.ts:67-69 | the IBAN check digits are two decimal digits worth 2..98, and `bban + countryCode + check` has remainder 1 |
| JsText.NatToDecimal | src/iban.ts:10 | `Number#toString` of a non-negative integer is a non-empty numeral whose value is that integer |
| JsText.NatToDecimalMagnitude | src/iban.ts:10 | `toString` writes no leading zeros: the numeral has the fewest digits that hold the number |
| JsText.PadStart | src/iban.ts:10 | `padStart` returns the input unchanged when it is already long enough, and otherwise a string of exactly the requested length |
| JsText.PadStartLayout | src/iban.ts:10 | the padded string ends with the input whole, and every character before it is the fill character |
| JsText.ParseIntOfDigits | src/iban.ts:29 | `parseInt(block, 10)` of a numeral is its value |
| JsText.ParseIntNaN | src/iban.ts:29 | `parseInt` of a string that starts with none of a digit, whitespace or a sign is NaN |
| JsText.ParseInt | src/iban.ts:29 | defines `parseInt(s, 10)`: leading whitespace is skipped, one sign is read, then the longest run of digits; no digit gives NaN |
| JsText.ParseIntOfPrefix | src/iban.ts:29 | `parseInt` of a string that starts with a numeral is the value of that numeral, whatever follows it |
| JsText.Remainder | src/iban.ts:29 | defines the truncating `%` on numbers: the sign follows the dividend, and NaN stays NaN |
| JsText.NumberToString | src/iban.ts:29 | defines `toString` of a number: NaN is "NaN", an integer its decimal numeral, with "-" in front when negative |
| JsText.StripWhitespace | src/iban.ts:117 | defines `replace(/\s/g, '')`: every character of the class `\s` is removed and the others are kept in order |
| JsText.ToUpperAscii | src/iban.ts:117 | defines `toUpperCase` on ASCII: each lower-case letter becomes its upper-case letter and every other character is kept |
| JsText.StripWhitespaceRemovesAll | src/iban.ts:117 | `replace(/\s/g, '')` leaves no whitespace |
| JsText.StripWhitespaceKeepsClean | src/iban.ts:117 | the replacement changes nothing in a string without whitespace |
| JsText.StripWhitespaceIdempotent | src/iban.ts:117 | removing whitespace twice is removing it once |
| JsText.StripWhitespaceAppend | src/iban.ts:117 | whitespace removal distributes over concatenation |
| JsText.UpperOfLower | src/iban.ts:117 | upper-casing after lower-casing is upper-casing |
| Registry.LastEntryWins | src/types.ts:4-15 | in an object literal, a key maps to the value written for it when no later entry repeats the key |
| Registry.ToRecord | src/types.ts:4-15 | defines the record an object literal builds: each written key, bound to the value written last for it |
| Registry.KeysOfRecord | src/types.ts:20 | with distinct keys, `Object.keys` lists exactly the keys of the record, one per entry: a string is a key if and only if it is listed |
| Registry.ToRecordLookup | src/types.ts:4-15 | with distinct keys, every written key maps to its written value |
| Registry.ToRecordSize | src/types.ts:4-15 | with distinct keys, the record has one key per entry |
| Registry.BankMap | src/types.ts:4-15 | defines `bankMap` as the record of its ten written entries |
| Registry.BankCodes | src/types.ts:20 | defines `bankCodes` as `Object.keys(bankMap)`, the keys in the order written |
| Registry.BankCodesAreTheTenCodes | src/types.ts:20 | `bankCodes` is the ten codes in the literal's order, each once |
| Registry.BankCodesAreKeys | src/types.ts:4-20 | every listed code is a key of `bankMap` with its written name, and every key is listed |
| Registry.BankMapSize | src/types.ts:4-15 | `bankMap` has ten entries |
| Registry.TenCodesAreFourDigitNumerals | src/types.ts:5-14 | every bank code is a 4-digit numeral |
| Registry.BankNamesAreNonEmpty | src/types.ts:5-14 | every bank name is non-empty |
| Registry.BankMapShape | src/types.ts:4-15 | every key of `bankMap` is one of the ten 4-digit codes and has a non-empty name |
| Registry.KeyIndex | src/types.ts:4-20 | every key of `bankMap` sits at some position of `bankCodes`, and its name is the entry written there |
| Registry.ListedCodeShape | src/types.ts:20 | the code at any position of `bankCodes` is a 4-digit key of `bankMap` with the entry's name |
| Inspector.RearrangedIbanChars | src/iban.ts:130 | moving the first four characters to the end keeps the IBAN alphabet |
| Inspector.Clean | src/iban.ts:117 | defines the cleaning: whitespace removed, then upper-cased |
| Inspector.HasPortugueseShape | src/iban.ts:120-127 | defines the two early checks: 25 characters, starting "PT" |
| Inspector.Rearranged | src/iban.ts:130 | defines the rearrangement: the first four characters moved to the end |
| Inspector.CleanOfIbanString | src/iban.ts:117 | cleaning leaves a string over [0-9A-Z] unchanged |
| Inspector.CleanIgnoresInsertedWhitespace | src/iban.ts:117 | inserting a whitespace character anywhere does not change the cleaned string |
| Inspector.StripCommutesWithLower | src/iban.ts:117 | removing whitespace and lower-casing commute |
| Inspector.CleanIgnoresCase | src/iban.ts:117 | cleaning a lower-cased input gives the same string as cleaning the input |
| Inspector.ValidateIBAN | src/iban.ts:115-134 | an input is valid exactly when it cleans to 25 characters over [0-9A-Z] starting "PT" whose rearrangement has remainder 1 |
| Inspector.ValidateOfClean | src/iban.ts:120-133 | on a cleaned Portuguese-shaped string, validity is exactly "the rearranged string has remainder 1" |
| Inspector.RearrangedPortuguese | src/iban.ts:130 | the rearrangement of "PT" + check + BBAN is BBAN + "PT" + check |
| Inspector.ValidateAgreesWithCheckDigits | src/iban.ts:115-134 | a Portuguese IBAN is valid exactly when its check digits are congruent modulo 97 to those `calculateIBANCheckDigits` computes for its BBAN |
| Inspector.ValidateIgnoresWhitespace | src/iban.ts:117 | validity does not change when whitespace is inserted |
| Inspector.ValidateIgnoresCase | src/iban.ts:117 | validity does not change when the input is lower-cased |
| Inspector.OneDigitChange | src/iban.ts:133 | changing one digit of a two-digit check changes its residue modulo 97 |
| Inspector.SingleCheckDigitChangeRejected | src/iban.ts:115-134 | replacing one check digit of a valid IBAN by another digit makes it invalid |
| Inspector.MultiplesOf97InTwoDigits | src/iban.ts:133 | the only two-digit strings divisible by 97 are "00" and "97" |
| Inspector.ZeroedCheckDigits | src/iban.ts:115-134 | a valid IBAN stays valid with its check digits set to "00" exactly when they were "00" or "97" |
| Inspector.ParseIBAN | src/iban.ts:141-156 | parsing fails exactly when the cleaned input is not 25 characters starting "PT"; otherwise the six fields have the documented widths 2+2+4+4+11+2 and concatenate to the 25-character cleaned input |
| Inspector.ParsePortuguese | src/iban.ts:148-155 | "PT" + check + BBAN parses into the check digits and the BBAN's four fields at their offsets |
| Inspector.ValidIbanParses | src/iban.ts:115-156 | every valid input parses |
| Inspector.ParseIgnoresChecksum | src/iban.ts:141-156 | parsing does not check the checksum: a 25-character "PT" string that fails validation still parses |
| Inspector.UncheckedResidue | src/iban.ts:130-133 | the all-zero Portuguese string rearranges to a remainder of 21, not 1 |
| Inspector.ZerosThenPT00 | src/iban.ts:130-133 | any number of zeros followed by "PT00" has remainder 21 |
| Inspector.Groups | src/iban.ts:165 | `match(/.{1,4}/g)` splits a non-empty line into groups of 1 to 4 characters, all of 4 but the last, concatenating back to the line |
| Inspector.StripJoin | src/iban.ts:165 | removing the whitespace from groups joined by spaces gives back their concatenation |
| Inspector.FormatIBAN | src/iban.ts:163-166 | formatting keeps the non-whitespace characters in order, and returns the input unchanged when it is only whitespace |
| Inspector.FormatIdempotent | src/iban.ts:163-166 | formatting a formatted string changes nothing |
| Inspector.FormatLayout | src/iban.ts:163-166 | every fifth character of the output is a space, and the others are the cleaned characters in order |
| Inspector.JoinedGroupsLayout | src/iban.ts:165 | groups joined by spaces have a space at every fifth position and the line's characters elsewhere |
| Inspector.JoinedGroupsSplit | src/iban.ts:165 | the joined groups of a line longer than 4 characters are its first four characters, a space, then the joined groups of the rest |
| Inspector.JoinWithSpaces | src/iban.ts:165 | defines `join(' ')`: the groups in order with one space between neighbours |
| Inspector.FormatPreservesInspection | src/iban.ts:115-166 | cleaning, validating and parsing give the same result on the formatted input as on the input |
| Inspector.ValidateAsWrittenLoopsForever | src/iban.ts:27-30 | for "PT00." followed by 20 zeros, the source's loop reaches "NaN" after four passes and stays there; the modelled `validateIBAN` returns false |
| Inspector.StallingShape | src/iban.ts:117-127 | that input passes the length and prefix checks but is not over [0-9A-Z] |
| Inspector.NaNIsFixed | src/iban.ts:27-29 | "NaN" is longer than 2 characters and one pass maps it to itself |
| Inspector.StallsInto | src/iban.ts:27-29 | a 27-character remainder that does not start a numeral falls to "NaN" in four passes |
| Inspector.StallingExpansion | src/iban.ts:21-23 | the rearranged input expands to "." followed by 20 zeros and "252900" |
| Inspector.ValidateAsWrittenAccepts | src/iban.ts:27-32 | for "PT77", eight zeros, "-" and twelve zeros, the source's loop reaches "1" after four passes, so the source accepts it; the modelled `validateIBAN` returns false |
| Inspector.AcceptedShape | src/iban.ts:117-127 | that input passes the length and prefix checks but is not over [0-9A-Z] |
| Inspector.AcceptedExpansion | src/iban.ts:21-23 | the rearranged input expands to eight zeros, "-", twelve zeros and "252977" |
| Inspector.AcceptedReduces | src/iban.ts:27-32 | the four passes keep the remainder longer than 2 until it is "1", whose final remainder is 1 |
| Inspector.ReduceStepSplit | src/iban.ts:28-29 | a pass over a block that `parseInt` reads as `v` writes the text of `v % 97` in the block's place |
| Inspector.AcceptedPass1 | src/iban.ts:28-29 | the block "00000000-" is read as 0, so the minus sign is dropped |
| Inspector.AcceptedPass2 | src/iban.ts:28-29 | a block of nine zeros becomes "0" |
| Inspector.AcceptedPass3 | src/iban.ts:28-29 | the block of five zeros and "2529" becomes "7" |
| Inspector.AcceptedPass4 | src/iban.ts:28-29 | "777" becomes "1" |
| Inspector.FinalRemainderOne | src/iban.ts:32 | `parseInt("1", 10) % 97` is 1 |
| Builder.ChosenCode | src/iban.ts:81 | a supplied code is used verbatim; a drawn code is a 4-digit key of `bankMap` |
| Builder.Bban | src/iban.ts:95 | the BBAN is over [0-9A-Z], 2 characters longer than bank + branch + account |
| Builder.BbanLayout | src/iban.ts:92-95 | the BBAN is bank code, branch code, account number and NIB control digits, at their offsets |
| Builder.PortugueseIBAN | src/iban.ts:98-101 | the IBAN is 4 characters longer than the BBAN and starts "PT" |
| Builder.PortugueseIBANLayout | src/iban.ts:98-101 | characters 2..4 are the IBAN check digits and the rest is the BBAN |
| Builder.PortugueseIBANIsValid | src/iban.ts:98-101 | "PT" + check digits + any 21-character BBAN passes `validateIBAN` |
| Builder.RearrangedAround | src/iban.ts:130 | rearranging country + check + BBAN gives BBAN + country + check |
| Builder.CreateIBAN | src/iban.ts:77-108 | the call fails exactly when a code is supplied that is empty ("No bank codes available") or has a character outside [0-9A-Z] ("Invalid bank code"); without a code it succeeds with the drawn code, and a supplied code is used verbatim; the result carries the name from `bankMap` or "Unknown Bank", and an IBAN of 21 characters plus the code's length, over [0-9A-Z] starting "PT" |
| Builder.CreatedIsValid | src/iban.ts:77-108 | a created IBAN passes validation exactly when its bank code has 4 characters |
| Builder.CreatedParses | src/iban.ts:77-108 | with a 4-character code, parsing a created IBAN gives "PT", its check digits, the code, the padded branch and account draws, and the computed NIB control digits |
| Builder.AssembledParses | src/iban.ts:92-101 | parsing the assembled IBAN gives back every field it was built from |
| Builder.CreatedNibConsistent | src/iban.ts:92 | the parsed bank, branch, account and control digits of a created IBAN have remainder 1 |
| Builder.CreatedZeroedCheckDigits | src/iban.ts:98 | a created IBAN stays valid with its check digits set to "00" exactly when they are "97" |
| Builder.LowerCaseNibInput | src/iban.ts:57-58 | for the code "abcd", the NIB input has 21 characters and no upper-case letter |
| Builder.LowerCaseCodeStalls | src/iban.ts:21-30 | for the code "abcd", the source's `mod97` leaves the NIB input unexpanded and falls to "NaN" in three passes, where it stays; the modelled `createIBAN` returns "Invalid bank code" |
| Builder.RandomCodeNeverFails | src/iban.ts:81-106 | with no code supplied, the call succeeds with the drawn registry code and its non-empty name, and gives a 25-character valid IBAN |
| Builder.UnknownCodeName | src/iban.ts:106 | the name is "Unknown Bank" exactly when the code is not one of the ten registry codes |
| Builder.RegistryKeysAreTheTenCodes | src/iban.ts:106 | a code is a key of `bankMap` exactly when it is one of the ten codes |
| Builder.NoBankIsUnknown | src/types.ts:5-14 | no registry name is the "Unknown Bank" placeholder |
| Builder.BankNameOf | src/iban.ts:106 | defines `bankMap[bankCode] ?? 'Unknown Bank'` |
| Builder.DrawsInRange | src/iban.ts:81-89 | defines the ranges of the three draws: an index of `bankCodes`, a branch below 10^4, an account below 10^11 |
| Builder.SafeCount | src/iban.ts:174 | the count is clamped to 1..100: it is kept inside that range, raised to 1 below it and capped at 100 above it |
| Builder.RandomIBAN | src/iban.ts:175 | each element is the successful result of `createIBAN()` on its draws |
| Builder.RandomIBANValid | src/iban.ts:175 | each element is a 25-character valid IBAN of a registry bank |
| Builder.CreateMultipleIBANs | src/iban.ts:173-176 | the batch has `SafeCount(count)` elements, the i-th being `createIBAN()` on the i-th draws |
| Builder.MultipleAllValid | src/iban.ts:173-176 | every element of the batch is a 25-character valid IBAN of a registry bank |
| Legacy.LegacyRegistryAgrees | js/scripts.js:5-22 | the script's `bankMap` and `bankCodes` are those of `src/types.ts`, entry for entry |
| Legacy.LegacyBankMap | js/scripts.js:5-16 | defines the script's `bankMap` as the record of its ten written entries |
| Legacy.LegacyBankCodes | js/scripts.js:22 | defines the script's `bankCodes` as `Object.keys(bankMap)` |
| Legacy.LegacyDrawsInRange | js/scripts.js:89-98 | defines the ranges of the script's four draws: an index of its `bankCodes`, a branch below 10^4, an account below 10^11, control digits below 100 |
| Legacy.LegacyCode | js/scripts.js:88-89 | the drawn code is a 4-digit key of the registry |
| Legacy.LegacyBban | js/scripts.js:92-101 | the BBAN, with its randomly drawn control digits, is a 21-digit numeral |
| Legacy.LegacyChecksum | js/scripts.js:104-107 | `98 - mod97(bban + "2529" + "00")` lies in 2..98 |
| Legacy.LegacyIban | js/scripts.js:107-109 | the IBAN built from a 21-digit BBAN has 25 characters, starts "PT" and ends with the BBAN |
| Legacy.CreateIBAN | js/scripts.js:84-110 | the result carries the drawn code, a key of the script's `bankMap`, and a 25-character IBAN starting "PT" followed by the check digits and the BBAN |
| Legacy.LegacyChecksumIsCheckDigits | js/scripts.js:104-109 | writing "2529" for "PT" by hand gives the check digits `calculateIBANCheckDigits(bban, 'PT')` computes |
| Legacy.LegacyIsPortugueseIBAN | js/scripts.js:84-110 | the legacy IBAN is the BBAN with its ISO 13616 check digits in front |
| Legacy.LegacyCreatedIsValid | js/scripts.js:84-110 | every legacy IBAN has 25 characters and passes `validateIBAN`, whatever control digits were drawn |
| Legacy.LegacyCreatedParses | js/scripts.js:84-110 | parsing a legacy IBAN gives the drawn code, the padded branch, account and control draws |
| Legacy.LegacyNibCheck | js/scripts.js:98-101 | the BBAN passes the NIB check exactly when the drawn control number is congruent modulo 97 to the computed NIB control digits |
| Legacy.LegacyAgreesWithCurrent | js/scripts.js:84-110 | the legacy IBAN equals the one `src/iban.ts` builds from the same draws exactly when the drawn control digits are the NIB control digits |

## Left out

- Randomness: `Math.random` is not modelled. Each draw is a parameter restricted to the range its `Math.floor(Math.random() * max)` can produce, so nothing is stated about the distribution of codes or accounts, or about the uniqueness of a batch.
- The user interface of `js/scripts.js` (lines 28-78: DOM updates, animation, clipboard) and `src/main.ts` are not part of this model: they only display or copy the core's results.
- Build configuration, styles and HTML are outside the checksum core.
- JavaScript numbers are doubles. The model uses unbounded integers, which agree with them here: every value the core computes is below 10^11 < 2^53.
- Checksum.Mod97: requires a non-empty string over [0-9A-Z]. On other input the loop can fail to terminate; that case is modelled by the single pass `ReduceStep` and is the subject of "## Findings".
- Checksum.Mod97: `mod97("")` in the source is `parseInt("") % 97`, which is NaN; the method does not model it, and no caller passes an empty string.
- Strings: a JavaScript string is a sequence of UTF-16 code units; the model's `string` is a sequence of Unicode characters. A character outside the Basic Multilingual Plane is therefore one element here and two in the source. On such input the length checks differ: `parseIBAN("PT" + "0".repeat(21) + "😀")` has 25 code units in the source, which accepts its length, but 24 characters here. Likewise `formatIBAN`'s groups of four can split a surrogate pair in the source, not here.
- Inspector.Clean: upper-casing is modelled on ASCII letters only; the full Unicode case mapping of `toUpperCase` (for example "ß" becoming "SS") is not modelled.
- Inspector.ValidateIBAN: models the corrected validator, which rejects a cleaned string with a character outside [0-9A-Z] before `mod97`. As written, the source can loop forever or return true on such a string; two lemmas show both (see "## Findings").
- Builder.CreateIBAN: models the corrected generator, which returns the error "Invalid bank code" for a supplied code with a character outside [0-9A-Z]; the message is the model's own. As written, the source hands such a code to `mod97`, which expands only [A-Z]. A pass falls to "NaN" exactly when its block starts with no digit after optional whitespace and one sign. So a code whose first character is a lower-case letter keeps the loop running forever (see "## Findings"). The source's results for other such codes are not modelled. These include a code such as "003a", where `parseInt` reads the leading "003", so the remainder after the first pass is a numeral, and codes with a sign, a space or a dot.
- Builder.CreateIBAN: the throw at `src/iban.ts:83-85` on an empty registry with no code supplied cannot happen, because the registry is the constant ten-entry literal; the model returns a `Result` failure for the one reachable case, a supplied empty string.
- Builder.SafeCount: the count is an integer; a fractional or NaN count, which `Math.min`/`Math.max` and `Array.from` would handle, is not modelled.
- Legacy.CreateIBAN: the script's `pad` and `mod97` (`js/scripts.js:118-143`) are modelled by `Checksum.Pad` and `Checksum.Mod97`, because they are the same code.

## Findings

| source | as written | input that shows it | evidently intended | confidence | as-written member | corrected member |
|---|---|---|---|---|---|---|
| src/iban.ts:27-30 | `validateIBAN` passes any 25-character "PT" string to `mod97`. When a block starts with no digit (after optional whitespace and one sign), `parseInt` gives NaN and the pass writes "NaN"; "NaN" has 3 characters and maps to itself, so the loop never ends | `validateIBAN("PT00." + "0".repeat(20))` | return false for input with characters outside [0-9A-Z] | not executed | Inspector.ValidateAsWrittenLoopsForever | Inspector.ValidateIBAN |
| src/iban.ts:27-30 | `parseInt` reads a block only up to its first non-digit, so the characters after it are dropped; a 25-character "PT" string that is no IBAN can still end at remainder 1 | `validateIBAN("PT7700000000-000000000000")` returns true | return false for input with characters outside [0-9A-Z] | not executed | Inspector.ValidateAsWrittenAccepts | Inspector.ValidateIBAN |
| src/iban.ts:21-30 | `createIBAN` hands a supplied bank code to `mod97` unchecked, and only [A-Z] is expanded. When the code's first character is a lower-case letter, the first block starts with no digit. `parseInt` then reads NaN, the remainder becomes "NaN", and the loop never ends | `createIBAN("abcd")` | reject a bank code with characters outside [0-9A-Z] with an error | not executed | Builder.LowerCaseCodeStalls | Builder.CreateIBAN |
