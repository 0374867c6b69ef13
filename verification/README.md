# Koinly import-file converter and balance checker, in Dafny

This project models the two small record-transformation tools of
KoinlyImportFilesConverter:

- **The Meria converter** (`koinly_convert.py`, module `KoinlyConvert` in
  `koinly_convert.dfy`). It turns each data row of a Meria ("Waltio") export
  into one Koinly ledger line (`OutputLine`). A decision table on the row's
  `txType` and `txInfo` decides four things: which side is filled (received,
  sent, both or neither), the label, the fee currency and the description.
  A `n/a` hash becomes absent. The ticker `LUNA` is renamed `LUNA2` in the
  three currency fields. `OutputLine` is a datatype whose constructor has
  the same keyword defaults as the Python class. `ToList` and `Headers`
  give the 12-column record and its header. The loop of `convertMeria` is
  the method `ConvertMeria`, and its body is `ConvertRow`. Both are proved
  against the reference function `MeriaLine`, which writes the decision
  table as a classification (`Classify`, `Handling`) plus a label table
  (`LabelOf`). Lemmas about `MeriaLine` state what each branch produces.
- **The balance checker** (`koinly_check.py`, module `KoinlyCheck` in
  `koinly_check.dfy`). The class `BalanceChanges` holds the per-currency
  dictionary. Its methods `InitForCurrency`, `Increase` and `Decrease`
  update it in place. Each method is tied to a pure function
  (`WithEntry`, `Increased`, `Decreased`), and the contracts of those
  functions state the bookkeeping rules. `ApplyRow` is the body of the
  checker's loop. `CheckBalanceChanges` is the loop itself. It is proved to
  fail at the first row that puts an amount on an empty currency (the
  Python `KeyError`). Otherwise it yields a map whose keys are exactly the
  non-empty currencies named in the file, each holding Σreceived − Σsent −
  Σfees. `TrimAmount` is the trimming step that ends `formatAmount`. It is
  proved against `TrimAmountText`.

`wrappers.dfy` holds the `Option` and `Result` datatypes used by both
modules.

Amounts in the checker are exact reals, an idealisation of Python's
floats. An empty amount cell is `None`. In the converter, amounts stay
text. The fee amount is the text `formatFee(multiplier, amount)`, where
`formatFee` is a parameter that stands for `str(m * float(a))`. Only the
sign of the fee percentage is interpreted.

## Behaviour worth noting

- An unhandled `txType`/`txInfo` row is not skipped. It still yields a line
  carrying only its date and hash, and a diagnostic (`UnhandledLineIsBare`).
- The credit test `txInfo in ('claim')` is a substring test on the string
  `"claim"`. So `""`, `"cl"` and every other piece of `"claim"` are accepted
  silently (`ClaimIsSubstringTest`, `EmptyAndClCreditsAreClaims`).
- An exchange whose source and destination currency are the same becomes a
  `swap` line like any other exchange (`ExchangeLine`).
- The output record has 12 columns, the two net-worth columns included (`ToList`, `PositionsNumberColumns`).

## Model

| member | source | states |
|---|---|---|
| `KoinlyConvert.OutputLine.ToList` | koinly_convert.py:44-54 | the record has 12 entries, and each column's value sits at that column's fixed position (date, sent amount/currency, received amount/currency, fee amount/currency, net-worth amount/currency, label, description, hash) |
| `KoinlyConvert.PositionsNumberColumns` | koinly_convert.py:44-54 | the column positions are distinct and lie in 0..11, so they number the 12 columns one-to-one |
| `KoinlyConvert.Headers` | koinly_convert.py:57-68 | the header line holds each column's title at the position where `ToList` puts that column's value |
| `KoinlyConvert.NormalizeLunaTicker` | koinly_convert.py:124 | `LUNA` becomes `LUNA2`; every other value, absent included, is unchanged; the result is never `LUNA` |
| `KoinlyConvert.Contains` | koinly_convert.py:168 | Python's `s in t` on strings is true exactly when `s` occurs contiguously in `t`, including the empty `s` |
| `KoinlyConvert.ConvertRow` | koinly_convert.py:130-237 | the branching loop body produces exactly the reference line `MeriaLine(row)` and the row's diagnostic |
| `KoinlyConvert.ConvertMeria` | koinly_convert.py:118-239 | exactly one line per data row, in row order, unhandled rows included; line i is the reference line of row i; diagnostics come out in row order |
| `KoinlyConvert.LineDateAndHash` | koinly_convert.py:130-141 | the date is column 11 verbatim; the hash is absent exactly when column 0 is `n/a`, and otherwise equals column 0 |
| `KoinlyConvert.LineCurrenciesNormalized` | koinly_convert.py:227-237 | the sent, received and fee currencies are never `LUNA`; a filled currency is the normalised source or destination currency; amounts are copied verbatim; net-worth fields stay absent |
| `KoinlyConvert.CreditLine` | koinly_convert.py:152-166 | a credit with airdrop/deposit/order/reward/unstaking/resale fills only the received side from the destination columns; its label is `txInfo` for airdrop and reward, `unstake` for unstaking and resale, otherwise `liquidity in` exactly when the currency is EUR; no diagnostic |
| `KoinlyConvert.DebitLine` | koinly_convert.py:174-187 | a debit with masternode/order/reinvestment/staking fills only the sent side from the source columns; its label is `cost` for order and `stake` otherwise; no diagnostic |
| `KoinlyConvert.ExchangeLine` | koinly_convert.py:192-204 | an exchange with empty `txInfo` fills both sides and is labelled `swap` |
| `KoinlyConvert.WithdrawLine` | koinly_convert.py:209-219 | a withdrawal with empty `txInfo` fills only the sent side, has no label, and is described as destination type, address and memo joined by spaces |
| `KoinlyConvert.FeeRule` | koinly_convert.py:152-216 | a fee is recorded exactly when the row is handled and the fee percentage is positive; amount and currency come together; the fee currency is the received currency for a credit and the sent currency otherwise |
| `KoinlyConvert.HandledLineMovesValue` | koinly_convert.py:152-219 | every handled row fills at least one side, always with amount and currency together |
| `KoinlyConvert.UnhandledLineIsBare` | koinly_convert.py:221-237 | an unhandled or claim row still yields a line, with only its date and hash; a diagnostic is reported exactly when it is not a claim |
| `KoinlyConvert.ClaimIsSubstringTest` | koinly_convert.py:168-169 | every credit whose `txInfo` is a piece of `claim` is treated as a claim, with no line content and no diagnostic |
| `KoinlyConvert.EmptyAndClCreditsAreClaims` | koinly_convert.py:168-172 | the empty `txInfo` and `cl` on a credit are accepted silently as claims |
| `KoinlyCheck.BalanceChanges.constructor` | koinly_check.py:63 | the dictionary starts empty, so the class invariant `Valid()` (the empty currency is never a key) holds from the start |
| `KoinlyCheck.BalanceChanges.InitForCurrency` | koinly_check.py:42-44 | the new dictionary is `WithEntry` of the old one, and `Valid()` is kept |
| `KoinlyCheck.WithEntry` | koinly_check.py:42-44 | only a non-empty currency that has no entry gains one, with value 0; all existing entries are unchanged |
| `KoinlyCheck.BalanceChanges.Increase` | koinly_check.py:47-49 | the new dictionary, or the missing key with the dictionary unchanged, is `Increased` of the old one, and `Valid()` is kept |
| `KoinlyCheck.Increased` | koinly_check.py:47-49 | a non-empty amount is added to that currency's entry and to no other; an empty amount changes nothing; a non-empty amount on a currency with no entry is the KeyError on that currency |
| `KoinlyCheck.BalanceChanges.Decrease` | koinly_check.py:52-54 | the new dictionary, or the missing key with the dictionary unchanged, is `Decreased` of the old one, and `Valid()` is kept |
| `KoinlyCheck.Decreased` | koinly_check.py:52-54 | like `Increased`, but the amount is subtracted |
| `KoinlyCheck.WithRowEntries` | koinly_check.py:77-79 | after the three initialisations, the keys are the old keys plus the row's non-empty currencies; old entries are kept and new ones are 0 |
| `KoinlyCheck.BalanceChanges.ApplyRow` | koinly_check.py:77-83 | one turn of the loop leaves exactly the map, or the missing key, given by `AfterRow` of the old map, and `Valid()` is kept |
| `KoinlyCheck.AfterRowEffect` | koinly_check.py:77-83 | on a map without the empty currency, a row fails exactly when it puts an amount on an empty currency, and the missing key is then ""; otherwise every currency the row names becomes a key, each entry moves by received − sent − fee on it for that row, and other entries are unchanged |
| `KoinlyCheck.FirstFailure` | koinly_check.py:69-83 | the position returned is a row that puts an amount on an empty currency, and no earlier row does; when there is none, no row does |
| `KoinlyCheck.SummaryStep` | koinly_check.py:77-83 | when the map has no empty-currency key and summarises the rows so far (keys are exactly the named currencies, each with its net change), a turn of the loop that does not miss a key makes it summarise the rows with one more |
| `KoinlyCheck.CheckBalanceChanges` | koinly_check.py:63-83 | the run fails, with the missing key "", at the first row that puts an amount on an empty currency; otherwise the key set is exactly the non-empty currencies named in any sent, received or fee column, and each value is Σreceived − Σsent − Σfees for that currency |
| `KoinlyCheck.NetStep` | koinly_check.py:77-83 | one more row changes a currency's total by that row's received − sent − fee on it, and a currency the row does not name keeps its total |
| `KoinlyCheck.UnnamedCurrencyUnchanged` | koinly_check.py:69-83 | a non-empty currency that no row names has a total change of 0 |
| `KoinlyCheck.StripTrailingZeros` | koinly_check.py:33-34 | the result is a prefix of the input, only '0's were removed, and it does not end in '0' |
| `KoinlyCheck.TrimAmountText` | koinly_check.py:33-39 | the trim fails (Python's IndexError) exactly when the text is made only of '0's, the empty text included |
| `KoinlyCheck.TrimAmount` | koinly_check.py:33-39 | the `while` loop and the final `if` compute exactly `TrimAmountText` |
| `KoinlyCheck.TrimmedAmountShape` | koinly_check.py:30-39 | on text with exactly one '.': the result is a prefix of the input that keeps the integer part, drops only the '.' and zeros, never ends in '.', and a fraction it keeps never ends in '0' |

## Left out

- `doConvert`, `checkBalanceChanges`'s argument handling, and the `__main__` blocks are not modelled. They cover command-line arguments, opening files, the file-not-found messages and writing the CSV output. All of this is I/O.
- `csvReader` (both files) is not modelled. It is a thin wrapper over Python's `csv` reader. The converter takes its rows already split into the 12 named fields of `MeriaRow`. The checker takes its rows already split into the six columns of `LedgerRow`. A row with too few columns (Python's IndexError) is not modelled.
- Parsing column 9 with `float(...)` is not modelled. `MeriaRow.feePercent` is the number the column parses to, and a non-numeric cell (ValueError) is not modelled. The fee amount `str(feeMultiplier * float(amount))` is the text `formatFee(multiplier, amount)`, where `formatFee` is a parameter. Its ValueError on a non-numeric amount is not modelled.
- The diagnostics printed to standard error are returned as a sequence of `Diagnostic` values instead of being printed.
- The checker's `float(amount)` becomes exact real arithmetic. An amount cell is given as the number it holds, so a non-numeric amount (ValueError) and floating-point rounding are not modelled.
- `formatAmount`'s rendering `f'{amount:.20f}'` is not modelled, and neither is the printing of each currency with its `+` sign. `TrimAmount` takes the rendered text as input. The order in which the dictionary's entries are printed is not modelled either.
- KoinlyCheck.BalanceChanges.ApplyRow: on a missing key the contract says nothing about the dictionary. Python leaves it partly updated, but the run then aborts, and `CheckBalanceChanges` returns only the error.
- The net-worth fields are carried as optional values. The converter never fills them.

