# stockwatch: a Dafny model of the cost-basis reconciliation

stockwatch tracks a share portfolio from two kinds of broker exports:

- dated position snapshots (one portfolio file per date);
- a ledger of share transactions.

Its core reconciles the two. Each purchase, sale, dividend or expense adds to, or sets, the `investment` and `realized` fields of the positions dated on or after it. The repository keeps several generations of this code side by side. Each is modelled as its own module, without merging their semantics.

| module | source file | what it holds |
|---|---|---|
| `Shares` | `src/stockwatch/entities/shares.py` | the current engine: positions with derived fields, portfolios with aggregates, `to_portfolios`, the date lookups, `_get_transaction_result` and an in-place `apply_transactions` over a `PortfoliosDictionary` class |
| `Entities` | `src/stockwatch/entities.py` | the older engine: rounded totals, a `SharePortfolio` class whose `update_investment_realization` overwrites a position in place, and the three `_process_*_transaction` methods |
| `Money` | `src/stockwatch/entities/money.py` | the currency-tagged `Amount` (an exact value and its 2-decimal rounding) and the mutable `CurrencyExchange` tracer |
| `Currencies` | `src/stockwatch/entities/currencies.py` | the `Amount` variant that divides by numbers only |
| `Entities2Currencies` | `src/stockwatch/entities2/currencies.py` | `AmountInEUR`/`AmountInUSD`, whose arithmetic starts from rounded values |
| `Entities2Transactions` | `src/stockwatch/entities2/transactions.py` | a `CurrencyExchange` variant without a currency check, and its `ShareTransaction` |
| `SharesTests` | `tests/test_entities_shares.py` | the reconciliation tests, stated on `Shares.ApplyAll` of their own transactions and snapshots |
| `Transactions` | `src/stockwatch/entities/transactions.py` | the frozen, field-by-field ordered `ShareTransaction` and the sort the engine applies |
| `Importing` | `src/stockwatch/use_cases/importing.py` | the ledger-row classifier, the ISIN filter of `process_transactions`, the back-fill/forward-fill snapshot builder `process_portfolios`, and the bounded price lookup |
| `Runtime` | `src/stockwatch/app/runtime.py` | the date window over the loaded portfolios and the default start and end dates |
| `Degiro` | `src/stockwatch/use_cases/degiro.py` | the session-id and account-id validators, and the progress percentage of the scrape thread |
| `ScrapingPage` | `src/stockwatch/app/pages/scraping.py` | the login-form validators and the execute button's state |

Helper modules:

- `Wrappers` holds `Option` and `Result`.
- `Calendar` holds dates and datetimes. A date is its proleptic Gregorian ordinal, so 2020-01-01 is 737425.
- `Decimal` holds `Round2`, which rounds half to even on exact reals.
- `Text` holds Python's `str` order, `str.split()`, `list.index`, one-character `str.replace` and `float()` on decimal notation: an optional sign, surrounding whitespace and `_` between digits.
- `Sorting` holds a stable insertion sort that stands for `sorted`.

Modelling conventions:

- Amounts are exact `real`s tagged with a currency string.
- `round(x, 2)` is `Round2`, not IEEE arithmetic.
- A Python `assert` a caller must satisfy becomes a `requires`.
- An exception the code raises on purpose, or on input it reads, becomes a `Result` failure. Examples are `NotImplementedError` from a comparison, `IndexError`, `ValueError` and `KeyError` from a row, and the `ZeroDivisionError` of `progress`.

Behaviours the model exhibits:

- `Amount.__gt__` in two files evaluates `>=` (see Findings).
- In `Entities2Transactions`, `can_take_exchange_amount` has no currency check of its own. An amount in another currency is refused only when the exchange is already traced or the sign is opposite. Otherwise it reaches the currency assertion of the subtraction, which the model states as a precondition (`ReachesSubtraction`).
- The older engine overwrites: a transaction writes an absolute `investment`/`realized` computed from one portfolio into every portfolio dated on or after it. A purchase followed, in the same gap between two portfolios, by a dividend on the same ISIN therefore loses the purchase. The dividend recomputes from the older portfolio, which does not hold the ISIN yet. `Entities.SameGapOverwriteLosesPurchase` shows this. The current engine adds deltas instead, and two sales in one gap share one buy price (`Shares.SalesInOneGapShareBuyPrice`).
- `tests/test_entities_shares.py` imports `entities2.shares`, which is not part of this model. Its tests are stated on `Shares.ApplyAll` of the sorted transactions and the tests' two snapshots, in `SharesTests`. Where the tests' numbers agree with `shares.py`, they are proved as written. The double-sale and double-purchase tests build their halves with `replace(..., nr_stocks=...)` and keep the full amount of each transaction. Under `shares.py`, the double sale then ends today at realized 1159.30 (`SharesTests.DoubleSellOracle`), not the 122.86 the test asserts. The double purchase ends at investment 3090.00 (`SharesTests.DoubleBuyOracle`), not 2060.0.
- In `importing.py`, the positional `ShareTransaction(...)` calls pass the date first, then the kind, ISIN, currency, count and price. That order matches none of the transaction records shown. The model builds the older engine's `Entities.ShareTransaction` from the same values by meaning: kind, ISIN, the row's currency, count, price and date. The `SharePosition` keywords of `process_portfolios` match the older `entities.SharePosition`, so rows build positions of `Entities`. The placeholder calls `SharePosition.empty_position(position_date=..., isin=..., name=...)` (importing.py:164-166 and 188-190) use the keywords of the current engine's `empty_position` (shares.py:43-49). The older `empty_position(the_date, the_isin)` (entities.py:75) has neither those keywords nor a name, so that call raises `TypeError` against the module the rows use. The model repairs it by meaning, in `Importing.Placeholder`: an older-module position with what the current `empty_position` gives, namely no value, investment, stocks or realized return, price 1, the given date and ISIN, and the given name.
- `importing.py:6-14` imports `SharePortfolio`, `SharePosition`, `apply_transactions` and the other names from the `stockwatch.entities` package. That package's `__init__.py:7` only imports its submodules `currencies`, `shares` and `transactions`, so the names do not exist there. The model binds each name to the module whose signature the calls match, as described above.
- `entities2/transactions.py:7` imports `Amount` from `entities2/currencies.py`, which defines only `AmountInCurrency`, `AmountInEUR` and `AmountInUSD`. The model types that module's amounts with `Currencies.Amount`.

## Model

| member | source | states |
|---|---|---|
| Decimal.Round2 | src/stockwatch/entities/money.py:30-31 | `round(x, 2)`: a whole number of cents within half a cent of x |
| Decimal.Round2OfCents | src/stockwatch/entities/money.py:30-31 | a whole number of cents rounds to itself |
| Decimal.Round2Idempotent | src/stockwatch/entities/money.py:30-31 | rounding a rounded value changes nothing |
| Decimal.Round2Neg | src/stockwatch/entities/money.py:30-31 | ties to even make rounding symmetric: Round2(-x) == -Round2(x) |
| Decimal.Round2Monotone | src/stockwatch/entities/money.py:30-31 | rounding preserves order |
| Decimal.CentsMargin | src/stockwatch/entities/money.py:136-154 | for a cent amount, below 0.05 means at most 0.04 and above -0.05 means at least -0.04, which turns the tracer's margin into exact bounds |
| Decimal.Round2Nearest | src/stockwatch/entities/money.py:30-31 | a value closer than half a cent to a cent amount rounds to it |
| Calendar.DateTimeLess | src/stockwatch/entities/transactions.py:36 | naive datetimes are ordered by date, then by time of day |
| Text.StrLessTotal | src/stockwatch/entities/transactions.py:22 | Python's `<` on distinct strings holds one way or the other |
| Text.StrLessIrreflexive | src/stockwatch/entities/transactions.py:22 | no string is less than itself |
| Text.StrLessTransitive | src/stockwatch/entities/transactions.py:22 | Python's `<` on strings is transitive |
| Text.StrLessAsymmetric | src/stockwatch/entities/transactions.py:22 | Python's `<` on strings never holds both ways |
| Text.IsSpaceOracle | src/stockwatch/use_cases/importing.py:24 | the ASCII whitespace and the Unicode spaces split words; letters, digits and punctuation do not |
| Text.Split | src/stockwatch/use_cases/importing.py:24 | `str.split()` yields only non-empty words without whitespace |
| Text.SplitJoinRoundTrip | src/stockwatch/use_cases/importing.py:24 | splitting words joined by spaces gives the words back |
| Text.IndexOf | src/stockwatch/use_cases/importing.py:25 | `list.index`: None iff the word is absent, otherwise its first position |
| Text.IndexOfFirst | src/stockwatch/use_cases/importing.py:25 | the first occurrence is the position `index` finds |
| Text.ReplaceChar | src/stockwatch/use_cases/importing.py:26 | `replace(",", ".")` keeps the length and swaps exactly the commas |
| Text.Ungrouped | src/stockwatch/use_cases/importing.py:26 | dropping the `_` separators: no longer, no underscore left, only characters of the input, and a digit string unchanged |
| Text.UngroupedDigits | src/stockwatch/use_cases/importing.py:26 | digits grouped by single underscores between digits are all digits once the underscores are dropped |
| Text.LStrip | src/stockwatch/use_cases/importing.py:26 | the whitespace `float()` ignores in front: a suffix of the input, everything dropped is whitespace, and it starts with none |
| Text.RStrip | src/stockwatch/use_cases/importing.py:26 | the trailing whitespace `float()` ignores: a prefix of the input, everything dropped is whitespace, and it ends with none |
| Text.StripPadded | src/stockwatch/use_cases/importing.py:26 | stripping whitespace added around a string is stripping the string |
| Text.ParseSigned | src/stockwatch/use_cases/importing.py:26 | once stripped, a non-empty digit string reads as its decimal value |
| Text.ParseDecimal | src/stockwatch/use_cases/importing.py:26 | `float()` of a non-empty digit string is its decimal value |
| Text.ParseDecimalPadded | src/stockwatch/use_cases/importing.py:26 | whitespace around a number does not change what `float()` reads |
| Text.ParseDecimalSign | src/stockwatch/use_cases/importing.py:26 | after the whitespace, a leading minus negates the number, a plus keeps it, and either fails exactly when the unsigned rest fails |
| Text.ParseGroupedWhole | src/stockwatch/use_cases/importing.py:26 | digits grouped by single underscores read as the digits without them |
| Text.PaddedAndGroupedOracle | src/stockwatch/use_cases/importing.py:26 | " 12\n" is 12.0 and "1_000" is 1000.0; "1__0", "_1", "1_" and "- 5" are ValueError |
| Text.ParseDecimalOracles | src/stockwatch/use_cases/importing.py:59 | "25,24" reads as 25.24, "12" as 12.0; "abc" is a ValueError |
| Sorting.SortBy | src/stockwatch/entities/shares.py:238 | `sorted`: a permutation of the input and sorted |
| Sorting.InsertBy | src/stockwatch/entities/shares.py:238 | inserting one element keeps the multiset plus that element, and keeps a sorted sequence sorted |
| Money.Amount.Value | src/stockwatch/entities/money.py:26-31 | `value` is `value_exact` rounded to cents, within half a cent |
| Money.Amount.Lt | src/stockwatch/entities/money.py:33-37 | raises iff the operand is not an Amount of the same currency; otherwise compares rounded values with `<` |
| Money.Amount.Le | src/stockwatch/entities/money.py:39-43 | raises iff the operand is not an Amount of the same currency; otherwise compares rounded values with `<=` |
| Money.Amount.Eq | src/stockwatch/entities/money.py:45-49 | raises iff the operand is not an Amount; holds iff the currencies and the rounded values are equal |
| Money.Amount.Ge | src/stockwatch/entities/money.py:51-55 | raises iff the operand is not an Amount of the same currency; otherwise compares rounded values with `>=` |
| Money.Amount.Gt | src/stockwatch/entities/money.py:57-61 | as written: raises on a mismatch, otherwise holds iff the rounded value is `>=` the other's |
| Money.Amount.GtStrict | src/stockwatch/entities/money.py:57-58 | as documented: strictly greater rounded value |
| Money.Amount.Add | src/stockwatch/entities/money.py:63-66 | equal currencies required; the currency is kept and the exact values add |
| Money.Amount.Sub | src/stockwatch/entities/money.py:68-71 | equal currencies required; the currency is kept and the exact values subtract |
| Money.Amount.Neg | src/stockwatch/entities/money.py:73-75 | the currency is kept and the exact value negated |
| Money.Amount.Pos | src/stockwatch/entities/money.py:77-79 | unary plus is the identity |
| Money.Amount.Mul | src/stockwatch/entities/money.py:81-87 | `*` and `rmul` keep the currency and scale the exact value |
| Money.Amount.Div | src/stockwatch/entities/money.py:89-95 | by a non-zero number or an Amount of the same currency: the result times the divisor is the dividend, in self's currency |
| Money.EqIsEquivalence | src/stockwatch/entities/money.py:45-49 | `==` on amounts is reflexive, symmetric and transitive |
| Money.ComparisonTrichotomy | src/stockwatch/entities/money.py:33-61 | within one currency exactly one of `<`, `==` and strict `>` holds; `<=` and `>=` are their disjunctions |
| Money.GtAcceptsEqualAmounts | src/stockwatch/entities/money.py:57-61 | two equal amounts compare as greater under `>` and not under the strict order |
| Money.GtStrictIsConverseOfLt | src/stockwatch/entities/money.py:33-61 | the strict `>` is the converse of `<` and fails on equal amounts |
| Money.AddSubRoundTrip | src/stockwatch/entities/money.py:63-75 | adding then subtracting an amount gives the start back; `a - b == a + (-b)`; double negation is the identity |
| Money.MulDivRoundTrip | src/stockwatch/entities/money.py:81-92 | dividing by a non-zero number undoes multiplying by it, and conversely |
| Money.ComparisonOracles | tests/test_entities_money.py:44-63 | the comparisons of the tests, including the four that raise for USD and the one for a float |
| Money.ArithmeticOracles | tests/test_entities_money.py:66-76 | the arithmetic of the tests: `+a == a`, `2a == b`, `b/2 == a`, `a + b == 10.0`, `a - b == -a` |
| Money.Residual | src/stockwatch/entities/money.py:131-134 | the residual plus the traced amount is `-amount_from`, in its currency |
| Money.ToEur | src/stockwatch/entities/money.py:160 | the returned EUR amount times the exact rate is the amount taken |
| Money.CurrencyExchange.constructor | src/stockwatch/entities/money.py:119-124 | requires a positive rate and a non-zero rounded amount; sets `amount_to` to `-from/rate` in EUR and `rate_exact` to `-from.value/to.value`, and starts `amount_trans` at zero in the source currency |
| Money.CurrencyExchange.ExchangeDate | src/stockwatch/entities/money.py:126-129 | the date part of the exchange datetime |
| Money.CurrencyExchange.AmountTransRemaining | src/stockwatch/entities/money.py:131-134 | `-amount_from - amount_trans` |
| Money.CurrencyExchange.TakeExchange | src/stockwatch/entities/money.py:156-160 | requires acceptance; adds the amount to `amount_trans`, keeps the tracer valid and returns the amount in EUR at the exact rate |
| Money.TracedFully | src/stockwatch/entities/money.py:136-139 | the rounded residual within 0.05 of zero: a traced exact residual is within 0.045, and any residual strictly within 0.045 is traced |
| Money.Accepts | src/stockwatch/entities/money.py:141-154 | an accepted amount has the exchange's currency, the exchange is not traced, and the amount overshoots the exact residual by at most 0.045 |
| Money.ResidualAcceptsItself | src/stockwatch/entities/money.py:136-154 | an exchange not yet traced accepts its own residual |
| Money.CurrencyExchange.HasBeenTracedFully | src/stockwatch/entities/money.py:136-139 | a traced exchange accepts no amount; an untraced one accepts what remains |
| Money.CurrencyExchange.CanTakeExchange | src/stockwatch/entities/money.py:141-154 | an accepted amount has the exchange's currency and keeps a valid exchange within its margin once taken |
| Money.AcceptKeepsWithinMargin | src/stockwatch/entities/money.py:141-159 | an accepted amount keeps the residual on the right side of zero within 0.05, and the new residual is the old minus the amount |
| Money.AcceptedAmountFits | src/stockwatch/entities/money.py:141-154 | an accepted amount has the exchange's currency and the residual's sign, and the exchange was not yet fully traced |
| Money.TracedExchangeAcceptsNothing | src/stockwatch/entities/money.py:136-146 | a fully traced exchange accepts nothing |
| Money.ExchangeOracleStart | tests/test_entities_money.py:88-93 | -80.24 USD at 1.1095 is 72.32 EUR, is not traced, refuses 25.24 EUR and accepts 25.24 USD |
| Money.ExchangeOracleOvershoot | tests/test_entities_money.py:94-96 | after 25.24 USD, 80.24 USD overshoots the residual and is refused |
| Money.ExchangeOracleExactFit | tests/test_entities_money.py:97 | after 25.24 USD, 55.00 USD is accepted |
| Money.ExchangeOracleAfterSecondTake | tests/test_entities_money.py:98-101 | after both takes the exchange is fully traced and refuses 0.01 USD |
| Money.ExchangeOracleEurTotal | tests/test_entities_money.py:99 | the two EUR results sum to 72.32 |
| Money.OppositeExchangeOracle | tests/test_entities_money.py:104-108 | +80.24 USD refuses a positive amount and accepts -55.00 USD |
| Currencies.Amount.Value | src/stockwatch/entities/currencies.py:22-27 | `value` is `value_exact` rounded to cents, within half a cent |
| Currencies.Amount.Lt | src/stockwatch/entities/currencies.py:29-33 | raises iff the operand is not an Amount of the same currency; otherwise `<` on rounded values |
| Currencies.Amount.Le | src/stockwatch/entities/currencies.py:35-39 | raises iff the operand is not an Amount of the same currency; otherwise `<=` on rounded values |
| Currencies.Amount.Eq | src/stockwatch/entities/currencies.py:41-45 | raises iff the operand is not an Amount; holds iff currencies and rounded values are equal |
| Currencies.Amount.Ge | src/stockwatch/entities/currencies.py:47-51 | raises iff the operand is not an Amount of the same currency; otherwise `>=` on rounded values |
| Currencies.Amount.Gt | src/stockwatch/entities/currencies.py:53-57 | as written: raises on a mismatch, otherwise `>=` on rounded values |
| Currencies.Amount.GtStrict | src/stockwatch/entities/currencies.py:53-54 | as documented: strictly greater rounded value |
| Currencies.Amount.Add | src/stockwatch/entities/currencies.py:59-62 | equal currencies required; exact values add in self's currency |
| Currencies.Amount.Sub | src/stockwatch/entities/currencies.py:64-67 | equal currencies required; exact values subtract in self's currency |
| Currencies.Amount.Neg | src/stockwatch/entities/currencies.py:69-71 | the exact value negated, currency kept |
| Currencies.Amount.Pos | src/stockwatch/entities/currencies.py:73-75 | unary plus is the identity |
| Currencies.Amount.Mul | src/stockwatch/entities/currencies.py:77-83 | `*` and `rmul` scale the exact value, currency kept |
| Currencies.Amount.Div | src/stockwatch/entities/currencies.py:85-87 | dividing by a non-zero number: the result times the divisor is the dividend |
| Currencies.GtAcceptsEqualAmounts | src/stockwatch/entities/currencies.py:53-57 | two equal amounts compare as greater under `>` and not under the strict order |
| Currencies.GtStrictIsConverseOfLt | src/stockwatch/entities/currencies.py:29-57 | the strict `>` is the converse of `<` and fails on equal amounts |
| Currencies.ArithmeticRoundTrips | src/stockwatch/entities/currencies.py:59-87 | add then subtract is the identity, `a - b == a + (-b)`, and dividing undoes multiplying |
| Currencies.ComparisonOracles | tests/test_entities_currencies.py:25-44 | the comparisons of the tests, including those that raise |
| Currencies.ArithmeticOracles | tests/test_entities_currencies.py:47-60 | the arithmetic of the tests: `+a == a`, `2a == b`, `b/2 == a`, `a + b == 10.0`, `a - b == -a` |
| Entities2Currencies.AmountInCurrency.Curr | src/stockwatch/entities2/currencies.py:65-68 | the subclass fixes the currency: EUR for `AmountInEUR`, USD for `AmountInUSD` |
| Entities2Currencies.AmountInCurrency.Value | src/stockwatch/entities2/currencies.py:27-29 | `value` is `value_exact` rounded to cents |
| Entities2Currencies.AmountInCurrency.Add | src/stockwatch/entities2/currencies.py:35-38 | equal currencies required; same subclass; the exact value is the sum of the rounded operands, already in cents |
| Entities2Currencies.AmountInCurrency.Sub | src/stockwatch/entities2/currencies.py:40-43 | equal currencies required; same subclass; the exact value is the difference of the rounded operands, already in cents |
| Entities2Currencies.AmountInCurrency.Neg | src/stockwatch/entities2/currencies.py:45-47 | same subclass; the negated rounded value, already exact in cents |
| Entities2Currencies.AmountInCurrency.Mul | src/stockwatch/entities2/currencies.py:49-51 | same subclass; the exact value is the rounded value times the factor, and rounds to within half a cent of it |
| Entities2Currencies.SumsAreExact | src/stockwatch/entities2/currencies.py:35-43 | addition of these amounts is associative and commutative, and subtraction undoes it, exactly in cents |
| Entities2Currencies.MulAgreesWithAdd | src/stockwatch/entities2/currencies.py:35-51 | scaling by 1, 2, -1 and 0 keeps the value, doubles it as addition does, negates it as `-self` does, and clears it |
| Entities2Currencies.RoundedAdditionDiffersFromExact | src/stockwatch/entities2/currencies.py:38 | 0.004 + 0.004 is 0.00 here and 0.01 for `Money.Amount` |
| Entities2Transactions.Residual | src/stockwatch/entities2/transactions.py:55-58 | the residual plus the traced amount is `-amount_from` |
| Entities2Transactions.ToEur | src/stockwatch/entities2/transactions.py:82-84 | the EUR amount times the exact rate is the amount taken |
| Entities2Transactions.CurrencyExchange.constructor | src/stockwatch/entities2/transactions.py:43-48 | requires a positive rate and a non-zero rounded amount; sets `amount_to`, `exchange_rate_exact` and a zero `amount_trans` |
| Entities2Transactions.CurrencyExchange.ExchangeDate | src/stockwatch/entities2/transactions.py:50-53 | the date part of the exchange datetime |
| Entities2Transactions.CurrencyExchange.AmountTransRemaining | src/stockwatch/entities2/transactions.py:55-58 | `-amount_from - amount_trans` |
| Entities2Transactions.CurrencyExchange.TakeExchange | src/stockwatch/entities2/transactions.py:78-84 | requires acceptance; `amount_trans` grows by the amount, the tracer stays valid, the result is EUR at the exact rate |
| Entities2Transactions.TracedFully | src/stockwatch/entities2/transactions.py:60-63 | the rounded residual within 0.05 of zero: a traced exact residual is within 0.045, and any residual strictly within 0.045 is traced |
| Entities2Transactions.Accepts | src/stockwatch/entities2/transactions.py:65-76 | an accepted amount has the exchange's currency, the exchange is not traced, and the amount overshoots the exact residual by at most 0.045 |
| Entities2Transactions.ResidualAcceptsItself | src/stockwatch/entities2/transactions.py:60-76 | an exchange not yet traced accepts its own residual |
| Entities2Transactions.CurrencyExchange.HasBeenTracedFully | src/stockwatch/entities2/transactions.py:60-63 | a traced exchange refuses every amount before the subtraction; an untraced one accepts what remains |
| Entities2Transactions.CurrencyExchange.CanTakeExchangeAmount | src/stockwatch/entities2/transactions.py:65-76 | an accepted amount has the exchange's currency and keeps a valid exchange within its margin once taken |
| Entities2Transactions.AcceptKeepsWithinMargin | src/stockwatch/entities2/transactions.py:65-81 | an accepted amount has the exchange's currency and keeps the residual within 0.05 on the right side |
| Entities2Transactions.AcceptanceTolerance | src/stockwatch/entities2/transactions.py:72-76 | a negative amount is accepted iff residual - amount < 0.05, any other iff it is > -0.05 |
| Entities2Transactions.NoCurrencyCheck | src/stockwatch/entities2/transactions.py:65-71 | an EUR amount of the opposite sign is refused without reaching the currency assertion; one of the residual's sign reaches it |
| Entities2Transactions.TracedExchangeAcceptsNothing | src/stockwatch/entities2/transactions.py:60-68 | a fully traced exchange refuses any amount, in any currency |
| Entities2Transactions.ExchangeOracleStart | tests/test_entities_money.py:88-93 | -80.24 USD at 1.1095 is 72.32 EUR and accepts 25.24 USD; the EUR probe reaches the assertion |
| Entities2Transactions.ExchangeOracleOvershoot | tests/test_entities_money.py:94-96 | after 25.24 USD, 80.24 USD is refused |
| Entities2Transactions.ExchangeOracleExactFit | tests/test_entities_money.py:97 | after 25.24 USD, 55.00 USD is accepted |
| Entities2Transactions.ExchangeOracleTraced | tests/test_entities_money.py:98-101 | then the exchange is traced, refuses 0.01 USD, and the EUR results sum to 72.32 |
| Entities2Transactions.OppositeExchangeOracle | tests/test_entities_money.py:104-108 | +80.24 USD refuses a positive amount and accepts -55.00 USD |
| Entities2Transactions.ShareTransaction.TransactionDate | src/stockwatch/entities2/transactions.py:110-113 | the date part of the transaction datetime |
| Entities2Transactions.EarlierDatetimeSortsFirst | src/stockwatch/entities2/transactions.py:87-108 | the generated order starts with the datetime, so an earlier one sorts first and sorted dates never decrease |
| Entities2Transactions.LessIsStrictTotal | src/stockwatch/entities2/transactions.py:87-108 | between comparable transactions the order is irreflexive, asymmetric and total |
| Transactions.ShareTransaction.TransactionDate | src/stockwatch/entities/transactions.py:43-46 | the date part of the transaction datetime |
| Transactions.Compare | src/stockwatch/entities/transactions.py:22-41 | field by field: different datetimes always compare; raising needs equal datetime, ISIN and count; `<` and `>` never contradict the datetime order |
| Transactions.Less | src/stockwatch/entities/transactions.py:22-41 | an earlier datetime is less, a later one never is |
| Transactions.AmountOrder | src/stockwatch/entities/money.py:33-61 | an Amount field comparison raises iff the currencies differ |
| Transactions.EarlierDatetimeSortsFirst | src/stockwatch/entities/transactions.py:22-41 | an earlier datetime sorts first under both `<` and `>` |
| Transactions.LargerAmountSortsLater | tests/test_entities_transactions.py:72-78 | when all leading fields tie, the larger amount sorts later |
| Transactions.GtIsConverseOfLt | src/stockwatch/entities/transactions.py:22 | the generated `>` is the converse of `<`, despite `Amount.__gt__` being `>=` |
| Transactions.LessIrreflexive | src/stockwatch/entities/transactions.py:22 | no transaction is less than itself |
| Transactions.LessAsymmetric | src/stockwatch/entities/transactions.py:22 | `<` never holds both ways |
| Transactions.LessIsAsymmetric | src/stockwatch/entities/shares.py:238 | the transaction order is asymmetric, as the sort requires of its order |
| Transactions.ComparableSymmetric | src/stockwatch/entities/transactions.py:22 | whether two transactions compare without raising does not depend on their order |
| Transactions.SortingOracle | tests/test_entities_transactions.py:64-78 | the buy of 7 days back sorts after the sell of 9 days back, the larger sell after the smaller, and the date is 9 days back |
| Transactions.SortTransactions | src/stockwatch/entities/shares.py:238 | `sorted(transactions)` is a sorted permutation |
| Transactions.SortedDatesNonDecreasing | src/stockwatch/entities/shares.py:241-244 | in sorted transactions the dates never decrease, which the forward-only search relies on |
| Shares.SharePosition.Unrealized | src/stockwatch/entities/shares.py:62-64 | `unrealized == value - investment`, exactly |
| Shares.SharePosition.TotalReturn | src/stockwatch/entities/shares.py:62-65 | `total_return == realized + unrealized` |
| Shares.SharePosition.WithInvestmentRealized | src/stockwatch/entities/shares.py:274-278 | `replace` sets investment and realized and keeps every other field |
| Shares.EmptyPosition | src/stockwatch/entities/shares.py:42-60 | value 0, investment 0, no stocks, price 1.0, the given date, ISIN, name ("Name Unknown" by default) and realized |
| Shares.PositionReturns | src/stockwatch/entities/shares.py:62-65 | every position satisfies the two derived-field identities |
| Shares.EmptyPositionReturns | src/stockwatch/entities/shares.py:42-65 | an empty position has no unrealized return and a total return equal to what it realized |
| Shares.PositionReturnsOracle | tests/test_entities_shares.py:227-240 | the unrealized and total returns of the tests' position |
| Shares.Sum | src/stockwatch/entities/shares.py:114-120 | `sum(..., Amount(0.0))` over EUR positions is in EUR |
| Shares.SharePortfolio.IsDateConsistent | src/stockwatch/entities/shares.py:144-149 | on a consistent portfolio every `get_position` answer carries the portfolio's date |
| Shares.SharePortfolio.Contains | src/stockwatch/entities/shares.py:124-126 | holds iff some position has the ISIN |
| Shares.SharePortfolio.AllIsins | src/stockwatch/entities/shares.py:136-138 | the ISINs of the positions, in order |
| Shares.SharePortfolio.GetPosition | src/stockwatch/entities/shares.py:124-134 | the first position with the ISIN when one exists, otherwise an empty one dated the portfolio's date |
| Shares.FirstWithIsin | src/stockwatch/entities/shares.py:130-133 | None iff no position has the ISIN, otherwise the index of one that has |
| Shares.NewSharePortfolio | src/stockwatch/entities/shares.py:95-122 | the date is the first position's, today's without positions; construction asserts one date for all positions |
| Shares.AggregateInvariant | src/stockwatch/entities/shares.py:104-121 | the aggregates keep the identities unrealized == value - investment and total == realized + unrealized |
| Shares.SumAppend | src/stockwatch/entities/shares.py:114-120 | each aggregate is the sum of that field: appending a position adds its field |
| Shares.PortfolioTotalsOracle | tests/test_entities_shares.py:199-240 | the totals of the tests' snapshot of three weeks back |
| Shares.LookupOracle | tests/test_entities_shares.py:211-225 | a missing ISIN is not contained and gives an empty, unnamed position; a present one gives its own |
| Shares.MinOf | src/stockwatch/entities/shares.py:167-169 | the earliest date of a non-empty set |
| Shares.SortedDates | src/stockwatch/entities/shares.py:237 | the map's dates, strictly increasing, each exactly once |
| Shares.SortedPositions | src/stockwatch/entities/shares.py:161 | `sorted(sps_dict.values())`: exactly the snapshot's positions, one per key, sorted |
| Shares.ValuesOfSnapshot | src/stockwatch/entities/shares.py:161 | a snapshot keyed by ISIN has as many values as keys |
| Shares.PortfolioAt | src/stockwatch/entities/shares.py:161 | one date's portfolio: that date, or today for an empty snapshot; date consistent, EUR, holding exactly the snapshot's positions, sorted |
| Shares.ToPortfolios | src/stockwatch/entities/shares.py:152-164 | one portfolio per map date, in strictly increasing date order, each the portfolio of its date |
| Shares.EmptySnapshotIsDatedToday | src/stockwatch/entities/shares.py:95-101 | an empty snapshot becomes a portfolio without positions, worth nothing, dated today |
| Shares.PortfoliosAtDates | src/stockwatch/entities/shares.py:156-163 | the portfolios of the given dates, in their order |
| Shares.ToPortfoliosCoversDates | src/stockwatch/entities/shares.py:152-164 | every date of the map has its portfolio in the result |
| Shares.EarliestPortfolioDate | src/stockwatch/entities/shares.py:167-169 | None iff there are no portfolios (`min` raises); otherwise the minimum date, attained |
| Shares.LatestPortfolioDate | src/stockwatch/entities/shares.py:172-174 | None iff there are no portfolios (`max` raises); otherwise the maximum date, attained |
| Shares.ClosestPortfolioAfterDate | src/stockwatch/entities/shares.py:177-187 | None iff no portfolio is dated on or after the start; otherwise such a portfolio with the earliest date |
| Shares.ClosestPortfolioBeforeDate | src/stockwatch/entities/shares.py:190-200 | None iff no portfolio is dated before the end; otherwise such a portfolio with the latest date |
| Shares.ClosestAfterIsUnique | src/stockwatch/entities/shares.py:177-187 | with distinct dates, the portfolio with the least date on or after the start is the answer, whatever the order of the input |
| Shares.ClosestBeforeIsUnique | src/stockwatch/entities/shares.py:190-200 | with distinct dates, the portfolio with the latest date before the end is the answer, whatever the order of the input |
| Shares.ToPortfoliosDistinctDates | src/stockwatch/entities/shares.py:152-164 | the portfolios of `to_portfolios` have distinct dates, so the closest lookups on them are determined |
| Shares.ClosestPortfolioOracle | tests/test_entities_shares.py:270-300 | the earliest, latest and closest lookups of the tests |
| Shares.TransactionResult | src/stockwatch/entities/shares.py:203-229 | BUY gives (amount, 0); DIVIDEND and EXPENSES (0, amount); a SELL without a position or stocks (0, 0); otherwise, with buy price inv/nr, (-q * bp, q * (amount/q - bp)) |
| Shares.SaleArithmetic | src/stockwatch/entities/shares.py:221-225 | the cost basis and the realization of a sale in closed form |
| Shares.SellingEverythingClearsInvestment | src/stockwatch/entities/shares.py:221-225 | selling every stock takes out exactly the investment and realizes amount - investment |
| Shares.Bump | src/stockwatch/entities/shares.py:274-278 | the investment and realized amounts grow by exactly the result, in their currencies; date, ISIN, name, value, stocks and price are kept |
| Shares.BumpIn | src/stockwatch/entities/shares.py:273-278 | adding to the ISIN's position keeps the snapshot's keys and amounts in EUR |
| Shares.LastBefore | src/stockwatch/entities/shares.py:264-266 | the latest snapshot date strictly before the date |
| Shares.PrevPosition | src/stockwatch/entities/shares.py:259-266 | a SELL reads its ISIN in the last snapshot before it; other kinds read nothing |
| Shares.AddResult | src/stockwatch/entities/shares.py:270-278 | adding a result changes no date and no key |
| Shares.ApplyOne | src/stockwatch/entities/shares.py:258-278 | one transaction keeps every date and key |
| Shares.ApplyAll | src/stockwatch/entities/shares.py:241-281 | the transactions in order keep every date and key |
| Shares.PortfoliosDictionary.constructor | src/stockwatch/entities/shares.py:69 | the dictionary holds the given snapshots |
| Shares.SplitPoint | src/stockwatch/entities/shares.py:242-252 | the first index on or after the date splits the sorted dates: a snapshot on or after exists iff it is in range, one before iff it is positive, and the one before it is the last before the date |
| Shares.Neighbours | src/stockwatch/entities/shares.py:245-252 | no snapshot date lies strictly between two neighbouring sorted dates |
| Shares.FirstOnOrAfter | src/stockwatch/entities/shares.py:245-256 | the search from the last index on: every earlier date is before the transaction, and the found one is on or after it |
| Shares.AddBelow | src/stockwatch/entities/shares.py:270-278 | without a bound the restricted update is the whole update |
| Shares.AddBelowStep | src/stockwatch/entities/shares.py:270-278 | one more sorted date is brought under the update |
| Shares.AddFrom | src/stockwatch/entities/shares.py:270-278 | the in-place loop leaves the dictionary equal to the result added from the date on |
| Shares.ApplyStep | src/stockwatch/entities/shares.py:241-281 | one round: the index stops at the end iff no snapshot is on or after the transaction, which then changes nothing; otherwise the dictionary becomes the transaction applied |
| Shares.ApplySorted | src/stockwatch/entities/shares.py:241-281 | in place, the loop over sorted transactions leaves the dictionary as they are applied one by one |
| Shares.ApplyTransactions | src/stockwatch/entities/shares.py:232-281 | in place, the dictionary ends as the sorted transactions applied one by one |
| Shares.ApplyOneFrame | src/stockwatch/entities/shares.py:258-278 | a transaction changes only its ISIN's positions dated on or after it, and of those only investment and realized, which grow by its result |
| Shares.SellBeforeAllSnapshotsIsNoOp | src/stockwatch/entities/shares.py:258-266 | a sale whose first snapshot on or after it is the earliest one has no buy price and changes nothing |
| Shares.EarlyNonSaleAppliesEverywhere | src/stockwatch/entities/shares.py:268-278 | a purchase, dividend or expense dated before all snapshots is added to every snapshot that holds its ISIN |
| Shares.SalesInOneGapShareBuyPrice | src/stockwatch/entities/shares.py:258-266 | two sales with no snapshot between them read the same previous position |
| Shares.LateTransactionEndsProcessing | src/stockwatch/entities/shares.py:253-256 | a transaction dated after every snapshot ends processing: it and all later ones change nothing |
| SharesTests.FixturePrevPosition | tests/test_entities_shares.py:315-332 | a sale nine days back takes its buy price from the snapshot of three weeks back |
| SharesTests.HalfSaleResult | tests/test_entities_shares.py:391-402 | an 18-stock half of the first sale, keeping the full amount, takes out 500.04 and realizes 536.40 |
| SharesTests.PartSaleResult | tests/test_entities_shares.py:315-337 | selling 2 of 12 stocks takes out 970/6 and realizes 210.5 - 970/6 |
| SharesTests.PartSaleStep | tests/test_entities_shares.py:315-337 | the second sale moves only today's IE00B3RBWM25, by those amounts, and keeps the older snapshot |
| SharesTests.SellAllStep | tests/test_entities_shares.py:315-334 | the first sale moves only today's NL0010408704, by -1000.08 and +36.36 |
| SharesTests.BuyStep | tests/test_entities_shares.py:315-335 | the purchase adds 1030.00 to today's IE00B441G979 investment and nothing else |
| SharesTests.SellAndBuySteps | tests/test_entities_shares.py:315-337 | the sorted transactions one after the other give today's exact values |
| SharesTests.DoubleSellSteps | tests/test_entities_shares.py:391-411 | both halves price from the older snapshot and end at exact investment 0 and realized 1159.30 |
| SharesTests.SellAndBuyOracle | tests/test_entities_shares.py:315-337 | `apply_transactions` of the two sales and the purchase on the two snapshots: today NL0010408704 at investment 0.00 and realized 122.86, IE00B441G979 at investment 2060.00, IE00B3RBWM25 at investment 808.33 and realized 72.49 |
| SharesTests.DoubleBuyOracle | tests/test_entities_shares.py:373-388 | two purchase halves that keep the full amount end today at investment 3090.00, not the 2060.0 asserted |
| SharesTests.DoubleSellOracle | tests/test_entities_shares.py:391-411 | two sale halves that keep the full amount, in one gap, end today at investment 0.00 and realized 1159.30 |
| SharesTests.DividendOracle | tests/test_entities_shares.py:414-425 | the dividend alone ends today at investment 970.00 and realized 36.79 |
| Shares.PrevPositionAt | src/stockwatch/entities/shares.py:258-267 | a sale reads its position from the latest snapshot before it, or none when that snapshot lacks the ISIN |
| Shares.StepBetween | src/stockwatch/entities/shares.py:241-278 | a transaction between two adjacent snapshots is processed, prices from the earlier one, leaves it alone and adds its result to the later one |
| Shares.ApplyCons | src/stockwatch/entities/shares.py:241-281 | a first transaction that is processed is applied, then the rest from what it leaves |
| Shares.ApplyTwo | src/stockwatch/entities/shares.py:241-281 | two processed transactions are applied one after the other |
| Shares.ApplyThree | src/stockwatch/entities/shares.py:241-281 | three processed transactions are applied one after the other |
| Shares.SortedThree | src/stockwatch/entities/shares.py:237 | a sorted arrangement of three transactions on increasing dates is their date order |
| Shares.SortByDate3 | src/stockwatch/entities/shares.py:237 | `sorted` puts three transactions on increasing dates in date order |
| Shares.SortCopies | src/stockwatch/entities/shares.py:237 | `sorted` leaves copies of one transaction as they are |
| Shares.GetAllIsins | src/stockwatch/entities/shares.py:284-289 | the union of the portfolios' ISINs: an ISIN is in the result iff some portfolio contains it |
| Entities.EmptyPosition | src/stockwatch/entities.py:74-87 | value 0, investment 0, no stocks, price 1, realized 0, EUR, named "Empty position" |
| Entities.PositionReturns | src/stockwatch/entities.py:89-92 | unrealized is value - investment rounded to cents, and total return is realized plus unrealized |
| Entities.EmptyPositionReturns | src/stockwatch/entities.py:74-92 | an empty position has no return |
| Entities.SumMapRemove | src/stockwatch/entities.py:110-150 | the sum over the dictionary does not depend on its order: any key can go first |
| Entities.SumMapInsert | src/stockwatch/entities.py:110-150 | a new key adds its field to the sum |
| Entities.SumOf | src/stockwatch/entities.py:110-150 | the loop over the dictionary's values computes the sum of the field |
| Entities.PositionAt | src/stockwatch/entities.py:156-160 | the stored position, or an empty one dated the portfolio's date |
| Entities.Overwritten | src/stockwatch/entities.py:179-203 | the ISIN is present afterwards with exactly the given investment and realized; no other key changes |
| Entities.OverwrittenKeepsPosition | src/stockwatch/entities.py:179-203 | every other field of the position is kept, and a missing ISIN becomes an empty position |
| Entities.OverwrittenIdempotent | src/stockwatch/entities.py:179-203 | overwriting twice with the same values is overwriting once |
| Entities.SharePortfolio.constructor | src/stockwatch/entities.py:110-128 | the totals computed at construction are the rounded sums of value and unrealized return |
| Entities.SharePortfolio.GetPosition | src/stockwatch/entities.py:156-160 | the stored position, or an empty one dated the portfolio's date |
| Entities.SharePortfolio.Contains | src/stockwatch/entities.py:152-154 | when it holds, `get_position` finds the stored position; otherwise it makes an empty one |
| Entities.SharePortfolio.IsDateConsistent | src/stockwatch/entities.py:172-177 | on a consistent portfolio every `get_position` answer carries the portfolio's date |
| Entities.SharePortfolio.AllIsins | src/stockwatch/entities.py:162-164 | the keys of the dictionary |
| Entities.SharePortfolio.UpdateInvestmentRealization | src/stockwatch/entities.py:179-203 | in place, the dictionary becomes the overwritten one |
| Entities.PortfolioTotalsOracle | tests/test_entities.py:180-219 | the position and portfolio totals of the tests |
| Entities.Dates | src/stockwatch/entities.py:206-239 | the portfolio dates, in the order of the tuple |
| Entities.EarliestPortfolioDate | src/stockwatch/entities.py:206-208 | None iff there are no portfolios; otherwise the minimum date |
| Entities.LatestPortfolioDate | src/stockwatch/entities.py:211-213 | None iff there are no portfolios; otherwise the maximum date |
| Entities.ClosestPortfolioAfterDate | src/stockwatch/entities.py:216-226 | None iff no portfolio is dated on or after the start; otherwise the earliest such |
| Entities.ClosestPortfolioBeforeDate | src/stockwatch/entities.py:229-239 | None iff no portfolio is dated before the end; otherwise the latest such |
| Entities.ClosestIsUnique | src/stockwatch/entities.py:216-239 | with distinct dates the closest portfolio is determined |
| Entities.ClosestPortfolioOracle | tests/test_entities.py:244-277 | the earliest, latest and closest lookups of the tests |
| Entities.OverwriteFrom | src/stockwatch/entities.py:242-260 | the positions of every portfolio are rewritten from the date on, and none is added or dropped |
| Entities.BuyResult | src/stockwatch/entities.py:287-319 | a purchase writes its rounded new investment from the date on |
| Entities.SellResult | src/stockwatch/entities.py:322-359 | a sale writes from the last portfolio before it at its buy price |
| Entities.DividendResult | src/stockwatch/entities.py:362-392 | a dividend writes the last earlier portfolio's realized return plus its value |
| Entities.TransactionResult | src/stockwatch/entities.py:263-276 | the dispatch on the kind keeps the number of portfolios |
| Entities.ApplyAll | src/stockwatch/entities.py:263-276 | the transactions in the given order keep the number of portfolios |
| Entities.UpdateAll | src/stockwatch/entities.py:242-260 | in place, every portfolio dated on or after the date gets the ISIN overwritten, the others stay |
| Entities.ProcessBuy | src/stockwatch/entities.py:287-319 | in place, the portfolios end as the purchase's overwrite |
| Entities.ProcessSell | src/stockwatch/entities.py:322-359 | in place, the portfolios end as the sale's overwrite |
| Entities.ProcessDividend | src/stockwatch/entities.py:362-392 | in place, the portfolios end as the dividend's overwrite |
| Entities.ApplyTransactions | src/stockwatch/entities.py:263-276 | in place, the portfolios end as all transactions applied in the given order |
| Entities.GetAllIsins | src/stockwatch/entities.py:279-284 | an ISIN is in the result iff some portfolio contains it |
| Entities.OverwriteFromFrame | src/stockwatch/entities.py:242-260 | portfolios before the date and other ISINs are untouched; from the date on the ISIN holds the given values |
| Entities.TransactionFrame | src/stockwatch/entities.py:263-392 | a transaction changes nothing before its date, and from it on nothing but its ISIN |
| Entities.ConsistencyPreserved | src/stockwatch/entities.py:172-203 | date-consistent portfolios stay date consistent under any transactions |
| Entities.ApplyAllAppend | src/stockwatch/entities.py:263-276 | applying two lists one after the other is applying their concatenation |
| Entities.OverwriteIsUniform | src/stockwatch/entities.py:242-260 | after an overwrite all portfolios from the date on agree on the ISIN's investment and realized |
| Entities.SellNoOps | src/stockwatch/entities.py:322-359 | a sale with no earlier portfolio, or without stocks there, changes nothing |
| Entities.LateBuyIsNoOp | src/stockwatch/entities.py:287-319 | a purchase dated after every portfolio changes nothing |
| Entities.SaleOfAllInvestment | src/stockwatch/entities.py:340-353 | selling all stocks at the buy price takes the rounded investment to zero |
| Entities.SellWrites | src/stockwatch/entities.py:322-359 | a sale with stocks before it writes that position's ISIN at the rounded sale values |
| Entities.SellingEverythingClearsInvestment | src/stockwatch/entities.py:322-359 | selling every share leaves no investment from the date on |
| Entities.SellAllStep | tests/test_entities.py:291-306 | the first sale, from portfolios whose older one is the fixture's: NL0010408704 today at investment 0.0 and realized 122.86, nothing else changed |
| Entities.SellPartStep | tests/test_entities.py:291-313 | the second sale: IE00B3RBWM25 today at investment 808.33 and realized 72.49, nothing else changed |
| Entities.PurchaseStep | tests/test_entities.py:291-309 | the purchase on today's fixture position: IE00B441G979 at investment 2060.0, nothing else changed |
| Entities.ApplyThree | src/stockwatch/entities.py:263-276 | three transactions in order are their results taken one after the other |
| Entities.SellAndBuySteps | tests/test_entities.py:291-313 | the test's three transactions in order, from portfolios that start like the fixture's, end at its asserted values |
| Entities.SellAndBuyOracle | tests/test_entities.py:291-313 | `apply_transactions` of the test's tuple on `(example_portfolio_2, example_portfolio_1)`: `get_position` on the newer one gives NL0010408704 investment 0.0 and realized 122.86, IE00B441G979 investment 2060.0, IE00B3RBWM25 investment 808.33 and realized 72.49 |
| Entities.DividendOracle | tests/test_entities.py:346-359 | the dividend ends at investment 970.0 and realized 36.79 |
| Entities.SameGapOverwriteLosesPurchase | src/stockwatch/entities.py:287-392 | a purchase followed by a same-gap dividend on a new ISIN leaves today's investment at zero |
| Importing.ParseNumber | src/stockwatch/use_cases/importing.py:26 | `float(s.replace(",", "."))` of digits with a comma is their decimal value; a malformed number is ValueError |
| Importing.TradeRow | src/stockwatch/use_cases/importing.py:19-51 | a purchase or sale reads its count one token and its price three tokens after the keyword |
| Importing.TradeRowTokens | src/stockwatch/use_cases/importing.py:24-27 | the keyword's first occurrence is used; a missing token is IndexError and a malformed one ValueError |
| Importing.DividendRow | src/stockwatch/use_cases/importing.py:54-68 | a dividend is one stock priced at the `Bedrag` amount |
| Importing.TransactionRow | src/stockwatch/use_cases/importing.py:71-96 | "Koop" takes precedence over "Verkoop" over "Dividend" among the tokens; anything else is None |
| Importing.ParseCountOracle | src/stockwatch/use_cases/importing.py:26 | "16" reads as 16.0 |
| Importing.ParsePriceOracle | src/stockwatch/use_cases/importing.py:27 | "64,375" reads as 64.375 |
| Importing.ParseAmountOracle | src/stockwatch/use_cases/importing.py:59 | "13,13" reads as 13.13 |
| Importing.BuyRowOracle | src/stockwatch/use_cases/importing.py:19-31 | "Koop 16 @ 64,375 EUR" is a purchase of 16 at 64.375 |
| Importing.TruncatedBuyRowOracle | src/stockwatch/use_cases/importing.py:26 | "Koop" without a count raises IndexError |
| Importing.DividendRowOracle | src/stockwatch/use_cases/importing.py:54-68 | a "Dividend" row with amount "13,13" is a dividend of 1 at 13.13 |
| Importing.DividendTaxRowOracle | src/stockwatch/use_cases/importing.py:90-96 | a "Dividendbelasting" row classifies as nothing |
| Importing.KeptTransactionsAreKnown | src/stockwatch/use_cases/importing.py:118-130 | at most one transaction per row, each of a known ISIN and classified from a row of it |
| Importing.UnknownRowsAreSkipped | src/stockwatch/use_cases/importing.py:118-120 | rows whose ISIN is not among the known ones give no transaction and no error |
| Importing.KeptTransactionsReversed | src/stockwatch/use_cases/importing.py:118 | rows are walked from the last: the transactions of a split file are those of its second part, then those of its first |
| Importing.KeptTransactions | src/stockwatch/use_cases/importing.py:118-130 | at most one transaction per row |
| Importing.ProcessTransactions | src/stockwatch/use_cases/importing.py:111-131 | the loop computes the kept transactions, or the first row's error met |
| Importing.ReplaceFirst | src/stockwatch/use_cases/importing.py:169 | `replace(",", ".", 2)` keeps the length and replaces at most the first two commas |
| Importing.RowPosition | src/stockwatch/use_cases/importing.py:168-183 | a row's position is dated with the file, values rounded to cents, with no investment or realized return |
| Importing.Placeholder | src/stockwatch/use_cases/importing.py:164-166 | an empty position with the given date, ISIN and name |
| Importing.BackFilled | src/stockwatch/use_cases/importing.py:161-167 | every earlier date gets a placeholder for the new ISIN, dated with its own date; nothing else changes |
| Importing.SoldFilledContents | src/stockwatch/use_cases/importing.py:185-191 | the forward fill keeps the file's positions and adds a placeholder named as on the previous date for exactly the sold ISINs |
| Importing.SoldFilledPointwise | src/stockwatch/use_cases/importing.py:185-191 | a map that agrees with the forward fill key by key is the forward fill |
| Importing.RowIsins | src/stockwatch/use_cases/importing.py:158-159 | the non-empty ISINs of the rows |
| Importing.FileIsins | src/stockwatch/use_cases/importing.py:167 | the non-empty ISINs of all files |
| Importing.FileDates | src/stockwatch/use_cases/importing.py:193 | the dates of all files |
| Importing.FilledKeys | src/stockwatch/use_cases/importing.py:193 | in a filled build each date holds exactly the ISINs seen |
| Importing.BackFilledKeepsFilled | src/stockwatch/use_cases/importing.py:161-167 | the back-fill keeps the build filled with the new ISIN added |
| Importing.RowStepInvariant | src/stockwatch/use_cases/importing.py:156-184 | one row adds its ISIN to the known and the file's ones, and changes nothing already there |
| Importing.RowStepBackFills | src/stockwatch/use_cases/importing.py:160-166 | the first row of a new ISIN gives every earlier date a placeholder named after the row's product |
| Importing.ReadRowsNoKeyError | src/stockwatch/use_cases/importing.py:156-184 | reading rows never raises KeyError |
| Importing.ReadRowsInvariant | src/stockwatch/use_cases/importing.py:156-184 | reading a file keeps the build filled and adds exactly the rows' ISINs |
| Importing.FileStepInvariant | src/stockwatch/use_cases/importing.py:147-194 | one file adds its date holding every known ISIN, and the forward fill finds every sold ISIN |
| Importing.FileStep | src/stockwatch/use_cases/importing.py:147-194 | a file that reads becomes the previous date and is stored under its date |
| Importing.Build | src/stockwatch/use_cases/importing.py:134-196 | no files give an empty build; otherwise a successful build's previous date is the last file's, and that date is stored |
| Importing.BuildInvariant | src/stockwatch/use_cases/importing.py:134-196 | after any build every date holds every ISIN ever seen, each a fresh position, and it never raises KeyError |
| Importing.ReadRowsFailureSticks | src/stockwatch/use_cases/importing.py:156-184 | an error in some row is the error of the whole file |
| Importing.BuildFailureSticks | src/stockwatch/use_cases/importing.py:147-194 | an error in some file is the error of the whole build |
| Importing.BackFill | src/stockwatch/use_cases/importing.py:163-166 | the loop computes the back-fill |
| Importing.ReadFile | src/stockwatch/use_cases/importing.py:155-184 | the loop over one file's rows computes the row-by-row reading |
| Importing.ForwardFill | src/stockwatch/use_cases/importing.py:187-191 | the loop computes the forward fill, or KeyError for a sold ISIN the previous date lacks |
| Importing.ProcessFile | src/stockwatch/use_cases/importing.py:148-194 | one file's step: read, forward-fill and store under the file date |
| Importing.ProcessPortfolios | src/stockwatch/use_cases/importing.py:134-196 | fails iff the build fails, with its error; otherwise returns the build's ISINs and dated portfolios |
| Importing.FirstValidPrice | src/stockwatch/use_cases/importing.py:199-205 | None iff no day of the `limit` days from the date has a recorded non-zero price; otherwise the price of the first such day |
| Runtime.FirstOnOrAfter | src/stockwatch/app/runtime.py:26-29 | None iff every portfolio is dated before the date; otherwise the first index dated on or after it |
| Runtime.Window | src/stockwatch/app/runtime.py:18-37 | a non-empty window is the slice of the portfolios from the start index on; without an end date it stops before the last portfolio |
| Runtime.GetPortfolios | src/stockwatch/app/runtime.py:18-37 | the two loops with `break` compute the window as written |
| Runtime.WindowIsContiguous | src/stockwatch/app/runtime.py:37 | the window is a contiguous run of the loaded portfolios, in order |
| Runtime.WindowDropsLast | src/stockwatch/app/runtime.py:23-37 | without an end date the last portfolio never shows |
| Runtime.WindowOfOnePortfolio | src/stockwatch/app/runtime.py:22-37 | one portfolio and no dates give an empty window as written, the portfolio as intended |
| Runtime.WindowAfterAllPortfolios | src/stockwatch/app/runtime.py:22-29 | a start after every portfolio still keeps all but the last as written, and nothing as intended |
| Runtime.WindowIntendedSelects | src/stockwatch/app/runtime.py:18-37 | on ascending portfolios the intended window is a slice holding exactly the portfolios dated in [start, end) |
| Runtime.StartDate | src/stockwatch/app/runtime.py:40-44 | 2020-01-01 when nothing is loaded |
| Runtime.EndDate | src/stockwatch/app/runtime.py:47-51 | today when nothing is loaded |
| Runtime.StartAndEndBracketPortfolios | tests/app/test_runtime.py:80-90 | on ascending portfolios the start and end are the earliest and latest portfolio dates |
| Runtime.DefaultDatesWindow | src/stockwatch/app/runtime.py:18-51 | with the default dates the intended window holds all but the last portfolio |
| Degiro.MatchWordsShape | src/stockwatch/use_cases/degiro.py:20 | `\w+` matches iff the string is non-empty and all word characters |
| Degiro.MatchSessionShape | src/stockwatch/use_cases/degiro.py:20 | the pattern with `count` letters or digits matches iff the characters are that many, a dot and word characters |
| Degiro.IsValidSessionId | src/stockwatch/use_cases/degiro.py:13-21 | a valid id is at least 34 long, 32 ASCII letters or digits and then a dot |
| Degiro.SessionIdShape | src/stockwatch/use_cases/degiro.py:13-21 | valid iff 32 ASCII letters or digits, a dot and one or more word characters; so at least 34 long with '.' at index 32 |
| Degiro.SessionIdFromParts | src/stockwatch/use_cases/degiro.py:13-21 | a 32-character alphanumeric key, a dot and a server name make a valid id |
| Degiro.SessionIdOracles | src/stockwatch/use_cases/degiro.py:20-21 | a short key, a key with an empty server, and a key with '_' for the dot are invalid |
| Degiro.IsValidAccountId | src/stockwatch/use_cases/degiro.py:24-29 | valid iff positive |
| Degiro.Truncate | src/stockwatch/use_cases/degiro.py:144 | `int()` truncates toward zero |
| Degiro.Progress | src/stockwatch/use_cases/degiro.py:136-144 | 0 without a thread; ZeroDivisionError iff a thread exists and start equals end |
| Degiro.ProgressRange | src/stockwatch/use_cases/degiro.py:136-144 | within the range the progress is 0 at the start, in 0..100, and 100 exactly at the end |
| Degiro.ProgressMonotone | src/stockwatch/use_cases/degiro.py:136-144 | the progress never decreases as the current date advances |
| ScrapingPage.DisableExecute | src/stockwatch/app/pages/scraping.py:217-221 | the button is enabled iff all three flags are valid |
| ScrapingPage.ValidatePassword | src/stockwatch/app/pages/scraping.py:281-285 | valid iff a password was typed; invalid is its negation |
| ScrapingPage.ValidateGoauth | src/stockwatch/app/pages/scraping.py:292-303 | valid iff empty, or six characters all digits; invalid is its negation |
| ScrapingPage.ValidateAccountId | src/stockwatch/app/pages/scraping.py:310-314 | valid iff a user name was typed; invalid is its negation |
| ScrapingPage.GoauthOracles | tests/app/test_scraping.py:57-66 | "a12345", "aebfib", "1234567", "1241" and "-323456" are invalid; "123456", "000000", "039485", empty and None are valid |
| ScrapingPage.ExecuteEnabledByForm | src/stockwatch/app/pages/scraping.py:217-314 | the button is enabled iff a user name and a password were typed and the code is acceptable |

## Left out

- File and CSV input: globbing, `csv.DictReader`, header patching, `strptime` of dates and file names, and the file-existence check of `process_transactions`. The model takes abstract rows and files, oldest first.
- Print diagnostics have no effect in the model. These are the duplicate-date warning of `process_portfolios`, the "useless portfolio" message and the unpriced-sale messages.
- `load_portfolios` and the module-level `_PORTOS`/`_INDICES` of `runtime.py`. The loaded portfolios are a parameter, and `date.today()` is a parameter of `EndDate`, `NewSharePortfolio`, `Shares.PortfolioAt` and `Shares.ToPortfolios`.
- Network and HTTP calls, the scrape thread's start, stop and processing loop, and every Dash callback other than the four validators. These are I/O, concurrency and UI.
- `all_isins_and_names`, in both engines. It is not part of the reconciliation.
- The index simulation (`_determine_index_values`, `process_indices`) and `get_portfolios_index_positions`. The latter imports a name the entities package lacks, and it uses the `None` result of `apply_transactions`.
- Binary floating point. `round` is exact half-to-even rounding on reals. Number parsing accepts decimal notation only, without exponents, `inf` or `nan`.
- Degiro.Progress: `int(part / whole * 100)` is computed on exact reals, so float rounding just below a whole percentage is not modelled.
- ScrapingPage.ValidateGoauth: `str.isnumeric` is modelled for the ASCII digits only; other Unicode numerals count as non-numeric.
- Shares.SortedPositions: the dataclass order of positions is modelled on date, rounded value and ISIN. Those fields already differ between positions of one snapshot, so later fields are never compared.
- Transactions.SortTransactions: requires every two transactions to compare without raising. The `TypeError` of a tie that reaches `kind`, and the mixed-currency `NotImplementedError`, are excluded this way.
- Shares.ApplyTransactions: requires EUR amounts and no sale of zero stocks against an earlier position. Python would raise on those, mid-way through the in-place update.
- Entities.ApplyTransactions: requires distinct portfolio dates. `sorted` on portfolios with equal dates would compare their dictionaries and raise.
- The old engine's `closest_*` functions return portfolio objects; the model returns their indices, which determine them when dates are distinct (`Entities.ClosestIsUnique`). With two candidates on one date, the source's `sorted` compares their `share_positions` dictionaries (entities.py:105-106) and raises `TypeError`; that error is not modelled.
- Shares.ClosestPortfolioAfterDate: on a tie in date the model returns the first candidate in sequence order, while `sorted` (shares.py:185-186) breaks the tie on value, investment and the later fields of the dataclass order. `to_portfolios` never produces such a tie (`Shares.ToPortfoliosDistinctDates`), and without ties the answer is determined (`Shares.ClosestAfterIsUnique`).
- Shares.ClosestPortfolioBeforeDate: the same tie rule; `sorted(...)[-1]` (shares.py:198-199) takes the greatest of the tied portfolios. Without ties the answer is determined (`Shares.ClosestBeforeIsUnique`).
- Shares.ToPortfolios: requires every snapshot to be non-empty. An empty one becomes a portfolio dated today (`Shares.EmptySnapshotIsDatedToday`), and the final `sorted` (shares.py:164) would then place it by that date, possibly beside another portfolio of the same date. The model leaves that ordering out.
- Text.ParseDecimal: Python's `float()` also reads exponents, `inf`, `nan` and non-ASCII Unicode digits; the model reads ASCII digits only and gives None for the rest.
- Importing.ParseNumber: inherits the limits of `Text.ParseDecimal`; such ledger values would parse in Python and fail in the model.
- Importing.Placeholder: the source's keyword call does not fit the older `empty_position` the rows' positions come from; the model builds the placeholder by meaning, as described above, instead of raising `TypeError`.
- Entities2Transactions: `from .currencies import Amount` names a class `entities2/currencies.py` does not define, so the module fails to import; the model uses `Currencies.Amount` for its amounts.
- Importing: the names imported from the `stockwatch.entities` package (importing.py:6-14) are not exported by its `__init__.py`; the model binds them to the modules whose signatures the calls match.
- Money.Amount.Div: a divisor of zero, a number or an Amount, raises `ZeroDivisionError` in Python. The model requires a non-zero divisor, so that exception is not modelled.
- Currencies.Amount.Div: division by the number zero raises `ZeroDivisionError` in Python. The model requires a non-zero divisor, so that exception is not modelled.
- Money.CurrencyExchange.constructor: the source divides by the rounded EUR amount. An amount that rounds to 0.00 EUR, such as -0.01 USD at rate 3.0, raises `ZeroDivisionError` there. The model requires a non-zero rounded EUR amount, so that exception is not modelled. The source's own assertions, a positive rate and a non-zero amount, are requires as well.
- Entities2Transactions.CurrencyExchange.constructor: the same `ZeroDivisionError` on an EUR amount that rounds to 0.00 is not modelled. The constructor requires a non-zero rounded EUR amount.
- Importing.TradeRow: the argument order of the source's positional `ShareTransaction(...)` call is not modelled. The model builds the transaction by the meaning of each value.
- `EXPENSES` is not declared by the transaction enumeration. It appears only as an extra kind that `shares.py` handles like `DIVIDEND`.

## Findings

| source | as written | input that shows it | evidently intended | confidence | as-written member | corrected member |
|---|---|---|---|---|---|---|
| src/stockwatch/entities/money.py:57-61 | `__gt__` returns `self.value >= other.value` | `Amount(1.0) > Amount(1.0)` is True | strictly greater, as its docstring says | high, not executed | Money.GtAcceptsEqualAmounts | Money.GtStrictIsConverseOfLt |
| src/stockwatch/entities/currencies.py:53-57 | `__gt__` returns `self.value >= other.value` | `Amount(1.0) > Amount(1.0)` is True | strictly greater, as its docstring says | high, not executed | Currencies.GtAcceptsEqualAmounts | Currencies.GtStrictIsConverseOfLt |
| src/stockwatch/app/runtime.py:23-37 | `end_idx = -1` by default, then `_PORTOS[start_idx:end_idx]` | one loaded portfolio and no dates give an empty tuple | no end date filters nothing | medium, not executed | Runtime.WindowOfOnePortfolio | Runtime.WindowIntendedSelects |
| src/stockwatch/app/runtime.py:22-29 | `start_idx` stays 0 when no portfolio is on or after the start date | two portfolios and a start date after both give the first one | an unmet start date selects nothing | medium, not executed | Runtime.WindowAfterAllPortfolios | Runtime.WindowIntendedSelects |
