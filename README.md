# Balance and goal accounting of a personal-finance tracker, in Dafny

This project models the accounting engine of `app.js`, a browser-only
personal-finance tracker that works in Belarusian roubles. One profile owns
two keyed stores: a ledger of transactions (income `"Доход"` or expense
`"Расход"`, booked to the cash account `"Наличные"` or the card account
`"Карта"`) and a list of savings goals. Each goal earmarks part of each
account's money.

The model covers:

- how raw records are normalised and how `parseAmount` reads amounts;
- the aggregates the screens show: balances, goal totals, free funds,
  expenses by category, the display order and goal percentages;
- the controllers that change the stores. Allocating money to a goal is
  checked against the account's free funds.

Modules, one per file:

| file | module | models |
|---|---|---|
| `common.dfy` | `Common` | `Option` and `Result` |
| `sums.dfy` | `Sums` | the accumulator loops (`Sum` and its algebra) |
| `keyed.dfy` | `Keyed` | the object stores: `put` as upsert by `id`, `delete`, `find` |
| `sorting.dfy` | `Sorting` | the stable `Array.prototype.sort` under a comparator |
| `js_text.dfy` | `JsText` | `trim`, `\s`, `replace`, `slice(0, n)` and `<` on strings |
| `js_number.dfy` | `JsNumber` | `Number(string)` and `parseAmount` |
| `records.dfy` | `Records` | `monthKey`, `normalizeTx`, `normalizeGoal` |
| `aggregation.dfy` | `Aggregation` | `calcAccountBalances`, `calcGoalTotals`, free funds, `sumByCategoryExpense`, `sortTxDesc`, `clamp`, the goal percentage |
| `profile.dfy` | `Profiles` | the controllers `addTxFromForm`, `removeTx`, `addGoalFromForm`, `removeGoal`, `addMoneyToGoal` as a `Profile` class |
| `scenario.dfy` | `Scenario` | one end-to-end run: allocate, get rejected, delete the funding income |

Modelling choices:

- **Money.** Money is an exact `real`. The tolerance `1e-9` of the
  free-funds check is the constant `EPS`.
- **Numbers.** A JavaScript number is `Num`, either `NaN` or `Finite(v)`.
  `Number(x) || 0` is `OrZero`. A missing string field and `""` are both
  falsy, so `raw.f || d` is `OrDefault`.
- **Clock and identifiers.** `uid()`, `todayISO()` and `Date.now()` become
  parameters (`freshId`, `today`, `now`). The active profile is the
  `Profile` object itself.
- **Stores.** Each store is a sequence with distinct `id`s. `put` replaces
  the record with the same `id` or appends; `delete` removes it.
- **Loops.** Each accumulator loop is a method proved equal to a
  specification function. The properties the screens rely on are lemmas
  about those functions.
- **`Trim` and the category default.** The code trims the category after
  applying the default, so a blank category is stored as `""`. The intended
  rule defaults any category that is blank after trimming. The store and the
  read-back use the code as written (`NormalizeTx`); the corrected
  `NormalizeTxFixed` carries the idempotence proof, and
  `NormalizeTxAgreesUnlessBlank` shows the two agree on every non-blank
  category. The difference is recorded under Findings.

## Model

| member | source | states |
|---|---|---|
| JsText.Trim | app.js:38 | `trim` drops exactly the leading and trailing white space; the result neither starts nor ends with white space |
| JsText.TrimIdempotent | app.js:38 | trimming twice is trimming once |
| JsText.StripSpaces | app.js:38 | `replace(/\s/g, "")` leaves no white space, adds no character and never lengthens the text; text without white space is unchanged |
| JsText.StripSpacesKeeps | app.js:38 | a non-space character keeps its place: what remains of the text before it comes first, what remains of the text after it follows |
| JsText.StripSpacesKeepsAll | app.js:38 | every non-space character of the input is still in the output |
| JsText.StripSpacesAfterTrim | app.js:38 | trimming before removing all white space makes no difference |
| JsText.ReplaceFirst | app.js:38 | `replace(",", ".")` changes only the first comma and keeps the length and every other character |
| JsText.ReplaceFirstSplit | app.js:38 | a comma after the first one is left as it is |
| JsText.Prefix | app.js:34 | `slice(0, n)` is a prefix of `s` whose length is the smaller of `n` and the length of `s` |
| JsText.StrLessTrichotomy | app.js:264 | of two different strings exactly one is `<` the other |
| JsText.StrLessTransitive | app.js:264 | string `<` is transitive |
| JsText.StrLessOfPrefixes | app.js:34 | if the first `n` characters of `a` compare below those of `b`, then `a < b` |
| JsNumber.ParseAmountOfWholeNumber | app.js:36-41 | the decimal text of a whole number below the overflow bound parses to that number |
| JsNumber.ParseAmountOfDecimalComma | app.js:36-41 | `"w,f"` with any non-empty digits `w` (leading zeros allowed) and digits `f` parses to `w` plus the value `0.f` of the fraction digits when below the overflow bound |
| JsNumber.ParseAmountOfDecimalPoint | app.js:36-41 | `"w.f"` with digits `w` and `f` parses to `w` plus the value `0.f` of the fraction digits when below the overflow bound |
| JsNumber.ParseAmountCommaAsDot | app.js:38 | the first comma is read exactly like a decimal point |
| JsNumber.ParseAmountIgnoresSpaces | app.js:38 | white space anywhere in the input is ignored |
| JsNumber.ParseAmountOfBlank | app.js:38-40 | blank input parses to 0, not NaN, so only the callers' `> 0` test rejects it |
| JsNumber.DigitStringLiteral | app.js:39 | `Number` of a decimal digit string is its value |
| JsNumber.DecimalFractionLiteral | app.js:39 | `Number` of digits, a point and digits is whole part plus fraction |
| JsNumber.Fraction | app.js:39 | the digits after a decimal point denote a value in `[0, 1)` |
| JsNumber.DecimalString | app.js:39 | the canonical decimal text of a number is a non-empty digit string |
| JsNumber.DecimalStringValue | app.js:39 | the canonical decimal text of `n` denotes `n` |
| Records.OrDefault | app.js:242-258 | `s \|\| d` is `d` exactly when `s` is missing, empty or `d`, and `s` otherwise |
| Records.MonthKey | app.js:34 | the month key is a prefix of the date of at most 7 characters, exactly 7 for a full date |
| Records.MonthOrderAgreesWithDateOrder | app.js:34 | an earlier month key means an earlier date |
| Records.SafeCategory | app.js:253 | the corrected category is never blank and is already trimmed, and it is the trimmed input whenever that is not blank |
| Records.NormalizeTxAccount | app.js:245-246 | the account is always in `ACCOUNTS`; it is cash exactly when the trimmed input is `"Наличные"`; a missing account is card |
| Records.NormalizeTxDefaults | app.js:242-258 | type defaults to `"Расход"`, date to today, id to a fresh id, amount to 0 for NaN; `month` is the first 7 characters of the date |
| Records.NormalizeTxFixedWellFormed | app.js:241-260 | with a non-blank fresh id, date and a non-zero clock, the output is a well-formed stored record |
| Records.NormalizeTxFixedOfWellFormed | app.js:241-260 | a well-formed record normalises to itself, whatever id, date and clock are used |
| Records.NormalizeTxFixedIdempotent | app.js:241-260 | normalising a normalised record gives the same record |
| Records.NormalizeTxAgreesUnlessBlank | app.js:253 | the as-written and corrected normalisers agree exactly when the defaulted, trimmed category is not blank |
| Records.NormalizeTxNotIdempotent | app.js:253 | a category of three spaces is stored as "" and becomes `"Другое"` on the second pass |
| Records.NormalizeTxOfWellFormed | app.js:241-260 | `normalizeTx` as written also returns a well-formed record unchanged |
| Records.NormalizeAll | app.js:1131 | `allTxRaw.map(normalizeTx)`, with `normalizeTx` as written, keeps the length and normalises each record at its position |
| Records.NormalizeAllOfWellFormed | app.js:1131 | reading back a well-formed ledger gives the ledger itself |
| Records.NormalizeGoalAmounts | app.js:1075-1085 | target and earmarks become finite numbers, non-numeric ones 0, numeric ones kept |
| Records.NormalizeGoalIdempotent | app.js:1075-1085 | re-normalising a goal with a non-blank title changes nothing |
| Keyed.IndexOf | app.js:1143 | `find` by id returns the first record with that id, or nothing when no record has it |
| Keyed.PutSpec | app.js:220-222 | `put` keeps ids distinct, stores the record, keeps every record with another id and adds nothing else |
| Keyed.PutFresh | app.js:220-222 | `put` with a new id appends |
| Keyed.DeleteSpec | app.js:223-225 | `delete` keeps ids distinct and removes exactly the records with that id |
| Sorting.SortPermutation | app.js:263 | the sorted copy is a permutation of the input |
| Sorting.SortSorted | app.js:263 | under a total preorder the sorted copy is sorted |
| Sorting.SortStable | app.js:263 | records the comparator cannot tell apart keep their input order |
| Sorting.SortUniqueKeys | app.js:278 | sorting distinct categories keeps them distinct |
| Aggregation.CalcAccountBalances | app.js:282-297 | the loop computes the signed sums per account and per type, with `total == cash + card` |
| Aggregation.BalancesAppend | app.js:288-296 | one more transaction changes only its own account, by `+amount` for income and `-amount` otherwise, and only its own type's total |
| Aggregation.BalancesTotal | app.js:282-297 | the net total is income minus expense minus the amounts of any other type |
| Aggregation.BalancesPermutation | app.js:282-297 | balances do not depend on the order of the ledger |
| Aggregation.BalancesRemoveAt | app.js:282-297 | removing a transaction undoes its contribution to every figure |
| Aggregation.CalcGoalTotals | app.js:299-307 | the loop computes the earmark sums, counting non-numeric earmarks as 0, with `total == savedCash + savedCard` |
| Aggregation.GoalTotalsOfSaved | app.js:299-307 | the overall earmark is the sum of what each goal shows as saved |
| Aggregation.GoalTotalsAppend | app.js:302-305 | a further goal adds its numeric earmarks and nothing for a non-numeric one |
| Aggregation.GoalTotalsNonNegative | app.js:299-307 | earmarks that are not negative have totals that are not negative |
| Aggregation.FreeFundsTotal | app.js:479-480 | free cash plus free card is the net balance less everything earmarked |
| Aggregation.ExpenseCategoriesMembers | app.js:272-276 | a category is a key of the map exactly when some expense carries it |
| Aggregation.CategorySumAbsent | app.js:272-276 | a category that no expense carries has total 0 |
| Aggregation.CategoryItemsTotal | app.js:269-280 | the item amounts add up to the total expense |
| Aggregation.CategoryItemsMembers | app.js:277 | each item is a listed category with its total, and every listed category has its item |
| Aggregation.CategoryItemsUnique | app.js:277 | each category appears in one item only |
| Aggregation.SumByCategoryExpense | app.js:269-280 | `total` equals `calcAccountBalances(...).expense`; the items are the category totals, each category once, as a permutation in non-increasing order of amount, and they add up to `total` |
| Aggregation.TxOrderTotalPreorder | app.js:263-266 | the comparator of `sortTxDesc` is a total preorder |
| Aggregation.SortTxDescSpec | app.js:262-267 | the display order is a permutation of the input, by date descending then `createdAt` descending; ties keep their order |
| Aggregation.Clamp | app.js:56 | `clamp` stays in `[a, b]`, keeps a value inside it and gives the nearer bound outside |
| Aggregation.Round | app.js:649 | `Math.round` gives the integer within half of its argument, halves rounded up |
| Aggregation.GoalPercentBounds | app.js:647-649 | the percentage is within 0..100; it is 0 for a non-positive target or no savings, and 100 once the target is reached |
| Aggregation.GoalPercentMonotone | app.js:647-649 | more savings towards the same target never show a smaller percentage |
| Profiles.AllocateRejects | app.js:1117-1144 | an allocation is rejected exactly when the amount is not positive and finite, the account is unknown, the amount exceeds the free funds plus `1e-9`, or no goal has the id; the first failing check names the error |
| Profiles.AllocateChangesOneEarmark | app.js:1143-1150 | a successful allocation changes only the chosen account's earmark of the one goal with that id, by `amount` |
| Profiles.AllocateKeepsFundsCovered | app.js:1134-1150 | after a successful allocation the account's free funds have dropped by `amount` and are at least `-1e-9`; the other account is unchanged |
| Profiles.AllocatePreservesCover | app.js:1134-1150 | if no account was over-committed before an allocation, none is after it |
| Profiles.RemoveGoalReleasesEarmark | app.js:1110-1113 | deleting a goal raises each account's free funds by exactly that goal's earmark |
| Profiles.RemoveGoalPreservesCover | app.js:1110-1113 | deleting a goal never over-commits an account |
| Profiles.RemoveTxChangesFreeFunds | app.js:1065-1068 | deleting a transaction changes its account's free funds by minus its signed amount; the goals are not involved |
| Profiles.CreditKeepsGoalsWellFormed | app.js:1146-1150 | writing back the credited goal replaces it in place and keeps every goal well-formed |
| Profiles.NewGoalWellFormed | app.js:1101 | a goal from the form is well-formed, with nothing saved yet |
| Profiles.FreeFundsOf | app.js:1131-1137 | the free funds computed from the re-normalised ledger and the goal totals are the free funds of the stored ledger for the chosen account |
| Profiles.FormTxWellFormed | app.js:1031-1052 | a form record whose category is not blank is well-formed and carries the fresh id |
| Profiles.PutTxKeepsStoresValid | app.js:1054 | storing a well-formed transaction under a new id appends it and keeps ids distinct and records well-formed |
| Profiles.PutGoalKeepsStoresValid | app.js:1102 | storing a well-formed goal under a new id appends it and keeps ids distinct and records well-formed |
| Profiles.Profile.constructor | app.js:134-238 | a new profile has two empty stores |
| Profiles.Profile.AddTxFromForm | app.js:1028-1063 | an amount that is not positive and finite is rejected with nothing written; otherwise the record `normalizeTx` makes of the form is appended under the fresh id |
| Profiles.Profile.RemoveTx | app.js:1065-1068 | the ledger loses the record with that id; the goals are unchanged |
| Profiles.Profile.AddGoalFromForm | app.js:1087-1108 | a blank title and then an invalid target are rejected with nothing written; the call succeeds exactly when the trimmed title is non-blank and the target is positive and finite, and then a goal with no earmarks is appended under the fresh id |
| Profiles.Profile.RemoveGoal | app.js:1110-1113 | the goals lose the one with that id; the ledger is unchanged |
| Profiles.Profile.AddMoneyToGoal | app.js:1115-1152 | the goals become what `Allocate` yields over the re-normalised ledger, or stay as they were on a rejection; the ledger is unchanged |
| Scenario.FormRecords | app.js:1031-1052 | the income form yields a card income of 1000 under the fresh id, and the goal form a goal with nothing saved |
| Scenario.Run | app.js:1115-1152 | income 1000 to card, allocate 300 (free card 700), then 800 is rejected; deleting the income leaves free card at -300 |
| Scenario.RemoveTxCanOvercommit | app.js:1065-1068 | records built by the two forms follow that run, so a delete can over-commit an account |

## Left out

- Password hashing, authentication, profile switching and the active-profile check (app.js:82-132, app.js:808-1001): crypto and UI flow. The `Profile` object stands for the active profile.
- IndexedDB (app.js:134-238): asynchronous browser storage. Each store is a sequence in memory. The order in which an index returns records is not modelled; `BalancesPermutation` shows the balances do not depend on it.
- DOM rendering, forms, `fmtMoney`, `humanDate`, `emojiForCategory`, the NBRB rate fetch and the currency converter (app.js:43-80, app.js:309-781, app.js:1155-1304): display, network and floating-point display rounding.
- The newest-first sort of goals for display (app.js:644): a display detail next to the percentage.
- Concurrent allocations: the model is sequential, so the race between two overlapping allocations does not arise.
- Floating-point rounding: money is exact `real`. `Number` yields an exact value and reports NaN only past the overflow bound (2^1024 - 2^970). Rounding to a double and underflow are not modelled.
- Infinities: `Number(x)` that would give plus or minus Infinity is NaN in the model. `parseAmount` maps both to NaN anyway; `Number(x) || 0` would keep an infinity where the model gives 0.
- A field fed to `Number(...)` in `normalizeTx`/`normalizeGoal` is given already converted (`Num`), since the records come from the model's own forms.
- `|| 0` on `createdAt` in the comparator (app.js:265) does nothing, because stored records always carry an integer `createdAt`.
- Profiles.Profile.AddTxFromForm: requires a fresh id that no stored record has, a non-blank date and a non-zero clock, which `uid()`, `todayISO()` and `Date.now()` give. It also requires a category that is not blank after trimming. The form's select offers only the fixed names of app.js:21-22 (filled in at app.js:746-757), so a blank category, which `normalizeTx` would store as `""`, cannot come from the form.
- Profiles.Profile.AddGoalFromForm: requires only a non-blank id that no stored goal has, which `uid()` gives.
- JsNumber.ParseAmountOfWholeNumber, ParseAmountOfDecimalComma: stated for inputs below the overflow bound only; above it `parseAmount` gives NaN, as `NumberOfString` states.
- JsText.StrLess: compares Unicode code points where JavaScript compares UTF-16 code units. The two differ only beyond the Basic Multilingual Plane, which ISO dates never reach.

## Findings

| source | as written | input that shows it | evidently intended | confidence | as-written member | corrected member |
|---|---|---|---|---|---|---|
| app.js:253 | `(raw.category \|\| "Другое").trim()` applies the default before trimming, so a blank category is stored as "" and a second normalisation (app.js:1014, app.js:1131) turns it into `"Другое"`. Normalisation is then not idempotent. | `category: "   "` | trim first, then default a blank category to `"Другое"`, so that normalising twice equals normalising once | not executed; the transaction form offers only fixed categories, so the input arrives only through stored data | Records.NormalizeTxNotIdempotent | Records.NormalizeTxFixedIdempotent |
