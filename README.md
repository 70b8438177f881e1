# Order and payment reconciliation: the matching engine

This project models the matching engine of a small reconciliation tool that
lines up exported orders against payment and bank records. The engine lives
in `utils.py` and has three operations:

- **`parse_amount`** (module `Amounts`) turns any table cell into a number
  and never fails. Missing and NaN cells, and cells whose handling raises,
  give `0.0`; numbers are returned as they are. Text is cleaned in this order:
  commas, `Rs`, `INR` and `₹` are deleted, then surrounding white space is
  stripped. The leftmost match of `[-+]?\d+(\.\d+)?` then gives the value, or
  `0.0` when there is none. The model defines the pattern's language
  (`IsNumeral`), a scanner (`FindNumeral`), and proves that the scanner finds
  exactly the leftmost, longest match. For this pattern, that is the match
  `re.search` returns.
- **`fuzzy_match_orders_to_payments`** (module `Matching`) runs three phases
  over a merged table that is updated in place, as an `array<Row>`:
  1. a left join of orders to payments on identical ids (`direct_id`);
  2. a greedy pass: each row still unclassified, in row order, gets the
     nearest unused payment whose amount is within the tolerance
     (`amount_greedy`);
  3. a similarity pass: each row still unclassified gets the payment whose id
     scores highest against the order id, when that score exceeds 0.85
     (`fuzzy_id`).

  Rows left over are `unmatched`. The whole result is specified by
  `ReconcileSpec`, and `Reconcile` composes the three phase methods and is
  proved against it.
- **`group_orders_by_batch_and_match`** (module `Batching`) handles each bank
  statement row separately. It visits all orders by non-increasing amount and
  takes each one the running sum admits: the new sum is within
  `max(1, 2% of target)` of the target, or does not exceed it. It stops once
  the sum reaches 98% of the target. The decisions are specified as a trace
  (`GreedyTrace`), which is proved unique, so the specification determines
  the batch.

The similarity ratio (`similar`, which uses `difflib.SequenceMatcher`) is a
parameter `sim: (string, string) -> real` of the engine; the model assumes
nothing about it. Amounts are exact reals. Table positions stand for pandas
index labels; after the merge, these are row positions.

Module `AmountExamples` works three inputs of `parse_amount` through the
definitions. Module `Scenarios` derives two small outcomes from the
specifications alone.

Some consequences of the code that a reader might not expect:
- Payments taken by the id join stay in phase 2's pool
  (`Scenarios.DirectPaymentReused`).
- An order with several payments of its id gets one joined row per payment
  (`Matching.RowsPerOrder`).
- Similarity is not assumed to be symmetric: phase 3 scores
  `similar(order id, payment id)` in that argument order.
- Only the four markers `,`, `Rs`, `INR` and `₹` are removed from amount text.

## Model

| member | source | states |
|---|---|---|
| Amounts.RemoveAll | utils.py:13 | `str.replace(pat, "")` never makes the text longer; what it keeps is stated by the three lemmas below |
| Amounts.RemoveAllFacts | utils.py:13 | replacing adds no character; text that lacks the pattern's first character is returned unchanged; no occurrence of a one-character pattern survives |
| Amounts.RemoveOneChar | utils.py:13 | replacing a one-character pattern drops every occurrence of it and keeps all other characters in order |
| Amounts.RemoveAllCount | utils.py:13 | `replace` keeps every character that is not in the pattern, as often as it occurs |
| Amounts.RemoveAllSubsequence | utils.py:13 | `replace` only deletes: the result is the input with characters removed, the rest in order |
| Amounts.StripStart | utils.py:13 | the first position from `i` that is not white space, with everything skipped being white space |
| Amounts.StripEnd | utils.py:13 | the last non-white-space boundary down to `lo`, with everything dropped being white space |
| Amounts.Strip | utils.py:13 | `strip()` returns a slice of the input whose prefix and suffix outside it are white space, and whose ends are not white space |
| Amounts.Clean | utils.py:13 | the cleaned text is no longer than the input, holds only characters of the input, and has no comma and no rupee sign; what it keeps is stated by the lemmas below |
| Amounts.StripCount | utils.py:13 | `strip()` keeps every character that is not white space, as often as it occurs |
| Amounts.CleanKeeps | utils.py:13 | cleaning keeps every character other than white space and the letters of the four markers, as often as it occurs |
| Amounts.CleanSubsequence | utils.py:13 | the cleaned text is the input with characters removed, the rest in order |
| Amounts.CleanPlain | utils.py:13 | on text without `R` and `I`, cleaning is exactly dropping the commas and rupee signs, then `strip()` |
| Amounts.LeftmostLongestUnique | utils.py:14 | the leftmost, longest numeral in a text is unique |
| Amounts.DigitRunEnd | utils.py:14 | `\d+` at a position extends exactly to the end of the run of digits there |
| Amounts.DigitsSlice | utils.py:14 | a stretch of positions holding digits is, as a slice, a string of digits |
| Amounts.UnsignedEnd | utils.py:14 | `\d+(\.\d+)?` matches at a position exactly when a digit stands there, and the match ends in a digit |
| Amounts.NumeralEnd | utils.py:14 | `[-+]?\d+(\.\d+)?` matches at a position exactly when a digit, or a sign followed by a digit, stands there; the match ends in a digit |
| Amounts.FindNumeral | utils.py:14 | `re.search` finds nothing exactly when no digit follows the start position; a match it finds is non-empty and ends in a digit |
| Amounts.UnsignedEndSpec | utils.py:14 | the scanner for `\d+(\.\d+)?` returns the longest match at the position, and nothing exactly when no prefix there matches |
| Amounts.NumeralEndSpec | utils.py:14 | the same for the signed pattern `[-+]?\d+(\.\d+)?` |
| Amounts.FindNumeralSpec | utils.py:14 | the search returns the leftmost start at which the pattern matches, with the longest match there; it returns nothing exactly when no substring matches |
| Amounts.UnsignedParts | utils.py:15 | a numeral splits at its dot into an all-digit integer part and an all-digit fraction |
| Amounts.DigitsBelow | utils.py:15 | a number written with `n` digits is below `10^n` |
| Amounts.UnsignedValue | utils.py:15 | `float()` of an unsigned numeral is never negative and is below ten to the number of digits before the dot |
| Amounts.NumeralValue | utils.py:15 | `float()` of a signed numeral is negative only with a leading minus, and never positive with one |
| Amounts.ParseAmount | utils.py:7-17 | missing or NaN cells and cells whose handling raises give `0.0`; numbers are returned unchanged |
| Amounts.ParseAmountText | utils.py:13-15 | text parses to `0.0` when its cleaned form contains no numeral, otherwise to the value of the leftmost, longest numeral in it |
| Amounts.NoDigitParsesToZero | utils.py:13-15 | text without a digit parses to `0.0` |
| Amounts.ParseAmountIdempotent | utils.py:9-12 | parsing an already parsed amount gives it back |
| Amounts.ParseColumn | utils.py:41-48 | a present amount column is parsed cell by cell; an absent one becomes zeros |
| Amounts.DigitChar | utils.py:36-38 | the character of a decimal digit, which reads back as that digit |
| Amounts.DecimalString | utils.py:36-38 | `str()` of a row position: non-empty, all digits, no leading zero except for 0 itself |
| Amounts.DecimalStringValue | utils.py:36-38 | the digits of the rendering of `n` read back as `n` |
| Amounts.DecimalStringInjective | utils.py:36-38 | distinct positions render as distinct ids |
| Amounts.ParseDecimalString | utils.py:13-15 | `parse_amount` of the rendering of `n` is `n` |
| Amounts.CleanDigits | utils.py:13 | cleaning leaves a string of digits unchanged |
| Amounts.FindDigits | utils.py:14 | in a string of digits, the match is the whole string |
| Amounts.DigitsNumeralValue | utils.py:15 | a string of digits is a numeral whose value is its decimal value |
| AmountExamples.RupeesWithSeparator | utils.py:13-15 | `"Rs. 1,000"` parses to `1000.0` |
| AmountExamples.RupeeSignWithFraction | utils.py:13-15 | `"₹1,234.50"` parses to `1234.5` |
| AmountExamples.TextWithoutNumeral | utils.py:13-15 | `"garbage"` parses to `0.0` |
| AmountExamples.RemoveAllSkip | utils.py:13 | text before the first character of the pattern is kept as it is |
| Matching.Prepare | utils.py:35-48 | the engine sees, per row, the id column or the row position as text, and the parsed amount column or zero |
| Matching.DefaultIdsDistinct | utils.py:35-38 | without an id column, every row's id is different |
| Matching.PaymentsWithId | utils.py:51 | an id has no more join partners than there are payments |
| Matching.PaymentsWithIdSpec | utils.py:51 | the join partners of an id are exactly the payments with that id, the earliest first |
| Matching.PaymentsWithIdIncreasing | utils.py:51 | join partners come in payment order |
| Matching.JoinRows | utils.py:51 | an order gets one joined row per payment of its id, or one row when there is none |
| Matching.JoinRowsOrder | utils.py:51 | all rows joined for an order belong to that order |
| Matching.JoinRowsSound | utils.py:51-52 | each joined row is `direct_id` with a payment of the same id, or unclassified when no payment has that id |
| Matching.LeftJoin | utils.py:51 | the left join drops no order: it has at least one row per order |
| Matching.LeftJoinBound | utils.py:51 | the join holds rows of existing orders only |
| Matching.LeftJoinSound | utils.py:51-52 | every row of the join is `direct_id` with a payment of its order's id, or unclassified when no payment has that id |
| Matching.LeftJoinOrdered | utils.py:51 | the left join keeps the order sequence: rows come by order position |
| Matching.JoinRowCount | utils.py:51 | each order has `max(1, number of payments with its id)` rows in the join |
| Matching.CountRowsAppend | utils.py:51 | counting an order's rows distributes over concatenation |
| Matching.AmountGreedyExclusive | utils.py:62-66 | no payment is attached to two `amount_greedy` rows |
| Matching.ToleranceInclusive | utils.py:62 | a payment exactly at the tolerance is within reach, so the row matches |
| Matching.NegativeToleranceMatchesNothing | utils.py:62-63 | with a negative tolerance, phase 2 matches nothing |
| Matching.NearestUnused | utils.py:62-65 | returns an unused payment within the tolerance whose distance is the least of all unused ones, or nothing when every unused payment is too far |
| Matching.AmountStep | utils.py:60-67 | handling one more row extends the phase-2 property by that row and adds its payment, if any, to the used set |
| Matching.AmountPhase | utils.py:55-72 | joined rows stay; every other row holds the greedy outcome for its amount, given what earlier rows took; only unclassified rows change, and only to `amount_greedy` |
| Matching.AmountPhaseTransfer | utils.py:55-72 | rows with the same phase-2 outcomes keep the phase-2 property |
| Matching.Ids | utils.py:76 | `payment_ids` lists every payment's id in payment order |
| Matching.BestScanUnique | utils.py:79-83 | the strict-`>` scan has one outcome: the first position of the highest positive score, or nothing |
| Matching.FirstWithBestId | utils.py:85 | the first payment carrying the best id is the one the scan stopped at |
| Matching.BestScanExists | utils.py:79-83 | the scan over the payment ids always has an outcome |
| Matching.FuzzyThreshold | utils.py:79-84 | with no payment id scoring above 0.85 the order gets no fuzzy match; with one, and no empty payment id, it gets one |
| Matching.BestPaymentId | utils.py:79-83 | the loop ends with the highest positive score and its first position, or with `0.0` and nothing when no score is positive |
| Matching.FuzzyPhase | utils.py:75-88 | rows already classified are untouched; each other row gets the best-scoring payment with its score when the score exceeds 0.85 and the id is non-empty, and stays otherwise, with no acceptable match existing |
| Matching.ComposePhases | utils.py:50-91 | the three phases' outcomes, with leftovers labelled `unmatched`, meet the engine's specification |
| Matching.Reconcile | utils.py:50-91 | the result has the join's rows and orders; every row is classified; `direct_id` exactly where the join matched; the others hold the phase-2, phase-3 or `unmatched` outcome |
| Matching.FuzzyMatchOrdersToPayments | utils.py:22-91 | the same over tables whose id or amount columns may be absent |
| Matching.DirectIdIffSharedId | utils.py:51-52 | a row is `direct_id` if and only if some payment carries its order's id |
| Matching.RowsPerOrder | utils.py:51-52 | every order has `max(1, number of payments with its id)` rows in the result |
| Matching.PhaseOrder | utils.py:55-88 | later phases only touch rows the join left unclassified; a `fuzzy_id` or `unmatched` row had no payment within the tolerance in phase 2 |
| Batching.Insert | utils.py:101 | inserting makes the list one longer and keeps only order positions in it |
| Batching.InsertAdds | utils.py:101 | inserting adds exactly that position: one more occurrence of it, every other count unchanged |
| Batching.InsertSorted | utils.py:101 | inserting into a non-increasing list keeps it non-increasing |
| Batching.SortDesc | utils.py:101 | the visiting order has one entry per order, each an order position |
| Batching.SortDescSorted | utils.py:101 | the visiting order has non-increasing amounts |
| Batching.InsertBelow | utils.py:101 | inserting an amount below a bound into a list below that bound keeps every amount below it |
| Batching.SortDescVisitsEachOnce | utils.py:101 | every order is visited exactly once and nothing else is visited, so the visiting order is a permutation of the order positions |
| Batching.Band | utils.py:105 | the band is at least 1 and at least 2% of the target, and it is one of the two |
| Batching.Admits | utils.py:105-108 | an amount is admitted only when the new sum stays within the band above the target |
| Batching.Reached | utils.py:109 | a sum that stops the loop is no further below the target than the band |
| Batching.FollowsAt | utils.py:104-110 | within a trace, each decision is the loop's decision at the running sum before it |
| Batching.TracePrefixMeans | utils.py:104-110 | a trace is exactly a list of decisions, each taken if and only if admitted at the running sum, with no earlier stop |
| Batching.GreedyTraceUnique | utils.py:104-110 | the loop's decisions are determined by the amounts and the target |
| Batching.TraceStep | utils.py:104-110 | one more decision made as the loop makes it extends the trace and adds the amount taken to the sum |
| Batching.SumWithinBand | utils.py:105-108 | once an order is taken, the running sum never exceeds target plus band |
| Batching.SelectStep | utils.py:104-108 | one loop iteration keeps the chosen list and sum equal to what the decisions give |
| Batching.SelectDone | utils.py:109-111 | when the loop ends, the batch meets its specification |
| Batching.SelectForTarget | utils.py:100-111 | the batch holds the target, the orders the greedy trace takes in visiting order, and their exact total, which is within the band above the target when non-empty |
| Batching.BankAmounts | utils.py:97 | each bank row's amount is `parse_amount` of its text |
| Batching.MatchTargets | utils.py:98-111 | the mapping has exactly one key per bank row, each holding that row's batch |
| Batching.GroupOrdersByBatch | utils.py:93-112 | one batch per bank row, keyed by its position, for that row's parsed amount, over all orders by non-increasing parsed amount |
| Scenarios.DirectPaymentReused | utils.py:51-66 | a payment joined on id to order "A" is then taken by amount for order "B" |
| Scenarios.HalvesMakeTarget | utils.py:104-110 | with target 300 and amounts 150, 150, 5, both 150s are taken and the loop stops before the 5 |
| Scenarios.HalvesBatch | utils.py:99-111 | that bank row's batch is orders 0 and 1 with sum 300 |

## Left out

- `app.py` (the web front end) and `reconcile_batch.py` (the command-line driver) are not part of this model. The same goes for file I/O, column renaming and the Excel/CSV export.
- `similar`: `difflib.SequenceMatcher` is not modelled. The engine takes the ratio as the parameter `sim`, with no assumption about its range or symmetry.
- Floating point: amounts, sums, tolerance and band arithmetic are exact reals. Rounding, NaN and infinity are not modelled, and `float()` of a numeral is its exact decimal value.
- The score text of `fuzzy_id` labels (`f'fuzzy_id_{best_score:.2f}'`) is kept as the exact score, not a two-decimal string.
- `\d` is modelled as the ASCII digits `0`–`9`. Python's `\d` also matches other Unicode decimal digits.
- Amount text is a string. For a bank row, `r.to_string()` is the caller's rendering of the row, passed in as that string.
- Which cell values make `pd.isna` true or make `str()` raise is abstracted as the `Missing` and `Faulty` kinds of `Cell`. Python booleans count as numbers.
- The merged frame's other columns are not modelled. That covers the copying of every payment column into a row, the `_order`/`_payment` suffixes and the `_merge` indicator. A row records its payment by position instead.
- `group_orders_by_batch_and_match`'s `date_col_orders`, `date_col_bank` and `days_window` parameters are not used by the code and are not modelled.
- Matching.NearestUnused: the source takes the first row of a sort by distance that is not stable, so among equally near payments it may pick any. The contract promises only some nearest payment, and the scan picks the first in payment order.
- Batching.SortDesc: the source sort is not stable either. The contract promises a non-increasing permutation, and the insertion sort keeps equal amounts in position order.
- Ids are modelled as text. `pd.merge` compares raw cell values (NaN joins NaN, `1` joins `1.0`, and mixed key types raise), while phase 3 compares `str()` renderings (utils.py:76-78, utils.py:85). The model compares strings throughout. The web front end's callers pass ids already turned to stripped strings (app.py:101, app.py:113), where the two agree.
- Batching.GroupOrdersByBatch: its contract names `SortDesc`, which breaks ties between equal amounts by position. That refines the unstable `sort_values` (utils.py:101): with equal amounts the source may visit, and so choose, different orders.
- Matching.AmountPhase: the source collects the phase-2 assignments and writes them after the loop. The model writes each one as it is made. The loop never reads the rows it writes, so the result is the same.
- Batching.GroupOrdersByBatch: bank amounts are parsed before the loop over bank rows (`BankAmounts`), as the source does in one `apply` before iterating.
- Amounts.ParseAmount: its own contract covers the non-text cells. The value of text cells is stated by `Amounts.ParseAmountText`.
