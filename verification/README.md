# Satoshi-Standard in Dafny

A model of the rules under the user interface of Satoshi-Standard, a React
application that prices everyday items in satoshis (sats, 10^-8 BTC) and keeps
a persisted list of priced items. The model covers:

- the saved-items store (`SavedItemsProvider`): add, remove, clear, update with
  sats recomputed at the current rate, wholesale import, the sorted view driven
  by a `"criteria-direction"` string (an in-place insertion sort on an array
  copy), the de-duplicated category list, the defaults;
- the dashboard's aggregates: the case-insensitive search filter, total sats,
  goal progress capped at 100%, fiat totals grouped by currency (an accumulator
  map filled in a loop), the chart currency, the CLEAR / empty-list rules and
  the goal editor;
- the category breakdown (a loop filling per-category totals, with
  "Uncategorized" for records without a category, and the null-chart rule);
- the price-change badge (today's cost in sats, the percent difference, the
  ±0.5% "Stable" band, "Cheaper" / "More Exp.");
- the two edit forms (validation, merge, initial fields, currency change);
- the two converters (fiat→sats and sats→fiat, the input guards, add-to-list);
- the two price-history modals (decision order, first-versus-last change);
- the older `App` component (list operations, the per-currency history cache,
  chart construction with one point per sample plus today's point);
- the three price providers' response transforms (Mempool, CoinGecko,
  CoinCap), with each network response taken as an input.

Prices and rates are exact `real`s; `Math.round(x)` is `floor(x + 1/2)`. Where
the JavaScript can divide by zero or read a missing rate, the result is a
`JsNumber.Num` (a finite value, ±Infinity or NaN) so that those outcomes are
stated rather than excluded. `Object.keys` order is the order of first
insertion (`Seqs.Distinct`). `localeCompare` and the default array sort are
both modelled as the code-unit lexicographic order `Text.Compare`, of which
antisymmetry, transitivity and "zero iff equal" are proved. The clock
(`Date.now()`, `toISOString()`, `toLocaleDateString()`), network responses and
"is a fetcher available" are parameters.

One module per source file; shared modules: `Wrappers` (Option), `JsNumber`,
`Sats` (rounding and the two unit conversions), `Text`, `Seqs`, `Records` (the
record types and sums), `Http` (a response as status plus decoded body).

## Model

| member | source | states |
|---|---|---|
| Sats.Round | src/contexts/SavedItemsProvider.jsx:71 | `Math.round` on an exact value: the result is the whole number within half a unit below (inclusive) or above (exclusive) |
| Sats.RoundWhole | src/components/converter/Converter.jsx:53 | rounding a whole number of sats gives it back |
| Sats.RoundMonotone | src/contexts/SavedItemsProvider.jsx:66-71 | rounding preserves order |
| Sats.SatsForAntitone | src/components/portfolio/PriceChangeBadge.jsx:10-11 | for a non-negative price, a higher positive rate never gives more sats |
| Sats.SatsFiatRoundTrip | src/components/converter/Converter.jsx:48-50 | converting sats to fiat and that fiat back to sats at the same non-zero rate gives the rounded sats |
| JsNumber.Sub | src/components/portfolio/PriceChangeBadge.jsx:15 | JavaScript subtraction over finite, infinite and NaN values: exact on finite operands, NaN when either side is NaN |
| JsNumber.Scale | src/components/portfolio/PriceChangeBadge.jsx:15 | multiplication by a positive constant: finite exactly for finite values, NaN exactly for NaN |
| JsNumber.Div | src/components/portfolio/SavedItemsList.jsx:46 | JavaScript division: exact for a non-zero finite divisor, not a finite number for a zero divisor, NaN for NaN operands |
| JsNumber.Round | src/App.jsx:86 | `Math.round`: a whole number within half a unit for finite values; non-finite values stay non-finite |
| JsNumber.Abs | src/components/portfolio/PriceChangeBadge.jsx:20 | `Math.abs`: the non-negative magnitude of a finite value; infinite stays infinite and NaN stays NaN |
| JsNumber.Min | src/components/portfolio/SavedItemsList.jsx:46 | `Math.min` of two numbers: NaN if either is NaN, else one of them and not above either |
| Text.Lower | src/components/portfolio/SavedItemsList.jsx:37 | `toLowerCase` on ASCII: same length, each letter lowered, nothing else changed |
| Text.Upper | src/api/providers/mempool.js:17 | `toUpperCase` on ASCII: same length, each letter raised, nothing else changed |
| Text.LowerIdempotent | src/components/portfolio/SavedItemsList.jsx:37-41 | lowering twice is lowering once |
| Text.UpperLowerRoundTrip | src/api/providers/mempool.js:16-19 | a lower-case code raised and lowered again is itself |
| Text.IncludesIffOccurs | src/components/portfolio/SavedItemsList.jsx:39-41 | `includes` holds exactly when the needle occurs at some position of the text |
| Text.IncludesEmpty | src/components/portfolio/SavedItemsList.jsx:37-41 | every text includes the empty query |
| Text.SliceOfTail | src/components/portfolio/SavedItemsList.jsx:39-41 | a window of the text after its first character is the window one position further on in the whole text |
| Text.TrimsToEmptyExamples | src/components/portfolio/EditItemForm.jsx:14 | names of only Unicode spaces (U+3000, U+2003, U+1680, space, tab) and the empty name trim to empty; a name with a letter does not |
| Text.Split | src/contexts/SavedItemsProvider.jsx:84 | `split` always yields at least one piece |
| Text.SplitJoin | src/contexts/SavedItemsProvider.jsx:84 | joining the pieces of a split with the separator gives the text back |
| Text.SplitWithoutSeparator | src/contexts/SavedItemsProvider.jsx:84 | a text without the separator splits into itself alone |
| Text.SplitAtSeparator | src/contexts/SavedItemsProvider.jsx:84 | `a + sep + b` with the separator in neither part splits into `[a, b]` |
| Text.SplitPiecesFree | src/contexts/SavedItemsProvider.jsx:84 | no piece of a split contains the separator |
| Text.Compare | src/contexts/SavedItemsProvider.jsx:88 | the string order stands in for `localeCompare`: result in -1..1 |
| Text.CompareAntisymmetric | src/contexts/SavedItemsProvider.jsx:88 | swapping the operands negates the comparison |
| Text.CompareZeroIffEqual | src/contexts/SavedItemsProvider.jsx:88 | the comparison is 0 exactly for equal strings |
| Text.CompareTransitive | src/contexts/SavedItemsProvider.jsx:88 | the order is transitive |
| Seqs.FilterMembers | src/contexts/SavedItemsProvider.jsx:31 | `filter` keeps exactly the elements satisfying the predicate |
| Seqs.FilterConcat | src/contexts/SavedItemsProvider.jsx:31 | filtering distributes over concatenation, so order is kept |
| Seqs.FilterKeepsAll | src/contexts/SavedItemsProvider.jsx:31 | when every element passes, `filter` changes nothing |
| Seqs.FilterDropsSome | src/contexts/SavedItemsProvider.jsx:31 | when some element fails, `filter` shortens the list |
| Seqs.FilterShorter | src/components/portfolio/SavedItemsList.jsx:36-43 | `filter` never lengthens the list |
| Seqs.IndexOf | src/components/portfolio/CategoryBreakdown.jsx:19 | the first position of an element |
| Seqs.DistinctMembers | src/contexts/SavedItemsProvider.jsx:100 | `[...new Set(s)]` has no duplicates and the same members as `s` |
| Seqs.DistinctFirstOccurrenceOrder | src/contexts/SavedItemsProvider.jsx:100 | `[...new Set(s)]` lists members in the order of their first occurrence in `s` |
| Seqs.DistinctHead | src/components/portfolio/SavedItemsList.jsx:115 | the first key of a non-empty sequence is its first element |
| Seqs.DistinctEmpty | src/components/portfolio/CategoryBreakdown.jsx:23 | there are no keys exactly when there are no elements |
| Seqs.DistinctConstant | src/components/portfolio/CategoryBreakdown.jsx:23 | a non-empty sequence of one value has that value as its only key |
| Seqs.DistinctSnoc | src/contexts/SavedItemsProvider.jsx:100 | one more element joins the keys at the end unless it is already one of them |
| Records.Stamp | src/App.jsx:41 | `{...item, id, dateAdded}`: the given id and date, every other field copied |
| Records.TotalSatsConcat | src/components/portfolio/SavedItemsList.jsx:45 | the sats total of two lists is the sum of their totals |
| SavedItemsStore.WithoutSpec | src/contexts/SavedItemsProvider.jsx:28-36 | removal keeps exactly the records with another id, in order; an absent id changes nothing; a present one shortens the list |
| SavedItemsStore.ReplaceSpec | src/contexts/SavedItemsProvider.jsx:73-77 | the update's `map` keeps the length, puts the edited record at every matching id and leaves every other record |
| SavedItemsStore.Repriced | src/contexts/SavedItemsProvider.jsx:65-72 | every field of the edited record is kept except `sats`, which is within half a sat of `price / rate · 10^8` (`Math.round`'s bracket) |
| SavedItemsStore.NewRecord | src/contexts/SavedItemsProvider.jsx:23 | the added record has the clock's id and ISO date, `currentSats` 0 when the input's is missing, other fields copied |
| SavedItemsStore.CategoriesSpec | src/contexts/SavedItemsProvider.jsx:99-101 | the category list has each non-empty category of some record exactly once, nothing else, in first-occurrence order |
| SavedItemsStore.KeyOf | src/contexts/SavedItemsProvider.jsx:84-93 | the sort key is name or sats exactly when the text before the first `-` says so, the id otherwise |
| SavedItemsStore.CriteriaAndDirection | src/contexts/SavedItemsProvider.jsx:84-94 | for `criteria-direction` the key follows the criteria and the order is ascending exactly when the direction is `asc` |
| SavedItemsStore.DefaultSortIsNewestFirst | src/contexts/SavedItemsProvider.jsx:17 | the default `dateAdded-desc` sorts by id (creation time), descending |
| SavedItemsStore.SatsAscExample | src/components/portfolio/SavedItemsList.jsx:163 | `sats-asc` sorts by sats, ascending |
| SavedItemsStore.NameAscExample | src/components/portfolio/SavedItemsList.jsx:164 | `name-asc` sorts by name, ascending |
| SavedItemsStore.DirectedAntisymmetric | src/contexts/SavedItemsProvider.jsx:85-95 | the directed comparator is antisymmetric under either direction |
| SavedItemsStore.DirectedTransitive | src/contexts/SavedItemsProvider.jsx:85-95 | the directed comparator's "not after" is transitive under either direction |
| SavedItemsStore.SortInPlace | src/contexts/SavedItemsProvider.jsx:85-95 | the array ends ordered by the directed comparator and is a permutation of its old contents |
| SavedItemsStore.InsertNext | src/contexts/SavedItemsProvider.jsx:85-95 | one insertion step: an ordered prefix grows by one element, contents permuted |
| SavedItemsStore.StartInsert | src/contexts/SavedItemsProvider.jsx:85-95 | before any swap, the prefix is ordered apart from the element being inserted, which is first of nothing |
| SavedItemsStore.SwapPermutes | src/contexts/SavedItemsProvider.jsx:85-95 | swapping two neighbours keeps the same records |
| SavedItemsStore.Store.constructor | src/contexts/SavedItemsProvider.jsx:14-18 | empty list, goal 1,000,000, no item being edited, sort `dateAdded-desc`, sats mode off |
| SavedItemsStore.Store.AddItemToList | src/contexts/SavedItemsProvider.jsx:20-26 | exactly one new record appended, earlier records unchanged and in order |
| SavedItemsStore.Store.RemoveItemFromList | src/contexts/SavedItemsProvider.jsx:28-36 | the list becomes the records with another id |
| SavedItemsStore.Store.ClearList | src/contexts/SavedItemsProvider.jsx:38-43 | the list becomes empty; on an empty list nothing changes |
| SavedItemsStore.Store.UpdateItem | src/contexts/SavedItemsProvider.jsx:45-80 | without a rate for the currency nothing changes and the reason depends on whether a fetcher exists; with one the record is replaced, repriced, and editing stops |
| SavedItemsStore.Store.ImportItems | src/contexts/SavedItemsProvider.jsx:126-137 | an array replaces the list; anything else leaves it unchanged |
| SavedItemsStore.Store.SetEditingId | src/contexts/SavedItemsProvider.jsx:16 | the id being edited is the one given |
| SavedItemsStore.Store.SetSortCriteria | src/contexts/SavedItemsProvider.jsx:17 | the sort criteria is the one given |
| SavedItemsStore.Store.SetGoal | src/contexts/SavedItemsProvider.jsx:15 | the goal is the one given |
| SavedItemsStore.Store.SetSatsMode | src/contexts/SavedItemsProvider.jsx:18 | sats mode is the value given |
| SavedItemsStore.Store.SortedItems | src/contexts/SavedItemsProvider.jsx:82-97 | the view is a permutation of the list ordered by the criteria and direction |
| Portfolio.FilteredSpec | src/components/portfolio/SavedItemsList.jsx:36-43 | the search keeps, in order, exactly the records whose lowered name, non-empty category or currency includes the lowered query; an empty query keeps all |
| Portfolio.Progress | src/components/portfolio/SavedItemsList.jsx:46 | progress is `min(total / goal · 100, 100)`: never above 100, within 0..100 for a positive goal and non-negative total, and the division-by-zero outcomes for a zero goal |
| Portfolio.Currencies | src/components/portfolio/SavedItemsList.jsx:49 | the currency of each record, in order |
| Portfolio.FiatTotals | src/components/portfolio/SavedItemsList.jsx:48-54 | one key per distinct currency, in first-appearance order, each holding the sum of that currency's prices |
| Portfolio.FiatKeysSpec | src/components/portfolio/SavedItemsList.jsx:48-54 | the keys are distinct and are exactly the currencies of some record |
| Portfolio.PricesInAbsent | src/components/portfolio/SavedItemsList.jsx:49-51 | a currency no record has totals 0, the value a new key starts from |
| Portfolio.CurrenciesStep | src/components/portfolio/SavedItemsList.jsx:49 | one more record adds its currency at the end of the currency sequence |
| Portfolio.AbsentCurrency | src/components/portfolio/SavedItemsList.jsx:49-51 | a currency not yet among the keys has total 0 over the records seen so far |
| Portfolio.PricesInStep | src/components/portfolio/SavedItemsList.jsx:52 | one more record adds its price to its own currency's sum only |
| Portfolio.AccumulateKeys | src/components/portfolio/SavedItemsList.jsx:49-50 | a currency met for the first time becomes the last key; the keys stay the distinct currencies in first-appearance order |
| Portfolio.AccumulateTotals | src/components/portfolio/SavedItemsList.jsx:49-52 | after adding the record's price to its currency's entry, every entry is its currency's sum over one more record |
| Portfolio.AccumulateStep | src/components/portfolio/SavedItemsList.jsx:48-54 | one loop step keeps the accumulator equal to the keys and sums of the records seen so far |
| Portfolio.ChartCurrencyOfFiltered | src/components/portfolio/SavedItemsList.jsx:115 | the chart currency is the first shown record's currency, or `usd` when no record is shown (or that currency is empty) |
| Portfolio.EmptyMessageAndClear | src/components/portfolio/SavedItemsList.jsx:166-183 | without CLEAR the empty message shows; with no query, the message shows exactly when CLEAR does not |
| Portfolio.GoalEditor.constructor | src/components/portfolio/SavedItemsList.jsx:27-28 | not editing, typed goal starts at the current goal |
| Portfolio.GoalEditor.BeginEditing | src/components/portfolio/SavedItemsList.jsx:80 | editing mode on |
| Portfolio.GoalEditor.SetTempGoal | src/components/portfolio/SavedItemsList.jsx:74 | the typed goal is the value given |
| Portfolio.GoalEditor.HandleUpdateGoal | src/components/portfolio/SavedItemsList.jsx:31-34 | the store's goal becomes the typed goal, editing mode ends, the list is untouched |
| Portfolio.TotalSatsExample | src/components/portfolio/SavedItemsList.test.jsx:40 | the tests' three records total 85,000 sats |
| Portfolio.FiatTotalsExample | src/components/portfolio/SavedItemsList.test.jsx:41-42 | the tests' records give keys `usd`, `sek` with 24.00 USD and 150.00 SEK |
| Portfolio.ProgressExample | src/components/portfolio/SavedItemsList.test.jsx:65 | 85,000 of a 100,000 goal is 85.0% |
| CategoryBreakdown.Labels | src/components/portfolio/CategoryBreakdown.jsx:12 | each record's category, `Uncategorized` when it has none |
| CategoryBreakdown.SatsInIsFilteredTotal | src/components/portfolio/CategoryBreakdown.jsx:11-17 | a category's total is the sats total of exactly the records filed under it |
| CategoryBreakdown.SatsInAbsent | src/components/portfolio/CategoryBreakdown.jsx:13-14 | a label no record carries totals 0, the value a new entry starts from |
| CategoryBreakdown.TotalsFor | src/components/portfolio/CategoryBreakdown.jsx:20 | the values array lists each label's total, parallel to the labels |
| CategoryBreakdown.ChartData | src/components/portfolio/CategoryBreakdown.jsx:8-25 | no chart when there are no labels or only a zero `Uncategorized`; otherwise distinct labels in first-appearance order with their totals |
| CategoryBreakdown.LabelsStep | src/components/portfolio/CategoryBreakdown.jsx:12 | one more record adds its label at the end of the label sequence |
| CategoryBreakdown.SatsInStep | src/components/portfolio/CategoryBreakdown.jsx:16 | one more record adds its sats to its own label's total only |
| CategoryBreakdown.AbsentLabel | src/components/portfolio/CategoryBreakdown.jsx:13-14 | a label not yet among the keys has total 0 over the records seen so far |
| CategoryBreakdown.TallyKeys | src/components/portfolio/CategoryBreakdown.jsx:13-15 | a label met for the first time becomes the last key; the keys stay the distinct labels in first-appearance order |
| CategoryBreakdown.TallyTotals | src/components/portfolio/CategoryBreakdown.jsx:13-16 | after adding the record's sats to its label's entry, every entry is its label's total over one more record |
| CategoryBreakdown.TallyStep | src/components/portfolio/CategoryBreakdown.jsx:11-17 | one loop step keeps the accumulator equal to the keys and totals of the records seen so far |
| CategoryBreakdown.LabelsSpec | src/components/portfolio/CategoryBreakdown.jsx:12-19 | the labels are distinct, are exactly the records' labels, and include `Uncategorized` when some record has no category |
| CategoryBreakdown.SumTotalsStep | src/components/portfolio/CategoryBreakdown.jsx:16 | a record added at the end adds its sats to the sum of the totals over distinct labels that hold its label |
| CategoryBreakdown.SumTotalsCovers | src/components/portfolio/CategoryBreakdown.jsx:9-17 | over distinct labels covering every record, the totals sum to all records' sats |
| CategoryBreakdown.ZeroTotals | src/components/portfolio/CategoryBreakdown.jsx:9 | with no records every total is 0, so they sum to 0 |
| CategoryBreakdown.TotalsPartition | src/components/portfolio/CategoryBreakdown.jsx:9-20 | the category totals partition the records: they sum to the total sats |
| CategoryBreakdown.BlankCases | src/components/portfolio/CategoryBreakdown.jsx:23-25 | no records give no chart; records all without category give one `Uncategorized` label, and no chart exactly when their sats sum to 0 |
| PriceChangeBadge.DiffPercent | src/components/portfolio/PriceChangeBadge.jsx:15 | `(current − original) / original · 100`, with the division-by-zero outcomes for an original of 0 |
| PriceChangeBadge.BadgeFor | src/components/portfolio/PriceChangeBadge.jsx:4-41 | no badge without a non-zero rate; otherwise today's cost is `round(price / rate · 10^8)` and the badge is Stable when `abs(diff) < 0.5`, else Cheaper exactly when the diff is negative, showing `abs(diff)` |
| PriceChangeBadge.CheaperIffLower | src/components/portfolio/PriceChangeBadge.jsx:29 | for a positive saved cost, a non-stable badge says Cheaper exactly when today's cost is lower |
| PriceChangeBadge.UnchangedRateIsStable | src/components/portfolio/PriceChangeBadge.test.jsx:19-23 | an item saved at today's rate shows Stable |
| PriceChangeBadge.ZeroCostShowsNaN | src/components/portfolio/PriceChangeBadge.jsx:15-20 | an item costing 0 sats then and now gets a NaN "More Exp." badge |
| PriceChangeBadge.HigherRateNeverCostsMore | src/components/portfolio/PriceChangeBadge.jsx:10-15 | a higher rate never gives a higher cost nor a larger diff |
| PriceChangeBadge.NoBadgeAndStableExamples | src/components/portfolio/PriceChangeBadge.test.jsx:14-23 | no rate gives no badge; the saving rate gives Stable |
| PriceChangeBadge.DoubledRateExample | src/components/portfolio/PriceChangeBadge.test.jsx:25-33 | a doubled rate gives "50.0% Cheaper" at 50,000,000 sats |
| PriceChangeBadge.HalvedRateExample | src/components/portfolio/PriceChangeBadge.test.jsx:35-43 | a halved rate gives "100.0% More Exp." at 200,000,000 sats |
| EditItemForm.Merge | src/components/portfolio/EditItemForm.jsx:12-24 | refused exactly for a blank name, an empty or non-positive price; otherwise the record with name, price, currency, category and currentSats overwritten and every other field, id included, kept |
| EditItemForm.MergeUnedited | src/components/portfolio/EditItemForm.jsx:6-23 | saving the unedited form gives the record back, with a missing `currentSats` as 0 |
| EditItemForm.Form.constructor | src/components/portfolio/EditItemForm.jsx:6-10 | the fields start from the item, category defaulting to '' and currentSats to 0 |
| EditItemForm.Form.HandleCurrencyChange | src/components/portfolio/EditItemForm.jsx:26-36 | the currency becomes the lowered text; a fetch for it is requested exactly when it is supported and a fetcher exists |
| EditItemForm.Form.HandleSave | src/components/portfolio/EditItemForm.jsx:12-24 | nothing is handed out exactly when the name trims to empty (every ECMAScript white space and line terminator) or the price is empty or not positive; otherwise the merge of the fields |
| Converter.DisplayName | src/components/converter/Converter.jsx:40 | `itemName \|\| 'Something'`: never empty, the name itself when it is not empty |
| Converter.Convert | src/components/converter/Converter.jsx:20-62 | no result exactly without a rate map, a positive numeric amount or a non-zero rate; fiat→sats gives `round(price / rate · 10^8)`, sats→fiat gives `round(amount)` sats and `amount / 10^8 · rate` fiat; name, price, currency, category, mode copied |
| Converter.DraftOf | src/components/converter/Converter.jsx:77 | the record fields handed to the list, without `currentSats` |
| Converter.ModesRoundTrip | src/components/converter/Converter.jsx:34-60 | converting a price to sats and those sats back to fiat gives the same sats again |
| Converter.FiatToSatsExample | src/components/converter/Converter.test.jsx:85-88 | 4 USD at 50,000 is 8,000 sats |
| Converter.SatsToFiatExample | src/components/converter/Converter.test.jsx:66-72 | 100,000,000 sats at 50,000 is 50,000.00 USD, named "Something" when unnamed |
| Converter.RefusedInputs | src/components/converter/Converter.jsx:21-30 | no rate map, an empty, non-numeric or zero amount, or an unknown currency give no result |
| Converter.Panel.constructor | src/components/converter/Converter.jsx:13-18 | "A cup of coffee", 4, `usd`, no category, no result, fiat→sats |
| Converter.Panel.CalculateSats | src/components/converter/Converter.jsx:20-62 | the result becomes the conversion of the current fields |
| Converter.Panel.HandleAddToList | src/components/converter/Converter.jsx:75-81 | with a result, the store gains it and the category resets; without one nothing changes |
| HistoryModal.PercentChange | src/components/shared/HistoricalPriceModal.jsx:41-43 | `(end − start) / start · 100` for a non-zero finite start; NaN in, NaN out |
| HistoryModal.ChangeNegativeIffLower | src/components/shared/HistoricalPriceModal.jsx:44 | for a positive start, the change is negative exactly when the end is lower |
| HistoryModal.Drawn | src/components/shared/HistoricalPriceModal.jsx:41-44 | a chart of two points or more is drawn with its first-to-last change, CHEAPER exactly when that change is negative, and its magnitude |
| HistoryModal.RenderContent | src/components/shared/HistoricalPriceModal.jsx:19-91 | loading wins, then a non-empty error, then chart data (not enough data below two points, else the first-to-last change, cheaper iff negative, magnitude `abs`), else nothing |
| HistoryModal.CheaperIffEndsLower | src/components/shared/HistoricalPriceModal.jsx:83-84 | a chart starting at a positive cost reads CHEAPER exactly when it ends lower |
| LegacyHistoryModal.RenderContent | src/components/HistoricalPriceModal.jsx:4-47 | same order, no length guard: an empty chart throws, one point or more gives the change |
| LegacyHistoryModal.Drawn | src/components/HistoricalPriceModal.jsx:13-16 | a non-empty chart is drawn with its first-to-last change, CHEAPER exactly when that change is negative, and its magnitude |
| LegacyHistoryModal.SinglePoint | src/components/HistoricalPriceModal.jsx:13-16 | one point gives 0% MORE EXPENSIVE, or NaN when that point is 0 sats |
| LegacyHistoryModal.AgreesFromTwoPoints | src/components/HistoricalPriceModal.jsx:13-39 | from two points on, the older modal shows the newer modal's change and wording |
| LegacyApp.SampleSats | src/App.jsx:83-86 | a history sample's point is `round(price / sampleRate · 10^8)` |
| LegacyApp.CurrentRate | src/App.jsx:90 | the current rate looked up by the lowered currency, NaN when missing |
| LegacyApp.ChartPoints | src/App.jsx:81-96 | the chart has one point per sample, dated and priced in history order, then today's point at the current rate |
| LegacyApp.TodayPoint | src/App.jsx:90-96 | today's point is NaN without a rate for the lowered currency and a whole number with a non-zero one |
| LegacyApp.ChartNeverCrashesModal | src/App.jsx:81-101 | every chart the app builds has a point, so the older modal never reads an empty chart |
| LegacyApp.App.constructor | src/App.jsx:14-24 | rates loading, the stored list, the modal closed, an empty cache |
| LegacyApp.App.LoadPrices | src/App.jsx:27-35 | the rates are the fetch's answer and loading ends |
| LegacyApp.App.AddItemToList | src/App.jsx:38-43 | one record stamped with the clock's id and date appended |
| LegacyApp.App.RemoveItemFromList | src/App.jsx:45-49 | the list becomes the records with another id |
| LegacyApp.App.ClearList | src/App.jsx:51-53 | the list becomes empty |
| LegacyApp.App.HandleComparePrice | src/App.jsx:56-110 | a cached currency is used and the cache unchanged; otherwise the fetched history is cached only when present; chart with history and rates, else the error; modal open, loading ended, never an empty chart |
| LegacyConverter.RateOf | src/components/Converter.jsx:16 | `btcPrices[currency]`, NaN when missing |
| LegacyConverter.CalculateAsWritten | src/components/Converter.jsx:11-25 | no result exactly without a rate map or a positive numeric amount; otherwise `round(price / rate · 10^8)` as a JavaScript number, whatever the rate |
| LegacyConverter.MissingRateGivesNaN | src/components/Converter.jsx:12-20 | 4 EUR against rates holding only USD passes the guard and yields NaN sats |
| LegacyConverter.ZeroRateGivesInfinity | src/components/Converter.jsx:12-20 | a zero rate passes the guard and yields infinite sats |
| LegacyConverter.Calculate | src/components/Converter.jsx:11-25 | the guarded conversion: no result exactly when the newer converter's guard refuses; otherwise whole sats, name defaulted, price and currency copied |
| LegacyConverter.CalculateRefinesAsWritten | src/components/Converter.jsx:11-25 | the guarded conversion refuses exactly what the written one refuses or turns into a non-number, agrees elsewhere, and matches the newer converter's fiat→sats mode |
| LegacyConverter.DraftOf | src/components/Converter.jsx:39-40 | the record fields handed to the list: no category and no `currentSats` |
| LegacyConverter.Panel.constructor | src/components/Converter.jsx:6-9 | "A cup of coffee", 4, `usd`, no result |
| LegacyConverter.Panel.CalculateSats | src/components/Converter.jsx:11-25 | the result becomes the guarded conversion of the fields |
| LegacyConverter.Panel.HandleAddToList | src/components/Converter.jsx:38-42 | with a result the app's list gains it stamped; without one nothing changes |
| LegacySavedItemsList.Totals | src/components/SavedItemsList.jsx:2-9 | the total over all records and one fiat key per distinct currency holding that currency's prices |
| LegacySavedItemsList.SameAsUnfilteredDashboard | src/components/SavedItemsList.test.jsx:28-30 | the older totals equal the dashboard's under an empty search |
| LegacyEditItemForm.Merge | src/components/EditItemForm.jsx:8-18 | refused as the newer form refuses; otherwise only name, price and currency overwritten |
| LegacyEditItemForm.NewerFormAgrees | src/components/EditItemForm.jsx:8-18 | the newer form refuses the same inputs and, given the record's own category and currentSats, saves the same record |
| LegacyEditItemForm.Form.constructor | src/components/EditItemForm.jsx:4-6 | fields start from the item's name, price and currency |
| LegacyEditItemForm.Form.ChooseCurrency | src/components/EditItemForm.jsx:42-52 | the currency is one of the five options |
| LegacyEditItemForm.Form.HandleSave | src/components/EditItemForm.jsx:8-18 | nothing is handed out exactly when the name trims to empty (every ECMAScript white space and line terminator) or the price is empty or not positive; otherwise the merge of the fields |
| MempoolProvider.FetchBitcoinPrices | src/api/providers/mempool.js:9-28 | null on failure; otherwise the projection of the response onto the fixed list |
| MempoolProvider.ProjectedByKeys | src/api/providers/mempool.js:15-21 | a map with the loop's keys and values is the projection |
| MempoolProvider.ProjectedSpec | src/api/providers/mempool.js:16-20 | keys only from the fixed list; a listed code is present exactly when its upper-case key is truthy in the response; values copied |
| MempoolProvider.ExtraKeysIgnored | src/api/providers/mempool.js:16-20 | responses agreeing on the listed codes give the same prices |
| MempoolProvider.SupportedCurrenciesSpec | src/api/providers/mempool.js:7 | the list has no duplicates and each code is lower-case letters that survive upper-casing and lowering |
| MempoolProvider.FetchSupportedCurrencies | src/api/providers/mempool.js:30-32 | exactly the fixed list |
| MempoolProvider.SupportedMatchesPrices | src/api/providers/mempool.js:16-20 | a code is supported exactly when a response holding it gives a price for it |
| MempoolProvider.FetchBitcoinPriceHistoryRange | src/api/providers/mempool.js:34-37 | always null |
| CoinCapProvider.FetchBitcoinPrices | src/api/providers/coincap.js:5-38 | null on failure, else a map with the key `usd` only, holding the parsed price; the status is not checked |
| CoinCapProvider.FetchSupportedCurrencies | src/api/providers/coincap.js:40-43 | exactly `usd, eur, sek, dkk, thb` |
| CoinCapProvider.PricesCoverOnlyUsd | src/api/providers/coincap.js:29-33 | every other currency is absent from the price map |
| CoinCapProvider.Window | src/api/providers/coincap.js:54-55 | the window ends now and spans `days · 86,400,000` ms |
| CoinCapProvider.WindowOrder | src/api/providers/coincap.js:45-55 | start ≤ end exactly for non-negative days; the default is 30 days back |
| CoinCapProvider.ToSamples | src/api/providers/coincap.js:67 | same length and order, each sample's time and price from the point |
| CoinCapProvider.FetchBitcoinPriceHistoryRange | src/api/providers/coincap.js:59-74 | samples exactly for an OK response with a body, null otherwise |
| CoinCapProvider.ToSamplesConcat | src/api/providers/coincap.js:67 | the mapping distributes over concatenation |
| CoinGeckoProvider.GetHeaders | src/api/providers/coingecko.js:3-11 | empty options without a key, else exactly one `x-cg-demo-api-key` header |
| CoinGeckoProvider.FetchBitcoinPrices | src/api/providers/coingecko.js:17-34 | the `bitcoin` map for an OK response, null otherwise |
| CoinGeckoProvider.InsertMultiset | src/api/providers/coingecko.js:43 | inserting adds exactly one element |
| CoinGeckoProvider.InsertSorted | src/api/providers/coingecko.js:43 | inserting into a sorted list keeps it sorted |
| CoinGeckoProvider.SortedCons | src/api/providers/coingecko.js:43 | a head not after any element of a sorted rest gives a sorted list |
| CoinGeckoProvider.Sort | src/api/providers/coingecko.js:43 | `sort()` yields a sorted permutation |
| CoinGeckoProvider.FetchSupportedCurrencies | src/api/providers/coingecko.js:36-48 | the codes sorted ascending, `[]` on failure |
| CoinGeckoProvider.Downsample | src/api/providers/coingecko.js:66 | the samples at indices divisible by 24: `ceil(n / 24)` of them, in order |
| CoinGeckoProvider.DownsampleKeepsFirst | src/api/providers/coingecko.js:65-67 | a non-empty history keeps its first sample and only its own samples |
| CoinGeckoProvider.FetchBitcoinPriceHistoryRange | src/api/providers/coingecko.js:50-77 | null for 401, 429, any other non-OK status or a failure; else the samples, downsampled when days > 90, days defaulting to 30 |
| CoinGeckoProvider.HistoryExamples | src/api/providers/coingecko.js:50-69 | the default 30 days keeps all samples, 365 days downsamples, 429 and 500 give null |

## Left out

- Network I/O: `fetch`, `response.json()`, URLs, query strings and environment keys; each response is an input (`Http.Response`, or `Option` for Mempool, whose status is never read). src/api/cryptoApi.js is not part of this model.
- A decoded body of the wrong shape (`data.bitcoin` undefined, `data.prices` missing) is folded into the "no body" case, which yields null or a failure.
- Toasts, console output, all JSX and chart configuration, animation, skeletons; FiatLeakChart, the price chart, layout widgets, the data import/export file handling and localStorage persistence. SavedItemsStore.Store.ImportItems takes an `Option<seq<SavedItem>>`: the source stores any array it is given, records or not, and an array of other values is not representable here.
- React scheduling: effects, `useMemo` and the intermediate renders around `await` (the modal's loading state between the fetch and its answer); each handler is modelled as the state after it finishes.
- IEEE doubles: prices and rates are exact reals, `parseFloat`/`Number` are pre-applied, -0 is not distinguished, and `toFixed`/`toLocaleString` formatting is not modelled.
- Text.Lower / Text.Upper: ASCII case mapping only; other Unicode case mappings are not modelled.
- Text.Compare: stands for both `localeCompare` and the default `sort()` order as code-unit lexicographic order on Dafny characters; locale collation and UTF-16 surrogate order are not modelled.
- SavedItemsStore.Store.SortedItems: states a permutation ordered by the comparator, not which of the equal elements comes first (the stability of `Array.prototype.sort`).
- Object keys: insertion order is modelled, but the special ordering of integer-like keys and keys inherited from the prototype are not.
- Record shape: `category` absent and `''` are one value (`""`), as every reader treats them alike; the converter result's extra `fiat` and `mode` fields, which are spread into the stored record, are not kept on it.
- Sats-to-fiat add-to-list stores the sats amount typed as the record's price, exactly as the code does; the model keeps this without comment on intent.
- EditItemForm.Form: the category input and the sats field's own handlers are plain field writes and are not modelled separately; the form reads `supportedCurrencies` and the fetcher as parameters.
- LegacyApp.App.HandleComparePrice: the history fetch is the parameter `fetched`; which provider answers, and the fetch for a currency with a cached entry (there is none), are outside the model.
- MempoolProvider.FetchSupportedCurrencies: its contract restates the fixed list, which is all the source does.
- CoinCapProvider.FetchBitcoinPrices: the currencies argument is ignored by the source and is not a parameter.
- CoinGeckoProvider.FetchBitcoinPrices: the currencies argument only changes the URL and is not modelled.
- LegacyConverter.Panel.CalculateSats: stores the guarded `Calculate` (the corrected half of the finding below), so a missing or zero rate leaves no result; the source stores a result with NaN or Infinity sats there, which `SavedItem.sats`, a whole number, cannot hold.
- LegacyConverter.Panel.HandleAddToList: for the same reason never appends the NaN- or Infinity-sats record the source hands to `addItemToList` for a currency without a usable rate; it appends the guarded result only.
- The history modal's time-range buttons and the older modal's fixed "30 days" caption are presentation only.

## Findings

| source | as written | input that shows it | evidently intended | confidence | as-written member | corrected member |
|---|---|---|---|---|---|---|
| src/components/Converter.jsx:12-20 | the guard checks for a rate map and a positive amount but not for a rate in the chosen currency, so `btcPrices[currency]` may be `undefined` or 0 | rates `{usd: 50000}`, currency `eur`, price 4: the result shows NaN sats; rates `{usd: 0}`, currency `usd`: Infinity sats (lemmas `LegacyConverter.MissingRateGivesNaN` and `LegacyConverter.ZeroRateGivesInfinity`) | refuse the conversion, as src/components/converter/Converter.jsx:21-30 does with `!btcPrices[currency]` | medium, not executed | LegacyConverter.CalculateAsWritten | LegacyConverter.Calculate |
