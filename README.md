# ExchangeModules live market data, modelled in Dafny

This project models the live market-data engine of ExchangeModules and the small helpers it uses. The engine keeps, for every traded pair:

- **OrderBookDepth**: the depth book. It holds one strictly sorted list of price levels per side. Each level carries an update id that guards against stale updates. Every accepted change is reported to the chart as a delta.
- **OrderBookChart**: the depth chart. It holds contiguous price buckets per side inside a sliding ±10% window: at most 100 after balancing, though a window slide alone can leave 101. Buckets are merged, split, removed and stitched as the depth changes.
- **TradeHistory**: the trade tape, newest fill first. It is trimmed to 200 fills on each harvest.
- **TradeHistoryChart**: candle series for three interval types (hour ×25, day ×30, week ×52). Each series is rolled forward with flat candles and receives every fill.
- **TradeQuotes**: the 25-hour quote of every pair, aggregated from its hourly candles.
- **AssetQuoter**: a cross rate and its period change, composed along a route of pair edges.

Each component is read and cleared by a *harvest*: it hands out the entries flagged since the last harvest and clears their flags.

The state-changing components are classes whose methods are proved equal to pure specification functions of the old state. The properties the source promises are lemmas about those functions:
- sort order and uniqueness of levels;
- conservation of reported deltas;
- the bucket chain invariant that `IntegrityCheck` tests, for the corrected bid remainder (see "## Findings");
- the count bound;
- candle contiguity and trimming;
- harvest exactness;
- idempotence of a second harvest;
- round trips of the helpers.

How the source's values are represented:
- Decimals are `real`: the 28–29 significant digits of C# `decimal`, the rounding of its arithmetic and its overflow are not modelled.
- `Math.Round(x, d)` is round-half-to-even to `d` decimals (`Decimals.Round`).
- `Math.Pow(10, -d)` is exactly 10^-d.
- `DateTime` is a tick count (100 ns).
- Exceptions become `Result` values or a `raised` flag.

Inputs the model takes as parameters:
- the clock `now`;
- the route returned by the shortest-path search;
- series and tapes loaded from the database;
- the depth book an `OrderBookChart` queries.

In these places the source behaves as follows (the model follows it):
- AssetQuoter multiplies route prices as found and never inverts a reversed edge; only the change of a reversed edge is negated (`AssetQuoter.FoundPrice`, `AssetQuoter.ReversedEdgeNegates`).
- A depth level's stored update id is never refreshed by an accepted update, so a later older id is still applied (`OrderBookDepth.StoredIdNotRefreshed`).
- Absolute depth updates are not clamped at 0, so a level can go negative (`OrderBookDepth.ApplyDepthExisting`).
- A fill is folded into the newest candle that starts strictly before it, not at or before it (`TradeHistoryChart.LastBefore`).
- A candle series holds at most `Length` candles after a roll, not exactly `Length` (`TradeHistoryChart.RolledShape`).
- The first fill of an empty series is counted twice in its candle's volume when it falls after the rounded start (`TradeHistoryChart.FirstFillDoubleCounts`).
- The trade tape exceeds 200 fills between harvests; only a harvest trims it.

## Model

| member | source | states |
|---|---|---|
| Wrappers.Min | LiveUpdate/OrderBookChart.cs:469 | the smaller of two numbers, one of them |
| Wrappers.Max | LiveUpdate/OrderBookChart.cs:470 | the larger of two numbers, one of them |
| Decimals.Pow10 | LiveUpdate/OrderBookChart.cs:445 | 10^d is at least 1 |
| Decimals.Scale | LiveUpdate/OrderBookChart.cs:445 | 10^d as a real is at least 1 |
| Decimals.Unit | LiveUpdate/OrderBookChart.cs:445 | 10^-d is positive, at most 1, and the inverse of 10^d |
| Decimals.RoundToEven | LiveUpdate/TradeHistoryChart.cs:75 | the integer within one half of x; an exact integer is kept; a tie goes to the even neighbour |
| Decimals.Round | LiveUpdate/OrderBookChart.cs:336 | Math.Round(x, d), half to even (RoundIsOnGrid, RoundIsNearest, RoundKeepsGridValue, RoundIdempotent, RoundBetween) |
| Decimals.Descale | LiveUpdate/OrderBookChart.cs:336 | n·10^-d scaled back by 10^d is n |
| Decimals.RoundIsOnGrid | LiveUpdate/OrderBookChart.cs:336 | Math.Round(x, d) has at most d decimals |
| Decimals.RoundIsNearest | LiveUpdate/OrderBookChart.cs:336 | Math.Round(x, d) is within half a unit of x |
| Decimals.RoundKeepsGridValue | LiveUpdate/TradeQuotes.cs:51 | a value with at most d decimals is returned unchanged |
| Decimals.RoundIdempotent | LiveUpdate/TradeQuotes.cs:51 | rounding twice is rounding once |
| Decimals.RoundBetween | LiveUpdate/OrderBookChart.cs:419-420 | between two on-grid bounds, the rounded value stays between them |
| Decimals.RoundNonNegative | LiveUpdate/OrderBookChart.cs:474 | rounding a non-negative value is non-negative |
| Seqs.Filter | LiveUpdate/TradeHistory.cs:71 | FindAll/Where: keeps exactly the elements that satisfy the predicate, no more of them than the input has |
| Seqs.FilterIsSubsequence | LiveUpdate/TradeHistory.cs:71 | the result is the input at the strictly increasing positions FilterIndexes, so FindAll keeps the selected elements in their order |
| Seqs.FilterAppend | LiveUpdate/TradeHistory.cs:71 | filtering distributes over concatenation |
| Seqs.FilterKeepsAll | LiveUpdate/TradeHistory.cs:71 | when every element qualifies, nothing is dropped |
| Seqs.FilterDropsAll | LiveUpdate/TradeHistory.cs:71 | when no element qualifies, the result is empty |
| TextEx.Split | HelpersLib/TextEx.cs:11 | String.Split always yields at least one part |
| TextEx.ParsePairString | HelpersLib/TextEx.cs:8-14 | a non-null result has at least two parts |
| TextEx.SplitJoin | HelpersLib/TextEx.cs:11 | joining the parts with the separator gives back the text |
| TextEx.SplitCount | HelpersLib/TextEx.cs:11 | the number of parts is one more than the number of separators |
| TextEx.SplitPartsHaveNoSeparator | HelpersLib/TextEx.cs:11 | no part contains the separator |
| TextEx.OccurrencesZero | HelpersLib/TextEx.cs:11 | no occurrences exactly when the character is absent |
| TextEx.SplitWithoutSeparator | HelpersLib/TextEx.cs:11 | a text without a separator is its own only part |
| TextEx.SplitAfterPrefix | HelpersLib/TextEx.cs:11 | a separator after a separator-free prefix ends the first part there |
| TextEx.ParsePairStringParts | HelpersLib/TextEx.cs:11-13 | null exactly when there is no '-'; otherwise one part per dash plus one |
| TextEx.ParsePairStringRoundTrip | HelpersLib/TextEx.cs:11-13 | the parts joined with '-' reproduce the input, and no part holds '-' |
| TextEx.ParseTwoCodes | HelpersLib/TextEx.cs:8-14 | "ONE-TWO" of dash-free codes parses to exactly [ONE, TWO] |
| TextEx.PairStringParses | LiveUpdate/OrderBookChart.cs:75 | the key `codeOne + "-" + codeTwo` a pair is stored under parses back to exactly its two dash-free codes |
| TextEx.EmptyPartsKept | HelpersLib/TextEx.cs:11 | "A--B" has three parts, the middle one empty |
| DateTimeEx.Millisecond | HelpersLib/DateTimeEx.cs:15 | the millisecond of a time lies in 0..999 |
| DateTimeEx.WholeSeconds | HelpersLib/DateTimeEx.cs:14 | the latest whole second not after the time |
| DateTimeEx.RoundToSeconds | HelpersLib/DateTimeEx.cs:12-18 | a whole second within half a second of the input; not after it below 500 ms, after it from 500 ms |
| DateTimeEx.RoundToSecondsIdempotent | HelpersLib/DateTimeEx.cs:14-15 | rounding a rounded time changes nothing |
| MathEx.Power | HelpersLib/MathEx.cs:11 | 10^d is positive, also for negative d |
| MathEx.FloorToMultiple | HelpersLib/MathEx.cs:12 | Floor(x·p)/p scaled back by p is the floor of x·p |
| MathEx.FloorToMultipleBounds | HelpersLib/MathEx.cs:12 | the result is at most x and less than 1/p below it |
| MathEx.FloorToMultipleExact | HelpersLib/MathEx.cs:12 | a multiple of 1/p is kept |
| MathEx.FloorToMultipleIdempotent | HelpersLib/MathEx.cs:12 | flooring twice is flooring once |
| MathEx.RoundDown | HelpersLib/MathEx.cs:9-13 | Floor(x·10^d)/10^d (RoundDownBounds, RoundDownKeepsExactValue, RoundDownIdempotent) |
| MathEx.RoundDownBounds | HelpersLib/MathEx.cs:9-13 | RoundDown(x, d) ≤ x, also for negative x, and x − RoundDown(x, d) < 10^-d |
| MathEx.RoundDownKeepsExactValue | HelpersLib/MathEx.cs:9-13 | a value with at most d decimals is returned unchanged |
| MathEx.RoundDownIdempotent | HelpersLib/MathEx.cs:9-13 | rounding down twice with the same d is rounding down once |
| MathEx.TrimEnd | HelpersLib/MathEx.cs:17 | TrimEnd gives a prefix that does not end in the character |
| MathEx.IndexOf | HelpersLib/MathEx.cs:18 | IndexOf gives the first position of the character, or -1 exactly when it is absent |
| MathEx.GetDecimalCount | HelpersLib/MathEx.cs:15-21 | the fraction length of the text with trailing zeros trimmed, 0 without a point (DecimalCountWithoutPoint, DecimalCountOfParts, DecimalCountExamples) |
| MathEx.DecimalCountWithoutPoint | HelpersLib/MathEx.cs:17-19 | with no '.' left after trimming zeros, the count is 0 |
| MathEx.TrimEndAppend | HelpersLib/MathEx.cs:17 | trimming a concatenation trims the tail first |
| MathEx.DecimalCountOfParts | HelpersLib/MathEx.cs:15-21 | for "int.frac" the count is the fraction's length without trailing zeros |
| MathEx.DecimalCountExamples | HelpersLib/MathEx.cs:15-21 | "1.50" has 1 decimal and "1.00" has 0 |
| DictionaryConverter.Concatenate | HelpersLib/DictionaryConverter.cs:40-45 | the keys are the union of the inputs' keys |
| DictionaryConverter.ConcatenatePair | HelpersLib/DictionaryConverter.cs:47-54 | the key union; dict2 wins on a shared key, and a key only in dict1 keeps its value |
| DictionaryConverter.LastDictionaryWins | HelpersLib/DictionaryConverter.cs:42-44 | each key takes the value of the last dictionary that holds it |
| DictionaryConverter.ConcatenateWithEmpty | HelpersLib/DictionaryConverter.cs:51-53 | merging with an empty dictionary, on either side, keeps the contents |
| DictionaryConverter.ConcatenateWithItself | HelpersLib/DictionaryConverter.cs:51-53 | merging a dictionary with itself keeps the contents |
| HttpContent.GetMimeTypes | HelpersLib/HttpContent.cs:15-33 | the 13-entry extension table (TableEntries) |
| HttpContent.GetExtension | HelpersLib/HttpContent.cs:11 | Path.GetExtension: the last '.' of the final segment onward, or "" (ScanBack, FinalExtension, ScanBackNoPoint) |
| HttpContent.ScanBack | HelpersLib/HttpContent.cs:11 | Path.GetExtension gives "" or a '.' followed by at least one character |
| HttpContent.ToLower | HelpersLib/HttpContent.cs:11 | lower-casing is character by character and keeps the length |
| HttpContent.GetContentType | HelpersLib/HttpContent.cs:8-13 | succeeds exactly when the lower-cased extension is in the table, with that entry's type; otherwise the indexer throws |
| HttpContent.ScanBackLower | HelpersLib/HttpContent.cs:11 | the extension of the lower-cased path is the lower-cased extension |
| HttpContent.ContentTypeIgnoresCase | HelpersLib/HttpContent.cs:11-12 | the type does not depend on the case of the path |
| HttpContent.LowerTwice | HelpersLib/HttpContent.cs:11 | lower-casing is idempotent |
| HttpContent.ScanBackSkips | HelpersLib/HttpContent.cs:11 | the scan passes over characters that are neither '.' nor separators |
| HttpContent.FinalExtension | HelpersLib/HttpContent.cs:11 | only the final extension counts |
| HttpContent.TableEntries | HelpersLib/HttpContent.cs:15-33 | the 13 table entries; "a.PDF" and "a.pdf" map to application/pdf; "x.tar.csv" maps to text/csv; .jpg and .jpeg map to image/jpeg |
| HttpContent.MissingExtensionFails | HelpersLib/HttpContent.cs:12 | a path without an extension throws |
| HttpContent.ScanBackNoPoint | HelpersLib/HttpContent.cs:11 | without a '.' the extension is empty |
| OrderBookDepth.TotalAppend | LiveUpdate/OrderBookDepth.cs:286 | the total quantity of joined level lists is the sum of their totals |
| OrderBookDepth.TotalUpdate | LiveUpdate/OrderBookDepth.cs:103-109 | replacing one level changes the total by the quantity difference |
| OrderBookDepth.TotalFront | LiveUpdate/OrderBookDepth.cs:286 | the total is the first level plus the rest |
| OrderBookDepth.Locate | LiveUpdate/OrderBookDepth.cs:92-145 | the scan stops at the first level with the price or beaten by it (Compare), else at the end |
| OrderBookDepth.LocateIs | LiveUpdate/OrderBookDepth.cs:92-145 | a position with no stop before it and a stop at it (or the end) is where the scan stops |
| OrderBookDepth.LocateFindsPrice | LiveUpdate/OrderBookDepth.cs:92-94 | on a sorted side the scan stops at the level holding the price |
| OrderBookDepth.ApplyDepth | LiveUpdate/OrderBookDepth.cs:74-158 | AddDepth's effect on one side and its chart calls (ApplyDepthSorted, ApplyDepthStaleIgnored, ApplyDepthExisting, ApplyDepthNewLevel, ApplyDepthConserves) |
| OrderBookDepth.ApplyDepthSorted | LiveUpdate/OrderBookDepth.cs:74-158 | AddDepth keeps a side strictly sorted with unique prices (bids descending, asks ascending) |
| OrderBookDepth.ApplyDepthStaleIgnored | LiveUpdate/OrderBookDepth.cs:96-121 | an update id not newer than the stored one changes nothing and reports nothing |
| OrderBookDepth.ApplyDepthExisting | LiveUpdate/OrderBookDepth.cs:96-114 | delta mode sets max(old+q, 0), absolute mode sets q unclamped; the level is flagged and the difference is reported |
| OrderBookDepth.ApplyDepthNewLevel | LiveUpdate/OrderBookDepth.cs:74-158 | a level is created exactly when the price is new and q > 0; it is flagged, has id `updateId ?? 0`, and +q is reported; it is inserted where the scan stopped, with the levels before and after it unchanged and in order |
| OrderBookDepth.ApplyDepthConserves | LiveUpdate/OrderBookDepth.cs:86-157 | the reported deltas sum to the change of the side's total |
| OrderBookDepth.DeltaScenario | LiveUpdate/OrderBookDepth.cs:54-158 | +5 with id 1 then −2 with id 2 at bid 100 leaves one flagged level of 3, reporting +5 then −2 |
| OrderBookDepth.StoredIdNotRefreshed | LiveUpdate/OrderBookDepth.cs:96-114 | after ids 1 and 3 are accepted, id 2 is still applied |
| OrderBookDepth.DeleteSpec | LiveUpdate/OrderBookDepth.cs:313-331 | the count is kept; exactly the non-zero older levels are zeroed and flagged; the other levels are unchanged |
| OrderBookDepth.DeleteConserves | LiveUpdate/OrderBookDepth.cs:319-324 | the deltas sum to the change of the total, and there are at most as many as levels |
| OrderBookDepth.DeleteReports | LiveUpdate/OrderBookDepth.cs:319-324 | the reported deltas are exactly one per zeroed level: minus its old quantity at its price, on the side's isBuy |
| OrderBookDepth.DeleteSorted | LiveUpdate/OrderBookDepth.cs:313-331 | deletion keeps the side sorted |
| OrderBookDepth.DeleteOrderDepths | LiveUpdate/OrderBookDepth.cs:307-332 | the zeroing loop computes DeleteSpec |
| OrderBookDepth.ClearFlags | LiveUpdate/OrderBookDepth.cs:249 | every level is kept with its flag cleared |
| OrderBookDepth.FilterSorted | LiveUpdate/OrderBookDepth.cs:250 | pruning keeps book order |
| OrderBookDepth.UpdatedLevels | LiveUpdate/OrderBookDepth.cs:249 | the flagged levels, unflagged (HarvestSide, HarvestTwice) |
| OrderBookDepth.KeptLevels | LiveUpdate/OrderBookDepth.cs:249-250 | the non-zero levels, unflagged (HarvestSide, HarvestTwice) |
| OrderBookDepth.HarvestSide | LiveUpdate/OrderBookDepth.cs:249-254 | the harvest hands out exactly the flagged levels, unflagged; the side keeps every non-zero level and no zero one, unflagged and sorted |
| OrderBookDepth.HarvestTwice | LiveUpdate/OrderBookDepth.cs:249-254 | a second harvest hands out nothing and changes nothing |
| OrderBookDepth.RangeSum | LiveUpdate/OrderBookDepth.cs:286-291 | the quantity of the levels in the half-open range (RangeSumAll, RangeSumNonZero, RangeSumSplit) |
| OrderBookDepth.RangeSumAll | LiveUpdate/OrderBookDepth.cs:286-291 | a range covering every price sums to the side's total |
| OrderBookDepth.RangeSumNonZero | LiveUpdate/OrderBookDepth.cs:286-291 | a non-zero range sum has a level inside the half-open range |
| OrderBookDepth.RangeSumSplit | LiveUpdate/OrderBookDepth.cs:286-291 | cutting a range at a middle price splits its sum |
| OrderBookDepth.Walk | LiveUpdate/OrderBookDepth.cs:393-409 | the fill of the walk in book order (WalkFills) |
| OrderBookDepth.WalkFills | LiveUpdate/OrderBookDepth.cs:393-409 | the walk fills min(requested, side total), never more than requested |
| OrderBookDepth.TotalNonNegative | LiveUpdate/OrderBookDepth.cs:393-409 | non-negative levels have a non-negative total |
| OrderBookDepth.OrderBookDepth.constructor | LiveUpdate/OrderBookDepth.cs:334-366 | the book starts as the sorted levels loaded at start-up |
| OrderBookDepth.OrderBookDepth.AddDepth | LiveUpdate/OrderBookDepth.cs:54-194 | the chosen side becomes ApplyDepth of the old side and the chart calls are its deltas; the other side is unchanged; sorting is kept |
| OrderBookDepth.ApplyDepthScan | LiveUpdate/OrderBookDepth.cs:74-158 | the scan returns the side and the chart calls of ApplyDepth |
| OrderBookDepth.OrderBookDepth.SetSide | LiveUpdate/OrderBookDepth.cs:70 | replaces one side and leaves the other |
| OrderBookDepth.OrderBookDepth.DeleteDepths | LiveUpdate/OrderBookDepth.cs:196-228 | bids then asks go through DeleteSpec, and the deltas are concatenated in that order |
| OrderBookDepth.OrderBookDepth.GetUpdatedDepths | LiveUpdate/OrderBookDepth.cs:230-268 | each side's result is UpdatedLevels and each side becomes KeptLevels |
| OrderBookDepth.OrderBookDepth.GetQuantitySum | LiveUpdate/OrderBookDepth.cs:270-305 | RangeSum of the chosen side |
| OrderBookDepth.OrderBookDepth.ComputeAssetTwoQuantity | LiveUpdate/OrderBookDepth.cs:384-410 | the walk over the opposite side (asks for a buy) |
| ChartColumns.Abs | LiveUpdate/OrderBookChart.cs:257 | Math.Abs is non-negative and ±x |
| ChartColumns.ColumnTotalAppend | LiveUpdate/OrderBookChart.cs:269 | bucket totals add over concatenation |
| ChartColumns.ColumnTotalSingle | LiveUpdate/OrderBookChart.cs:269 | one bucket's total is its quantity |
| ChartColumns.FindColumn | LiveUpdate/OrderBookChart.cs:89-92 | the first bucket containing the price (bid (finish, start], ask [start, finish)), or none when no bucket does |
| ChartColumns.FindFrom | LiveUpdate/OrderBookChart.cs:89-92 | the search from index i |
| ChartColumns.ChainContainsUnique | LiveUpdate/OrderBookChart.cs:757-768 | on a chain at most one bucket contains a price |
| ChartColumns.ChainFind | LiveUpdate/OrderBookChart.cs:89-92 | on a chain the search finds the bucket that contains the price |
| ChartColumns.GridStitchInside | LiveUpdate/OrderBookChart.cs:419-420 | the rounded midpoint of an on-grid bucket lies inside it |
| ChartColumns.RemoveAt | LiveUpdate/OrderBookChart.cs:417-432 | one bucket fewer; only the two neighbours are stitched; the removed bucket goes to the removed list zeroed and unflagged |
| ChartColumns.RemoveAtChain | LiveUpdate/OrderBookChart.cs:417-432 | removal keeps the chain (an interior bucket needs its midpoint inside it) |
| ChartColumns.RemoveAtGrid | LiveUpdate/OrderBookChart.cs:419-423 | removal keeps bounds on the d-decimal grid |
| ChartColumns.MergeIndex | LiveUpdate/OrderBookChart.cs:256-264 | the index in 1..count−2 of smallest span, the earliest on ties |
| ChartColumns.MinSpanFrom | LiveUpdate/OrderBookChart.cs:259-264 | the selection loop from index i |
| ChartColumns.Merge | LiveUpdate/OrderBookChart.cs:250-279 | MergeTwoColumns (MergeEffect, MergeChain, MergeGrid) |
| ChartColumns.MergeEffect | LiveUpdate/OrderBookChart.cs:252-278 | fewer than 3 buckets: nothing changes; otherwise index 0 is untouched, one bucket fewer, the total is kept, and the absorbed bucket goes to the removed list with quantity 0 |
| ChartColumns.MergeChain | LiveUpdate/OrderBookChart.cs:268 | a merge keeps the chain |
| ChartColumns.MergeGrid | LiveUpdate/OrderBookChart.cs:268 | a merge keeps the grid |
| ChartColumns.MergeDown | LiveUpdate/OrderBookChart.cs:247 | the merge loop leaves exactly COLUMN_NUMBER buckets when there were more, and changes nothing otherwise |
| ChartColumns.MergeDownKeeps | LiveUpdate/OrderBookChart.cs:247 | the merge loop keeps the chain, the grid and the total |
| ChartColumns.TrySplit | LiveUpdate/OrderBookChart.cs:329-411 | an attempt not reported as done keeps the count and the removed list |
| ChartColumns.NonZeroRangeIsProper | LiveUpdate/OrderBookChart.cs:350-356 | a non-zero depth sum means the range is proper |
| ChartColumns.TrySplitCut | LiveUpdate/OrderBookChart.cs:394-410 | a cut gives two buckets meeting at the rounded midpoint, weighted by the two half sums; one bucket more |
| ChartColumns.TrySplitRefused | LiveUpdate/OrderBookChart.cs:387-392 | at an interior index, exactly one empty half gives false and no change |
| ChartColumns.TrySplitChain | LiveUpdate/OrderBookChart.cs:338-410 | every split outcome keeps the chain |
| ChartColumns.TrySplitGrid | LiveUpdate/OrderBookChart.cs:336 | every split outcome keeps the grid |
| ChartColumns.ComparerIsOrder | LiveUpdate/OrderBookChart.cs:288-300 | ColumnDataComparer is antisymmetric, total and transitive; 0 exactly on equal quantity and range |
| ChartColumns.InsertData | LiveUpdate/OrderBookChart.cs:316 | insertion adds exactly one element |
| ChartColumns.SortData | LiveUpdate/OrderBookChart.cs:316 | the sort is a permutation |
| ChartColumns.InsertDataSorted | LiveUpdate/OrderBookChart.cs:316 | insertion keeps the comparer's order |
| ChartColumns.SortDataSorted | LiveUpdate/OrderBookChart.cs:316 | Array.Sort gives the comparer's order and is a permutation |
| ChartColumns.ColumnDatas | LiveUpdate/OrderBookChart.cs:306-314 | every bucket's index, width and quantity |
| ChartColumns.Candidates | LiveUpdate/OrderBookChart.cs:318 | at most min(count, 5) candidates, all valid indexes |
| ChartColumns.CandidateIndex | LiveUpdate/OrderBookChart.cs:322 | a candidate's index is a valid bucket index |
| ChartColumns.CandidatesOrdered | LiveUpdate/OrderBookChart.cs:288-327 | distinct candidates, heaviest first, widest first on ties; no untried bucket beats a tried one |
| ChartColumns.IndexedOnce | LiveUpdate/OrderBookChart.cs:311 | each bucket's data occurs once |
| ChartColumns.SortedDistinct | LiveUpdate/OrderBookChart.cs:316-322 | no bucket is tried twice |
| ChartColumns.Attempts | LiveUpdate/OrderBookChart.cs:320-326 | the attempt loop, stopping at the first success (AttemptsKeep) |
| ChartColumns.AttemptsKeep | LiveUpdate/OrderBookChart.cs:320-326 | the attempt loop keeps the chain and the grid |
| ChartColumns.SplitOne | LiveUpdate/OrderBookChart.cs:302-327 | SplitOneColumn (SplitOneKeeps) |
| ChartColumns.SplitOneKeeps | LiveUpdate/OrderBookChart.cs:302-327 | SplitOneColumn keeps the chain and the grid |
| ChartColumns.RemoveColumnSpec | LiveUpdate/OrderBookChart.cs:413-439 | RemoveColumn (RemoveAt, RemoveColumnKeeps) |
| ChartColumns.RemoveColumnKeeps | LiveUpdate/OrderBookChart.cs:413-439 | RemoveColumn keeps the chain and the grid of an on-grid side |
| ChartColumns.NewColumnRange | LiveUpdate/OrderBookChart.cs:441-531 | ComputeNewColumnPriceRange (NewColumnRangeEmpty, NewColumnRangeRaises, NewColumnFits, NewColumnHoldsPrice) |
| ChartColumns.NewColumnRangeEmpty | LiveUpdate/OrderBookChart.cs:443-451 | on an empty side the bucket is [price, price ∓ 10^-d] |
| ChartColumns.NewColumnRangeRaises | LiveUpdate/OrderBookChart.cs:498-528 | a price inside the side's range throws; a result never has start == finish or finish == price |
| ChartColumns.NewColumnFits | LiveUpdate/OrderBookChart.cs:476-525 | the new bucket is oriented and meets the chain at the end where it is placed |
| ChartColumns.NewBidFits | LiveUpdate/OrderBookChart.cs:476-500 | the bid case of the fit |
| ChartColumns.NewAskFits | LiveUpdate/OrderBookChart.cs:501-525 | the ask case of the fit |
| ChartColumns.NewColumnHoldsPrice | LiveUpdate/OrderBookChart.cs:441-531 | the new bucket contains its price |
| ChartColumns.NewColumnHolds | LiveUpdate/OrderBookChart.cs:489-520 | an outer-end bucket contains its price |
| ChartColumns.PlacedChain | LiveUpdate/OrderBookChart.cs:224-245 | placing a fitting bucket at an end keeps the chain |
| ChartColumns.AddNewColumnSpec | LiveUpdate/OrderBookChart.cs:201-248 | AddNewColumn (AddNewColumnKeeps) |
| ChartColumns.AddNewColumnKeeps | LiveUpdate/OrderBookChart.cs:201-248 | AddNewColumn keeps the chain and leaves at most COLUMN_NUMBER buckets |
| ChartColumns.ChainEnds | LiveUpdate/OrderBookChart.cs:458-467 | on a chain the first and last buckets hold the outer bounds |
| OrderBookChart.WithSide | LiveUpdate/OrderBookChart.cs:83 | replaces one side and keeps the other side and the limits |
| OrderBookChart.ShowRange | LiveUpdate/OrderBookChart.cs:726-739 | on-grid bounds within half a unit of mid·0.9 and mid·1.1 |
| OrderBookChart.Dropped | LiveUpdate/OrderBookChart.cs:678-701 | buckets dropped from the end reach the removed list one each |
| OrderBookChart.RemoveLast | LiveUpdate/OrderBookChart.cs:417 | removing the last bucket stitches nothing |
| OrderBookChart.KeepCount | LiveUpdate/OrderBookChart.cs:678-701 | every dropped bucket is beyond the window and the kept last one is not |
| OrderBookChart.KeepCountExact | LiveUpdate/OrderBookChart.cs:678-701 | that stopping point is unique |
| OrderBookChart.DropTail | LiveUpdate/OrderBookChart.cs:678-701 | the removal loop throws exactly when it empties the side |
| OrderBookChart.Remainder | LiveUpdate/OrderBookChart.cs:705-720 | the side is kept or grows by one appended bucket; the removed list is kept |
| OrderBookChart.RemainderChain | LiveUpdate/OrderBookChart.cs:686-720 | the remainder bucket ends at the window limit, holds the depth in between and extends the chain |
| OrderBookChart.BidRemainderAsWritten | LiveUpdate/OrderBookChart.cs:682-697 | the bid remainder as line 682 writes it (BidRemainderInverts, BidRemainderMissesGap) |
| OrderBookChart.BidRemainderInverts | LiveUpdate/OrderBookChart.cs:682-697 | as written, a straddling last bid bucket gets an inverted remainder that breaks the chain |
| OrderBookChart.BidRemainderMissesGap | LiveUpdate/OrderBookChart.cs:682-697 | as written, bids between the last bucket and the window start are never shown |
| OrderBookChart.Adjust | LiveUpdate/OrderBookChart.cs:650-724 | a slide that does not throw leaves each side non-empty |
| OrderBookChart.ChainPrefix | LiveUpdate/OrderBookChart.cs:678 | a prefix of a chain is a chain |
| OrderBookChart.AdjustKeepsChain | LiveUpdate/OrderBookChart.cs:650-724 | the window slide keeps both chains, thrown or not |
| OrderBookChart.AdjustWindow | LiveUpdate/OrderBookChart.cs:676-723 | after a slide the limits are the window; the last buckets are inside it; each side grew by at most one |
| OrderBookChart.DepthSpread | LiveUpdate/OrderBookChart.cs:741-749 | 0 when a side is empty or its best level is zero, else best ask minus best bid |
| OrderBookChart.DepthSpreadLeast | LiveUpdate/OrderBookChart.cs:741-749 | on a book in order with live best levels, the spread is the smallest ask−bid gap, positive when the book does not cross |
| OrderBookChart.Balance | LiveUpdate/OrderBookChart.cs:624-648 | slide, then split and merge down when the buckets cross beyond the depth spread (BalanceKeepsChain, BalanceSplits) |
| OrderBookChart.BalanceKeepsChain | LiveUpdate/OrderBookChart.cs:624-648 | balancing keeps both chains |
| OrderBookChart.BalanceSplits | LiveUpdate/OrderBookChart.cs:632-646 | either the slid chart is kept, or the spread crossed beyond the depth spread and each side ends with at most COLUMN_NUMBER buckets |
| OrderBookChart.AddDepthIgnored | LiveUpdate/OrderBookChart.cs:70-87 | a zero quantity or a price outside the limits changes nothing |
| OrderBookChart.Place | LiveUpdate/OrderBookChart.cs:70-105 | the placement step of AddDepth (AddDepthIgnored, PlaceFound, PlaceNew) |
| OrderBookChart.PlaceFound | LiveUpdate/OrderBookChart.cs:89-97 | the containing bucket becomes max(q + delta, 0) and is flagged; it is removed when it reaches 0 |
| OrderBookChart.PlaceNew | LiveUpdate/OrderBookChart.cs:105 | a price no bucket holds gets a new bucket holding it, at an end, keeping the chain |
| OrderBookChart.UpdateKeeps | LiveUpdate/OrderBookChart.cs:94-95 | writing a quantity and a flag keeps the chain and the grid |
| OrderBookChart.AddDepthSpec | LiveUpdate/OrderBookChart.cs:68-124 | place then balance (AddDepthKeepsChain) |
| OrderBookChart.AddDepthKeepsChain | LiveUpdate/OrderBookChart.cs:68-124 | AddDepth keeps both chains (for an on-grid changed side) |
| OrderBookChart.ClearColumnFlags | LiveUpdate/OrderBookChart.cs:193 | every bucket is kept with its flag cleared |
| OrderBookChart.HarvestColumns | LiveUpdate/OrderBookChart.cs:186-199 | the flagged buckets unflagged, then the removed list (HarvestEffect, HarvestTwice) |
| OrderBookChart.HarvestEffect | LiveUpdate/OrderBookChart.cs:186-199 | hands out exactly the flagged buckets (unflagged) followed by the removed list; clears flags and the list; keeps the chain |
| OrderBookChart.HarvestTwice | LiveUpdate/OrderBookChart.cs:186-199 | a second harvest hands out nothing and changes nothing |
| OrderBookChart.Chart.constructor | LiveUpdate/OrderBookChart.cs:50-57 | a tracked pair with empty sides and the default limits |
| OrderBookChart.Chart.SetSide | LiveUpdate/OrderBookChart.cs:83 | replaces one side |
| OrderBookChart.Chart.AddDepth | LiveUpdate/OrderBookChart.cs:68-124 | the new state is AddDepthSpec of the old one |
| OrderBookChart.Chart.PlaceDepth | LiveUpdate/OrderBookChart.cs:70-105 | stores Place of the old state and reports whether a bucket was placed; an ignored or failed placement changes nothing |
| OrderBookChart.Chart.GetUpdatedBidAskColumns | LiveUpdate/OrderBookChart.cs:186-199 | returns HarvestColumns of the side and leaves it Harvested |
| OrderBookChart.Chart.AddNewColumn | LiveUpdate/OrderBookChart.cs:201-248 | the side is AddNewColumnSpec of the old side, or unchanged with raised set when that fails |
| OrderBookChart.Chart.MergeDownColumns | LiveUpdate/OrderBookChart.cs:247 | the side becomes MergeDown of the old side |
| OrderBookChart.Chart.MergeTwoColumns | LiveUpdate/OrderBookChart.cs:250-279 | the side becomes Merge of the old side |
| OrderBookChart.Chart.SplitOneColumn | LiveUpdate/OrderBookChart.cs:302-327 | the side becomes SplitOne of the old side |
| OrderBookChart.Chart.TryCandidates | LiveUpdate/OrderBookChart.cs:318-326 | the attempt loop leaves the side Attempts gives for the candidate order |
| OrderBookChart.Chart.TrySplittingAColumn | LiveUpdate/OrderBookChart.cs:329-411 | the side and the result are TrySplit of the old side |
| OrderBookChart.Chart.RemoveColumn | LiveUpdate/OrderBookChart.cs:413-439 | the side becomes RemoveColumnSpec of the old side |
| OrderBookChart.Chart.BalanceOrderBook | LiveUpdate/OrderBookChart.cs:624-648 | state and flag are Balance of the old state |
| OrderBookChart.Chart.AdjustPairRangeLimit | LiveUpdate/OrderBookChart.cs:650-724 | state and flag are Adjust of the old state |
| OrderBookChart.Chart.DropTailColumns | LiveUpdate/OrderBookChart.cs:678-701 | the side becomes DropTail of the old side |
| OrderBookChart.Chart.AppendRemainder | LiveUpdate/OrderBookChart.cs:705-720 | the side becomes Remainder of the old side (for bids the corrected remainder of the Findings row) |
| OrderBookChart.SelectMergeIndex | LiveUpdate/OrderBookChart.cs:256-264 | the selection loop returns MergeIndex |
| OrderBookChart.LocateColumn | LiveUpdate/OrderBookChart.cs:89-92 | the search loop returns FindColumn |
| OrderBookChart.BuildColumnData | LiveUpdate/OrderBookChart.cs:306-314 | the data loop returns ColumnDatas |
| TradeHistory.ClearFillFlags | LiveUpdate/TradeHistory.cs:71 | every fill is kept with its flag cleared |
| TradeHistory.Trim | LiveUpdate/TradeHistory.cs:73-76 | the first min(count, 200) fills |
| TradeHistory.UpdatedFills | LiveUpdate/TradeHistory.cs:71 | the flagged fills in tape order, unflagged (UpdatedFillsExact) |
| TradeHistory.KeptFills | LiveUpdate/TradeHistory.cs:71-76 | the unflagged tape, trimmed (HarvestKeeps) |
| TradeHistory.UpdatedFillsExact | LiveUpdate/TradeHistory.cs:71 | the harvest hands out exactly the flagged fills, unflagged |
| TradeHistory.HarvestKeeps | LiveUpdate/TradeHistory.cs:67-76 | after a harvest at most 200 fills remain, the first ones in order and unflagged; a second harvest hands out nothing |
| TradeHistory.AddedFillFirst | LiveUpdate/TradeHistory.cs:54-60 | a fill added at the head is handed out first |
| TradeHistory.TradeHistory.constructor | LiveUpdate/TradeHistory.cs:19-37 | not initialised and no tape |
| TradeHistory.FirstRepeat | LiveUpdate/TradeHistory.cs:31-33 | the position of the first pair key equal to an earlier one, or the count; the keys before it are distinct |
| TradeHistory.TradeHistory.Initialize | LiveUpdate/TradeHistory.cs:19-37 | an empty tape for every pair before the first repeated key; it throws exactly when a key repeats, keeping the tapes added before it |
| TradeHistory.TradeHistory.AddTradeFill | LiveUpdate/TradeHistory.cs:39-63 | the flagged fill goes to the head of the pair's tape; an untracked pair, or no Initialize, changes nothing |
| TradeHistory.TradeHistory.GetUpdatedFills | LiveUpdate/TradeHistory.cs:65-81 | hands out UpdatedFills and keeps KeptFills; an untracked pair throws |
| TradeHistoryChart.StepTicks | LiveUpdate/TradeHistoryChart.cs:29-34 | every interval step is positive |
| TradeHistoryChart.TruncationUnit | LiveUpdate/TradeHistoryChart.cs:579-581 | the unit is positive |
| TradeHistoryChart.RoundStartTime | LiveUpdate/TradeHistoryChart.cs:577-584 | a minute, hour or day boundary (by step) not after the time and less than one unit before it |
| TradeHistoryChart.RoundStartTimeIsLatest | LiveUpdate/TradeHistoryChart.cs:577-584 | it is the latest such boundary |
| TradeHistoryChart.RoundStartTimeIdempotent | LiveUpdate/TradeHistoryChart.cs:577-584 | rounding a rounded start changes nothing |
| TradeHistoryChart.StepIsWholeUnits | LiveUpdate/TradeHistoryChart.cs:29-34 | each step is a whole number of its truncation units |
| TradeHistoryChart.ComputeIntervalStarts | LiveUpdate/TradeHistoryChart.cs:547-575 | empty without a pair price; otherwise at most Length starts spaced by Step from RoundStartTime(timeLast − Step·(Length−1)), stopping once the next start is after now |
| TradeHistoryChart.StartsAligned | LiveUpdate/TradeHistoryChart.cs:563-571 | every start is its own rounded start |
| TradeHistoryChart.Window | LiveUpdate/TradeHistoryChart.cs:527-536 | exactly the fills executed in [start, finish) |
| TradeHistoryChart.LatestIndex | LiveUpdate/TradeHistoryChart.cs:527 | the first fill of the latest execution time |
| TradeHistoryChart.MinPrice | LiveUpdate/TradeHistoryChart.cs:530 | the smallest price of the window, one of its prices |
| TradeHistoryChart.MaxPrice | LiveUpdate/TradeHistoryChart.cs:533 | the largest price of the window, one of its prices |
| TradeHistoryChart.ComputeExternalCandle | LiveUpdate/TradeHistoryChart.cs:495-544 | the aggregate of the fills in the window (ExternalCandleFromWindow, ExternalCandleBrackets) |
| TradeHistoryChart.ExternalCandleFromWindow | LiveUpdate/TradeHistoryChart.cs:523-544 | an aggregate exists only for a non-empty window; its close is a latest fill's price between the extreme prices; low, high and volume are nonzero |
| TradeHistoryChart.ComputeCandle | LiveUpdate/TradeHistoryChart.cs:380-410 | opens at the previous close; flat with no volume without data; otherwise the data with volume scaled by 1.00 or 0.11; not flagged |
| TradeHistoryChart.ExternalCandleBrackets | LiveUpdate/TradeHistoryChart.cs:523-544 | an external candle's close lies between its low and high |
| TradeHistoryChart.FlatsShape | LiveUpdate/TradeHistoryChart.cs:351-372 | contiguous one-step candles, flat at the last close, no volume, flagged, until one ends at or after now |
| TradeHistoryChart.Trimmed | LiveUpdate/TradeHistoryChart.cs:374-375 | the newest min(count, Length) candles |
| TradeHistoryChart.Rolled | LiveUpdate/TradeHistoryChart.cs:344-378 | UpdateChandles (FlatsShape, Trimmed, RolledShape) |
| TradeHistoryChart.RolledShape | LiveUpdate/TradeHistoryChart.cs:344-378 | at most Length candles, a suffix of the extended series, ending at or after now and not before the old end |
| TradeHistoryChart.LastBefore | LiveUpdate/TradeHistoryChart.cs:298-300 | the newest candle starting strictly before the fill, or none |
| TradeHistoryChart.FoldInto | LiveUpdate/TradeHistoryChart.cs:300-328 | a fill folded into one candle (FoldIntoEffect) |
| TradeHistoryChart.FoldIntoEffect | LiveUpdate/TradeHistoryChart.cs:300-328 | close = price within a widened low/high; volume + q; times and open kept; flagged exactly when a field changed |
| TradeHistoryChart.Seeded | LiveUpdate/TradeHistoryChart.cs:273-291 | the series is non-empty after seeding |
| TradeHistoryChart.FirstFillDoubleCounts | LiveUpdate/TradeHistoryChart.cs:273-331 | the first fill creates one candle at RoundStartTime; after that start its volume counts q twice |
| TradeHistoryChart.ClearCandleFlags | LiveUpdate/TradeHistoryChart.cs:172 | every candle is kept with its flag cleared |
| TradeHistoryChart.CandleHarvestTwice | LiveUpdate/TradeHistoryChart.cs:94-101 | the harvest hands out exactly the flagged candles; a second one at the same time hands out nothing and changes nothing |
| TradeHistoryChart.RollForward | LiveUpdate/TradeHistoryChart.cs:344-378 | the roll loop computes Rolled |
| TradeHistoryChart.FoldFill | LiveUpdate/TradeHistoryChart.cs:296-331 | the tail-to-head scan computes Folded |
| TradeHistoryChart.UpdateSeries | LiveUpdate/TradeHistoryChart.cs:265-342 | UpdateInterval computes Updated |
| TradeHistoryChart.AfterFill | LiveUpdate/TradeHistoryChart.cs:77-79 | every interval keeps its pairs, and other pairs are unchanged |
| TradeHistoryChart.HarvestOf | LiveUpdate/TradeHistoryChart.cs:88-101 | throws exactly for an unknown interval, an unknown pair or an empty series, and then changes nothing |
| TradeHistoryChart.TradeHistoryChart.constructor | LiveUpdate/TradeHistoryChart.cs:42-49 | three empty interval maps, not initialised |
| TradeHistoryChart.TradeHistoryChart.Initialize | LiveUpdate/TradeHistoryChart.cs:40-61 | installs the loaded series |
| TradeHistoryChart.TradeHistoryChart.AddTradeFill | LiveUpdate/TradeHistoryChart.cs:63-80 | scales q by VolumeFactor and rounds the price to the quote decimals; the data becomes AfterFill; nothing happens before Initialize |
| TradeHistoryChart.TradeHistoryChart.GetUpdatedCandles | LiveUpdate/TradeHistoryChart.cs:82-109 | empty before Initialize; otherwise result and data are HarvestOf |
| TradeQuotes.FirstHourly | LiveUpdate/TradeQuotes.cs:24-29 | the first interval of step 3600 and length at least 24, or none |
| TradeQuotes.SelectHourlyInterval | LiveUpdate/TradeQuotes.cs:24-29 | the search loop returns FirstHourly |
| TradeQuotes.HourlyIntervalExists | LiveUpdate/TradeQuotes.cs:24-35 | for the program's interval types it is index 0, so the error at 31-35 cannot occur |
| TradeQuotes.MinLow | LiveUpdate/TradeQuotes.cs:186-191 | the smallest PriceLow, one of them |
| TradeQuotes.MaxHigh | LiveUpdate/TradeQuotes.cs:186-191 | the largest PriceHigh, one of them |
| TradeQuotes.QuoteCandles | LiveUpdate/TradeQuotes.cs:177-184 | the newest min(count, 25) candles |
| TradeQuotes.TradingData | LiveUpdate/TradeQuotes.cs:172-205 | GetTradingData (TradingDataBrackets) |
| TradeQuotes.TradingDataBrackets | LiveUpdate/TradeQuotes.cs:172-205 | a quote exists exactly for a non-empty series; its low and high are the window extremes and bracket open and close |
| TradeQuotes.Aggregate | LiveUpdate/TradeQuotes.cs:186-191 | the loop gives MinLow, MaxHigh and SumVolume |
| TradeQuotes.GetTradingData | LiveUpdate/TradeQuotes.cs:172-205 | returns TradingData |
| TradeQuotes.RefreshQuote | LiveUpdate/TradeQuotes.cs:82-114 | the field copy returns Refreshed |
| TradeQuotes.RefreshedEffect | LiveUpdate/TradeQuotes.cs:82-114 | copies the five fields; keeps key, show and book; flagged exactly when one differed; a second refresh clears the flag |
| TradeQuotes.AllCleared | LiveUpdate/TradeQuotes.cs:123-132 | the keys are kept |
| TradeQuotes.ShownUpdatedExact | LiveUpdate/TradeQuotes.cs:123-132 | hands out exactly the flagged quotes that are shown, unflagged |
| TradeQuotes.HarvestStep | LiveUpdate/TradeQuotes.cs:123-132 | one more key of the loop |
| TradeQuotes.HarvestQuotes | LiveUpdate/TradeQuotes.cs:123-132 | the loop returns ShownUpdated and AllCleared |
| TradeQuotes.HarvestQuotesTwice | LiveUpdate/TradeQuotes.cs:123-132 | a second harvest hands out nothing |
| TradeQuotes.PairQuote | LiveUpdate/TradeQuotes.cs:137-169 | InitializeAssetPair's derived quote (PairQuoteFields) |
| TradeQuotes.PairQuoteFields | LiveUpdate/TradeQuotes.cs:137-169 | throws exactly without a series and a price, or for an external pair without an exchange; isShow, isBook and !isUpdated are as derived |
| TradeQuotes.DeriveQuote | LiveUpdate/TradeQuotes.cs:147-164 | the derivation returns PairQuote |
| TradeQuotes.LoadQuotes | LiveUpdate/TradeQuotes.cs:37-42 | Initialize's loop, stopping at the first exception (LoadQuotesKeys) |
| TradeQuotes.LoadQuotesKeys | LiveUpdate/TradeQuotes.cs:37-42 | the key list stays duplicate-free and matches the quoted pairs |
| TradeQuotes.TradeQuotes.constructor | LiveUpdate/TradeQuotes.cs:37-38 | no quotes, not initialised |
| TradeQuotes.TradeQuotes.InitializeAssetPair | LiveUpdate/TradeQuotes.cs:137-169 | adds PairQuote of the pair; a failure or a duplicate key adds nothing |
| TradeQuotes.TradeQuotes.Initialize | LiveUpdate/TradeQuotes.cs:20-43 | selects the hourly interval and loads as LoadQuotes does |
| TradeQuotes.TradeQuotes.AddTradeFill | LiveUpdate/TradeQuotes.cs:45-115 | the pair's quote becomes QuoteAfterFill at the rounded price, and a new key is appended; nothing happens before Initialize |
| TradeQuotes.TradeQuotes.GetUpdatedQuotes | LiveUpdate/TradeQuotes.cs:117-135 | returns ShownUpdated in key order and clears every flag |
| AssetQuoter.ReversePairString | LiveUpdate/AssetQuoter.cs:104-108 | swaps the two codes of a key, or throws without '-' (ReverseTwice, ReverseThrows) |
| AssetQuoter.ReverseTwice | LiveUpdate/AssetQuoter.cs:104-108 | "A-B" becomes "B-A", and reversing twice gives it back |
| AssetQuoter.ReverseThrows | LiveUpdate/AssetQuoter.cs:104-108 | reversing throws exactly without a '-' |
| AssetQuoter.RoutePrice | LiveUpdate/AssetQuoter.cs:53-55 | the product of the route's edge prices as found (RoutePriceAppend) |
| AssetQuoter.FoundPrice | LiveUpdate/AssetQuoter.cs:41-58 | none before initialisation or without a route, else RoutePrice (FindPrice, DistinctAssetsUseRoute) |
| AssetQuoter.RoutePriceAppend | LiveUpdate/AssetQuoter.cs:53-55 | the price of joined routes is the product of their prices |
| AssetQuoter.FindPrice | LiveUpdate/AssetQuoter.cs:41-58 | the loop returns FoundPrice: none before initialisation or without a route, else the product of edge prices |
| AssetQuoter.EdgeChange | LiveUpdate/AssetQuoter.cs:74-96 | the own change, the negated reversed change, or the exception (ReversedEdgeNegates, UnquotedEdgeThrows, LookupEdgeChange) |
| AssetQuoter.ReversedEdgeNegates | LiveUpdate/AssetQuoter.cs:79-96 | an edge quoted only in reverse gets the negated change |
| AssetQuoter.UnquotedEdgeThrows | LiveUpdate/AssetQuoter.cs:88-91 | an edge quoted in neither direction throws |
| AssetQuoter.ComposeScales | LiveUpdate/AssetQuoter.cs:98 | composing is linear in the accumulated change |
| AssetQuoter.EdgeChanges | LiveUpdate/AssetQuoter.cs:74-96 | one change per edge, in route order |
| AssetQuoter.ComposeAllAppend | LiveUpdate/AssetQuoter.cs:72-98 | the change factors of joined lists multiply |
| AssetQuoter.ChangeProduct | LiveUpdate/AssetQuoter.cs:72-98 | the product of (1 + change) along the route, or the first edge's exception (ChangeProductAppend, ChangeFailureStays) |
| AssetQuoter.ChangeProductAppend | LiveUpdate/AssetQuoter.cs:72-98 | the change factors of joined routes multiply |
| AssetQuoter.EdgeChangesAppend | LiveUpdate/AssetQuoter.cs:74-96 | edge changes distribute over joined routes |
| AssetQuoter.SingleEdgeChange | LiveUpdate/AssetQuoter.cs:72-101 | a one-edge route gives Round(change, 2) of its quote |
| AssetQuoter.FoundChange | LiveUpdate/AssetQuoter.cs:60-102 | Round(ChangeProduct − 1, 2), none before initialisation or without a route (FindPriceChange, SingleEdgeChange) |
| AssetQuoter.FindPriceChange | LiveUpdate/AssetQuoter.cs:60-102 | the loop returns FoundChange: Round(Π(1+c) − 1, 2), or the first edge's exception |
| AssetQuoter.LookupEdgeChange | LiveUpdate/AssetQuoter.cs:74-96 | the loop body returns EdgeChange: the own change, the negated reversed change, or the exception |
| AssetQuoter.ChangeFailureStays | LiveUpdate/AssetQuoter.cs:88-91 | once a prefix throws, the whole route throws the same |
| AssetQuoter.Get | LiveUpdate/AssetQuoter.cs:17-26 | 1 for the same asset twice, else FoundPrice; a key without '-' throws (SameAssetShortcut, DistinctAssetsUseRoute) |
| AssetQuoter.GetChange | LiveUpdate/AssetQuoter.cs:28-39 | 0 for the same asset twice, else FoundChange (SameAssetShortcut, DistinctAssetsUseRoute) |
| AssetQuoter.SameAssetShortcut | LiveUpdate/AssetQuoter.cs:21-34 | the same asset gives 1 and 0 without a route |
| AssetQuoter.DistinctAssetsUseRoute | LiveUpdate/AssetQuoter.cs:17-39 | different assets give the route's price and change; none before initialisation or without a route |

## Left out

- Concurrency: the per-pair semaphores and `async` handlers are left out. Each call is one atomic sequential step.
- SQL, data loading and persistence are left out: the `Initialize*` loaders, `InitializeInterval`, `FindPriceStart`, `FindPreviousPrice`, `ComputeInternalCandle`, the database part of `SaveCandles` and the price write-back at LiveUpdate/TradeQuotes.cs:127. The data they load are parameters; of `SaveCandles` only the flag clearing (line 172) is kept.
- The shortest-path search and the `pairPrices` dictionary that feeds it are left out. The route is an input.
- `UpdateProcessor` is left out: its polling loops, SignalR and WebSocket broadcasting, logging, `LogItemCount`, `GetTotalItemCount` and the catch blocks that only log.
- The `IsInitialized` guards of OrderBookDepth and OrderBookChart and their untracked-pair returns are left out. One object models one tracked, initialised pair.
- Lazy reference loading (`Entry(...).Load()`) is left out. Codes and decimals are resolved in the input.
- `DateTime` limits are left out: years 1..9999 and the calendar fields are not modelled. Times are unbounded tick counts, and the week interval truncates to a day like the source.
- The depth-comparison tail of `IntegrityCheck` is left out; the check is disabled in the source. Its structural checks are the `Chain` predicate.
- `InitializeInternalAssetPair` of OrderBookChart (LiveUpdate/OrderBookChart.cs:605-611) adds ask columns to the bid list. It is database bootstrap and is not modelled.
- ChartColumns.SortData: `Array.Sort` is unstable, so the order of tied buckets is unspecified. The model uses one deterministic insertion sort.
- Enumeration order: dictionary order is modelled by the insertion-ordered key list of TradeQuotes.
- TradeQuotes.TradeQuotes.AddTradeFill: the quantity and time parameters, which the source does not use, are accepted and ignored.
- OrderBookChart.AddDepthKeepsChain: the chain is proved only when the changed side's bounds have at most d decimals. A new bucket at price ± step/2 can be off that grid, and stitching at a rounded midpoint then might leave the bucket.
- ChartColumns.RemoveColumnKeeps: proved under the same on-grid premise.
- OrderBookChart.Adjust: the bid remainder is the corrected sum over (priceStart, lastFinish] (OrderBookChart.Remainder), not the swapped range of LiveUpdate/OrderBookChart.cs:682; the as-written remainder is OrderBookChart.BidRemainderAsWritten.
- OrderBookChart.AdjustKeepsChain: proved for the corrected bid remainder; with line 682 as written a straddling last bid bucket breaks the chain (OrderBookChart.BidRemainderInverts).
- OrderBookChart.AdjustWindow: proved for the corrected bid remainder; as written the appended bid bucket can start below the window.
- OrderBookChart.BalanceKeepsChain: inherits the corrected bid remainder of Adjust.
- OrderBookChart.AddDepthKeepsChain: inherits the corrected bid remainder of Adjust through Balance.
- OrderBookChart.Chart.AdjustPairRangeLimit: stores Adjust, so it uses the corrected bid remainder.
- OrderBookChart.Chart.AppendRemainder: stores Remainder, the corrected bid remainder, not line 682's.
- OrderBookChart.Adjust: a slide can append a remainder bucket and leave 101 buckets. The 100 bound holds only after BalanceOrderBook's merge loops (OrderBookChart.BalanceSplits).
- `MathEx.ToString`, `ParseDecimal`, `DictionaryConverter.ToDictionary`/`ToObject` and culture-specific `ToLower` are left out: they depend on culture or reflection. Lower-casing is ASCII.
- Floating point: `Math.Pow` is taken as an exact power of ten.
- KeyGenerator, Hasher, EventHub and ExternalExchange are not part of this model.

## Findings

| source | as written | input that shows it | evidently intended | confidence | as-written member | corrected member |
|---|---|---|---|---|---|---|
| LiveUpdate/OrderBookChart.cs:682 | the bid remainder sums `GetQuantitySum(true, priceStart, lastFinish)`, which is the range (lastFinish, priceStart], with the arguments swapped against the ask branch at 705 | a last bid bucket (101, 99] holding 99.5, window start 100: an inverted bucket (99, 100] is appended; a last bucket (110, 105] with a bid at 102 and window start 100: no bucket is appended | sum the bids in (priceStart, lastFinish], between the last bucket and the window start | not executed | OrderBookChart.BidRemainderAsWritten (OrderBookChart.BidRemainderInverts, OrderBookChart.BidRemainderMissesGap) | OrderBookChart.Remainder (OrderBookChart.RemainderChain) |

The rest of the model uses the corrected member. `OrderBookChart.Adjust`, and through it `Balance`, `AddDepthSpec` and the `Chart` class, append `Remainder` on the bid side. The chain and window lemmas about them describe that corrected program.
