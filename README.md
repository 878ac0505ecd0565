# Daily portfolio valuation — a Dafny model

This project models the valuation core of a stock-portfolio dashboard. The source is
`src/Chart.tsx`. The model covers three pieces:

- `transformStockData` takes a list of buy/sell trades for one instrument. It sorts them by
  date and walks every calendar day from the first trade date to the last. For each day it
  carries two running totals: the net shares owned and the cost basis still invested. It emits
  one point per day. Each point holds the day's price, the market value, the share count, the
  unrealized gain, the cost basis and the day's trade, if there is one.
- `getFilteredData` trims that series to a trailing window: one day, one month, one year, or
  the whole series. The window is anchored at the last point's date.
- `formatUnrealizedGainLoss` turns the last point's gain and cost basis into the headline
  figures: the size of the gain and the gain as a percentage of the investment.

Modelling choices:

- Dates are integer day numbers. Prices and money are `real`. Quantities are `nat`.
- The JavaScript sort is stable. It is modelled as a stable insertion sort (`Trades.SortByDate`).
  The model proves three things about it: the result is ordered, it is a permutation of the
  input, and it keeps the input order of the trades within each day.
- `Array.find` becomes the first-match search `Trades.FindOn`. `Array.filter` becomes the
  order-keeping filter `RangeFilter.KeepFrom`.
- The day loop is the method `Valuation.TransformStockData`, with a `while` loop. It is proved
  equal to the specification function `Valuation.DailySeries`. Every headline property of the
  series is proved about `DailySeries`, stated over the trades in the order the caller passes
  them. The intermediate lemmas about `HoldingAfter` and `PriceAt` (`SharesAfterDays`,
  `CostAfterDays`, `SharesAtEnd`, `CostAtEnd`, `TotalThroughSpan`, `HoldingQuiet`, `SharesGrow`,
  `CostBasisBounded`, `PriceAtNonNegative`) work on the already sorted list.

Two edge cases of the code are modelled as written:

- **Empty trade list.** The code reads `sortedTransactions[0].date` before its `try` block,
  so an empty list throws (src/Chart.tsx:46). The model returns `Failed(NoTransactions)`.
- **Month and year windows.** `setMonth` and `setFullYear` roll an out-of-range day of the
  month over into the next month rather than clamping it. For example, 31 March minus one
  month is 3 March in a non-leap year and 2 March in a leap year. The model does not fix
  either behaviour: the day one month or one year earlier comes from a `Calendar` value.
  `StepsBack` is the only thing assumed about it: the earlier day is not after the anchor.

## Model

| member | source | states |
|---|---|---|
| Trades.FindOnFound | src/Chart.tsx:54 | The per-day search finds nothing exactly when no trade has that date. Otherwise it returns a trade from the list that has that date. |
| Trades.FindOnFirst | src/Chart.tsx:54 | The trade found sits at an index of the list before which no trade has that date: it is the first match in list order. |
| Trades.FindOnIsFirstOfDay | src/Chart.tsx:54 | The search returns the first of the day's trades in list order, so it depends only on that day's trades. |
| Trades.Insert | src/Chart.tsx:38-40 | Inserting into a date-ordered list gives a date-ordered list one longer. Its head is the new trade when that trade is dated no later than the old head, and the old head otherwise. |
| Trades.InsertPermutes | src/Chart.tsx:38-40 | Inserting adds exactly the new trade to the multiset of trades. |
| Trades.InsertOnDate | src/Chart.tsx:38-40 | An inserted trade goes in front of the trades of its own day. The trades of every other day are unchanged. |
| Trades.SortByDate | src/Chart.tsx:38-40 | The sorted list is ordered by date and as long as the input. |
| Trades.SortPermutes | src/Chart.tsx:38-40 | Sorting is a permutation: the multiset of trades is unchanged. |
| Trades.SortStable | src/Chart.tsx:38-40 | Sorting is stable: for every day, the trades of that day appear in their input order. |
| Trades.SortSameTrades | src/Chart.tsx:38-40 | A trade is in the sorted list exactly when it is in the input. |
| Trades.TotalSort | src/Chart.tsx:38-40 | Sorting does not change any sum taken over the trades. |
| Trades.NetShares | src/Chart.tsx:59-63 | The sum of the signed quantities (buys positive, sales negative) is the shares bought less the shares sold. |
| Trades.TotalOnDay | src/Chart.tsx:54 | With at most one trade per day, the sum over a day's trades is the weight of the trade the search finds on that day, or zero. |
| Valuation.RescaledBounds | src/Chart.tsx:65-67 | Scaling a non-negative cost basis by the fraction of shares kept after a sale leaves it between zero and its old value. |
| Valuation.SeriesAt | src/Chart.tsx:87-99 | Point `k` of the first `n` days is the point computed for day `k`. |
| Valuation.ApplyTransaction | src/Chart.tsx:58-69 | The loop body's update of the share count and cost basis equals `Apply`. A buy adds its quantity and its quantity times price. A sale removes its quantity and rescales the cost basis, or clears it when no shares remain. No trade changes nothing. |
| Valuation.TransformStockData | src/Chart.tsx:36-111 | The loop returns exactly `DailySeries`: a failure on an empty list, otherwise one point per day from the first to the last sorted trade date. Each point is the day's point over the stable-sorted trades. |
| ValuationProperties.PointIs | src/Chart.tsx:46-99 | A non-empty list gives a successful series of `DaySpan` points, and point `i` is the day-`i` point of the sorted trades. |
| ValuationProperties.FindOnSorted | src/Chart.tsx:38-54 | Searching the sorted list finds the same trade as searching the input, thanks to the stable sort. |
| ValuationProperties.FirstSortedTrade | src/Chart.tsx:38-46 | The first sorted trade is the first-listed trade of the earliest day. |
| ValuationProperties.SortOneTradePerDay | src/Chart.tsx:38-40 | Sorting keeps the property that each day has at most one trade. |
| ValuationProperties.PointDate | src/Chart.tsx:46-50 | Point `i` is dated `i` days after the earliest trade. |
| ValuationProperties.TradeWithinSpan | src/Chart.tsx:38-47 | Any input trade is dated between the first and the last sorted trade. |
| ValuationProperties.SortedSpan | src/Chart.tsx:38-47 | Every trade lies between the first and last sorted trades, and both of those are input trades. |
| ValuationProperties.DailyCoverage | src/Chart.tsx:38-50 | The series fails exactly on an empty list. Otherwise it is non-empty and its dates are consecutive days. It covers every trade date, and both its first and its last day have a trade. |
| ValuationProperties.ValueIdentities | src/Chart.tsx:76-93 | For every point, the market value is shares times price and the unrealized gain is market value less cost basis. |
| ValuationProperties.DayStep | src/Chart.tsx:58-69 | A point's share count and cost basis are those of the day before (zero on the first day), with the day's found trade applied. |
| ValuationProperties.BuyDay | src/Chart.tsx:59-61 | On a buy day the shares grow by the quantity. The cost basis grows by quantity times price. |
| ValuationProperties.SellDay | src/Chart.tsx:62-67 | On a sale day the shares fall by the quantity. With shares left, the cost basis becomes old × remaining / (remaining + quantity). Otherwise it becomes exactly zero. |
| ValuationProperties.HoldingQuiet | src/Chart.tsx:58-69 | Across a run of days with no trade, the shares and the cost basis are unchanged. |
| ValuationProperties.QuietDay | src/Chart.tsx:58-73 | A day with no trade is never the first day. It repeats the previous day's shares, cost basis and price. |
| ValuationProperties.PriceRule | src/Chart.tsx:72-73 | A point's price is that of its day's trade. Otherwise it is the previous point's price, and otherwise the first sorted trade's price. The first day always has a trade: the first sorted trade. |
| ValuationProperties.MarkerRule | src/Chart.tsx:54-98 | A point carries a trade marker exactly when some trade has its date. The marker copies action, price and quantity of the first such trade in input order. |
| ValuationProperties.SharesAfterDays | src/Chart.tsx:54-68 | With one trade per day, the shares after `k` days are the signed quantities of the trades dated before day `k`. |
| ValuationProperties.TotalThroughSpan | src/Chart.tsx:46-50 | Summing over the trades dated before the day after the last trade sums over all trades. |
| ValuationProperties.SharesAtEnd | src/Chart.tsx:54-68 | With one trade per day, the shares after the whole span are the sum of the signed quantities. |
| ValuationProperties.FinalShares | src/Chart.tsx:54-68 | With one trade per day, the last point's shares are all shares bought less all shares sold. |
| ValuationProperties.SharesGrow | src/Chart.tsx:59-61 | With buys only, the share count after `i` days is at most the count after any later day. |
| ValuationProperties.BuyOnlySharesNonDecreasing | src/Chart.tsx:59-61 | With buys only, a point's share count is at most that of any later point. |
| ValuationProperties.CostAfterDays | src/Chart.tsx:59-61 | With buys only and one trade per day, the cost basis after `k` days is the cost of the trades dated before day `k`. |
| ValuationProperties.CostAtEnd | src/Chart.tsx:59-61 | With buys only and one trade per day, the cost basis after the whole span is the sum of quantity times price. |
| ValuationProperties.BuyOnlyInvestment | src/Chart.tsx:59-61 | With buys only and one trade per day, the last point's cost basis is the sum of quantity times price over all trades. |
| ValuationProperties.CostBasisBounded | src/Chart.tsx:59-67 | With non-negative prices, the cost basis after any number of days is non-negative. |
| ValuationProperties.CostBasisNonNegative | src/Chart.tsx:59-67 | With non-negative prices, every point's cost basis is non-negative. |
| ValuationProperties.PriceAtNonNegative | src/Chart.tsx:72-73 | With non-negative trade prices, the price carried to any day is non-negative. |
| ValuationProperties.PriceNonNegative | src/Chart.tsx:72-73 | With non-negative trade prices, every point's price is non-negative. |
| ValuationProperties.ValueNonNegative | src/Chart.tsx:76 | With non-negative prices, a point with no short position has a non-negative market value. |
| RangeFilter.KeepFromMembers | src/Chart.tsx:148 | A point survives the trim exactly when it is in the series and dated on or after the start. |
| RangeFilter.GetFilteredData | src/Chart.tsx:130-149 | `Max` or an empty series returns the input unchanged. Otherwise the result holds exactly the input points dated no earlier than the window start. |
| RangeFilter.KeepFromAppend | src/Chart.tsx:148 | Trimming a concatenation trims each part, so the relative order of the points is kept. |
| RangeFilter.KeepAll | src/Chart.tsx:148 | A series lying entirely inside the window is kept whole. |
| RangeFilter.KeepNone | src/Chart.tsx:148 | A series lying entirely before the window is dropped whole. |
| RangeFilter.KeepFromSuffix | src/Chart.tsx:148 | On a date-ordered series the kept points form a contiguous suffix. |
| RangeFilter.KeepFromTwice | src/Chart.tsx:148 | Trimming twice from the same start is the same as trimming once. |
| RangeFilter.LastKept | src/Chart.tsx:133-148 | When the calendar does not move forward, the last point is kept and stays last. |
| RangeFilter.FilterIdempotent | src/Chart.tsx:130-149 | Filtering an already filtered series with the same range changes nothing. |
| RangeFilter.OneDayWindow | src/Chart.tsx:137-148 | On consecutive days, the one-day window holds the last two points, or the single point. |
| RangeFilter.SeriesOneDayWindow | src/Chart.tsx:130-148 | The one-day view of a valuation series is its last two days, or its only day. |
| GainLoss.Percentage | src/Chart.tsx:253 | The percentage, applied to the investment, gives back the gain: percentage × investment = gain × 100. |
| GainLoss.FormatUnrealizedGainLoss | src/Chart.tsx:242-256 | A zero investment gives 0 and 0. Otherwise the value is the magnitude of the gain, and the percentage times the investment is the gain times 100. The value is never negative. |
| GainLoss.PercentageSign | src/Chart.tsx:253 | With a positive investment, the percentage is positive or negative exactly when the gain is. |
| GainLoss.LossAtMostAll | src/Chart.tsx:253 | With a positive investment and a non-negative market value, the percentage is at least −100. |
| GainLoss.PointLossAtMostAll | src/Chart.tsx:242-256 | For any point with non-negative prices, no short position and money invested, the headline percentage is at least −100. |
| SampleData.JanuaryOneTradePerDay | src/utils/stocksTrans.ts:12-14 | The first three sample trades fall on three different days. |
| SampleData.JanuarySpan | src/utils/stocksTrans.ts:12-14 | Those trades give 23 daily points, from 2023-01-03 to 2023-01-25. |
| SampleData.JanuarySorted | src/utils/stocksTrans.ts:12-14 | The three sample trades are already in date order, so sorting leaves them as they are. |
| SampleData.JanuaryHolding | src/utils/stocksTrans.ts:12-14 | After the 23 days, 4 shares remain with a cost basis of 355.42: two thirds of the 255.93 + 277.2 paid for six. |
| SampleData.JanuaryLastDay | src/utils/stocksTrans.ts:12-14 | On the last of those days, 4 shares are held at the sale price of 110.25, worth 441. The cost basis is 533.13 × 4/6 = 355.42 and the unrealized gain is 85.58. |

## Left out

- The React component, the range buttons, the tooltip, the chart and the theme (src/Chart.tsx:116-374) are not modelled. They are presentation only.
- `formatDate` (src/Chart.tsx:17-34) is not modelled. Nothing in the core calls it.
- Date strings are not modelled; dates are day numbers. This covers the ISO day key compared by `find` (src/Chart.tsx:51), the display date stored in each point (src/Chart.tsx:81-85) and its re-parse in the filter (src/Chart.tsx:133, 148). On a host at UTC or at a fixed offset east of it, the display date is the same day as the day key. West of UTC it is not: the loop's instant is UTC midnight (src/Chart.tsx:46, 51), and `toLocaleDateString` has no `timeZone` option, so it formats that instant in the host's zone, and each stored display date is one day before the day key the model uses (on a host at UTC-7, 2023-01-03T00:00Z is shown as "Jan 2, 2023"). There, `ValuationProperties.PointDate` and `ValuationProperties.MarkerRule` describe the day key, not the date the program stores and the chart shows. The '1D' window is unaffected, because every date shifts alike.
- Time zones and daylight saving are not modelled. The model is the program on a host at UTC or at a fixed offset east of it, whose offset does not change over the span of the trades. `startDate` and `endDate` are UTC midnight (src/Chart.tsx:46-47), but `setDate` (src/Chart.tsx:50) keeps the local time of day, so each change of the host's offset inside the span moves the loop's instant by an hour for the rest of the span. This has two effects the model does not capture. First, a day key can repeat or be skipped (src/Chart.tsx:51), and a repeated key finds its trade again (src/Chart.tsx:54), so that trade is applied twice. The sample's buy of 2023-03-12 (src/utils/stocksTrans.ts:25) falls on the 2023 United States change, so in a United States time zone every later point's shares and cost basis differ from the model's. Second, whenever the offset on the last trade date differs from the offset on the first, the last day's instant is 23:00 or 01:00 UTC on that date, which is after `endDate`. The last trade date is then never processed. `ValuationProperties.DailyCoverage` (the last day has a trade), `ValuationProperties.FinalShares` and `ValuationProperties.BuyOnlyInvestment` hold for the program only under the fixed-offset assumption.
- `setMonth` and `setFullYear` are not modelled. The day one month or one year before the anchor comes from the `Calendar` parameter. `RangeFilter.LastKept` and `RangeFilter.FilterIdempotent` assume only `StepsBack`.
- `toFixed(2)`, `toLocaleString` and `toLocaleDateString` are not modelled. The percentage is an exact `real`, not a rounded string, and in the source the zero case returns a number where the other case returns a string.
- The `Number(...)` conversion and the `isNaN` guard of `formatUnrealizedGainLoss` are not modelled. Every model input is a real number, so that branch of the guard never fires.
- The `try`/`catch` around each day and the `console.error` logging are not modelled. Nothing in the loop body can fail over exact numbers.
- IEEE floating-point rounding is not modelled. All arithmetic is exact; every property holds only for exact arithmetic.
- ValuationProperties.FinalShares, ValuationProperties.BuyOnlyInvestment: these require at most one trade per day. With several trades on one day, only the first-listed one is applied. `MarkerRule` and `FindOnFirst` state that shadowing.
- ValuationProperties.CostBasisNonNegative: states only that the cost basis is non-negative. It does not state that the cost basis is zero when no shares are held, because that can fail. After a sale that oversells, the position is negative and the basis is cleared. A later buy too small to bring the position above zero still adds its cost.
- `positionAveragePrice` is carried in `Trade` but not used, as in the source.
- src/utils/stocksTrans.ts is sample data only. Its first three trades appear in `SampleData`.
