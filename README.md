# Supply-chain operations metrics engine, in Dafny

This project models the deterministic core of a supply-chain operations
dashboard. The dashboard works on an in-memory table of order records. Each
record has a supplier, product, warehouse, logistics partner, shipping
method, unit price, quantity, total cost, delivery date and delivery status.
Three parts of the code are modelled:

- The metrics engine (`calculate_supply_chain_metrics`). It sorts every
  order into Delivered, On-Track, Overdue, Delayed or Unknown relative to
  today. It then counts the categories, derives the delivery rates and the
  average delivery day, and writes the category column back into the
  caller's table. Next to it sit the supplier and logistics-partner rollups
  (`get_supplier_performance`, `get_logistics_performance`) and the column
  rules of the loader (`load_supply_chain_data`).
- The risk analysis (`generate_risk_analysis`). From the overall delay rate
  it picks a risk tier. It names the worst and best logistics partners and
  reports the cost of the delayed orders.
- The aggregation halves of eight chart builders. These are the per-partner,
  per-pair, per-method, per-status and per-warehouse tables. The builders
  also compute a gauge score and a bar-colour tier.

How the model represents the data:

- A table is the set of columns it has plus a sequence of records
  (`Records.Table`). Every function either branches on whether a column
  exists or fails with a KeyError when it does not, so column presence is
  part of the model.
- A missing or unparseable cell is `None`. So is a NaN result, such as the
  mean of nothing or a 0/0 percentage.
- A status is `Delivered | InTransit | Pending | Delayed | Other(text)`.
- A date is a calendar day (year, month, day), so `.dt.day` is a field.
- `today` is a parameter instead of the clock.
- Integers and reals are exact (unbounded integers, rationals).
- `groupby` yields each non-missing key once, in Python's string order.
  Sums, counts and means skip missing values.
- Every `try`/`except` becomes an explicit error value: `{}` is `None`,
  an empty table is `[]`, a chart's `None` is `None`, and the risk
  analysis returns a one-element error list.
- The caller's table, which `calculate_supply_chain_metrics` changes in
  place, is a class `DeliveryMetrics.DataFrame`.
- The loader's column loops are methods with loop invariants.

Files, each holding one module (`column_typing.dfy` holds two):

| file | module | content |
|---|---|---|
| wrappers.dfy | Wrappers | `Option` |
| records.dfy | Records | records, statuses, dates, columns, tables |
| keys.dfy | Keys | Python string order, sorted distinct keys |
| strings.dfy | PyStrings | `strip`, `lower`, substring test |
| column_typing.dfy | ColumnRules, ColumnTyping | the loader's column rules and loops |
| aggregation.dfy | Aggregation | groupby, counts, sums, means, percentages, idxmax/idxmin, mode, descending sort |
| metrics.dfy | DeliveryMetrics | the metrics engine and the caller's table |
| rollups.dfy | Rollups | the supplier and logistics rollups |
| risk.dfy | Risk | the risk analysis |
| charts.dfy | Charts | the chart aggregations |

Behaviour of the code worth noting, which the model follows:

- `avg_delivery_time` is the mean day of the month (1 to 31) of the
  delivered orders' dates, not a duration.
- Division by zero does not always give 0. The code gives NaN for a
  supplier score when the largest mean cost is 0. It also gives NaN for a
  chart percentage when a partner has no status, and for a summary
  percentage when no order has a cost. The model gives `None` there. The
  model gives 0 where the code does: the metric rates over an empty table,
  the gauge, the overall delay rate, the cost impact, the heatmap cell of a
  pair without orders (`fillna(0)`), `avg_delivery_time` when nothing was
  delivered or the date or status column is missing, and the total cost of
  a shipping method that has no cost (a sum over nothing).
- A missing column is not always harmless. The risk analysis returns an
  error insight when the status or cost column is missing. It also does so
  when the partner column holds no partner, or is absent while the rate is
  above 25. The supplier and logistics rollups return an empty table when
  any column their aggregation reads is missing, not only the key column.
- The rollups are not sorted with group-key tie-breaking. The code sorts by
  score alone and leaves the order of ties to pandas. The model proves only
  that rows are in non-increasing score order, with NaN scores last.
- The sum-to-100 property holds for the four category rates
  (completed, on-track, overdue, delayed). `overall_performance_rate` is
  completed plus on-track, so it is not a fifth part of the partition.
- The chart aggregations carry an icon label (status summary) and a bar
  colour (partner comparison), as the code computes them.

## Model

Source paths are relative to the repository root.

| member | source | states |
|---|---|---|
| Records.ParseStatus | src/data_processing/supply_chain_loader.py:53-64 | a status read from its text prints back as that text, and it is `Other` exactly when the text is none of "Delivered", "In Transit", "Pending", "Delayed" |
| Records.StatusNameInjective | src/data_processing/supply_chain_loader.py:53-64 | different statuses have different texts, so the code's text comparisons (`== 'Delayed'`) compare statuses; reading back a status's text gives the status |
| Records.DaysInMonth | src/data_processing/supply_chain_loader.py:19 | a month of a parsed date has 28 to 31 days |
| Records.BeforeTotal | src/data_processing/supply_chain_loader.py:56-61 | day order is a strict total order, so a dated order is either on or after today or before it, never both |
| Keys.LessIrreflexive | src/data_processing/supply_chain_loader.py:119 | the string order `groupby` sorts keys by is irreflexive |
| Keys.LessTransitive | src/data_processing/supply_chain_loader.py:119 | that order is transitive |
| Keys.LessTotal | src/data_processing/supply_chain_loader.py:119 | that order is total and asymmetric on different keys |
| Keys.StrictlySortedDistinct | src/data_processing/supply_chain_loader.py:119 | a strictly sorted key list holds no key twice |
| Keys.Insert | src/data_processing/supply_chain_loader.py:119 | inserting a key into a sorted key list keeps it strictly sorted and adds exactly that key, growing it by one only when the key was new |
| Keys.SortedDistinct | src/data_processing/supply_chain_loader.py:119 | the group index is strictly sorted and holds exactly the keys that occur |
| Keys.SortedDistinctCount | src/data_processing/supply_chain_loader.py:39-42 | the group index has as many entries as there are distinct keys |
| PyStrings.TrimStart | src/data_processing/supply_chain_loader.py:14 | `lstrip` removes a whitespace prefix and leaves a suffix that does not start with whitespace |
| PyStrings.TrimEnd | src/data_processing/supply_chain_loader.py:14 | `rstrip` removes a whitespace suffix and leaves a prefix that does not end with whitespace |
| PyStrings.StripSpec | src/data_processing/supply_chain_loader.py:14 | a stripped header is the piece of the header between its leading and trailing whitespace, and it neither starts nor ends with whitespace |
| PyStrings.StripIdempotent | src/data_processing/supply_chain_loader.py:14 | stripping twice is stripping once |
| PyStrings.Lower | src/data_processing/supply_chain_loader.py:17 | lower-casing maps every character and keeps the length |
| PyStrings.LowerIdempotent | src/data_processing/supply_chain_loader.py:17 | lower-casing twice is lower-casing once |
| PyStrings.StartsWithSpec | src/data_processing/supply_chain_loader.py:17 | a string starts with `p` exactly when its first characters are `p` |
| PyStrings.ContainsSpec | src/data_processing/supply_chain_loader.py:17 | `sub in s` holds exactly when `sub` occurs at some position of `s` |
| PyStrings.ContainsFindsOccurrence | src/data_processing/supply_chain_loader.py:22 | a substring that is `in` a string occurs at some position |
| PyStrings.OccursContains | src/data_processing/supply_chain_loader.py:22 | a substring occurring at some position is `in` the string |
| ColumnRules.TypingIgnoresCase | src/data_processing/supply_chain_loader.py:17-22 | whether a header is date-typed or numeric does not depend on letter case |
| ColumnRules.DeliveryDateIsDateColumn | src/data_processing/supply_chain_loader.py:17-19 | the "Delivery Date" column is coerced to dates |
| ColumnRules.UnitPriceIsNumericColumn | src/data_processing/supply_chain_loader.py:22-24 | the "Unit Price" column is coerced to numbers |
| ColumnRules.QuantityIsNumericColumn | src/data_processing/supply_chain_loader.py:22-24 | the "Quantity" column is coerced to numbers |
| ColumnRules.TotalCostIsNumericColumn | src/data_processing/supply_chain_loader.py:22-24 | the "Total Cost" column is coerced to numbers |
| PyStrings.NoOccurrence | src/data_processing/supply_chain_loader.py:17 | a substring that occurs at no position is not `in` the string |
| PyStrings.NoPairNotContained | src/data_processing/supply_chain_loader.py:17 | a substring two of whose adjacent characters are never adjacent in a string is not `in` it |
| ColumnRules.NoNumericPairNotNumeric | src/data_processing/supply_chain_loader.py:22 | a header whose lower-cased form contains none of "ri", "co" and "qu" is not coerced to numbers |
| ColumnRules.NoKeywordPairNotCoerced | src/data_processing/supply_chain_loader.py:17-22 | a header whose lower-cased form contains none of "da", "ri", "co" and "qu" is coerced neither to dates nor to numbers |
| ColumnRules.TextColumnsAreNotCoerced | src/data_processing/supply_chain_loader.py:17-24 | the supplier, product, warehouse, partner, shipping method and status columns are coerced neither to dates nor to numbers, so the date and numeric columns are exactly the ones whose headers select them |
| ColumnRules.DeliveryDateIsNotNumericColumn | src/data_processing/supply_chain_loader.py:22-24 | the "Delivery Date" column is not coerced to numbers |
| ColumnTyping.Coercions | src/data_processing/supply_chain_loader.py:16-24 | a column gets the date coercion iff the date rule selects it, the numeric one iff the numeric rule does, and when it gets both the date coercion comes first |
| ColumnTyping.TypedColumn | src/data_processing/supply_chain_loader.py:14-24 | a loaded header is the stripped name; it is date-typed iff its lower-cased name contains "date", and numeric iff it contains "price", "cost" or "quantity"; dates are coerced before numbers |
| ColumnTyping.TypingIgnoresSurroundingSpace | src/data_processing/supply_chain_loader.py:14 | a header with surrounding whitespace loads exactly like the stripped header |
| ColumnTyping.Selected | src/data_processing/supply_chain_loader.py:17-22 | the list comprehension selects, in column order, exactly the positions whose names the rule accepts |
| ColumnTyping.CoerceColumns | src/data_processing/supply_chain_loader.py:18-24 | the loop applies the coercion once to each selected column and leaves every other column unchanged |
| ColumnTyping.NormalizeColumns | src/data_processing/supply_chain_loader.py:14-24 | after stripping and both loops, every column is `TypedColumn` of its header |
| ColumnTyping.CoercionsInOrder | src/data_processing/supply_chain_loader.py:18-24 | applying the date loop and then the numeric loop to an untouched column gives the column's coercions in that order |
| Aggregation.KeyValues | src/data_processing/supply_chain_loader.py:119 | the non-missing keys of a column are exactly the keys some record has |
| Aggregation.GroupKeys | src/data_processing/supply_chain_loader.py:119 | the `groupby` index is strictly sorted and holds exactly the non-missing keys |
| Aggregation.NUniqueIsDistinctCount | src/data_processing/supply_chain_loader.py:39-42 | `nunique` is the number of distinct non-missing values of the column |
| Aggregation.Group | src/data_processing/supply_chain_loader.py:119 | a group holds exactly the records with that key, and it is non-empty for a key that occurs |
| Aggregation.Keyed | src/visualizations/supply_chain_viz.py:214 | `groupby` keeps exactly the records whose key is not missing |
| Aggregation.CountStatus | src/ai_insights/operations_analyzer.py:15 | the count of a status is 0 exactly when no record has it |
| Aggregation.CountPresentStatus | src/visualizations/supply_chain_viz.py:21 | `count` on the status column equals the number of records exactly when no status is missing |
| Aggregation.StatusCountsPartition | src/visualizations/supply_chain_viz.py:15-23 | the four known status counts plus the count of other status texts make up the non-missing status count |
| Aggregation.StatusGroupIsStatusCount | src/ai_insights/operations_analyzer.py:15 | selecting rows whose status text equals a status's name selects exactly the records with that status |
| Aggregation.CountOf | src/data_processing/supply_chain_loader.py:120 | a column with no present value sums to 0 |
| Aggregation.MeanOf | src/data_processing/supply_chain_loader.py:120 | the mean skips missing values: NaN exactly when no value is present, otherwise mean times count equals the sum |
| Aggregation.SumNonNegative | src/data_processing/supply_chain_loader.py:43 | non-negative costs have a non-negative sum |
| Aggregation.TimesIsProduct | src/data_processing/supply_chain_loader.py:120 | helper for `MeanBetween`: adding a value n times gives the value times n |
| Aggregation.SumBetween | src/data_processing/supply_chain_loader.py:120 | when every present value lies in [lo, hi], the sum lies between lo and hi times the count |
| Aggregation.MeanBetween | src/data_processing/supply_chain_loader.py:120 | when every present value lies in [lo, hi], so does the mean |
| Aggregation.MeanNonNegative | src/data_processing/supply_chain_loader.py:120 | non-negative values have a non-negative mean |
| Aggregation.GroupNonNegative | src/data_processing/supply_chain_loader.py:119-120 | a group of non-negative values is non-negative |
| Aggregation.GroupSumAtMost | src/ai_insights/operations_analyzer.py:42-43 | with non-negative costs, a group's cost sum lies between 0 and the total cost |
| Aggregation.QuotientBetween | src/data_processing/supply_chain_loader.py:138 | helper for `MeanBetween`, `ShareOfMax` and `ImpactOfPart`: a sum between lo·n and hi·n, divided by n, lies between lo and hi |
| Aggregation.Percent | src/data_processing/supply_chain_loader.py:84 | a count out of a non-empty total, times 100, is non-negative, at most 100 for a count within the total, 100 iff the count is the total, and 0 iff the count is 0 |
| Aggregation.PercentAdd | src/data_processing/supply_chain_loader.py:90 | percentages of one total add like their counts |
| Aggregation.Ratio | src/visualizations/supply_chain_viz.py:30-33 | a float percentage is NaN exactly when the total is 0, and otherwise the exact percentage |
| Aggregation.StatusShare | src/data_processing/supply_chain_loader.py:123 | the share of a status in a group, times 100, lies in [0, 100] |
| Aggregation.SumGroupsCovers | src/visualizations/supply_chain_viz.py:214 | the cost sums of distinct keys that cover every keyed record add up to the cost sum of the keyed records |
| Aggregation.GroupSumsPartition | src/visualizations/supply_chain_viz.py:214 | the per-key sums of a `groupby` add up to the sum over the records whose key is not missing |
| Aggregation.ArgMax | src/ai_insights/operations_analyzer.py:23-24 | `idxmax` gives a position holding the maximum, and every earlier position is strictly smaller |
| Aggregation.ArgMin | src/ai_insights/operations_analyzer.py:25-26 | `idxmin` gives a position holding the minimum, and every earlier position is strictly larger |
| Aggregation.ModeSpec | src/data_processing/supply_chain_loader.py:125 | the mode is a most frequent non-missing value, the smallest among equally frequent ones; it is missing exactly when the column has no value |
| Aggregation.InsertDesc | src/data_processing/supply_chain_loader.py:141 | inserting into a descending list (NaN last) keeps it descending and adds exactly that row |
| Aggregation.SortDesc | src/data_processing/supply_chain_loader.py:141 | `sort_values(ascending=False)` returns a permutation of its rows, in non-increasing order with NaN last |
| Aggregation.SortDescKeyed | src/data_processing/supply_chain_loader.py:141 | sorting one row per group key keeps one row per key: no key twice and every key present |
| Aggregation.SortDescNoDuplicates | src/data_processing/supply_chain_loader.py:141 | sorting a list without duplicates yields no duplicates |
| Aggregation.InsertDescNoDuplicates | src/data_processing/supply_chain_loader.py:141 | inserting a new row into a list without duplicates yields no duplicates |
| Aggregation.SortDescNoDuplicatesKeyed | src/data_processing/supply_chain_loader.py:141 | rows named by distinct keys stay without duplicates when sorted |
| DeliveryMetrics.Classify | src/data_processing/supply_chain_loader.py:51-73 | by first match: Delivered iff the status is Delivered; On-Track iff In Transit or Pending with a date on or after today; Overdue iff In Transit or Pending with a date before today; Delayed iff Delayed; Unknown iff the status is missing, another text, or in progress without a date |
| DeliveryMetrics.CountClass | src/data_processing/supply_chain_loader.py:77-80 | no category counts more records than the table has |
| DeliveryMetrics.CountStored | src/data_processing/supply_chain_loader.py:77-80 | no stored category counts more records than the table has |
| DeliveryMetrics.StoredCountsAreClassCounts | src/data_processing/supply_chain_loader.py:68-80 | counting the written Performance_Category column gives the classification counts |
| DeliveryMetrics.CategoryCountsSum | src/data_processing/supply_chain_loader.py:76-80 | the five category counts add up to the number of orders |
| DeliveryMetrics.DeliveredCountIsStatusCount | src/data_processing/supply_chain_loader.py:53-77 | the Delivered category count is the Delivered status count |
| DeliveryMetrics.DelayedCountIsStatusCount | src/data_processing/supply_chain_loader.py:64-80 | the Delayed category count is the Delayed status count |
| DeliveryMetrics.Rate | src/data_processing/supply_chain_loader.py:84-90 | a rate is 0 for no orders; otherwise rate times total equals count times 100, and it lies in [0, 100] for a count within the total |
| DeliveryMetrics.RateAdd | src/data_processing/supply_chain_loader.py:90 | rates over one total add like their counts, including over an empty table |
| DeliveryMetrics.RateFull | src/data_processing/supply_chain_loader.py:84 | over a non-empty total a rate is 100 exactly when the count is the total |
| DeliveryMetrics.ClassRows | src/data_processing/supply_chain_loader.py:93 | the selected rows are exactly the records of that category, as many as the category count |
| DeliveryMetrics.AvgDeliveryTime | src/data_processing/supply_chain_loader.py:93 | `avg_delivery_time` is 0 when nothing was delivered, and otherwise the mean day of month of the delivered orders' dates |
| DeliveryMetrics.AvgDeliveryTimeIsDayOfMonth | src/data_processing/supply_chain_loader.py:93 | with parsed dates the average lies in [0, 31], and in [1, 31] when something was delivered and it is a number, so it is a day of the month |
| DeliveryMetrics.SupplyChainMetrics | src/data_processing/supply_chain_loader.py:33-111 | the result is `{}` exactly when a basic column is missing; otherwise the basic counts are the distinct counts and the cost sum, with both the date and the status column the six delivery metrics are `Delivery` of the rows, and without either of them they are all 0 |
| DeliveryMetrics.EmptyTableDelivery | src/data_processing/supply_chain_loader.py:83-94 | over an empty table every delivery metric is 0 |
| DeliveryMetrics.RatesAreShares | src/data_processing/supply_chain_loader.py:83-87 | each category rate is its count out of all orders; the completed and delayed rates are the shares of the Delivered and Delayed statuses |
| DeliveryMetrics.OverallIsCompletedPlusOnTrack | src/data_processing/supply_chain_loader.py:90 | the overall performance rate is the completed rate plus the on-track rate |
| DeliveryMetrics.RatesOfPartition | src/data_processing/supply_chain_loader.py:83-87 | helper for `CategoryRatesSum` and `PartnerStatusCounts`: rates of counts that partition a total add up to at most 100, and to exactly 100 over a non-empty total iff the left-over count is 0 |
| DeliveryMetrics.CategoryRatesSum | src/data_processing/supply_chain_loader.py:76-87 | the four category rates add up to at most 100, and to exactly 100 for a non-empty table iff no order is Unknown |
| DeliveryMetrics.DataFrame.constructor | src/data_processing/supply_chain_loader.py:33 | the object holds the caller's table |
| DeliveryMetrics.DataFrame.CalculateSupplyChainMetrics | src/data_processing/supply_chain_loader.py:33-111 | the call returns `SupplyChainMetrics` of the table as it was, and leaves the table as `MetricsEffect` describes |
| DeliveryMetrics.MetricsOnlyAddsCategory | src/data_processing/supply_chain_loader.py:47-73 | the call changes the caller's table only by adding Performance_Category: same row count, same other columns, every other cell unchanged, and when the delivery branch runs each row's new cell is its classification |
| Rollups.SupplierAgg | src/data_processing/supply_chain_loader.py:119-126 | a supplier row belongs to its supplier, and its on-time rate lies in [0, 100] |
| Rollups.MaxPresent | src/data_processing/supply_chain_loader.py:138 | `max()` skips NaN: it is NaN exactly when every value is, and otherwise it is one of the values and no smaller than any |
| Rollups.Score | src/data_processing/supply_chain_loader.py:136-139 | the score is NaN exactly when the mean or the maximum is NaN or the maximum is 0; a supplier at the maximum scores 60% of its on-time rate; with rates and means in range the score lies in [0, 100] |
| Rollups.ShareOfMax | src/data_processing/supply_chain_loader.py:138 | helper for `Score`: a mean as a fraction of the largest mean is 1 at the maximum and lies in [0, 1] for a mean between 0 and the maximum |
| Rollups.ScoreFavoursLowerCost | src/data_processing/supply_chain_loader.py:136-139 | with the same on-time rate, a cheaper supplier never scores lower |
| Rollups.SupplierRows | src/data_processing/supply_chain_loader.py:119-133 | before sorting there is one supplier row per group key, in key order |
| Rollups.SupplierPerformanceShape | src/data_processing/supply_chain_loader.py:113-141 | the supplier table is empty when a column it reads is missing, and otherwise has one row per supplier; its rows are in non-increasing score order with NaN last |
| Rollups.SupplierPerformanceRows | src/data_processing/supply_chain_loader.py:119-141 | no supplier appears twice and every supplier appears |
| Rollups.SupplierPerformanceRowIsAggregate | src/data_processing/supply_chain_loader.py:119-139 | each row holds the aggregates and the score of its own supplier's group |
| Rollups.MostExpensiveSupplierScore | src/data_processing/supply_chain_loader.py:136-139 | the supplier with the largest mean cost gets no cost points: its score is 0.6 times its on-time rate |
| Rollups.SupplierScoreBounds | src/data_processing/supply_chain_loader.py:136-139 | with non-negative costs every score that is a number lies in [0, 100] |
| Rollups.MeanAtMostMax | src/data_processing/supply_chain_loader.py:138 | every supplier's mean cost is at most the largest supplier mean |
| Rollups.PartnerRowFor | src/data_processing/supply_chain_loader.py:153-174 | a partner row belongs to its partner |
| Rollups.PrimaryMethodIsMostFrequent | src/data_processing/supply_chain_loader.py:160 | a partner's primary method is one of its methods, and no method of the partner is more frequent |
| Rollups.PartnerRows | src/data_processing/supply_chain_loader.py:153-169 | before sorting there is one partner row per group key, in key order |
| Rollups.LogisticsPerformanceShape | src/data_processing/supply_chain_loader.py:147-180 | the logistics table is empty when a column it reads is missing or a partner has no shipping method, and otherwise has one row per partner; reliability is non-increasing down the table |
| Rollups.LogisticsPerformanceRows | src/data_processing/supply_chain_loader.py:153-176 | no partner appears twice and every partner appears |
| Rollups.LogisticsPerformanceRowIsAggregate | src/data_processing/supply_chain_loader.py:153-174 | each row holds the aggregates of its own partner's group |
| Rollups.PartnerRatesBounded | src/data_processing/supply_chain_loader.py:153-174 | delivery, delay and pending rates each lie in [0, 100] and add up to at most 100, so the reliability score lies in [-100, 100] |
| Rollups.SharesOfDisjointCounts | src/data_processing/supply_chain_loader.py:154-158 | helper for `PartnerRatesBounded`: percentages of counts that fit together in the total add up to at most 100 |
| Risk.RiskTier | src/ai_insights/operations_analyzer.py:32-39 | high iff the rate is above 25, medium iff above 15 and at most 25, low iff at most 15 |
| Risk.RiskTierMonotone | src/ai_insights/operations_analyzer.py:32-39 | a higher delay rate never gives a lower tier |
| Risk.PartnerDelayRate | src/ai_insights/operations_analyzer.py:20-22 | a partner's delay rate lies in [0, 100]; it is 0 iff no order of the partner is delayed and 100 iff all are |
| Risk.PartnerDelayRates | src/ai_insights/operations_analyzer.py:20-22 | there is one rate per partner in key order, and each is that partner's delay rate |
| Risk.PartnerExtremes | src/ai_insights/operations_analyzer.py:19-26 | the extremes exist exactly when some order has a partner (`idxmax` raises on an empty series) |
| Risk.PartnerExtremesSpec | src/ai_insights/operations_analyzer.py:23-26 | the worst partner has the highest delay rate and the best the lowest; every partner's rate lies between them; on ties the first partner in key order wins |
| Risk.WorstPartnerSpec | src/ai_insights/operations_analyzer.py:23-24 | the worst partner attains the maximum rate, and every partner before it in key order has a lower rate |
| Risk.BestPartnerSpec | src/ai_insights/operations_analyzer.py:25-26 | the best partner attains the minimum rate, and every partner before it in key order has a higher rate |
| Risk.OrderOfKeys | src/ai_insights/operations_analyzer.py:23-26 | in the sorted group index, a smaller key stands at an earlier position |
| Risk.CostImpact | src/ai_insights/operations_analyzer.py:44 | the impact is 0 when the total cost is not positive, and otherwise impact times total equals delayed cost times 100 |
| Risk.CostImpactBounds | src/ai_insights/operations_analyzer.py:42-44 | with non-negative costs the delayed cost lies between 0 and the total, and the impact lies in [0, 100] |
| Risk.ImpactOfPart | src/ai_insights/operations_analyzer.py:44 | helper for `CostImpactBounds`: the impact of a part of a total is a percentage |
| Risk.DelayedRate | src/ai_insights/operations_analyzer.py:14-16 | the overall delay rate lies in [0, 100], is 0 for no orders, and otherwise times the order count equals the delayed count times 100 |
| Risk.RiskAnalysis | src/ai_insights/operations_analyzer.py:10-51 | the report has 1, 2 or 4 lines and is one line exactly when it is an error; the missing status column, an empty partner column, and a high rate without a partner column each give their error; on success the last line is the financial impact |
| Risk.RiskAnalysisFails | src/ai_insights/operations_analyzer.py:12-51 | the analysis fails iff the status column is missing, or the partner column exists but holds no partner, or it is absent while the rate is above 25, or the cost column is missing |
| Risk.RiskAnalysisTier | src/ai_insights/operations_analyzer.py:32-46 | on success the report has four lines iff the tier is high and two otherwise, and its first line reports the tier with the overall rate |
| Risk.HighRiskNamesExtremes | src/ai_insights/operations_analyzer.py:33-35 | a high-risk report blames the partner with the highest delay rate and recommends moving volume to the one with the lowest |
| Risk.HighRiskParts | src/ai_insights/operations_analyzer.py:33-35 | a four-line report reports the partner extremes in its root-cause and recommendation lines |
| Charts.LogisticsChart | src/visualizations/supply_chain_viz.py:8-33 | None exactly when the partner or status column is missing; otherwise one row per partner in key order |
| Charts.PartnerStatusCounts | src/visualizations/supply_chain_viz.py:15-33 | per partner the four known counts add up to at most Total, and equal it iff no other status text occurs; the percentages are NaN iff Total is 0, and otherwise add up to at most 100, with 100 iff no other status occurs |
| Charts.PairRows | src/visualizations/supply_chain_viz.py:97 | grouping by supplier and partner keeps exactly the orders that have both |
| Charts.PairGroup | src/visualizations/supply_chain_viz.py:97 | a pair's group holds exactly the orders of that supplier with that partner |
| Charts.PairDelayRate | src/visualizations/supply_chain_viz.py:98-110 | a cell lies in [0, 100]; it is 0 iff the pair has no delayed order (including pairs without orders) and 100 iff every one of its orders is delayed |
| Charts.RiskHeatmap | src/visualizations/supply_chain_viz.py:90-110 | None exactly when the supplier, partner, status or cost column is missing; otherwise a full grid of one row per supplier and one column per partner |
| Charts.HeatmapSuppliers | src/visualizations/supply_chain_viz.py:106-110 | the heatmap's rows are exactly the suppliers that have an order with some partner |
| Charts.HeatmapPartners | src/visualizations/supply_chain_viz.py:106-110 | the heatmap's columns are exactly the partners that have an order with some supplier |
| Charts.PairKeys | src/visualizations/supply_chain_viz.py:97 | a key indexes the pair grouping iff some order with both a supplier and a partner has it |
| Charts.HeatmapCells | src/visualizations/supply_chain_viz.py:106-110 | every cell is its pair's delay rate, lies in [0, 100], and is 0 for a pair without orders |
| Charts.ShippingMethodStats | src/visualizations/supply_chain_viz.py:138-154 | None exactly when the method, status or cost column is missing; otherwise one row per method in key order |
| Charts.MethodRowCounts | src/visualizations/supply_chain_viz.py:145-149 | per method the delay rate lies in [0, 100] and the order count is at most the group size |
| Charts.MethodRowCosts | src/visualizations/supply_chain_viz.py:150 | the average cost is NaN iff the method has no cost; otherwise it is the total cost over the number of costs; with no cost the total is 0 |
| Charts.CostImpactDonut | src/visualizations/supply_chain_viz.py:207-214 | None exactly when the status or cost column is missing; otherwise one slice per status text |
| Charts.CostSlicesAreGroupSums | src/visualizations/supply_chain_viz.py:214 | the slices add up to the per-status cost sums |
| Charts.DonutCoversStatusCosts | src/visualizations/supply_chain_viz.py:214 | the slices add up to the total cost of the orders whose status is not missing |
| Charts.GaugeScore | src/visualizations/supply_chain_viz.py:240-255 | None exactly when the status column is missing; otherwise in [0, 100], and 0 for no orders |
| Charts.GaugeComplementsDelay | src/visualizations/supply_chain_viz.py:247-255 | the gauge plus the overall delay rate is at most 100, and exactly 100 for a non-empty table iff every order has one of the four known statuses |
| Charts.GaugePlusDelay | src/visualizations/supply_chain_viz.py:254-255 | helper for `GaugeComplementsDelay`: three counts' rate plus a fourth's stays within 100, and reaches it iff the rest of the total is empty |
| Charts.KnownStatusesOnly | src/visualizations/supply_chain_viz.py:247-254 | no order lacks a status or has another status text iff the four known counts make up the table |
| Charts.OtherCountPositive | src/visualizations/supply_chain_viz.py:247-254 | one order with another status text makes the other count positive |
| Charts.NoOtherStatus | src/visualizations/supply_chain_viz.py:247-254 | with only known statuses the other count is 0 |
| Charts.Label | src/visualizations/supply_chain_viz.py:313-319 | the status label exists iff the status is one of the four known texts, and then it ends with the status text after an icon |
| Charts.StatusSummary | src/visualizations/supply_chain_viz.py:292-310 | None exactly when the status, cost or date column is missing; otherwise one line per status text |
| Charts.PercentagesAdd | src/visualizations/supply_chain_viz.py:309-310 | the percentages add up to the rate of the summed orders |
| Charts.PercentagesUndefined | src/visualizations/supply_chain_viz.py:310 | over a total of 0 every percentage is NaN |
| Charts.CountIsSumOfOnes | src/visualizations/supply_chain_viz.py:300 | the cost `count` is the sum of one per present cost |
| Charts.OrdersAreGroupCounts | src/visualizations/supply_chain_viz.py:299-309 | the summary's Orders add up to the per-status present-cost counts |
| Charts.SummaryPercentages | src/visualizations/supply_chain_viz.py:299-310 | the Orders total is the number of present costs among orders with a status; when positive the percentages add up to 100, and when 0 they are all NaN |
| Charts.ColourIsRiskTier | src/visualizations/supply_chain_viz.py:357 | crimson iff the risk tier is high, gold iff medium, sea green iff low |
| Charts.PartnerComparison | src/visualizations/supply_chain_viz.py:331-347 | None exactly when the partner or status column is missing; otherwise one bar per partner in key order |
| Charts.ComparisonRowSpec | src/visualizations/supply_chain_viz.py:338-357 | a bar counts all of the partner's orders and at most as many delayed ones; its rate is the risk analysis's partner delay rate, 0 iff none is delayed and 100 iff all are; it is crimson iff the tier is high |
| Charts.CrimsonBarIffWorstAbove25 | src/visualizations/supply_chain_viz.py:357 | some bar is crimson iff the risk analysis's worst partner has a delay rate above 25 |
| Charts.ComparisonBar | src/visualizations/supply_chain_viz.py:338-357 | bar i shows the delay rate of the i-th partner in key order and is crimson iff that rate is above 25 |
| Charts.CostByWarehouse | src/visualizations/supply_chain_viz.py:381-394 | None exactly when the warehouse, cost or status column is missing; otherwise one row per warehouse |
| Charts.WarehouseCostsAreGroupSums | src/visualizations/supply_chain_viz.py:389 | the warehouse costs add up to the per-warehouse cost sums |
| Charts.WarehouseTotals | src/visualizations/supply_chain_viz.py:388-391 | the warehouse costs add up to the cost of the orders with a warehouse, and every delay rate lies in [0, 100] |
| Charts.WarehouseRatesBounded | src/visualizations/supply_chain_viz.py:390 | every warehouse delay rate lies in [0, 100] |

## Left out

- Reading the CSV file, the loader's `except` path and the coercions themselves (`pd.to_datetime`, `pd.to_numeric` with `errors='coerce'`) are I/O and library conversion. Records hold the coerced values as `Option`. The loader's part is which columns are coerced, and in what order.
- Duplicate column names after stripping are not modelled. The column loops work by position.
- PyStrings.Lower: lower-cases ASCII letters only, not Python's full Unicode `str.lower`. For the keywords "date", "price", "cost" and "quantity" the rules then accept ASCII headers in the same way.
- The clock (`pd.Timestamp.now().normalize()`) is the parameter `today`.
- The re-parse of Delivery Date at line 48 of the loader is the identity on a column the loader has already parsed. The model leaves the dates unchanged.
- `@st.cache_data` memoisation is a framework cache. On a cache hit the function body does not run and the caller's table is not changed. `DeliveryMetrics.DataFrame.CalculateSupplyChainMetrics` describes a call that runs the body.
- `st.error` calls, Plotly figure construction, layouts, text templates and the dashboard page are presentation. Only the returned value or aggregated table is modelled.
- The dashboard page, the data test script, and the ABC, inventory and cost-optimisation analyses the dashboard imports are not part of this model.
- Float arithmetic: the model uses exact reals, so there is no rounding error, inf or overflow. NaN is `None`.
- `.round(1)` and `.round(2)` are omitted. The supplier score is computed from exact on-time rates and means, not from rounded ones.
- Risk.PartnerExtremes: the code takes `idxmax`/`idxmin` of rates rounded to one decimal. The model compares exact rates, so it can pick a different partner among partners whose rates round to the same value.
- Rollups.Score: a largest mean cost of 0 gives NaN or an infinity in the code, depending on the supplier's own mean. The model returns `None` for both.
- Rollups.SupplierPerformanceShape: the order of rows with equal scores is not stated. pandas' default sort does not fix it either. The same holds for Rollups.LogisticsPerformanceShape.
- Rollups.PartnerRowFor: among equally frequent shipping methods the model takes the smallest, as `mode` does. `value_counts().index[0]` orders ties by its own rule.
- The Earliest_Date and Latest_Date columns of the status summary are not modelled. Only the KeyError a missing Delivery Date column raises is.
- The Total Cost sum of the heatmap's aggregation is computed and never used. Only the KeyError when the column is missing is modelled.
- The threshold line at 20% in the partner comparison chart is drawn, not computed, and is left out.
- An exception raised inside pandas for reasons other than a missing column or an empty `idxmax`/`value_counts` is not modelled. Examples are mixed-type comparisons and non-numeric text in a cost column.
