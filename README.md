# Supply-curve charts

Four Python scripts draw an electricity supply curve, the merit-order stack of
generator offers, from a CSV of offer curves:

- an interactive plotly chart, `plotly_interactive_supply_curve.py`;
- a dynamic plotly chart, `plotly_supply_curve_dynamic.py`;
- a matplotlib image, `matplotlib_supply_curve.py`;
- a simplified plotly chart that merges small segments, `plotly_supply_curve_simplified.py`.

All four load the data the same way. Each row's offer curve is a list of
`[cumulative_mw, price]` points. It is expanded into incremental MW segments
with a running `prev_mw`. Segments of unavailable resources and segments with a
non-positive width are dropped. The rest is sorted into merit order by
`(price, mw)` and given a running total, `cumulative_mw`. Each chart then lays
the segments end to end along the load axis and colours them by resource type.

The Dafny modules follow that structure:

- `OfferCurves` models the curve expansion.
- `MeritOrder` models the filters, the sort and the running total. Its
  `LoadAndProcess` is the loading step of all four scripts, and the cited lines
  of one script stand for the identical lines of the other three.
- `ResourceColours` models the colour table and the ordered substring rules
  that three of the scripts share.
- `PriceAxis` models the y-limits, the y-ticks, the price labels and the
  x-ticks.
- `InteractiveChart`, `DynamicChart`, `MatplotlibChart` and `SimplifiedChart`
  model one script each.
- `Strings`, `Numbers` and `Wrappers` are small helpers.

MW and prices are `real`. A resource type is an `Option<string>`, where `None`
is the NaN that pandas reads from an empty cell. An offer-curve cell is a
`CurveCell`: `EmptyCell` is the NaN of an empty cell, on which every script
raises a `TypeError` at `for point in curve`; `Unparsable` is text that is not a
Python literal, which the scripts skip; `Parsed` holds the list of points.

## Model

| member | source | states |
|---|---|---|
| `Strings.Upper` | plotly_interactive_supply_curve.py:92 | `str.upper` keeps the length and upper-cases every character |
| `Strings.UpperIdempotent` | plotly_interactive_supply_curve.py:92 | upper-casing twice is upper-casing once |
| `Strings.ContainsAt` | plotly_interactive_supply_curve.py:99 | the `in` test on strings holds when the needle occurs at some index |
| `Strings.ContainsWitness` | plotly_interactive_supply_curve.py:99 | conversely, when the `in` test holds, the needle occurs at an index it returns |
| `Strings.NatToStringValue` | plotly_supply_curve_dynamic.py:288 | the decimal text of a natural number denotes that number |
| `Strings.IntToStringRoundTrip` | plotly_supply_curve_dynamic.py:288 | the text `f'{int(x)}'` parses back to `x`, negatives included |
| `Strings.StrLessIrreflexive` | matplotlib_supply_curve.py:227 | Python's string order never puts a string before itself |
| `Strings.StrLessTransitive` | matplotlib_supply_curve.py:227 | Python's string order is transitive |
| `Strings.StrLessTotal` | matplotlib_supply_curve.py:227 | any two distinct strings are ordered one way or the other |
| `Numbers.MaxReal` | plotly_supply_curve_dynamic.py:167 | `max` is at least both arguments and equal to one of them |
| `Numbers.Truncate` | plotly_supply_curve_dynamic.py:146 | `int()` truncates toward zero: within 1 of `x`, on the side of zero |
| `OfferCurves.ExpandEmitsClosedSegments` | plotly_interactive_supply_curve.py:28-46 | every emitted segment has a positive width and the row's name, type and status; its price is that of a pair, and its width is that pair's MW less the `prev_mw` reached before it |
| `OfferCurves.Expand` | plotly_interactive_supply_curve.py:28-46 | the segments one walk over a row's points emits from a given `prev_mw`: a pair emits its positive increment at its price, other points are skipped |
| `OfferCurves.RowSegments` | plotly_interactive_supply_curve.py:15-46 | a row's segments: none for an empty, unparsable or empty-list cell, otherwise the walk from `prev_mw = 0` |
| `OfferCurves.ExpandAll` | plotly_interactive_supply_curve.py:13-46 | `expanded_data`: the rows' segments concatenated in row order |
| `OfferCurves.ExpandIgnoresNonPairs` | plotly_interactive_supply_curve.py:28-29 | points that are not pairs emit nothing and leave `prev_mw` alone |
| `OfferCurves.ExpandTelescopes` | plotly_interactive_supply_curve.py:28-46 | on a non-decreasing curve the increments add up to the last MW less the starting `prev_mw` |
| `OfferCurves.RowSegmentsTotal` | plotly_interactive_supply_curve.py:14-46 | a row whose pairs have non-negative, non-decreasing MW contributes exactly the MW of its last pair |
| `OfferCurves.ExpandAllAppend` | plotly_interactive_supply_curve.py:13-46 | rows are expanded independently: the segments of two row lists are those of each, concatenated |
| `OfferCurves.TotalMwAppend` | plotly_interactive_supply_curve.py:63 | the MW sum of two segment lists is the sum of their sums |
| `OfferCurves.TotalMwPositive` | plotly_interactive_supply_curve.py:52 | segments of positive width have a positive sum when there is one, and never a negative one |
| `MeritOrder.KeepAvailable` | plotly_interactive_supply_curve.py:49 | a segment survives the status filter exactly when its status is not among the six unavailable ones |
| `MeritOrder.KeepPositive` | plotly_interactive_supply_curve.py:52 | a segment survives exactly when its width is positive |
| `MeritOrder.UnavailableStatuses` | plotly_interactive_supply_curve.py:49 | the six statuses the `isin` filter drops: ONTEST, OFFQS, OFFNS, OFF, OUT and SHUTDOWN |
| `MeritOrder.Candidates` | plotly_interactive_supply_curve.py:48-52 | a segment survives both filters exactly when it was expanded, its status is available and its width is positive |
| `MeritOrder.MeritSort` | plotly_interactive_supply_curve.py:55 | `sort_values(['price', 'mw'])` as an insertion sort on the `(price, mw)` order; `MeritOrder.MeritSortCorrect` states its contract |
| `MeritOrder.KeepAvailableAppend` | plotly_interactive_supply_curve.py:49 | the status filter acts segment by segment, so it distributes over concatenation |
| `MeritOrder.KeepPositiveAppend` | plotly_interactive_supply_curve.py:52 | the width filter distributes over concatenation |
| `MeritOrder.UnavailableRowKeepsNothing` | plotly_interactive_supply_curve.py:19-49 | a row whose curve does not parse, is empty, or whose status is unavailable keeps no segment |
| `MeritOrder.AllUnavailableKeepsNothing` | plotly_interactive_supply_curve.py:49 | segments that all have unavailable statuses are all dropped |
| `MeritOrder.ExcludedRowContributesNothing` | plotly_interactive_supply_curve.py:14-52 | removing such a row from the CSV changes no surviving segment |
| `MeritOrder.InsertPermutes` | plotly_interactive_supply_curve.py:55 | inserting into the sorted list adds exactly that segment |
| `MeritOrder.InsertSorted` | plotly_interactive_supply_curve.py:55 | inserting into a list sorted by `(price, mw)` keeps it sorted |
| `MeritOrder.MeritSortCorrect` | plotly_interactive_supply_curve.py:55 | `sort_values(['price', 'mw'])` yields a permutation of its input sorted by price, then by MW |
| `MeritOrder.CumulativeIsPrefixSum` | plotly_interactive_supply_curve.py:58 | `cumsum` gives at each index the MW of the segments up to and including it |
| `MeritOrder.Cumulative` | plotly_interactive_supply_curve.py:58 | `cumsum`: one running total per segment |
| `MeritOrder.PrefixSumsIncrease` | plotly_interactive_supply_curve.py:58 | with positive widths a longer prefix has strictly more MW |
| `MeritOrder.CumulativeIncreasing` | plotly_interactive_supply_curve.py:58 | the running total strictly increases, stays within `(0, total]`, and ends at the total |
| `MeritOrder.LoadAndProcess` | plotly_interactive_supply_curve.py:9-65 | the loading fails at the first row whose curve cell is empty, and fails when no row yields a segment (no `telemetered_status` column, lines 48-49); otherwise, and exactly otherwise, it produces the merit-sorted permutation of the surviving segments, all available and positive, with a strictly increasing running total that ends at the total MW |
| `MeritOrder.ExpandRow` | plotly_interactive_supply_curve.py:15-46 | walking one row's points with `prev_mw` appends exactly that row's segments to `expanded_data` |
| `MeritOrder.MinPrice` | plotly_supply_curve_dynamic.py:242 | `price.min()` is a price of the supply and at most every price |
| `MeritOrder.MaxPrice` | plotly_supply_curve_dynamic.py:243 | `price.max()` is a price of the supply and at least every price |
| `MeritOrder.UniqueTypes` | matplotlib_supply_curve.py:225 | `unique()` lists each type of the supply exactly once and nothing else |
| `MeritOrder.UniqueTypesFirstAppearance` | matplotlib_supply_curve.py:225 | `unique()` lists the types in order of first appearance: each occurrence of a listed type is preceded by an occurrence of every type listed before it |
| `ResourceColours.ResourceColors` | plotly_interactive_supply_curve.py:68-87 | the colour table `resource_colors`, key for key |
| `ResourceColours.SubstringRules` | plotly_interactive_supply_curve.py:99-120 | the `elif` chain as an ordered list of needles and the table key each selects |
| `ResourceColours.TypeText` | plotly_interactive_supply_curve.py:92 | `str(resource_type)`: the type's text, or "nan" for a missing type |
| `ResourceColours.FirstMatchingRule` | plotly_interactive_supply_curve.py:99-120 | the `elif` chain takes the first rule that has a needle in the text, or none when no rule does |
| `ResourceColours.RuleKeysInTable` | plotly_interactive_supply_curve.py:99-122 | every rule's colour key is in the table, so the lookups never fail |
| `ResourceColours.ColorForText` | plotly_interactive_supply_curve.py:95-122 | an exact key gives its colour; otherwise the first matching rule's colour; otherwise OTHER's |
| `ResourceColours.NeedleNotInNan` | plotly_interactive_supply_curve.py:92 | no needle of two or more letters, other than NA, AN and NAN, occurs in "" or "NAN" |
| `ResourceColours.NoRuleForBlankOrNan` | plotly_interactive_supply_curve.py:92-120 | the text of a NaN, "NAN", is no key and matches no rule |
| `ResourceColours.ColorForResource` | plotly_interactive_supply_curve.py:90-122 | the colour is one of the table's, that of the upper-cased type when it is a key, and OTHER's for a missing type |
| `ResourceColours.ColorIgnoresCase` | plotly_interactive_supply_curve.py:92-96 | spellings that upper-case alike get the same colour |
| `ResourceColours.SubstringRulePriority` | plotly_interactive_supply_curve.py:99-120 | a non-key type containing WIND is wind-coloured whatever else it holds, and the storage rule applies only when no earlier rule does |
| `PriceAxis.YLimits` | plotly_supply_curve_dynamic.py:245-251 | a negative minimum gets a margin below it; otherwise the bottom is at least 0.1 and not above a minimum of 0.1 or more; the top lies beyond a nonzero maximum, away from 0, and is 0 for a zero maximum |
| `PriceAxis.PricesWithinLimits` | plotly_supply_curve_dynamic.py:245-251 | every price lies within the limits when the minimum is negative or at least 0.1 and the maximum is not negative |
| `PriceAxis.CandidateTicksIncreasing` | plotly_supply_curve_dynamic.py:264-271 | the tick list before filtering is strictly increasing |
| `PriceAxis.CandidateTicks` | plotly_supply_curve_dynamic.py:264-271 | the fixed positive ticks, preceded by the negative ones exactly when the lowest price is negative |
| `PriceAxis.FilterTicks` | plotly_supply_curve_dynamic.py:274 | the filter keeps exactly the ticks within the limits |
| `PriceAxis.FilterTicksIncreasing` | plotly_supply_curve_dynamic.py:274 | filtering keeps the ticks in increasing order |
| `PriceAxis.YTicks` | plotly_supply_curve_dynamic.py:264-274 | the y-ticks are exactly the candidate ticks within the limits, increasing, and all positive for a non-negative minimum |
| `PriceAxis.NegativeTickNeedsNegativePrice` | plotly_supply_curve_dynamic.py:266-268 | a negative tick appears only when some price is negative |
| `PriceAxis.FormatPriceLabel` | plotly_supply_curve_dynamic.py:281-296 | 0 is "0"; below 500 the integer itself; below 1000 the 500 toward zero; from 1000 on, thousands with a "k" |
| `PriceAxis.IntLabelReadsBack` | plotly_supply_curve_dynamic.py:288 | an integer label reads back as its value |
| `PriceAxis.WholeThousandsReadBack` | plotly_supply_curve_dynamic.py:293-294 | a whole-thousands label reads back as its value |
| `PriceAxis.DecimalThousandsReadBack` | plotly_supply_curve_dynamic.py:295-296 | a label with one decimal of thousands reads back as its value |
| `PriceAxis.ThousandsLabelReadsBack` | plotly_supply_curve_dynamic.py:291-296 | labels of ticks of 1000 or more in magnitude lose nothing |
| `PriceAxis.FormatPriceLabelReadsBack` | plotly_supply_curve_dynamic.py:281-296 | every label reads back as its tick, except that a magnitude in `[500, 1000)` reads back as 500 |
| `PriceAxis.TickRange` | matplotlib_supply_curve.py:165 | `arange(0, stop, 10000)` is the multiples of 10000 below `stop`, and the next one reaches `stop` |
| `PriceAxis.XTicks` | matplotlib_supply_curve.py:164-166 | the last x-tick reaches the largest running total |
| `PriceAxis.PlotlyXTicks` | plotly_supply_curve_dynamic.py:320 | the plotly x-ticks reach only the truncated largest running total |
| `PriceAxis.XTickLabel` | plotly_supply_curve_dynamic.py:321 | a positive tick gets a "k" label, and a tick at or below 0 gets "0" |
| `PriceAxis.XTickLabelReadsBack` | plotly_supply_curve_dynamic.py:321 | every x-tick label reads back as its tick |
| `MatplotlibChart.PlaceBars` | matplotlib_supply_curve.py:129-140 | bar `i` spans exactly the load between the running totals before and after segment `i`; the loop ends with `prev_mw` at the total and one bar per segment |
| `MatplotlibChart.EndIsLargestCumulative` | matplotlib_supply_curve.py:164 | the last running total is the largest, and it is the total MW |
| `MatplotlibChart.PresentTypes` | matplotlib_supply_curve.py:228 | the `notna` test keeps exactly the present types, and keeps them distinct |
| `MatplotlibChart.InsertStrPermutes` | matplotlib_supply_curve.py:227 | insertion adds exactly the inserted string |
| `MatplotlibChart.InsertStrSorted` | matplotlib_supply_curve.py:227 | insertion keeps a strictly sorted list sorted |
| `MatplotlibChart.SortStringsCorrect` | matplotlib_supply_curve.py:227 | `sorted` on distinct strings yields a strictly increasing permutation |
| `MatplotlibChart.Entries` | matplotlib_supply_curve.py:229-230 | one legend handle per name, in order, in the name's colour |
| `MatplotlibChart.LegendNamesCorrect` | matplotlib_supply_curve.py:225-230 | the intended legend has each present type once, in increasing order, and no other |
| `MatplotlibChart.Legend` | matplotlib_supply_curve.py:225-230 | the intended legend: one handle per present type, in sorted order, in that type's colour |
| `MatplotlibChart.LegendAsWritten` | matplotlib_supply_curve.py:225-230 | the legend as written: no legend (the sort raises) when a missing type sits beside another type, otherwise the intended legend |
| `MatplotlibChart.LegendAsWrittenFails` | matplotlib_supply_curve.py:227-228 | the legend code raises exactly when a missing type and a present type are both in the supply |
| `MatplotlibChart.LegendCounterexample` | matplotlib_supply_curve.py:225-230 | a wind segment beside one with an empty type makes the script raise, where the intended legend is the wind entry alone |
| `DynamicChart.DemandFor` | plotly_supply_curve_dynamic.py:145-146 | the demand is `int` of 75% of the capacity: between 0 and the capacity, within 1 MW below 75% |
| `DynamicChart.DrawnBar` | plotly_supply_curve_dynamic.py:161-202 | one drawn rectangle: the row's name and type, its load interval, its display interval, its price, its colour and its legend flag |
| `DynamicChart.TestBar` | plotly_supply_curve_dynamic.py:213-226 | the red placeholder bar from 0 to 1000 MW at $50 named TEST, drawn when no bar was created |
| `DynamicChart.DisplayInterval` | plotly_supply_curve_dynamic.py:166-179 | a bar under 0.1% of the total is widened about its own midpoint to `max(width, 0.01% of total)` and covers its real extent; other bars are drawn as they are |
| `DynamicChart.TypesBeforeStep` | plotly_supply_curve_dynamic.py:182-184 | a bar adds its type to `legend_added`, and the type is new exactly when the bar is its type's first |
| `DynamicChart.DrawnPrefixPlaced` | plotly_supply_curve_dynamic.py:158-205 | every bar drawn so far sits at its segment's place and has its row's colour |
| `DynamicChart.DrawBars` | plotly_supply_curve_dynamic.py:158-226 | one bar per segment, from the running total before it to the one after, shown in the legend exactly at its type's first bar, in its row's colour; a single test bar for an empty supply |
| `DynamicChart.DrawBar` | plotly_supply_curve_dynamic.py:162-205 | one pass of the loop draws segment `k`'s bar and updates `legend_added` by its type |
| `DynamicChart.BarsContiguous` | plotly_supply_curve_dynamic.py:169-171 | the bars start at 0, each starts where the previous one ended, and the last ends at the capacity |
| `DynamicChart.LegendOncePerType` | plotly_supply_curve_dynamic.py:181-184 | no two bars of one type are both in the legend, and each type is in the legend at its first bar |
| `DynamicChart.FirstIndexOfType` | plotly_supply_curve_dynamic.py:182 | every bar has a first bar of its type at or before it |
| `DynamicChart.CreateChart` | plotly_supply_curve_dynamic.py:141-274 | the chart has every bar placed and coloured by its type, the demand at 75% of the capacity, and the price limits and ticks of the price range; an empty supply gives no chart |
| `InteractiveChart.Demand` | plotly_interactive_supply_curve.py:221 | the fixed demand of 80000 MW |
| `InteractiveChart.CentersOf` | plotly_interactive_supply_curve.py:183-188 | the `x` list of a type's group: the centre `prev_mw + width / 2` of each of its segments, in supply order |
| `InteractiveChart.PricesOf` | plotly_interactive_supply_curve.py:189 | the `y` list of a type's group: its segments' prices, in supply order (the raw prices stand for the symlog heights) |
| `InteractiveChart.MwsOf` | plotly_interactive_supply_curve.py:213-214 | the `width` list of a type's trace: its segments' MW, in supply order, as `.loc[type == t, 'mw']` selects them |
| `InteractiveChart.OfTypeLengths` | plotly_interactive_supply_curve.py:188-189 | each type's centres, widths and prices are equally many |
| `InteractiveChart.BarOfTypeSpansItsSegment` | plotly_interactive_supply_curve.py:183-189 | the j-th bar of a type is as wide as one segment of that type, has its price, and spans exactly that segment's load interval |
| `InteractiveChart.WidthOfTypesStep` | plotly_interactive_supply_curve.py:213-214 | a new segment adds its width to its own type's trace and to no other |
| `InteractiveChart.TracesPartitionSupply` | plotly_interactive_supply_curve.py:204-214 | the widths of all traces, one per type, add up to the total MW: every segment is drawn exactly once |
| `InteractiveChart.NewTypeWidth` | plotly_interactive_supply_curve.py:173-181 | a type's first segment is the only width of its new trace |
| `InteractiveChart.NoWidthOfAbsentType` | plotly_interactive_supply_curve.py:213 | a type absent from the supply has no widths |
| `InteractiveChart.OfTypeStep` | plotly_interactive_supply_curve.py:188-189 | a segment extends the centres and prices of its own type only, by its centre `prev_mw + width / 2` and its price |
| `InteractiveChart.UniqueTypesStep` | plotly_interactive_supply_curve.py:173-181 | the dict's keys gain a segment's type, at the end, exactly when the type is new |
| `InteractiveChart.GroupsStep` | plotly_interactive_supply_curve.py:166-189 | after one loop step every group holds its type's bars for one more segment |
| `InteractiveChart.GroupsStepAt` | plotly_interactive_supply_curve.py:173-189 | one loop step, for a single type's group |
| `InteractiveChart.CollectGroups` | plotly_interactive_supply_curve.py:158-199 | the groups are keyed by the distinct types in order of first appearance, each holding its type's bar centres and prices |
| `InteractiveChart.AddBar` | plotly_interactive_supply_curve.py:166-198 | one pass of the layout loop keeps the groups equal to those of the segments seen so far, and `legend_added` equal to their keys |
| `InteractiveChart.LayoutBars` | plotly_interactive_supply_curve.py:158-218 | one trace per distinct type, in order of first appearance, each with its bars, widths and colour and shown in the legend; a missing type makes the width lookup fail |
| `InteractiveChart.BuildTraces` | plotly_interactive_supply_curve.py:204-218 | the trace loop builds each type's trace, and fails exactly when a missing type is among the keys |
| `InteractiveChart.BuildTrace` | plotly_interactive_supply_curve.py:205-218 | a type's trace takes its group's centres and prices, its segments' widths and its colour |
| `InteractiveChart.NoWidthOfAbsentTypeAll` | plotly_interactive_supply_curve.py:173-180 | a type not yet seen has no centres, prices or widths |
| `InteractiveChart.FirstReaching` | plotly_interactive_supply_curve.py:263 | the first running total at or after `i` that reaches the demand, or the last one |
| `InteractiveChart.ClearingIndex` | plotly_interactive_supply_curve.py:261-263 | the clearing segment is the first whose running total reaches the demand, or the last when the capacity falls short; an empty supply has none |
| `InteractiveChart.ClearingPrice` | plotly_interactive_supply_curve.py:261-264 | the clearing price is one of the supply's prices, and exists exactly when the supply is not empty |
| `InteractiveChart.ClearingIndexMonotone` | plotly_interactive_supply_curve.py:263 | more demand never moves the clearing segment earlier |
| `InteractiveChart.ClearingPriceMonotone` | plotly_interactive_supply_curve.py:261-264 | on a merit-ordered supply the clearing price never falls as demand rises |
| `SimplifiedChart.SimplifiedColors` | plotly_supply_curve_simplified.py:52-58 | the `colors` dict of `get_color`, key for key, in insertion order |
| `SimplifiedChart.GetColor` | plotly_supply_curve_simplified.py:51-69 | `get_color`: the exact key's colour, else the first key in dict order contained in the text, else dim grey; the `GetColor` lemmas state it |
| `SimplifiedChart.SimplifiedKeysDistinct` | plotly_supply_curve_simplified.py:52-58 | the colour dict's keys are distinct |
| `SimplifiedChart.ExactColorCorrect` | plotly_supply_curve_simplified.py:61-62 | the exact lookup finds the entry whose key is the text, and nothing when there is none |
| `SimplifiedChart.ExactColor` | plotly_supply_curve_simplified.py:61-62 | the `resource_type in colors` lookup over the dict's entries from a given position |
| `SimplifiedChart.ContainedColor` | plotly_supply_curve_simplified.py:64-67 | the `for key, color in colors.items()` loop: the colour of the first key from a given position that occurs in the text |
| `SimplifiedChart.ContainedColorCorrect` | plotly_supply_curve_simplified.py:65-67 | the loop over the items returns the colour of the first key, in dict order, that occurs in the text, and nothing when none does |
| `SimplifiedChart.FoundColorsInTable` | plotly_supply_curve_simplified.py:61-67 | whatever either search returns is a colour of the dict |
| `SimplifiedChart.GetColorExact` | plotly_supply_curve_simplified.py:60-62 | a type whose upper-cased text is a key gets that key's colour |
| `SimplifiedChart.GetColorContained` | plotly_supply_curve_simplified.py:64-67 | otherwise the first key in dict order that occurs in the text gives the colour |
| `SimplifiedChart.GetColorDefault` | plotly_supply_curve_simplified.py:69 | a text holding no key gets dim grey, and every colour is dim grey or a colour of the dict |
| `SimplifiedChart.GetColorIgnoresCase` | plotly_supply_curve_simplified.py:60 | spellings that upper-case alike get the same colour |
| `SimplifiedChart.GetColorOfMissingType` | plotly_supply_curve_simplified.py:60-69 | a missing type, text "NAN", holds no key and gets dim grey |
| `SimplifiedChart.MinBarWidth` | plotly_supply_curve_simplified.py:76 | `min_bar_width`: 0.05% of the total MW |
| `SimplifiedChart.WeightedSumBounds` | plotly_supply_curve_simplified.py:86 | with prices within bounds, the weighted price sum lies between the bounds times the MW |
| `SimplifiedChart.WeightedMeanBounds` | plotly_supply_curve_simplified.py:93 | a weighted mean of prices within bounds lies within them |
| `SimplifiedChart.WeightedMeanWithinPrices` | plotly_supply_curve_simplified.py:93 | `avg_price` lies between the lowest and the highest price of the merged rows |
| `SimplifiedChart.GroupStep` | plotly_supply_curve_simplified.py:85-87 | a row added to a group adds its MW, its `price * mw` and its type |
| `SimplifiedChart.JoinStep` | plotly_supply_curve_simplified.py:83-87 | a row that joins keeps the open group's totals and start (corrected start; see Findings) |
| `SimplifiedChart.StartStep` | plotly_supply_curve_simplified.py:106-112 | a row that opens a group gives it the row's own totals and a start at the MW before the row (corrected start; see Findings) |
| `SimplifiedChart.CloseStep` | plotly_supply_curve_simplified.py:91-104 | closing the open group emits a bar that fits exactly its rows (corrected start; see Findings) |
| `SimplifiedChart.EmittedAppend` | plotly_supply_curve_simplified.py:97-104 | appending a bar that fits the next rows keeps the emitted bars consecutive |
| `SimplifiedChart.EmittedGroupAt` | plotly_supply_curve_simplified.py:82-127 | each emitted bar covers a non-empty run of rows following the previous bar's, and fits those rows |
| `SimplifiedChart.EmittedWidths` | plotly_supply_curve_simplified.py:82-127 | the emitted widths add up to the MW of the rows emitted so far |
| `SimplifiedChart.GroupPriceWithinRows` | plotly_supply_curve_simplified.py:93 | a bar's price lies between the lowest and the highest price of the rows it merges |
| `SimplifiedChart.BarEnd` | plotly_supply_curve_simplified.py:97-100 | each bar ends where the next begins, and the last ends at the total MW (corrected start; see Findings) |
| `SimplifiedChart.BarsTile` | plotly_supply_curve_simplified.py:107-127 | the bars tile the load axis from 0 to the total MW, with each bar starting at the MW of the rows before it (corrected start; see Findings) |
| `SimplifiedChart.GroupSmallSegmentsWith` | plotly_supply_curve_simplified.py:76-127 | the grouping emits consecutive runs covering every row; a row joins exactly when the group is under `min_bar_width` and its label is not the last; widths add up to the total; each bar has its type's colour (corrected start; see Findings) |
| `SimplifiedChart.Step` | plotly_supply_curve_simplified.py:82-114 | one iteration keeps the loop's state: emitted bars, running total and open group (corrected start; see Findings) |
| `SimplifiedChart.StartGroup` | plotly_supply_curve_simplified.py:106-112 | a restarting row opens a group of itself, starting at the running total (corrected start; see Findings) |
| `SimplifiedChart.CloseIfOpen` | plotly_supply_curve_simplified.py:91-104 | a restart emits the open group unless it is empty |
| `SimplifiedChart.AddRow` | plotly_supply_curve_simplified.py:83-87 | a joining row is added to the open group (corrected start; see Findings) |
| `SimplifiedChart.CloseGroup` | plotly_supply_curve_simplified.py:91-104 | closing emits one bar fitting the open group, typed by one of the group's types: the current row's type when that type is present (not NaN) and in the group, since only it has a non-zero `max` key |
| `SimplifiedChart.Finish` | plotly_supply_curve_simplified.py:116-127 | the final group, if not empty, is emitted, and the widths then add up to the total MW (corrected start; see Findings) |
| `SimplifiedChart.EmitGroup` | plotly_supply_curve_simplified.py:93-104 | a bar takes the group's start, MW and weighted mean price, its main type and that type's colour (corrected start; see Findings) |
| `SimplifiedChart.GroupSmallSegments` | plotly_supply_curve_simplified.py:72-127 | the grouping with each bar coloured by `get_color` (corrected start; see Findings) |
| `SimplifiedChart.DrawGroupedBars` | plotly_supply_curve_simplified.py:130-148 | one trace per bar, centred on it, as wide and as high as it, shown in the legend exactly when no earlier bar has its type (corrected start; see Findings) |
| `SimplifiedChart.ReplayStarts` | plotly_supply_curve_simplified.py:80-114 | the loop's start bookkeeping as written: a joining row resets a zero `start_mw` to `cumulative`, and a restart emits the open group's start and opens the next at `cumulative + current_group['mw']` |
| `SimplifiedChart.StartsAsWritten` | plotly_supply_curve_simplified.py:80-127 | the bar starts as written: the replayed starts, plus the last group's start when it is not empty |
| `SimplifiedChart.StartsAsWrittenShifted` | plotly_supply_curve_simplified.py:107-112 | on two 10 MW rows the second bar starts at 20 MW as written, where the grouping puts it at 10 MW |
| `SimplifiedChart.StartsAsWrittenFirstGroup` | plotly_supply_curve_simplified.py:88-89 | a first group of two rows starts at its second row's offset as written, not at 0 |
| `SimplifiedChart.DemandLine` | plotly_supply_curve_simplified.py:154 | the demand line lies between 0 and the total MW |

## Left out

- Reading the CSV, `ast.literal_eval`, figures, styling, titles, hover texts, `print`, `argparse`, saving files and showing windows are not modelled. A curve cell that fails to parse is the input `Unparsable`. A cell whose text parses to something other than a list of numeric lists (a number, a string, a point that is not a list) is not modelled.
- The `interval_start` column is carried by the scripts but never used, so `Segment` has no field for it.
- The date and hour filter of the dynamic script does nothing in the source, so it is not modelled.
- The interactive script's symlog transform, its fixed raw tick list and that list's filtering in symlog space (lines 125-139 and 244-258) are floating-point logarithms. They are not modelled.
- Strings.Upper: upper-cases ASCII letters only. Python's `str.upper` also maps other letters.
- Floating-point rounding is not modelled. MW and prices are exact reals, and `np.arange` is taken to produce exact multiples of 10000.
- PriceAxis.FormatPriceLabel: is defined only for the integer ticks the scripts pass it: magnitudes below 1000 and multiples of 100. The one-decimal branch below 1 and labels of other fractional values are not modelled.
- MeritOrder.MeritSortCorrect: states a sorted permutation. It does not state that segments with equal price and equal MW keep their original order, which pandas' multi-column sort does. Such segments differ at most in name, type and status.
- An empty supply arises when some rows yield segments but none is available with a positive width; `MeritOrder.LoadAndProcess` fails instead when no row yields a segment at all. The empty supply is modelled where the source handles it: no clearing price and no dynamic chart. The NaN arithmetic that an empty supply causes elsewhere is not modelled.
- SimplifiedChart.CloseGroup: when the current row's type is NaN or not in the group, every `max` key at lines 94-95 is 0 (a NaN equals nothing), and `max` returns the first of the set in iteration order; `list(set)[0]` for the last group at line 118 does the same. The model promises only that the bar takes one of the group's types, because set iteration order is not modelled.
- SimplifiedChart.GroupSmallSegmentsWith: takes the colour function as a parameter. `SimplifiedChart.GroupSmallSegments` instantiates it with `get_color`.
- A missing type is one value, `None`. Every NaN is treated as the same dictionary key and set member. The interactive width lookup's failure on NaN is modelled through this.
- The simplified script's `end` field (lines 100 and 122) is never read when drawing, so it is not modelled. As written at line 100 it overshoots by the group's width, like the start at line 110.
- The dynamic script's `get_color_for_resource_type` is modelled by `ResourceColours.ColorForResource`. Its table and rules are the same, and `resource_type or ''` changes no cell value, since a NaN is truthy.
- `test_plotly_chart.py` only runs the interactive chart and is not part of this model.

## Findings

| source | as written | input that shows it | evidently intended | confidence | as-written member | corrected member |
|---|---|---|---|---|---|---|
| matplotlib_supply_curve.py:227-228 | `sorted(unique_resources)` runs before the `pd.notna` test, and Python cannot order a NaN against a string, so the legend code raises | one WIND segment and one segment with an empty type cell | drop the missing types, then sort the rest | high, not executed | `MatplotlibChart.LegendCounterexample` | `MatplotlibChart.LegendNamesCorrect` |
| plotly_supply_curve_simplified.py:110 | a new group starts at `cumulative + current_group['mw']`, but `cumulative` already counts the closed group's rows, so every later bar is shifted right by the previous group's width | two 10 MW rows at $1 and $2: the second bar is drawn from 20 MW, where the supply ends | start the new group at `cumulative`, the MW before its first row | high, not executed | `SimplifiedChart.StartsAsWrittenShifted` | `SimplifiedChart.BarsTile` |
| plotly_supply_curve_simplified.py:88-89 | while `start_mw` is still 0, a joining row resets it to `cumulative`, so a first group of several rows starts at its second row's offset | rows of 0.01, 0.01 and 100 MW: bars written at 0.01 and 0.04 MW, while their rows begin at 0 and 0.02 MW | a group's start is fixed by its first row | high, not executed | `SimplifiedChart.StartsAsWrittenFirstGroup` | `SimplifiedChart.BarsTile` |
