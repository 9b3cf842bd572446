# d3-stacked-bar: the stacking pipeline and the hover highlighting

A Dafny model of the chart logic of `AppComponent` in `src/app/app.component.ts`. The
component draws a stacked bar chart and a legend from flat `{category, subcategory, value}`
records. Once the DOM and d3 drawing calls are set aside, two parts remain, and both are
modelled here.

1. A data pipeline:
   - `subgroups`: the distinct subcategories in first-seen order.
   - `groupedData`: the records collected per category by a `reduce` that `push`es onto its accumulator.
   - The d3 stack with its find-or-0 value accessor.
   - `maxDataValue`: the largest category total.
   - The ordinal colour scale over `COLOR_PALETTE`.
   - The linear y scale that turns stacked points into rectangle heights.
2. A hover state machine. `chartMouseOver` dims every series group and lights up the
   hovered one. It also greys the legend items of the hovered subcategory. `chartMouseOut`
   resets the opacities and the legend backgrounds. Series and legend items are joined on a
   key: the subcategory with its white space removed (`trim().replace(/\s/g, "")`).

Modules, one file each:

- `CategoryIndex` (`category_index.dfy`): the `Record` datatype, `Dedup` (a JavaScript `Set` spread back into an array) and `Subgroups`.
- `Grouping` (`grouping.dfy`): the `reduce`/`push` as a method with a loop over a `map`, specified by `RecordsIn`, and the rows of the stack.
- `Stacking` (`stacking.dfy`):
  - `Lookup`: the value accessor.
  - `StackFrom`/`Stack`: d3's default order and offset, written out. Each series starts where the previous one ended.
  - The closed form of the stack through `SumLookups`.
  - Conservation, and `MaxTotal`.
- `Scales` (`scales.dfy`): `ColorOf`, the ordinal scale over the palette, and `YScale`, the linear scale over `real`.
- `Keys` (`keys.dfy`): ECMAScript white space, `Trim`, `StripWhitespace`, `Normalize`, and the hovered-key fallback `HoveredKey`.
- `Highlight` (`highlight.dfy`):
  - `ChartHighlight`, a class with one opacity per series group and one background per legend item, both kept in arrays.
  - `MouseOver` and `MouseOut` are loops over those arrays. They are proved against the view functions `AfterOver` and `AfterOut`.
  - The lemmas about sequences of events are stated over those view functions.

## Model

| member | source | states |
|---|---|---|
| CategoryIndex.Dedup | src/app/app.component.ts:58 | the result has no duplicates, contains exactly the elements of the input, and is no longer than it |
| CategoryIndex.DedupOfDistinct | src/app/app.component.ts:106-108 | a domain without repeats is kept as it is when the ordinal scale deduplicates it |
| CategoryIndex.DedupFirstSeenOrder | src/app/app.component.ts:58 | two deduplicated elements are ordered as their first occurrences in the input |
| CategoryIndex.DedupIsFirstSeenOrder | src/app/app.component.ts:58 | `Dedup` lists every element once in first-seen order, and every other sequence with that property equals it |
| CategoryIndex.SubgroupsSpec | src/app/app.component.ts:58 | `subgroups` is duplicate-free, holds exactly the subcategories that occur in the records, and orders them by first occurrence |
| CategoryIndex.Subgroups | src/app/app.component.ts:58 | `subgroups` is the deduplicated subcategory column; its properties are those of `SubgroupsSpec` |
| CategoryIndex.IndexOf | src/app/app.component.ts:106-108 | the position of the first occurrence of a key, or the length of the domain when the key is absent |
| Grouping.RecordsIn | src/app/app.component.ts:78-82 | a category's list holds only records of the input, all of that category |
| Grouping.CategorySet | src/app/app.component.ts:78-82 | every record's category is a key of the accumulator |
| Grouping.AccumulatePush | src/app/app.component.ts:79-80 | one callback (`acc[c] = acc[c] \|\| []`, then `push`) keeps the accumulator equal to the grouping of the records seen so far |
| Grouping.GroupByCategory | src/app/app.component.ts:78-82 | the keys are exactly the categories of the records, and each list is that category's records in input order |
| Grouping.RecordInOwnGroup | src/app/app.component.ts:78-82 | a record is in the list of category `c` if and only if its category is `c` |
| Grouping.GroupingPreservesRecords | src/app/app.component.ts:78-82 | listing the groups of any duplicate-free enumeration of the categories gives back the input records as a multiset, so the record count is kept |
| Grouping.CategorySetIsCategories | src/app/app.component.ts:78-82 | the accumulator's keys are exactly the categories that occur in the records |
| Grouping.ChartOrder | src/app/app.component.ts:90 | the model's row order: the categories in first-seen order, each once (`DedupIsFirstSeenOrder`) |
| Grouping.Rows | src/app/app.component.ts:90 | `Object.values(groupedData)` as one `RecordsIn` list per category of the order; `ChartRows` and `GroupingPreservesRecords` state that it keeps every record exactly once, each in its own category's non-empty row |
| Grouping.ChartRows | src/app/app.component.ts:90-91 | the rows handed to the stack keep every record exactly once; each row is non-empty and holds only its category's records, so `d.data[0].category` (line 127) is that row's own category |
| Stacking.Lookup | src/app/app.component.ts:87 | the value accessor `d.find(v => v.subcategory === key)?.value \|\| 0`; `LookupFindsFirst` pins it to the first matching record, `LookupNonNegative` bounds it |
| Stacking.LookupFindsFirst | src/app/app.component.ts:87 | the accessor yields the value of the first record with the key's subcategory, or 0 when there is none |
| Stacking.StackFrom | src/app/app.component.ts:84-91 | the series from key `j` on: one per remaining key, carrying that key, with one point per row |
| Stacking.Stack | src/app/app.component.ts:84-91 | one series per key, in key order, with one point per row |
| Stacking.StackFromClosedForm | src/app/app.component.ts:84-91 | when the incoming base is the sum of the earlier keys' values, every later point spans from the sum before its key to the sum including it |
| Stacking.StackClosedForm | src/app/app.component.ts:84-91 | the point of key `j` in row `i` spans from the sum of the looked-up values of the keys before `j` to the sum including `j` |
| Stacking.StackPoint | src/app/app.component.ts:84-91 | that closed form for one point, with the row as the point's `data` |
| Stacking.StackStartsAtZero | src/app/app.component.ts:84-91 | the first key's segment starts at 0 |
| Stacking.StackIsContiguous | src/app/app.component.ts:84-91 | each segment starts where the previous key's segment ends |
| Stacking.StackSegmentHeight | src/app/app.component.ts:84-91 | upper minus lower is the looked-up value of the segment's key |
| Stacking.StackTop | src/app/app.component.ts:84-91 | the last key's segment ends at the sum of all looked-up values |
| Stacking.StackSegmentsNonNegative | src/app/app.component.ts:84-91 | with non-negative values no segment has its lower end above its upper end |
| Stacking.LookupNonNegative | src/app/app.component.ts:87 | the accessor never yields a negative value when no record has one |
| Stacking.SumLookupsIsTotal | src/app/app.component.ts:84-97 | when a row has at most one record per subcategory and all of them are keys, the stacked height equals the row total that `maxDataValue` sums |
| Stacking.ChartStackConservation | src/app/app.component.ts:78-97 | with one record per (category, subcategory) pair, the top of every category's stack over `subgroups` equals that category's total |
| Stacking.GroupHasUniqueSubcategories | src/app/app.component.ts:78-82 | with one record per (category, subcategory) pair, no group repeats a subcategory |
| Stacking.RowTotal | src/app/app.component.ts:95 | the `reduce` sum of a row's values; `TotalSplits` and `SumLookupsIsTotal` relate it to the stack |
| Stacking.TotalSplits | src/app/app.component.ts:93-97 | a row's total is the value of its record for a key plus the total of the rest |
| Stacking.MaxTotal | src/app/app.component.ts:93-97 | undefined exactly when there are no rows; otherwise at least every row's total and equal to one of them |
| Stacking.StackExample | src/app/app.component.ts:78-97 | for records (2020,A,10), (2020,B,20), (2021,A,5), (2021,B,5): subgroups [A,B]; grouped into the rows 2020 and 2021 and stacked over the subgroups, A:[0,10], B:[10,30] and A:[0,5], B:[5,10]; maximum 30 |
| Scales.ColorOf | src/app/app.component.ts:106-108 | every colour handed out is one of the palette's |
| Scales.ColorOfSubgroup | src/app/app.component.ts:106-108 | `subgroups[i]` gets `COLOR_PALETTE[i % 5]` |
| Scales.ColorOfUnknown | src/app/app.component.ts:106-108 | a key outside the domain gets the palette entry at the number of distinct domain values |
| Scales.ColorOfRepeatedDomain | src/app/app.component.ts:106-108 | with the domain `["A", "A"]` the unknown key `B` gets the second colour, since the repeat takes no position |
| Scales.ColorsCycle | src/app/app.component.ts:23-29 | subgroups five apart share a colour, so more than five subgroups cycle the palette and never run out |
| Scales.YScale | src/app/app.component.ts:104 | `scaleLinear().domain([0, maxDataValue]).range([height, 0])` for a positive maximum; `YScaleEnds` and `RectHeight` state its ends, monotonicity and the rectangle heights |
| Scales.YScaleEnds | src/app/app.component.ts:104 | 0 maps to the bottom of the drawing area, the maximum to its top, and a larger value never maps lower |
| Scales.RectHeight | src/app/app.component.ts:128-129 | a rectangle's height is its extent times the drawing height over the maximum, so it is never negative when lower does not exceed upper |
| Keys.Trim | src/app/app.component.ts:123 | `trim()`: both ends cut by `TrimStart` and `TrimEnd`, whose specs are `TrimStartSpec` and `TrimEndSpec` |
| Keys.StripWhitespace | src/app/app.component.ts:123 | `replace(/\s/g, "")`, specified by `StripSpec`, `StripConcat`, `StripKeepsClean` and `StripAllWhitespace` |
| Keys.Normalize | src/app/app.component.ts:123 | the key `trim().replace(/\s/g, "")` used for series classes, the hovered key and the legend filter; `NormalizeIsStrip`, `NormalizeSpec` and `NormalizeIdempotent` state what it is |
| Keys.TrimStartSpec | src/app/app.component.ts:123 | the left trim removes a prefix made only of white space and stops at the first other character |
| Keys.TrimEndSpec | src/app/app.component.ts:123 | the right trim removes a suffix made only of white space and stops at the last other character |
| Keys.StripSpec | src/app/app.component.ts:123 | `replace(/\s/g, "")` leaves no white space and never lengthens the string |
| Keys.StripConcat | src/app/app.component.ts:123 | stripping white space distributes over concatenation |
| Keys.StripKeepsClean | src/app/app.component.ts:123 | a string without white space is left unchanged |
| Keys.StripAllWhitespace | src/app/app.component.ts:123 | a string of white space only becomes empty |
| Keys.TrimStartKeepsStrip | src/app/app.component.ts:123 | stripping after the left trim gives the same key as stripping alone |
| Keys.TrimEndKeepsStrip | src/app/app.component.ts:123 | stripping after the right trim gives the same key as stripping alone |
| Keys.NormalizeIsStrip | src/app/app.component.ts:179 | the `trim()` is redundant: the key is the string with all white space removed |
| Keys.NormalizeSpec | src/app/app.component.ts:188 | the key has no white space, the key of a concatenation is the concatenation of the keys, and a single character is kept exactly when it is not white space |
| Keys.NormalizeIdempotent | src/app/app.component.ts:123 | normalising twice equals normalising once |
| Keys.HoveredKey | src/app/app.component.ts:178-179 | the `\|\|` fallback from the series key to the legend datum; `HoveredKeySpec` states its result |
| Keys.HoveredKeySpec | src/app/app.component.ts:178-179 | the hovered key has no white space; it is the stripped series key unless that is empty, and the stripped legend datum otherwise |
| Highlight.SelectedAsWritten | src/app/app.component.ts:182 | the selector `"." + key` as written: a group is picked when the key is its normalised key or its `myRect` class; `SeriesClassSelectsAll` exhibits the difference from exact matching |
| Highlight.LegendMatches | src/app/app.component.ts:186-189 | the legend filter: an item matches when its normalised datum equals the hovered key, used by `AfterOver` and `HoverHighlightsOneSubgroup` |
| Highlight.SeriesClassSelectsAll | src/app/app.component.ts:182 | as written, hovering a subcategory named `myRect` also selects series `B` although its key differs |
| Highlight.AfterOver | src/app/app.component.ts:181-190 | after a hover there is one opacity per series group and one background per legend item |
| Highlight.AfterOut | src/app/app.component.ts:193-198 | a reset keeps the number of series groups and of legend items |
| Highlight.OverIdempotent | src/app/app.component.ts:181-190 | hovering the same key twice shows the same as hovering it once |
| Highlight.OverWithoutOut | src/app/app.component.ts:184-190 | after a second hover without a leave, the opacities depend only on the second key, and the legend items of both keys are grey |
| Highlight.Apply | src/app/app.component.ts:173-199 | one event: a hover applies `AfterOver` with `HoveredKey`, a leave applies `AfterOut`; `Replay`, `ReplayKeepsSeriesCount` and `OutResets` state what sequences of them do |
| Highlight.Replay | src/app/app.component.ts:173-199 | replaying events keeps one background per legend item |
| Highlight.ReplayKeepsSeriesCount | src/app/app.component.ts:173-199 | replaying events keeps one opacity per series group |
| Highlight.OutResets | src/app/app.component.ts:193-199 | after any sequence of events that ends with a leave, every series is fully opaque and every legend item white |
| Highlight.HoverHighlightsOneSubgroup | src/app/app.component.ts:173-191 | when no two subgroups normalise alike, hovering the series or the legend item of subgroup `j` leaves exactly series `j` opaque and dims the rest; it greys legend item `j` and leaves the other legend items as they were |
| Highlight.HighlightByKey | src/app/app.component.ts:181-190 | the same, for the hovered key equal to subgroup `j`'s key |
| Highlight.ChartHighlight.constructor | src/app/app.component.ts:117-149 | after rendering, every series group is opaque and no legend background is set |
| Highlight.ChartHighlight.MouseOver | src/app/app.component.ts:173-191 | the arrays afterwards hold `AfterOver` of their old contents for the hovered key: matching series at opacity 1, the others at 0.25, matching legend items grey, the other legend items unchanged |
| Highlight.ChartHighlight.MouseOut | src/app/app.component.ts:193-199 | every opacity is 1 and every legend background white afterwards |

## Left out

- The Angular and DOM plumbing is not modelled: `@Component`, `select`/`append`/`attr`/`join`, the axes and the legend swatch sizes. These are calls into browser and d3 code that is not part of this model.
- The band scale (`scaleBand`, the x position and bar width) is not modelled. It is floating-point layout inside d3.
- Scales.YScaleEnds: the linear y scale is modelled over `real` only for a positive maximum. The code does not handle an empty record set or a zero maximum specially, and no behaviour is claimed there.
- How the hovered key is found in the DOM (`event.target.parentNode`, `datum()`) is not modelled. `MouseOver` takes the series key and the legend datum as inputs, with the empty string for an element that has no series key. JavaScript's `||` treats that the same as `undefined`.
- A series whose key normalises to the empty string is not modelled. In that case the source falls back to the rectangle's datum, which is an array and not a string, so the call to `trim` fails.
- Hovered keys that are not valid CSS class names (a leading digit, punctuation) are not modelled. The source builds the selector `"." + key`, which then becomes invalid or compound. The model treats every key as a plain class name.
- `chartClick` is not modelled. It only writes to the console.
- The difference between `mouseleave` and `mouseout` is not modelled. It is browser event dispatch. Both call `chartMouseOut`, which is modelled once as `MouseOut`.
- Grouping.ChartOrder: the row order of `Object.values(groupedData)` is not modelled. JavaScript lists integer-like keys such as "2020" in ascending order and the other keys in insertion order. The model lists rows in first-seen category order. The order does not change placement, because each bar is drawn at its first record's category (`Grouping.ChartRows`).
- Category names that are properties of `Object.prototype` (`toString`, `__proto__`, ...) are not modelled. For these, `acc[c] || []` finds the inherited property and `push` then fails. The model treats every category as an ordinary key.
- Record values are integers. JavaScript numbers (fractions, `NaN`, and `|| 0` turning `NaN` into 0) are not modelled, nor is d3's `max` skipping `null` and `NaN`.
- Scales.ColorOf: a key outside the domain gets the colour at the position just past the last distinct domain value, as d3's implicit ordinal domain gives it on that call. The domain's growth that later calls would see is not kept, because the component only ever passes subgroups, whose domain is distinct.
- Highlight.ChartHighlight.constructor: the opacity style is unset after rendering. It is modelled as 1, the value CSS uses when the style is absent. Legend backgrounds start `Unset`.
- Highlight.ChartHighlight.MouseOver: series are matched by exact equality of keys, not by the CSS class selector the code uses (see Findings).
- A second hover without a leave is not an implicit leave. `chartMouseOver` never clears a legend background, so the earlier key's legend items stay grey until the next leave (`Highlight.OverWithoutOut`).
- Keys that normalise alike are not reported as an error. The code merges them silently; `Highlight.HoverHighlightsOneSubgroup` assumes that no two subgroups collide.

## Findings

| source | as written | input that shows it | evidently intended | confidence | as-written member | corrected member |
|---|---|---|---|---|---|---|
| src/app/app.component.ts:182 | Series are picked with `selectAll("." + subCategory)`. Every series group also carries the class `myRect` (line 123), so the hovered key `myRect` matches all of them | subgroups `myRect` and `B`: hovering `myRect` keeps series `B` at opacity 1 | only the series whose key equals the hovered key stay at full opacity | medium, not executed | Highlight.SeriesClassSelectsAll | Highlight.HighlightByKey |
