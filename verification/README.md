# Provider analytics dashboard: ingestion, week order, filters and hooks

This project models, in Dafny, the data core of a dashboard that reads weekly
provider-performance spreadsheets. It covers the following parts.

- `parseProviderData` turns a spreadsheet grid into per-provider, per-week
  records. It finds the header row, then finds the week dates in the header
  and in the row above it. Three strategies then assign column roles: total,
  over 20 minutes, percent and hours. Finally one record is emitted per data
  row and week that has visits.
- `normalizeWeekLabel` rewrites any label holding an `M/D` token to
  `Week of M/D`.
- `sortWeeks` orders week labels across a new year, in both of its versions:
  the one in `dataTransformer.ts` and the one in `calculations.ts`.
- `getUniqueProviders` and `getUniqueWeeks` list the distinct providers and
  the distinct normalised weeks.
- `filterData` selects records by provider, by week range and by a
  percentage threshold.
- `calculateSummaryStats` computes the figures on the summary cards.
- `validateData` produces the data-quality warnings, ordered by severity.
- `useFilterHistory` is an undo/redo list of at most 50 filter settings.
- `useFilterPresets` is the list of saved filter presets.

Most operations have two layers:

- a specification function, written as a left fold over the input in the
  order the source's loops run;
- the operation itself, written as the source writes it. Loops that push to
  an array or `set` into a `Map` are methods with loop invariants, proved
  equal to the specification function.

The properties the source promises are proved as lemmas about the
specification functions. The two React hooks are classes whose fields are
the hook state; each callback is a method that updates the fields in place.

The value model follows JavaScript:

- A number is a `real`, so arithmetic is exact.
- A cell is blank, a string, a number or a boolean. `null` and `undefined`
  are both blank.
- A JavaScript `Map` is a sequence of key/value entries in insertion order.
  A `set` on a key already present replaces its value and keeps its
  position.
- `Array.prototype.sort` is a stable insertion sort by a sort key per label.
- The regular expression `/(\d{1,2})\/(\d{1,2})/` is modelled exactly. The
  match is the leftmost one. The month group takes two digits only when a
  `/` follows them. The day group is greedy.
- The clock's year (`new Date().getFullYear()`) is a parameter of the
  date-extraction functions.
- `Date.now()` and the ISO creation time are parameters of `SavePreset`.

Four behaviours of the code worth stating:

- **Week dates from the row above the header.** The code looks at the row
  above for every column that has no date in the header row, not only for
  columns whose header cell is blank. It adds those dates after all the
  header dates, not in column order.
- **Two week columns with the same date.** When both produce a keyword
  mapping, the later column's whole role set replaces the earlier one
  (`Map.set`). The map keeps the position of the first occurrence.
- **A week range across October and November.** Because November and
  December are put in the year before the clock's, a range from an October
  week to a November week has its end sorting before its start and lets
  no record through: "Week of 10/1" to "Week of 11/30" keeps nothing
  (`Calculations.OctoberToNovemberEmpty`).
- **Hours.** A record carries hours only when an hours column is mapped and
  its value is positive. A zero becomes absent.

## Model

| member | source | states |
|---|---|---|
| DataParser.ParseProviderData | src/utils/dataParser.ts:31-302 | The records returned are `ParserSpec.ProviderData` of the grid; an empty grid gives no records |
| DataParser.LocateHeader | src/utils/dataParser.ts:37-49 | The header row found by the loop over the first five rows is `HeaderRowIndex`, a row of the grid when the grid is non-empty |
| DataParser.FindIndex | src/utils/dataParser.ts:89 | `weekDates.find(w => w.index === idx)` succeeds exactly when some collected date is at column `idx` |
| DataParser.CollectWeekDates | src/utils/dataParser.ts:70-94 | The week dates collected from the header row and then the row above are `WeekDates` of the grid |
| DataParser.ScanColumn | src/utils/dataParser.ts:111-183 | One column of the role scan assigns the first untaken role whose test its label passes, the label coming from the row above when the header cell is blank |
| DataParser.PrevRowRole | src/utils/dataParser.ts:115-148 | The role tests on a label taken from the row above assign the role `Assign` gives |
| DataParser.HeaderRole | src/utils/dataParser.ts:149-182 | The role tests on a header label assign the role `Assign` gives |
| DataParser.ScanRange | src/utils/dataParser.ts:106-183 | The column loop of one week computes `ScanColumns` over the range |
| DataParser.ScanWeek | src/utils/dataParser.ts:98-183 | The roles of one week are those of the columns from its date up to the next date or the header's end |
| DataParser.KeywordStrategy | src/utils/dataParser.ts:97-192 | Strategy 1 builds the map of `set` calls made for weeks with at least one role |
| DataParser.PositionalStrategy | src/utils/dataParser.ts:195-213 | Strategy 2 builds the map of `set` calls made for dates with a gap of at least two columns |
| DataParser.FixedStrategy | src/utils/dataParser.ts:216-231 | Strategy 3 builds the map of `Week 1` … `Week n`, n = min(floor((width-1)/3), 52) |
| DataParser.FixedBuildStep | src/utils/dataParser.ts:221-230 | Iteration k of the fixed loop sets `Week k+1` to columns 1+3k, 2+3k and 3+3k |
| DataParser.DataRowsOf | src/utils/dataParser.ts:51 | The data rows are the non-empty rows below the header, in order |
| DataParser.RowRecordsOf | src/utils/dataParser.ts:243-288 | The records of one row are, in map order, the record of each map entry that has visits |
| DataParser.WeekRecord | src/utils/dataParser.ts:245-287 | The body of the week loop yields `RecordOf(row)` of the entry |
| DataParser.WeekMapOf | src/utils/dataParser.ts:97-231 | The map after the three strategies is `ResolveWeekMap` |
| DataParser.EmitRecords | src/utils/dataParser.ts:236-289 | The row loop skips rows with a reserved provider and concatenates the records of the others |
| DataParser.RecordsBelow | src/utils/dataParser.ts:51-289 | The records of the rows below the header are `RecordsUnder` |
| ParserSpec.CandidateFlags | src/utils/dataParser.ts:41 | One header-candidate flag per searched row, min(5, rows) of them |
| ParserSpec.FirstTrue | src/utils/dataParser.ts:41-49 | The first flag found is 0 or a position within the flags |
| ParserSpec.FirstTrueSpec | src/utils/dataParser.ts:41-49 | The position found is the first true flag, or 0 when no flag is true |
| ParserSpec.HeaderRowIndex | src/utils/dataParser.ts:37-49 | The header index of a non-empty grid lies among the rows searched |
| ParserSpec.HeaderRowIndexSpec | src/utils/dataParser.ts:41-49 | The header is the first candidate among rows 0–4, and no earlier searched row is a candidate, or it is row 0 when no row is a candidate |
| ParserSpec.CollectDatesAdded | src/utils/dataParser.ts:71-93 | Collecting only appends; each appended date is the one read in its column, a column from 1 on, in increasing column order |
| ParserSpec.CollectDatesCovers | src/utils/dataParser.ts:71-93 | Every column from 1 whose cell holds a date ends up collected |
| ParserSpec.CollectDatesDistinct | src/utils/dataParser.ts:89 | With the `find` check no column is collected twice |
| ParserSpec.HeaderDatesSpec | src/utils/dataParser.ts:71-78 | Each header date is the `M/D` text the pattern finds in its column's cell, columns from 1 on in increasing order; every dated header column is collected |
| ParserSpec.PrevRowDatesSpec | src/utils/dataParser.ts:83-94 | The row above only appends, each new date being the `M/D` text of its column's cell; column indices stay distinct; every dated column of that row ends up collected |
| ParserSpec.AssignKeeps | src/utils/dataParser.ts:118-180 | A role once assigned keeps its column for the rest of the scan |
| ParserSpec.ScanColumnsRole | src/utils/dataParser.ts:111-183 | Each assigned role's column is in the week's range, passes that role's test and took no earlier role; every column before it that passed the test had already taken an earlier role |
| ParserSpec.TotalIsFirst | src/utils/dataParser.ts:111-183 | The total column is the first column of the range whose label passes the total test, and none when no column does |
| ParserSpec.TotalFirst | src/utils/dataParser.ts:111-183 | The same statement for any column tests |
| ParserSpec.ScanColumnsDistinct | src/utils/dataParser.ts:111-183 | No column takes two roles of the same week |
| ParserSpec.KeywordMapSpec | src/utils/dataParser.ts:97-192 | The keyword map holds only weeks with a role, each entry being the date's key and that week's roles; every such week's key is present; the map is empty exactly when no week found a role |
| ParserSpec.StepKeysPresent | src/utils/dataParser.ts:186-187 | Every key some `set` call used is a key of the map |
| ParserSpec.StepKeyIn | src/utils/dataParser.ts:186-187 | A key used by a step is among the step keys |
| ParserSpec.PositionalMapSpec | src/utils/dataParser.ts:195-213 | The positional map holds, for each date with a gap of at least two, total, over 20 and percent in the next three columns and hours in the fourth when the gap is at least four; nothing else; empty exactly when no gap reaches two |
| ParserSpec.PositionalEntries | src/utils/dataParser.ts:197-211 | Every positional entry comes from a date with a gap of at least two and has the positional columns |
| ParserSpec.PositionalKeys | src/utils/dataParser.ts:197-211 | Every date with a gap of at least two has its key in the map |
| ParserSpec.FixedMapSpec | src/utils/dataParser.ts:216-231 | The fixed map is exactly `Week 1` … `Week n` in order, week k at columns 3k-2, 3k-1 and 3k, with n at most 52 |
| ParserSpec.FixedBuild | src/utils/dataParser.ts:221-230 | After n iterations the map has n entries, entry k being `Week k+1` and its three columns |
| ParserSpec.FixedBuildLast | src/utils/dataParser.ts:223-229 | Each fixed week's label is new, so `set` appends it |
| ParserSpec.FixedLabelInjective | src/utils/dataParser.ts:223 | Distinct week numbers give distinct labels |
| ParserSpec.AppendNewKey | src/utils/dataParser.ts:225 | `set` of a key not yet present appends the entry |
| ParserSpec.ResolveWeekMapSpec | src/utils/dataParser.ts:186-231 | The cascade: the keyword map when some week found a role, else the positional map when some gap reaches two, else the fixed map |
| ParserSpec.MakeRecordSpec | src/utils/dataParser.ts:254-286 | A record's provider, week and counts are the row's; its percent is the sheet's, or over 20 / total × 100 when the sheet gives 0 and the total is positive; hours are present exactly when mapped and positive |
| ParserSpec.DerivedPercentBounds | src/utils/dataParser.ts:260-262 | A derived percent lies in [0, 100] when the over-20 count lies between 0 and the total |
| ParserSpec.RecordFacts | src/utils/dataParser.ts:236-289 | Every record emitted from a map has visits, a provider that is not reserved, positive hours when present, and a week of the map |
| ParserSpec.RecordFact | src/utils/dataParser.ts:278-286 | The same facts for one emitted record |
| ParserSpec.ProviderDataSpec | src/utils/dataParser.ts:51-289 | The records are exactly, for each non-empty data row with a provider that is not reserved and each entry of the resolved map, the record of that row and entry when it has visits |
| ParserSpec.RecordsUnderMembers | src/utils/dataParser.ts:236-289 | The same statement for any header row |
| ParserSpec.ProviderDataRecords | src/utils/dataParser.ts:31-302 | An empty grid gives no records; every record has visits, a provider that is not reserved, positive hours when present, and a week of the resolved map |
| ParserSpec.RecordsUnderFacts | src/utils/dataParser.ts:236-289 | The same facts for any header row |
| ParserSpec.ReservedRowsSkipped | src/utils/dataParser.ts:237-240 | A blank, `Provider` or `total` provider never appears in the records |
| Cells.GetValueCases | src/utils/dataParser.ts:245-252 | `getValue` gives 0 for an absent or out-of-range column, a blank, an empty string or a boolean, and returns a number cell unchanged |
| Cells.GetValueOfLabelledInt | src/utils/dataParser.ts:250-251 | A text cell holding an integer between non-numeric words reads as that integer |
| Cells.KeepNumericAppend | src/utils/dataParser.ts:250 | Stripping non-numeric characters works piece by piece |
| Cells.KeepNumericNone | src/utils/dataParser.ts:250 | A text without digits, points or minus signs is stripped to nothing |
| Strings.ParseFloatOfIntText | src/utils/dataParser.ts:250 | `parseFloat` of a stripped integer text gives that integer |
| Strings.ParseFloatOfNatText | src/utils/dataParser.ts:250 | The same for a non-negative integer |
| Strings.ParseFloatOfNegIntText | src/utils/dataParser.ts:250 | The same for a negative integer |
| Strings.ParseFloatOfDigits | src/utils/dataParser.ts:250 | `parseFloat` of a digit string gives its decimal value |
| Strings.ParseFloatOfNegated | src/utils/dataParser.ts:250 | `parseFloat` of a minus sign and digits gives the negated value |
| Strings.DigitsValueOfNatText | src/utils/dataTransformer.ts:7-9 | `parseInt(String(n))` is n |
| Strings.NatTextInjective | src/utils/dataTransformer.ts:9 | Distinct numbers have distinct decimal texts |
| Strings.Lower | src/utils/dataParser.ts:43 | `toLowerCase` keeps the length and lowers each character |
| Strings.KeepNumeric | src/utils/dataParser.ts:250 | The stripped text holds only digits, points and minus signs |
| Strings.DigitPrefix | src/utils/dataParser.ts:250 | The digit prefix `parseFloat` reads is the longest prefix made of digits |
| DateTokens.FirstTokenFrom | src/utils/dataTransformer.ts:5 | A match found is a valid `M/D` token (one or two digits each) that the text contains |
| DateTokens.TokenAtFound | src/utils/dataTransformer.ts:5 | A match at a position is a valid token contained in the text |
| DateTokens.NoSlashNoToken | src/utils/dataTransformer.ts:5-11 | A label without `/` has no match, so it is left unchanged |
| DateTokens.SkipNonDigits | src/utils/dataTransformer.ts:5 | Positions without digits start no match |
| DateTokens.TokenOfWeekOf | src/utils/dataTransformer.ts:5-9 | The first match in `Week of M/D` is exactly `M/D` |
| DateTokens.TokenAfterText | src/utils/dataTransformer.ts:5 | After a text without digits, the first match is the `M/D` that follows |
| DataTransformer.MonthDayBound | src/utils/dataTransformer.ts:5-8 | The month and day of a match are below 100 |
| DataTransformer.CanonicalDated | src/utils/dataTransformer.ts:9 | `Week of M/D` is dated and reads back as month M and day D |
| DataTransformer.NormalizeKeepsDate | src/utils/dataTransformer.ts:3-12 | Normalising keeps whether a label is dated and its month and day; it leaves undated labels unchanged; it keeps the sort key |
| DataTransformer.NormalizeIdempotent | src/utils/dataTransformer.ts:3-12 | Normalising twice is normalising once |
| DataTransformer.ExtractDateOrder | src/utils/dataTransformer.ts:23-48 | For every clock year, the order of the dates `extractDate` builds is the order of the label key (Nov/Dec a year earlier), so the sort does not depend on the clock |
| DataTransformer.SortWeeks | src/utils/dataTransformer.ts:50-95 | Returns `SortedWeeks` of the input; sorts the caller's array in place when no label is dated and leaves it alone otherwise |
| DataTransformer.DatedKeys | src/utils/dataTransformer.ts:54-55 | The dates list is empty exactly when no label is dated |
| DataTransformer.WeekDateMap | src/utils/dataTransformer.ts:79-87 | `weekDateMap` maps every dated label, and only those, to its date |
| DataTransformer.WriteBack | src/utils/dataTransformer.ts:55 | The caller's array holds the sorted labels |
| DataTransformer.SortedWeeksPermutation | src/utils/dataTransformer.ts:50-95 | The result is a permutation of the input; empty input gives empty output |
| DataTransformer.SortedWeeksIdempotent | src/utils/dataTransformer.ts:50-95 | Sorting sorted labels changes nothing |
| DataTransformer.SortedWeeksUndated | src/utils/dataTransformer.ts:55 | With no dated label the result is the plain code-point sort |
| DataTransformer.SortedWeeksDated | src/utils/dataTransformer.ts:61-94 | With every label dated, Nov/Dec come before the other months, and each group is in (month, day) order |
| DataTransformer.CanonicalKey | src/utils/dataTransformer.ts:37-45 | The key of `Week of M/D` puts Nov/Dec in the earlier year group |
| DataTransformer.SortedWeeksAcrossNewYear | src/utils/dataTransformer.ts:50-95 | 12/20, 1/5, 11/29 sort to 11/29, 12/20, 1/5 |
| DataTransformer.SortThree | src/utils/dataTransformer.ts:89-94 | Three labels sort by their keys: the one with the smallest key first |
| DataTransformer.SortByMembers | src/utils/dataTransformer.ts:89-94 | Sorting keeps the same labels |
| DataTransformer.ProvidersMembers | src/utils/dataTransformer.ts:98 | The provider list holds exactly the records' providers |
| DataTransformer.NormalizedWeeksMembers | src/utils/dataTransformer.ts:102 | The normalised week list holds exactly the records' normalised weeks, each a fixed point of normalisation |
| DataTransformer.GetUniqueProvidersSpec | src/utils/dataTransformer.ts:97-99 | Each provider of the data once, in strictly ascending code-point order, and no other |
| DataTransformer.GetUniqueWeeksSpec | src/utils/dataTransformer.ts:101-103 | Each normalised week of the data once, in week order, and no other |
| StableSort.SortBy | src/utils/dataTransformer.ts:89-94 | The sort is a permutation of its input, in key order |
| StableSort.SortByStable | src/utils/dataTransformer.ts:89-94 | Labels with equal keys keep their input order |
| StableSort.SortByAgree | src/utils/dataTransformer.ts:89-94 | The sort depends only on the keys of the labels being sorted |
| StableSort.SortByOrderAgree | src/utils/calculations.ts:154-159 | The sort depends only on how the key orders the labels being sorted |
| StableSort.SortBySorted | src/utils/dataTransformer.ts:89-94 | Sorting a sequence already in key order leaves it as it is |
| StableSort.SortByDistinct | src/utils/dataTransformer.ts:102 | Sorting labels without repetitions gives labels without repetitions |
| StableSort.KeyLeTotal | src/utils/dataTransformer.ts:89-94 | Any two keys are comparable |
| StableSort.KeyLeTransitive | src/utils/dataTransformer.ts:89-94 | The key order is transitive |
| StableSort.KeyLeAntisymmetric | src/utils/dataTransformer.ts:89-94 | Keys that order both ways are equal |
| JsSet.Unique | src/utils/dataTransformer.ts:98 | `Array.from(new Set(xs))` has no repetitions and the same members as `xs` |
| JsSet.UniqueSize | src/utils/calculations.ts:17-18 | `new Set(xs).size` counts the distinct elements: at most the length, and at least one for non-empty input |
| JsMap.SetKeys | src/utils/dataParser.ts:187 | `set` appends a new key and keeps the key order for a present one |
| JsMap.SetGet | src/utils/dataParser.ts:187 | After `set`, `get` of that key gives the new value and other keys are unaffected |
| JsMap.BuildKeys | src/utils/dataParser.ts:97-192 | The keys of a map built by `set` calls are the keys set, each once, in order of first `set` |
| JsMap.BuildEmpty | src/utils/dataParser.ts:195 | The built map is empty exactly when no step set anything |
| JsMap.BuildEntries | src/utils/dataParser.ts:97-192 | Every entry of the built map is one some step set |
| JsMap.BuildLast | src/utils/dataParser.ts:186-187 | The last `set` of a key decides its entry |
| JsMap.EntryGet | src/utils/dataParser.ts:243 | In a map with distinct keys an entry is exactly what `get` finds |
| Folds.FilterMembers | src/utils/dataParser.ts:51 | `filter` keeps exactly the elements that pass |
| Folds.FilterConcat | src/utils/calculations.ts:49 | `filter` of a concatenation is the concatenation of the filters |
| Folds.FilterIdempotent | src/utils/calculations.ts:49 | Filtering twice by one test is filtering once |
| Folds.KeptMembers | src/utils/dataParser.ts:236-289 | The records of the kept rows are exactly those of a kept row and an entry of the map |
| Calculations.ExtractDateKey | src/utils/calculations.ts:101-119 | The date `extractDate` gives a dated label has the label's key, with Nov/Dec in the previous year |
| Calculations.SortWeeksAcrossYears | src/utils/calculations.ts:121-160 | Returns `SortedWeeks` of the input: the year adjustment never changes the order the dates already have |
| Calculations.DatesOf | src/utils/calculations.ts:125-126 | The dates are `extractDate` of the dated labels, in label order (`FilterMap` over the labels); Nov/Dec fall in the year before the clock's; empty exactly when no label is dated |
| Calculations.Earliest | src/utils/calculations.ts:129-130 | The earliest date is one of the dates and no later than any of them |
| Calculations.Seasons | src/utils/calculations.ts:133-134 | The two flags tell whether some date is in Nov/Dec and whether some is in Jan–Mar |
| Calculations.AdjustedDates | src/utils/calculations.ts:136-152 | `weekDateMap` has exactly the dated labels as keys, each mapped to the date `extractDate` gives it: the adjustment is the identity |
| Calculations.LookupSameOrder | src/utils/calculations.ts:154-159 | The comparator over `weekDateMap` orders the labels as their keys do |
| Calculations.IndexOf | src/utils/calculations.ts:63-65 | `indexOf` gives the first position of the element, or -1 exactly when it is absent |
| Calculations.FilterDataSpec | src/utils/calculations.ts:41-80 | The kept records are exactly those that pass the provider, week-range and threshold tests, no more than the input |
| Calculations.FilterDataOrder | src/utils/calculations.ts:49 | Filtering keeps the input order: it distributes over concatenation |
| Calculations.FilterDataNoFilters | src/utils/calculations.ts:41-80 | With no filter set the data comes back unchanged, and filtering twice is filtering once |
| Calculations.IndexOrder | src/utils/calculations.ts:62-65 | In a list sorted by a key that tells its labels apart, positions follow keys |
| Calculations.BetweenByKeys | src/utils/calculations.ts:62-70 | A label lies between the two ends by position exactly when it lies between them by key, and never when the ends are reversed |
| Calculations.NormalizedKeyInjective | src/utils/calculations.ts:82-90 | Normalised labels with the same key are the same label |
| Calculations.InWeekRangeSpec | src/utils/calculations.ts:56-71 | With normalised ends, a record is in range exactly when its normalised week's key lies between the ends' keys, and no record is when the ends are reversed |
| Calculations.OctoberToNovemberEmpty | src/utils/calculations.ts:62-69 | A range from "Week of 10/1" to "Week of 11/30" keeps no week, since November sorts before October |
| Calculations.SortedNormalized | src/utils/calculations.ts:62 | Sorting normalised labels keeps them, and two of them with the same key are the same label |
| Calculations.SumsConcat | src/utils/calculations.ts:20-21 | The sums of a concatenation add up |
| Calculations.SumPercentBounds | src/utils/calculations.ts:21 | Percents in [0, 100] sum to between 0 and 100 per record |
| Calculations.Round1Close | src/utils/calculations.ts:34 | Rounding to one decimal moves a value by at most 0.05 |
| Calculations.Round1Monotone | src/utils/calculations.ts:34 | Rounding to one decimal keeps the order of values |
| Calculations.SummaryOfEmpty | src/utils/calculations.ts:7-15 | No data gives zero providers, visits, average and trend value, and a neutral trend |
| Calculations.SummaryCounts | src/utils/calculations.ts:17-20 | `totalProviders` is the number of distinct providers, that of `getUniqueProviders`, between 1 and the number of records; `totalVisits` is the sum of visits |
| Calculations.SummaryAverageBounds | src/utils/calculations.ts:21-34 | With every percent in [0, 100], the reported average is in [0, 100] |
| Calculations.SummaryTrend | src/utils/calculations.ts:23-37 | No previous data gives a neutral trend with value 0; otherwise the trend is up exactly when the average rose by more than 0.5, down exactly when it fell by more than 0.5, and neutral otherwise |
| DataValidation.RecordWarningsSpec | src/utils/dataValidation.ts:24-66 | A record raises each rule's warning exactly when it breaks that rule; rules 1 and 2 exclude each other, so at most three warnings are raised; each warning names the record's provider and week |
| DataValidation.BySeverityPermutation | src/utils/dataValidation.ts:86-89 | The severity sort keeps every warning, as often as it occurs |
| DataValidation.BySeveritySorted | src/utils/dataValidation.ts:86-89 | Higher severities come first |
| DataValidation.BySeverityStable | src/utils/dataValidation.ts:86-89 | Warnings of one severity keep their order |
| DataValidation.BySeverityMembers | src/utils/dataValidation.ts:86-89 | The sort keeps the length and the members |
| DataValidation.MissingWeeksSpec | src/utils/dataValidation.ts:69-74 | A provider's missing weeks are, each once, the weeks some record has and none of the provider's records has |
| DataValidation.GapWarningsSpec | src/utils/dataValidation.ts:72-84 | The missing-data warnings are exactly one per provider with some, but fewer than half, of the weeks missing, giving how many |
| DataValidation.GapWarningFrom | src/utils/dataValidation.ts:76-83 | Every missing-data warning is about a provider meeting the condition |
| DataValidation.GapWarningOf | src/utils/dataValidation.ts:76-83 | Every provider meeting the condition gets its warning |
| DataValidation.GapWarningsDistinct | src/utils/dataValidation.ts:72-84 | Distinct providers give distinct warnings, each naming its provider |
| DataValidation.FewWeeksNoGaps | src/utils/dataValidation.ts:76 | With at most two distinct weeks no provider is reported |
| DataValidation.WarningsSpec | src/utils/dataValidation.ts:11-90 | No data gives the single "No data available" warning; otherwise the warnings are exactly the record and missing-data warnings, as many as raised |
| DataValidation.RulesReported | src/utils/dataValidation.ts:24-66 | Each record breaking a rule gets that rule's warning in the result |
| DataValidation.GapReported | src/utils/dataValidation.ts:68-84 | A provider gets a missing-data warning exactly when it has records and some, but fewer than half, of the weeks lack one |
| DataValidation.CheckRecord | src/utils/dataValidation.ts:24-66 | The four checks append the record's warnings in rule order |
| DataValidation.CheckRecords | src/utils/dataValidation.ts:24-66 | The record loop produces the record warnings of all records in order |
| DataValidation.CheckProvider | src/utils/dataValidation.ts:73-83 | The check of one provider appends its missing-data warning when the condition holds |
| DataValidation.CheckProviders | src/utils/dataValidation.ts:69-84 | The provider loop appends the missing-data warnings |
| DataValidation.ValidateData | src/utils/dataValidation.ts:11-90 | The method returns `Warnings` of the data |
| History.EmptyValid | src/hooks/useFilterHistory.ts:14-15 | The initial state is valid, with nothing to undo or redo |
| History.SaveSpec | src/hooks/useFilterHistory.ts:17-29 | After a save the state is valid, the cursor is on the saved settings, nothing can be redone, and the entries are those up to the old cursor plus the saved ones, the oldest dropped when 50 were kept, which happens only with the cursor at the end |
| History.UndoSpec | src/hooks/useFilterHistory.ts:31-38 | Undo returns the previous entry and moves back exactly when the cursor is past the first entry; otherwise it changes nothing and returns null |
| History.RedoSpec | src/hooks/useFilterHistory.ts:40-47 | Redo returns the next entry and moves forward exactly when there is one; otherwise it changes nothing and returns null |
| History.UndoThenRedo | src/hooks/useFilterHistory.ts:31-47 | Redo after undo restores the state and returns the settings that were current |
| History.RedoThenUndo | src/hooks/useFilterHistory.ts:31-47 | Undo after redo restores the state |
| History.SaveThenUndo | src/hooks/useFilterHistory.ts:17-38 | Undo right after a save returns the settings current before it, and redo then returns the saved ones |
| History.SaveDropsRedo | src/hooks/useFilterHistory.ts:19-20 | Saving discards the entries after the cursor and keeps those up to it |
| History.FilterHistory.constructor | src/hooks/useFilterHistory.ts:14-15 | The hook starts with no entries and the cursor at -1 |
| History.FilterHistory.CanUndo | src/hooks/useFilterHistory.ts:49 | `canUndo` holds exactly when undo would move |
| History.FilterHistory.CanRedo | src/hooks/useFilterHistory.ts:50 | `canRedo` holds exactly when redo would move |
| History.FilterHistory.SaveState | src/hooks/useFilterHistory.ts:17-29 | The fields become `SaveStep` of the old state; the cursor is on the saved settings |
| History.FilterHistory.Undo | src/hooks/useFilterHistory.ts:31-38 | The fields and the result are `UndoStep` of the old state |
| History.FilterHistory.Redo | src/hooks/useFilterHistory.ts:40-47 | The fields and the result are `RedoStep` of the old state |
| Presets.OverlaySpec | src/hooks/useFilterPresets.ts:57 | An update replaces exactly the fields it holds (id, name, filters and createdAt each taken from the update when present, from the preset otherwise); an empty one changes nothing; applying it twice is applying it once |
| Presets.DeletedSpec | src/hooks/useFilterPresets.ts:52-54 | Deleting removes exactly the presets with that id, never adds, changes nothing when the id is absent, and is idempotent |
| Presets.DeletedConcat | src/hooks/useFilterPresets.ts:53 | Deleting keeps the order of the remaining presets |
| Presets.UpdatedSpec | src/hooks/useFilterPresets.ts:56-58 | Updating keeps the length and every position; presets with the id are overlaid and the others unchanged |
| Presets.UpdatedConcat | src/hooks/useFilterPresets.ts:57 | Updating works piece by piece |
| Presets.SaveThenDelete | src/hooks/useFilterPresets.ts:41-54 | Deleting a freshly saved preset by its new id restores the list |
| Presets.UpdateThenDelete | src/hooks/useFilterPresets.ts:52-58 | An update that keeps ids commutes with deleting |
| Presets.PresetStore.constructor | src/hooks/useFilterPresets.ts:21-29 | The store starts from the list it is given |
| Presets.PresetStore.SavePreset | src/hooks/useFilterPresets.ts:41-50 | Appends a preset with the clock's reading as id and returns that id |
| Presets.PresetStore.DeletePreset | src/hooks/useFilterPresets.ts:52-54 | The list becomes `Deleted` of the old list |
| Presets.PresetStore.UpdatePreset | src/hooks/useFilterPresets.ts:56-58 | The list becomes `Updated` of the old list |

## Left out

- Reading the workbook (`parseExcelFile`, the XLSX library) is not part of this model. The parser starts from the decoded grid.
- Console output in `parseProviderData` is not modelled.
- Reading and writing presets in `localStorage` is not modelled. `PresetStore` starts from a given list.
- React's asynchronous state updates are not modelled. Each hook callback updates the state at once, and `setHistoryIndex` inside the `setHistory` updater is applied in the same step.
- Floating point is not modelled. Numbers are exact reals, so rounding errors in sums, averages and derived percents are absent. `Math.round` rounds halves up, as in JavaScript.
- NaN is not modelled. A cell that `parseFloat` cannot read gives 0, as `getValue` returns, and record fields are never NaN.
- Number rendering: `String(x)` of a number is exact for integers. For other values it is the integer part and up to 16 fraction digits. JavaScript's shortest round-trip form and exponent notation are not modelled.
- Warning messages are held as `Message` values. `DataValidation.MessageText` renders each one with the same template text. No proof compares rendered messages.
- Strings are sequences of Unicode code points, and the default order of `Array.prototype.sort` (`StableSort.KeyLe` on undated labels, `Strings.LexLe`) is modelled as code-point order. JavaScript compares UTF-16 code units, so the two orders differ when one string has a character above U+FFFF where the other has one in U+E000–U+FFFF; within the Basic Multilingual Plane, and whenever no such pair meets, they agree.
- `toLowerCase` is modelled for ASCII letters only; other Unicode case mappings are left out. `trim` removes the white space and line terminators JavaScript defines.
- Date rollover in `new Date(year, month, day)` is not modelled. A day past the month's end, such as 2/31, would roll into the next month in JavaScript; labels are ordered by (year group, month, day) as written.
- DataTransformer.SortWeeks: the order between a dated and an undated label is not the source's. The source compares such a pair by `localeCompare` of the texts, which is not a consistent order when dated and undated labels are mixed. The model puts dated labels first. Two undated labels in a set that also has dated ones are compared by code point instead of by `localeCompare`.
- Calculations.SortWeeksAcrossYears: the same simplification for mixed dated and undated labels.
- Calculations.FilterData: the week-range test (`InWeekRange`) sorts the start, end and item week with `sortWeeks`, so it inherits the same dated-first order when the three mix dated and undated labels.
- The first `sortWeeks` of `dataTransformer.ts` (lines 14-21) and the first `sortWeeks` of `calculations.ts` (lines 92-99) are not modelled. In each file the second declaration (`dataTransformer.ts` line 50, `calculations.ts` line 121) is the one modelled. Each duplicate implementation is a TypeScript compile error. The single `extractDate` of each file is modelled as `DataTransformer.ExtractDate`; the two agree, since both put only November and December in the previous year.
- In `sortWeeks` of `dataTransformer.ts` (line 84), `dates.indexOf(date)` looks up a fresh `Date` object, so it never finds it. `weekDateMap` therefore holds the unadjusted date. The model states this directly, without an `indexOf` over objects.
- `updatePreset` with an update whose field is present but `undefined` is not modelled. An update field is either absent or holds a value.
- The `outlier` warning type exists but no rule produces it.
- `Date.now()` and `new Date().toISOString()` are parameters of `SavePreset`.
- The week-range filter is proved for range ends that are normalised labels, the form the dashboard's week selector offers. For other ends, only the general filter statement of `Calculations.FilterDataSpec` holds.
