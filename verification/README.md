# Tabular aggregations of the newline-d3 exercises

This project is a Dafny model of the data-preparation routines in the D3
exercises. Each routine runs once, before any chart is drawn:

- `avgHeightByYear` (line-chart exercise). It finds the range of the
  lighthouses' positive `YearBuilt` values and allocates one
  `{year, sum, count}` bucket per year. It adds every built lighthouse's
  positive `Height` to its own year's bucket and every later one. Last, it
  gives each bucket `avg_height = Math.round(sum / count)`.
- `parseReachByYear` (line-chart exercise). It visits the years 1831..1911.
  For each year it totals and counts the positive reaches of the
  lighthouses built by then. The reach column depends on the era:
  `REACH_1831`, `REACH_1851` or `REACH_1911`. It pushes `{year, reachAvg}`
  only when both the count and the sum are positive.
- `deathsByField` (histogram exercise). It tallies the witch-trial records
  into a `freqs` object keyed by a field's value. It then pops the entries
  of `Object.entries(freqs)` from the end into a list of `{year, deaths}`
  objects.

The model has four modules:

- `Js`: the bits of the JavaScript runtime the routines rely on.
  - CSV rows are `map<string, string>`.
  - `Number(...)` is a parameter `num` from cell text to an optional
    integer; None stands for NaN. Everything proved holds for every such
    conversion.
  - Numbers that can become NaN or Infinity use the `JsNumber` type.
  - `Math.round` of a quotient.
- `LineChart`: both line-chart routines.
  - Each is an imperative method with its loops: the bucket array is a
    Dafny `array`, updated in place.
  - Each is proved equal to a specification function. The lemmas state
    what that function's output is.
- `PropertyKeys`: the order in which `Object.entries` lists an ordinary
  object's own string keys. This is OrdinaryOwnPropertyKeys, section
  10.1.11.1 of ECMA-262: array-index keys first in ascending numeric order,
  then the other keys in creation order.
- `Histogram`: `deathsByField`.
  - The forEach tally into `freqs` is a loop. `freqs` is a map of values
    plus the creation order of its keys.
  - The pop loop uses `findIndex`, `push` and the `+=` merge, all
    modelled.
  - Both loops are proved against specification functions.

The model follows the code as written, including where it departs from
what the routines were evidently meant to do:

- `avgHeightByYear` has `(end - start) + 1 / step + 1` buckets, which is
  `end - start + 2`. So the output runs one year past the greatest
  `YearBuilt`, and its last two buckets hold the same sum and count
  (`LineChart.LastTwoBucketsEqual`, `LineChart.TwoLighthousesOutput`).
- The membership test in `deathsByField` looks up `record[record[field]]`,
  not `record[field]`. For an ordinary record that value is `undefined`.
  - While `freqs` has no key `"undefined"`, every record overwrites its
    key instead of adding to it. With decades "1600" (5 deaths), "1600"
    (3) and "1700" (2), "1600" ends with 3, not 8
    (`Histogram.RepeatedDecadeOverwrites`).
  - A record without the field creates the key `"undefined"` rather than
    being skipped. After that, records add to the property named after
    the field itself.
- `deathsByField` returns the keys in the reverse of `Object.entries`
  order, not ascending. Keys that are not array indices, such as city
  names, come first, the one first seen last in the input leading. The
  array-index keys, such as decades, follow in descending numeric order
  (`Histogram.DeathCountsIndicesLast`, `Histogram.OtherKeysLatestFirst`).
- Because the entries of an object have distinct keys, the pop loop's
  merge branch never finds an existing year. The loop only appends.

## Model

| member | source | states |
|---|---|---|
| Js.Add | 03-histogram/exercise.js:34 | `a + b` is finite exactly when both operands are, and then it is their sum; it is NaN exactly when an operand is NaN |
| Js.RoundQuotient | 01-line-chart/exercise.js:171 | `Math.round(sum / count)` is NaN for 0/0, Infinity for a positive sum over 0, and finite for a positive count |
| Js.RoundQuotientIsNearest | 01-line-chart/exercise.js:171 | for a positive count the rounded quotient lies within one half of sum/count, halves rounding up |
| LineChart.FindBuiltRange | 01-line-chart/exercise.js:133-142 | the first loop leaves `start` and `end` at the least and greatest positive YearBuilt, as EarliestBuilt and LatestBuilt define them |
| LineChart.EarliestBuiltIsLeast | 01-line-chart/exercise.js:133-142 | `start` stays Infinity exactly when no row has a positive YearBuilt; otherwise it is one of them and no greater than any |
| LineChart.LatestBuiltIsGreatest | 01-line-chart/exercise.js:134-141 | `end` is at least every positive YearBuilt, and is either 0 or one of them |
| LineChart.BucketArrayLength | 01-line-chart/exercise.js:144-145 | the array length is 0 unless `start` is finite (a length of -Infinity becomes 0) |
| LineChart.BucketArrayCoversYears | 01-line-chart/exercise.js:144-145 | with some row built, `start <= end` and the array has `end - start + 2` slots |
| LineChart.BuiltYearsInBuckets | 01-line-chart/exercise.js:144-162 | every positive YearBuilt indexes a slot of the array, so the inner loop's first index `yearBuilt - start` is in range |
| LineChart.NewBuckets | 01-line-chart/exercise.js:144-151 | a fresh array of the requested length whose slot `j` holds year `start + j` with sum and count 0 and no average |
| LineChart.AddToLaterBuckets | 01-line-chart/exercise.js:161-165 | the inner loop adds the height to the sum and 1 to the count of every slot from `from` to the end, and leaves earlier slots alone |
| LineChart.TallyHeights | 01-line-chart/exercise.js:153-167 | after the second loop, every slot holds the total height and the number of the rows built by its year that have a positive height |
| LineChart.AssignAverages | 01-line-chart/exercise.js:169-172 | the last loop sets `avg_height` to the rounded average in every slot and changes nothing else |
| LineChart.AvgHeightByYear | 01-line-chart/exercise.js:132-174 | the three passes return exactly AvgHeightBuckets, the specification the lemmas below describe |
| LineChart.AvgHeightBucketsEmpty | 01-line-chart/exercise.js:133-145 | the output is empty exactly when no row has a positive YearBuilt |
| LineChart.AvgHeightBucketLayout | 01-line-chart/exercise.js:144-151 | a non-empty output has at least two buckets for consecutive years, each the finished bucket of its year |
| LineChart.AvgHeightBucketRange | 01-line-chart/exercise.js:133-151 | a non-empty output starts at the least positive YearBuilt and ends one year after the greatest, and every positive YearBuilt lies in between |
| LineChart.AvgBucketContents | 01-line-chart/exercise.js:153-172 | a bucket's sum is the total height and its count the number of the rows built by its year with a positive height; `avg_height` is NaN exactly when the count is 0, and never Infinity |
| LineChart.BuiltYear | 01-line-chart/exercise.js:155-156 | a row counts as built only when `Number(YearBuilt)` is a positive number, and then the built year is that number |
| LineChart.PositiveHeight | 01-line-chart/exercise.js:158-159 | a row has a height only when `Number(Height)` is a positive number, and then the height is that number |
| LineChart.HeightContribution | 01-line-chart/exercise.js:155-161 | a row adds its height to the bucket of `year` exactly when it is built, has a height, and was built in or before `year`; otherwise it adds nothing |
| LineChart.ContributorsCountsRows | 01-line-chart/exercise.js:164 | the running count equals the number of distinct row positions that contribute |
| LineChart.ZeroTotalIffNoContributors | 01-line-chart/exercise.js:159-164 | with only positive contributions, a sum is 0 exactly when its count is 0 |
| LineChart.TotalWithRow | 01-line-chart/exercise.js:153-167 | a row adds exactly its own contribution to sum and count wherever it sits in the data |
| LineChart.NonContributingRowIgnored | 01-line-chart/exercise.js:155-161 | a row built after the year, or without a positive height, leaves that year's bucket unchanged |
| LineChart.HeightTotalsGrowWithYear | 01-line-chart/exercise.js:162 | the running sum and count for a year are no greater than those for the next year |
| LineChart.AvgHeightBucketsNeverDecrease | 01-line-chart/exercise.js:161-165 | `sum` and `count` never decrease from one output bucket to the next |
| LineChart.LastTwoBucketsEqual | 01-line-chart/exercise.js:144-165 | the last two buckets (the greatest YearBuilt and the year after it) hold equal sum and count |
| LineChart.TwoLighthousesBuckets | 01-line-chart/exercise.js:153-172 | for a lighthouse built in 1820 (100 high) and one built in 1825 (50 high), the years 1820..1824 get sum 100, count 1, average 100, and from 1825 on sum 150, count 2, average 75 |
| LineChart.TwoLighthousesOutput | 01-line-chart/exercise.js:132-174 | for those two lighthouses the output has seven buckets, 1820 through 1826, with the values above |
| LineChart.YearBuiltOrZero | 01-line-chart/exercise.js:102-103 | a YearBuilt that does not parse as a number counts as year 0, so the lighthouse counts for every year |
| LineChart.ReachColumn | 01-line-chart/exercise.js:108-114 | years before 1851 read REACH_1831, years from 1851 to 1910 read REACH_1851, and later years read REACH_1911 |
| LineChart.ReachContribution | 01-line-chart/exercise.js:102-119 | a lighthouse adds its reach for `year` to the sum and 1 to the count exactly when it was built in or before `year` and the reach column for that year parses as a positive number |
| LineChart.ReachAvgHundredths | 01-line-chart/exercise.js:125 | `reachAvg` in hundredths: `Math.round((reachSum / lhCount) * 100)`, with halves rounded up |
| LineChart.SumReaches | 01-line-chart/exercise.js:98-121 | the inner loop leaves `reachSum` at the total and `lhCount` at the number of the positive reaches of the lighthouses built by the year |
| LineChart.ParseReachByYear | 01-line-chart/exercise.js:95-129 | the outer loop returns exactly the points of the reported years 1831..1911, in order |
| LineChart.ReachPointsBeforeSplit | 01-line-chart/exercise.js:122-127 | each year appends nothing or its own point, depending on whether it is reported |
| LineChart.ReachPointsBeforeAscend | 01-line-chart/exercise.js:97-127 | the points pushed so far have strictly ascending years, all from 1831 up to the current year |
| LineChart.ReachPointsBeforeValues | 01-line-chart/exercise.js:122-127 | every pushed point is for a reported year and holds that year's rounded average |
| LineChart.ReachPointsBeforeComplete | 01-line-chart/exercise.js:97-127 | every reported year already visited has a point |
| LineChart.ReachCountedIffPositiveSum | 01-line-chart/exercise.js:116-122 | since only positive reaches count, `reachSum > 0` holds exactly when `lhCount > 0` |
| LineChart.ReachByYearShape | 01-line-chart/exercise.js:95-129 | the output years strictly ascend within 1831..1911; a year appears exactly when some lighthouse built by then has a positive reach in its column, with that year's average |
| LineChart.UnparsedYearBuiltCountsEveryYear | 01-line-chart/exercise.js:102-119 | a lighthouse whose YearBuilt is NaN counts as built in every year, adding its positive reach and 1 to the count |
| LineChart.NonPositiveReachIgnored | 01-line-chart/exercise.js:105-119 | a lighthouse built after the year, or whose reach in that year's column is not positive, changes neither sum nor count |
| LineChart.ReachColumnEras | 01-line-chart/exercise.js:108-114 | REACH_1831 is read up to 1850, REACH_1851 from 1851 to 1910, and REACH_1911 only in 1911 |
| PropertyKeys.OwnPropertyKeys | 03-histogram/exercise.js:41 | the property order `Object.entries` uses: array-index keys in ascending numeric order, then every other key in creation order |
| PropertyKeys.OwnPropertyKeysContents | 03-histogram/exercise.js:41 | with distinct created keys, `Object.entries` lists every key once and nothing else |
| PropertyKeys.OwnPropertyKeysIndicesFirst | 03-histogram/exercise.js:41 | the listing starts with the array-index keys in strictly ascending numeric order |
| PropertyKeys.OwnPropertyKeysOthersInOrder | 03-histogram/exercise.js:41 | after the array-index keys come the other keys, in creation order |
| PropertyKeys.OnlyIndexKeysAscend | 03-histogram/exercise.js:41 | when every key is an array index, the listing is strictly ascending by value |
| Histogram.Deaths | 03-histogram/exercise.js:34-36 | a numeric `deaths` column gives its own value (0 included); a missing or non-numeric column gives 0 |
| Histogram.AddDeaths | 03-histogram/exercise.js:34 | `freqs[field] += deaths` gives a finite number exactly when `freqs[field]` was a finite number, and then adds to it; `undefined` or NaN gives NaN, and Infinity stays Infinity |
| Histogram.AssignValid | 03-histogram/exercise.js:36 | an assignment to `freqs` keeps every key created once and listed in creation order |
| Histogram.TallyRecord | 03-histogram/exercise.js:33-37 | one forEach callback: when `record[record[field]]` names a property of `freqs`, the record's deaths are added to `freqs[field]`; otherwise `freqs[record[field]]` is set to them |
| Histogram.TallyValid | 03-histogram/exercise.js:31-38 | the tally never lists a key twice in its creation order, and lists exactly the keys it holds |
| Histogram.FillFreqs | 03-histogram/exercise.js:29-38 | the forEach loop leaves `freqs` equal to the tally of all the records |
| Histogram.TallyRecordGrows | 03-histogram/exercise.js:33-37 | one callback removes no key and only appends to the creation order |
| Histogram.KeysOnlyGrow | 03-histogram/exercise.js:31-38 | keys are never removed, and the creation order of earlier records is kept |
| Histogram.OrdinaryRecordOverwrites | 03-histogram/exercise.js:33-37 | while "undefined" is not a key, an ordinary record overwrites the property named by its field value with its deaths |
| Histogram.OrdinaryRecordsKeys | 03-histogram/exercise.js:31-38 | over ordinary records, the keys of `freqs` are exactly the field values that occur, and "undefined" is not one of them |
| Histogram.OrdinaryRecordCreates | 03-histogram/exercise.js:33-37 | over ordinary records, a record appends its key to the creation order exactly when the key is new, and that record is then the key's first occurrence |
| Histogram.CreationOrderIsFirstOccurrence | 03-histogram/exercise.js:31-38 | over ordinary records, `freqs` creates its keys in the order their field values first occur in the input |
| Histogram.OrdinaryRecordsLastWriteWins | 03-histogram/exercise.js:31-38 | over ordinary records, the last record with a given field value decides that key's value |
| Histogram.MissingFieldCreatesUndefined | 03-histogram/exercise.js:33-36 | a record without the field creates the key "undefined" with its deaths |
| Histogram.UndefinedKeyRedirects | 03-histogram/exercise.js:33-34 | once "undefined" is a key, a record whose field value is not one of its own columns adds its deaths to the property named after the field, and nothing else changes |
| Histogram.Entries | 03-histogram/exercise.js:41 | `Object.entries(freqs)` has one [key, value] pair per property, in the property order above |
| Histogram.Pop | 03-histogram/exercise.js:44-59 | `pop()` returns `undefined` on an empty list, and otherwise the last entry and the list without it |
| Histogram.FirstYearIndex | 03-histogram/exercise.js:48 | `findIndex` returns -1 exactly when no element has the year, and otherwise the first index that has it |
| Histogram.FindYearIndex | 03-histogram/exercise.js:48 | the front-to-back scan returns the first matching index, or -1 |
| Histogram.Merge | 03-histogram/exercise.js:48-57 | one turn of the pop loop: a year not yet in the output is pushed with its deaths, and a year already there has its deaths added to the first element with that year |
| Histogram.MergeNewYear | 03-histogram/exercise.js:50-54 | a year not yet in the output is pushed at its end |
| Histogram.CollectOnlyAppends | 03-histogram/exercise.js:45-60 | when the pending keys are distinct and none is already an output year, the loop only pushes, last entry first |
| Histogram.DistinctEntriesDrain | 03-histogram/exercise.js:44-60 | entries with distinct keys are drained without ever merging |
| Histogram.DrainEntries | 03-histogram/exercise.js:44-60 | the pop loop, with both branches, returns what the specification of the loop gives for the entries |
| Histogram.DeathsByField | 03-histogram/exercise.js:28-64 | the routine returns the entries of the final `freqs` in reverse order, one element per entry |
| Histogram.DrainedReverses | 03-histogram/exercise.js:44-59 | the i-th output element is the i-th entry counted from the end |
| Histogram.DrainedEntries | 03-histogram/exercise.js:41-59 | the output years are the keys of `freqs` in reverse `Object.entries` order, each with its value |
| Histogram.DrainedPerKey | 03-histogram/exercise.js:41-60 | one output element per property of `freqs`, no year twice, each with the value `freqs` holds |
| Histogram.DrainedCoversKeys | 03-histogram/exercise.js:41-60 | every key of `freqs` appears in the output |
| Histogram.DeathCountsPerKey | 03-histogram/exercise.js:28-64 | the output holds each key of the final `freqs` exactly once, with its value |
| Histogram.DeathCountsReverseOrder | 03-histogram/exercise.js:41-59 | the output lists the keys in the reverse of `Object.entries` order |
| Histogram.IndexKeysDescend | 03-histogram/exercise.js:41-59 | when every key is an array index, such as a decade, the years come out in strictly descending numeric order |
| Histogram.DrainedIndicesLast | 03-histogram/exercise.js:41-59 | draining lists every key that is not an array index before every array-index key, and the array-index keys in strictly descending numeric order |
| Histogram.DrainedOthersLatestFirst | 03-histogram/exercise.js:41-59 | draining lists the keys that are not array indices latest created first |
| Histogram.DeathCountsIndicesLast | 03-histogram/exercise.js:28-64 | the output lists keys such as city names before array-index keys such as decades, and the decades in strictly descending numeric order |
| Histogram.OtherKeysLatestFirst | 03-histogram/exercise.js:28-64 | over ordinary records, of two output keys that are not array indices, the one first seen later in the input comes out earlier |
| Histogram.EmptyInputEmptyOutput | 03-histogram/exercise.js:28-64 | no records give an empty output |
| Histogram.TwoDecadesTally | 03-histogram/exercise.js:31-38 | with decades "1600" (5 deaths), "1600" (3) and "1700" (2), `freqs` ends as "1600" with 3 and "1700" with 2, created in that order |
| Histogram.RepeatedDecadeOverwrites | 03-histogram/exercise.js:28-64 | on those records the routine returns "1700" with 2 and then "1600" with 3 |

## Left out

- D3 itself, the DOM and SVG rendering, tooltips and event handlers, and `drawChart` and `drawBars` apart from these routines: library and UI code.
- Loading the datasets with `d3.csv` and `d3.json`, and the `console.log` and `console.table` calls in `deathsByField`: input and output.
- `Number(...)` is a parameter, so no particular string-to-number conversion is modelled. It yields integers or NaN only. Non-integer heights, reaches and deaths, and the texts "Infinity" and "-Infinity", are not covered.
- LineChart.AvgHeightByYear: when `end - start + 2` is 2^32 or more, `Array.from` at 01-line-chart/exercise.js:144-145 throws a RangeError, because the array it constructs cannot be that long. The model does not model that exception and returns that many buckets.
- LineChart.ParseReachByYear: `reachAvg` is kept in hundredths, `Math.round(100 * reachSum / lhCount)`. The final floating-point division by 100 is not modelled.
- Floating-point rounding in general: sums and quotients are exact integers and rationals.
- Properties inherited from `Object.prototype`, such as `toString`. The `in` test at 03-histogram/exercise.js:33 would also find them on `freqs`. The row lookup `record[record[field]]` on the same line would return a function when the field value names one of them, while `Js.Get` treats the lookup as `undefined`. The `__proto__` setter is not modelled either. `freqs` is treated as an object with only its own properties.
- Histogram.Merge: the branch that adds to an existing output year has no lemma of its own beyond its definition. It is modelled in DrainEntries, and DistinctEntriesDrain shows it never runs on the entries of an object.
