# Hourly output aggregation of the TS dashboard chart

This project models, in Dafny, the arithmetic inside the dashboard's
JavaScript function `renderTsHourlyChart(date)`. Two patch scripts embed it
with identical logic: `apply_changes.py` (`change_3_add_function`) and
`fix_hourly_chart.py` (`add_function_definition`).

Given a date, all counter records and all attendance records, the function
does the following:

- keeps the counters of that date;
- shows "No data for <date>" if none are left;
- otherwise zeroes one bucket per hour from 06:00 to 22:00, labelled
  `"{h}:00 - {h+1}:00"`;
- adds every counter's hourly actuals into those buckets;
- adds its explicit hourly targets into the target buckets, or, when it has
  none, a default per-hour target spread over its shift's eight hours;
- plots the hourly actuals, their running total and the targets.

The model is the pure function `HourlyAggregator.Aggregate`. It returns
`NoData(date)` or a `Chart` with the labels and the three series the chart
would draw.

Layout, one module per file:

- `wrappers.dfy` — `Option`.
- `decimal.dfy` — the decimal numerals a template literal prints, with the
  parse back that makes hour labels injective.
- `hour_axis.dfy` — the fixed axis 6..21 and its labels.
- `js_object.dfy` — a plain JavaScript object as an insertion-ordered list
  of own properties: `o[k]`, `o[k] = v`, `o[k] += d`, `Object.keys`,
  `Object.values`.
- `js_array.dfy` — `Array.prototype.filter`, sums and the running-total
  loop.
- `records.dfy` — counter and attendance records, and `Number(x) || 0`.
- `fallback_target.dfy` — headcount, active target, `Math.round(a / 8)` and
  the shift windows.
- `hourly_spec.dfy` — reference totals per hour, defined directly from the
  records. `HourlyAggregator.AddActuals`, `AddTargets`, `ApplyCounter` and
  `TallyTotals`, and the lemmas of `HourlyTheorems`, are stated against
  these. The smaller operations each have their own reference: labels are
  checked by parsing them back, `Filter` by element counts, the running
  total by `Sum`, the headcount by the set of matching records, rounding by
  the real floor, and object writes by what `Get` reads afterwards.
- `hourly_aggregator.dfy` — the aggregation itself, step by step as the
  code does it.
- `hourly_theorems.dfy` — properties of `Aggregate` against the reference
  totals.
- `scenarios.dfy` — worked days with concrete numbers.

A note on truthiness. The code takes the explicit-target branch on the
truthiness of `counter.hourlyTargets`. An empty object is truthy, so it
still suppresses the fallback, and that counter adds no target at all:
`hourlyTargets == Some([])` adds nothing, as
`HourlyTheorems.EmptyTargetsAddNothing` states.

## Model

| member | source | states |
|---|---|---|
| Decimal.ParseDigitsOf | apply_changes.py:163 | the numeral that `${h}` prints for a non-negative integer parses back to that integer |
| Decimal.LeadingDigits | apply_changes.py:163 | the longest all-digit prefix of a string: a prefix, made of digits, and followed by a non-digit when shorter than the string |
| Decimal.LeadingDigitsOfNumeral | apply_changes.py:163 | a numeral followed by text that starts with a non-digit reads back as exactly that numeral |
| HourAxis.LabelRoundTrip | apply_changes.py:162-163 | the label built for hour `h` reads back as `h`, so the label determines the hour |
| HourAxis.LabelInjective | fix_hourly_chart.py:77-78 | two hours get the same label exactly when they are the same hour |
| HourAxis.AxisLabels | apply_changes.py:162-166 | the axis has 16 labels and no two are equal, so each initialisation round creates a new property |
| HourAxis.AxisPosition | fix_hourly_chart.py:77-81 | the label of an on-axis hour `h` sits at position `h - 6`, and the label of any other hour is not on the axis |
| JsObject.Keys | apply_changes.py:197 | `Object.keys` lists one key per property, position by position in insertion order |
| JsObject.Values | apply_changes.py:197-198 | `Object.values` lists one value per property, position by position in insertion order |
| JsObject.Get | apply_changes.py:171-172 | reading a key yields a value exactly when the object owns that key |
| JsObject.Put | apply_changes.py:164-165 | after `o[k] = v`, `o[k]` reads `v` and every other key reads as before; an owned key keeps its position and a new key is appended last |
| JsObject.AddTo | apply_changes.py:172 | `o[k] += d` on an owned key leaves the key list alone, raises `o[k]` by `d` and changes no other key |
| JsObject.ValuesByKey | fix_hourly_chart.py:118-120 | in an object without repeated keys, the i-th entry of `Object.values` is what reading the i-th key of `Object.keys` yields |
| JsArray.Filter | apply_changes.py:153 | the filtered array holds each element that passes the test exactly as often as the input does, and no other element |
| JsArray.FilterEmpty | apply_changes.py:153-155 | the filtered array is empty exactly when no element passes the test |
| JsArray.FilterSound | fix_hourly_chart.py:65 | every element of the filtered array passes the test |
| JsArray.RunningSumsArePrefixSums | apply_changes.py:199-200 | element `i` of the running total is the start value plus the sum of the values at positions `0..i` |
| JsArray.RunningSumsMonotone | fix_hourly_chart.py:123-128 | with no negative value the running total never decreases, and its last element is the start value plus the total of all values |
| JsArray.SumGrows | fix_hourly_chart.py:125-128 | over non-negative values a prefix never sums to more than the whole |
| FallbackTarget.ShiftWindow | apply_changes.py:189-193 | exactly the two named shifts have a window; each window lies on the axis and spans 8 hours |
| FallbackTarget.WindowsPartitionAxis | fix_hourly_chart.py:106-114 | the first shift covers hours 6..13 and the second 14..21, and every axis hour is in exactly one of the two windows |
| FallbackTarget.HeadcountCountsRecords | apply_changes.py:184-185 | the headcount is the number of attendance records whose date and shift both match |
| FallbackTarget.RoundedEighth | apply_changes.py:187 | `Math.round(a / 8)` is the floor of `a / 8 + 1/2`: the integer whose eight-fold lies within 4 of `a`, halves rounding up |
| FallbackTarget.DefaultHourlyTarget | fix_hourly_chart.py:104 | the default is `Math.round(a / 8)` for a positive active target and 0 otherwise, and it is positive exactly when the active target is at least 4 |
| FallbackTarget.FallbackHourlyTarget | fix_hourly_chart.py:100-104 | with a positive rate and nobody present the fallback is 0; without a positive rate and with a target output under 4 it is 0 |
| FallbackTarget.FallbackHourlyTargetValue | apply_changes.py:184-187 | the fallback is `Math.round(a / 8)` of the active target `a` when `a` is positive, and 0 otherwise; `a` is the number of attendance records with the day's date and the counter's shift times the rate when the rate is positive, and the coerced target output otherwise |
| FallbackTarget.FallbackIgnoresAttendanceWithoutRate | apply_changes.py:185-186 | without a positive standard rate, the attendance list has no influence on the fallback |
| FallbackTarget.FallbackGrowsWithHeadcount | fix_hourly_chart.py:101-104 | with a positive rate, a larger headcount never gives a smaller fallback |
| HourlyAggregator.ZeroedAxis | apply_changes.py:162-166 | after `n` rounds of the initialisation loop, the object holds the first `n` axis labels in order, and every key reads 0 |
| HourlyAggregator.AddKnownKeysEffect | apply_changes.py:170-174 | walking a list of distinct labels adds the source's coerced number to each label the destination owns, and to nothing else |
| HourlyAggregator.AddKnown | fix_hourly_chart.py:86-90 | the key list is unchanged; every owned bucket gains the source's coerced number under its label (0 for a missing or non-numeric entry); no new bucket is created |
| HourlyAggregator.AddToWindow | apply_changes.py:190 | adding `v` to hours `lo..hi-1` keeps the axis keys and raises exactly those hours' buckets by `v` |
| HourlyAggregator.AddActuals | apply_changes.py:168-175 | every axis bucket of the actuals gains the counter's own coerced actual for that label, per the reference definition |
| HourlyAggregator.AddTargets | apply_changes.py:177-194 | every axis bucket of the targets gains the counter's reference target: its explicit number if it has a targets object, else the fallback inside its shift's window, else 0 |
| HourlyAggregator.AddForShift | fix_hourly_chart.py:106-114 | the fallback is added to the hours of the shift's window and to no other bucket, and an unknown shift adds nothing |
| HourlyAggregator.ApplyCounter | fix_hourly_chart.py:84-116 | one round of the per-counter loop keeps both objects keyed by the axis and raises each hour by the counter's reference actual and target |
| HourlyAggregator.Tally | apply_changes.py:160-195 | after the loop, both objects are still keyed by exactly the 16 axis labels in axis order |
| HourlyAggregator.TallyTotals | apply_changes.py:168-195 | run over counters of the date, the loop leaves in every axis bucket the reference total of actuals and of targets for that hour |
| HourlyAggregator.Aggregate | apply_changes.py:153-200 | the outcome is `NoData(date)` exactly when no counter has the date; otherwise the labels are the axis, all series have length 16, and the cumulative series is the prefix sum of the values |
| HourlyTheorems.FilterKeepsActual | apply_changes.py:153 | the day's actual totals are the same over the filtered counters as over all counters |
| HourlyTheorems.FilterKeepsTarget | fix_hourly_chart.py:65 | the day's target totals are the same over the filtered counters as over all counters |
| HourlyTheorems.AxisValues | fix_hourly_chart.py:118-120 | in an object keyed by the axis, position `i` of `Object.values` is the bucket of hour `6 + i`, so the series are aligned with the labels |
| HourlyTheorems.AggregateSeries | apply_changes.py:168-198 | bar `i` of the chart is the total actual of hour `6 + i` over the day's counters, and the target point `i` is the total target of that hour |
| HourlyTheorems.AggregateCumulative | fix_hourly_chart.py:123-128 | the cumulative point `i` is the sum of bars `0..i`, the last point is the day's total, and the line never falls when no bar is negative |
| HourlyTheorems.ExplicitTargetsIgnoreAttendance | apply_changes.py:177-186 | when every counter of the day has a targets object, the target totals do not depend on attendance |
| HourlyTheorems.ExplicitTargetsOverrideFallback | fix_hourly_chart.py:93-115 | when every counter of the day has a targets object, the charted target series is the same for any attendance list |
| HourlyTheorems.EmptyTargetsAddNothing | apply_changes.py:177-182 | counters whose targets object is present but empty add no target to any hour |
| HourlyTheorems.FallbackOnlyInShiftWindow | apply_changes.py:189-193 | the fallback raises hours 6..13 for the first shift, 14..21 for the second, and no hour for any other shift name |
| HourlyTheorems.TotalsAgree | apply_changes.py:168-195 | counter lists that agree position by position on dates and on what each counter contributes to an hour have the same totals for that hour |
| HourlyTheorems.ChartDeterminedByTotals | apply_changes.py:153-200 | two counter lists with the same dates and the same per-hour totals give the same chart |
| HourlyTheorems.SameSeriesSameChart | fix_hourly_chart.py:118-128 | two outcomes with the same values and targets are equal, because the labels are fixed and the cumulative series is determined by the values |
| HourlyTheorems.OffAxisActualIgnored | fix_hourly_chart.py:85-91 | giving a counter an extra actual under a label that is not on the axis leaves the whole chart unchanged |
| Scenarios.EarlyLabels | apply_changes.py:163 | the first labels read `6:00 - 7:00`, `7:00 - 8:00`, `8:00 - 9:00` and `9:00 - 10:00` |
| Scenarios.ShiftOneFallback | apply_changes.py:184-187 | four workers at rate 5 give a headcount of 4 and a fallback of `Math.round(20 / 8) = 3` |
| Scenarios.ShiftOneHours | fix_hourly_chart.py:85-114 | that counter adds 0, 0, 10 and 15 at hours 6 to 9, a target of 3 at hours 6 and 13, and 0 at hours 14 and 21 |
| Scenarios.ShiftOneChart | apply_changes.py:153-200 | that day's chart has bars of 10 and 15 at 8:00 and 9:00, a cumulative of 25 after 9:00, a target of 3 at the first shift's end hours 6 and 13, and a target of 0 at hours 14 and 21 |
| Scenarios.ShiftTwoFallback | fix_hourly_chart.py:100-114 | a second-shift counter with rate 0 and target output 16 adds 2 to each of hours 14..21 and nothing elsewhere, whatever the attendance |
| Scenarios.StaleLabelOffAxis | apply_changes.py:171 | a stale label `"23:00 - 0:00"` is not the label of any hour, so the ownership test drops it |

## Left out

- Drawing is not modelled: `document.getElementById`, writing `innerHTML` for the empty state, destroying the previous chart, building the Chart.js datasets and options, and the `try/catch` around it (apply_changes.py:148-149, 156, 202-218; fix_hourly_chart.py:60-61, 68-70, 130-183). `NoData(date)` stands for the "No data for <date>" placeholder, and `Chart` holds the series handed to Chart.js.
- `getCountersData()` and `getAttendanceData()` are not part of this model. Their results are the `counters` and `attendance` inputs.
- The patch scripts themselves are not modelled: reading, backing up and writing the HTML file, the marker-based string insertion, and the console summaries. `fix_timestamp_modal.py` is not part of this model either; it only replaces markup.
- JavaScript numbers are IEEE doubles. The model uses unbounded integers, so fractional values and float rounding are not represented. `Number(x)` is `Some(n)` for a numeric field and `None` for `NaN`. `|| 0` turns `None` into 0.
- `hourlyActuals` and `hourlyTargets` are modelled as absent (`None`) or as a plain object of numbers. A truthy non-object value, such as a string whose `Object.keys` are its indices, is not represented.
- Properties inherited through the prototype are not modelled; `hasOwnProperty` is `Has` on own properties. No hour label is integer-like, so `Object.keys` lists the axis in insertion order.
- Idempotence and the absence of mutation of the inputs are not stated as lemmas. `Aggregate` is a pure function of its arguments, so both hold by construction.
- The attendance filter compares records with the requested `date`. This is the same as the counter's date, because only counters of that date reach it.
- FallbackTarget.FallbackHourlyTarget: its own contract states only the cases that give 0. The full value is stated by `FallbackTarget.FallbackHourlyTargetValue`.
- FallbackTarget.Headcount: its own contract only bounds the count by the number of records. The exact count is `FallbackTarget.HeadcountCountsRecords`.
