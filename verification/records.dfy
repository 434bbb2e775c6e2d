/** The records the aggregation reads, as `getCountersData()` and
    `getAttendanceData()` hand them over. Every numeric field is held as
    what `Number(field)` yields: `Some(n)` for a finite integer `n`, `None`
    for `NaN` (the field is missing, `undefined` or not numeric). */
module Records {
  import opened Wrappers
  import opened JsObject

  /** One production counter's record for one shift of one day.
      `hourlyActuals` and `hourlyTargets` are `None` when the property is
      absent or falsy, and map hour labels to numbers otherwise. */
  datatype Counter = Counter(
    date: string,
    shift: string,
    hourlyActuals: Option<JsObject<Option<int>>>,
    hourlyTargets: Option<JsObject<Option<int>>>,
    standardRate: Option<int>,
    targetOutput: Option<int>)

  /** One present worker on one shift of one day. */
  datatype Attendance = Attendance(date: string, shift: string)

  /** The test `c => c.date === date` that picks a day's counters. */
  function OnDate(date: string): Counter -> bool {
    (c: Counter) => c.date == date
  }

  /** `Number(x) || 0`: `NaN` (and `0`) become `0`. */
  function OrZero(x: Option<int>): int {
    match x
    case None => 0
    case Some(n) => n
  }

  /** `Number(o[k])`: a missing property is `undefined`, which is `NaN`. */
  function NumberAt(o: seq<Field<Option<int>>>, k: string): Option<int> {
    match Get(o, k)
    case None => None
    case Some(x) => x
  }
}
