/** What each counter contributes to each hour bucket, stated directly from
    the records rather than by replaying the aggregation: the reference the
    aggregation is proved against. */
module HourlySpec {
  import opened JsObject
  import opened HourAxis
  import opened Records
  import opened FallbackTarget

  /** Counter `c`'s actual output under `label`: its number there, `0` when
      it has no such entry or no actuals at all. */
  function ActualOf(c: Counter, key: string): int {
    match c.hourlyActuals
    case None => 0
    case Some(o) => OrZero(NumberAt(o, key))
  }

  /** Counter `c`'s target for hour `h`: its explicit number when it carries
      an `hourlyTargets` object (even an empty one), else the fallback when
      `h` lies in its shift's window, else `0`. */
  function TargetOf(c: Counter, h: nat, date: string, attendance: seq<Attendance>): int {
    match c.hourlyTargets
    case Some(o) => OrZero(NumberAt(o, Label(h)))
    case None => if InWindow(c.shift, h) then FallbackHourlyTarget(c, date, attendance) else 0
  }

  /** Total actual output under `label` over the counters dated `date`. */
  function ActualTotal(cs: seq<Counter>, date: string, key: string): int {
    if cs == [] then 0
    else
      var c := cs[|cs| - 1];
      ActualTotal(cs[..|cs| - 1], date, key) + (if c.date == date then ActualOf(c, key) else 0)
  }

  /** Total target for hour `h` over the counters dated `date`. */
  function TargetTotal(cs: seq<Counter>, date: string, attendance: seq<Attendance>, h: nat): int {
    if cs == [] then 0
    else
      var c := cs[|cs| - 1];
      TargetTotal(cs[..|cs| - 1], date, attendance, h) + (if c.date == date then TargetOf(c, h, date, attendance) else 0)
  }
}
