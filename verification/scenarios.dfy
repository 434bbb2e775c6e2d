/** Worked days: the aggregation applied to small concrete inputs, with the
    numbers the chart shows for them. */
module Scenarios {
  import opened Wrappers
  import opened JsObject
  import opened JsArray
  import opened HourAxis
  import opened Records
  import opened FallbackTarget
  import opened HourlySpec
  import opened HourlyAggregator
  import opened HourlyTheorems

  const Day: string := "2024-05-01"

  lemma EarlyLabels()
    ensures Label(6) == "6:00 - 7:00" && Label(7) == "7:00 - 8:00"
    ensures Label(8) == "8:00 - 9:00" && Label(9) == "9:00 - 10:00"
  {
  }

  /** One first-shift counter with 10 and 15 made at 8:00 and 9:00, no
      explicit targets, a standard rate of 5 and four workers present. */
  function ShiftOneCounter(): Counter {
    Counter(Day, FirstShift,
      Some([Field("8:00 - 9:00", Some(10)), Field("9:00 - 10:00", Some(15))]),
      None, Some(5), None)
  }

  function FourPresent(): seq<Attendance> {
    [Attendance(Day, FirstShift), Attendance(Day, FirstShift),
     Attendance(Day, FirstShift), Attendance(Day, FirstShift)]
  }

  /** Four workers at rate 5 make a day's target of 20, and `Math.round(20 / 8)`
      puts 3 on each first-shift hour. */
  lemma ShiftOneFallback()
    ensures Headcount(FourPresent(), Day, FirstShift) == 4
    ensures FallbackHourlyTarget(ShiftOneCounter(), Day, FourPresent()) == 3
  {
  }

  /** A day with a single counter totals to that counter's own numbers. */
  lemma SingleCounterTotals(c: Counter, attendance: seq<Attendance>, key: string, h: nat)
    ensures ActualTotal([c], c.date, key) == ActualOf(c, key)
    ensures TargetTotal([c], c.date, attendance, h) == TargetOf(c, h, c.date, attendance)
  {
    assert [c][..0] == [];
  }

  /** The counter's own numbers on the hours the chart is checked at. */
  lemma ShiftOneHours()
    ensures ActualOf(ShiftOneCounter(), Label(6)) == 0 && ActualOf(ShiftOneCounter(), Label(7)) == 0
    ensures ActualOf(ShiftOneCounter(), Label(8)) == 10 && ActualOf(ShiftOneCounter(), Label(9)) == 15
    ensures TargetOf(ShiftOneCounter(), 6, Day, FourPresent()) == 3
    ensures TargetOf(ShiftOneCounter(), 13, Day, FourPresent()) == 3
    ensures TargetOf(ShiftOneCounter(), 14, Day, FourPresent()) == 0
    ensures TargetOf(ShiftOneCounter(), 21, Day, FourPresent()) == 0
  {
    EarlyLabels();
    ShiftOneFallback();
  }

  /** The chart of that day: 10 and 15 in the 8:00 and 9:00 bars, 25 on the
      cumulative line by the end of the 9:00 hour, and a target of 3 on the
      first shift's hours and 0 on the second's. */
  lemma ShiftOneChart()
    ensures var r := Aggregate(Day, [ShiftOneCounter()], FourPresent());
      && r.Chart?
      && r.values[2] == 10 && r.values[3] == 15
      && r.cumulative[3] == 25
      && r.targetValues[0] == 3 && r.targetValues[7] == 3
      && r.targetValues[8] == 0 && r.targetValues[15] == 0
  {
    var c := ShiftOneCounter();
    var att := FourPresent();
    var r := Aggregate(Day, [c], att);
    assert [c][0].date == Day;
    AggregateSeries(Day, [c], att);
    ShiftOneHours();
    SingleCounterTotals(c, att, Label(6), 6);
    SingleCounterTotals(c, att, Label(7), 13);
    SingleCounterTotals(c, att, Label(8), 14);
    SingleCounterTotals(c, att, Label(9), 21);
    assert r.values[0] == 0 && r.values[1] == 0 && r.values[2] == 10 && r.values[3] == 15;
    PrefixSumStep(r.values, 0);
    PrefixSumStep(r.values, 1);
    PrefixSumStep(r.values, 2);
    PrefixSumStep(r.values, 3);
  }

  /** A second-shift counter with no standard rate and a target output of
      16: `Math.round(16 / 8)` puts 2 on each of the hours 14 to 21 and
      nothing on any other hour, whoever is present. */
  lemma ShiftTwoFallback(attendance: seq<Attendance>, h: nat)
    ensures var c := Counter(Day, SecondShift, None, None, Some(0), Some(16));
      && FallbackHourlyTarget(c, Day, attendance) == 2
      && TargetOf(c, h, Day, attendance) == if 14 <= h < 22 then 2 else 0
  {
  }

  /** A stale label such as `"23:00 - 0:00"` is not the label of any hour,
      so it never names a bucket of the axis. */
  lemma StaleLabelOffAxis(h: nat)
    ensures Label(h) != "23:00 - 0:00"
  {
    LabelRoundTrip(h);
  }
}
