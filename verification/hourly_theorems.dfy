/** What the aggregation guarantees, stated against the reference totals of
    the records: the series are the per-hour sums, the targets fall back
    only where they should, and the cumulative series is a running total. */
module HourlyTheorems {
  import opened Wrappers
  import opened JsObject
  import opened JsArray
  import opened HourAxis
  import opened Records
  import opened FallbackTarget
  import opened HourlySpec
  import opened HourlyAggregator

  /** Counters dated elsewhere add nothing to an hour's actual total, so
      the total over the day's counters equals the total over all counters. */
  lemma {:induction false} FilterKeepsActual(cs: seq<Counter>, date: string, key: string)
    ensures ActualTotal(Filter(cs, OnDate(date)), date, key) == ActualTotal(cs, date, key)
  {
    if cs != [] {
      var front := cs[..|cs| - 1];
      FilterKeepsActual(front, date, key);
      FilterLast(cs, OnDate(date));
      var last := cs[|cs| - 1];
      var before := Filter(front, OnDate(date));
      var r := Filter(cs, OnDate(date));
      if last.date == date {
        assert OnDate(date)(last);
        assert r == before + [last];
        assert r[..|r| - 1] == before;
        assert ActualTotal(r, date, key) == ActualTotal(before, date, key) + ActualOf(last, key);
      } else {
        assert !OnDate(date)(last);
        assert r == before;
      }
    }
  }

  /** The same for an hour's target total. */
  lemma {:induction false} FilterKeepsTarget(cs: seq<Counter>, date: string, attendance: seq<Attendance>, h: nat)
    ensures TargetTotal(Filter(cs, OnDate(date)), date, attendance, h) == TargetTotal(cs, date, attendance, h)
  {
    if cs != [] {
      var front := cs[..|cs| - 1];
      FilterKeepsTarget(front, date, attendance, h);
      FilterLast(cs, OnDate(date));
      var last := cs[|cs| - 1];
      var before := Filter(front, OnDate(date));
      var r := Filter(cs, OnDate(date));
      if last.date == date {
        assert OnDate(date)(last);
        assert r == before + [last];
        assert r[..|r| - 1] == before;
        assert TargetTotal(r, date, attendance, h) == TargetTotal(before, date, attendance, h) + TargetOf(last, h, date, attendance);
      } else {
        assert !OnDate(date)(last);
        assert r == before;
      }
    }
  }

  /** In an object keyed by the axis, `Object.values` lists the bucket of
      each axis hour at that hour's position. */
  lemma AxisValues(o: seq<Field<int>>, i: nat)
    requires KeyedByAxis(o)
    requires i < AxisLength
    ensures Values(o)[i] == At(o, Label(FirstHour + i))
  {
    ValuesByKey(o, i);
    AxisPosition(FirstHour + i);
  }

  /** Each hour's actual and target value in the chart is the reference
      total over the counters of `date`. */
  lemma AggregateSeries(date: string, counters: seq<Counter>, attendance: seq<Attendance>)
    ensures var r := Aggregate(date, counters, attendance);
      r.Chart? ==> forall i :: 0 <= i < AxisLength ==>
        && r.values[i] == ActualTotal(counters, date, Label(FirstHour + i))
        && r.targetValues[i] == TargetTotal(counters, date, attendance, FirstHour + i)
  {
    var r := Aggregate(date, counters, attendance);
    if r.Chart? {
      var today := Filter(counters, OnDate(date));
      FilterSound(counters, OnDate(date));
      TallyTotals(today, date, attendance);
      var t := Tally(today, date, attendance);
      forall i | 0 <= i < AxisLength
        ensures r.values[i] == ActualTotal(counters, date, Label(FirstHour + i))
        ensures r.targetValues[i] == TargetTotal(counters, date, attendance, FirstHour + i)
      {
        AxisValues(t.hourlyData, i);
        AxisValues(t.hourlyTargets, i);
        FilterKeepsActual(counters, date, Label(FirstHour + i));
        FilterKeepsTarget(counters, date, attendance, FirstHour + i);
      }
    }
  }

  /** The cumulative series is the running prefix sum of the hourly actuals:
      its last point is the day's total, and it never falls when no hourly
      actual is negative. */
  lemma AggregateCumulative(date: string, counters: seq<Counter>, attendance: seq<Attendance>)
    ensures var r := Aggregate(date, counters, attendance);
      r.Chart? ==>
        && (forall i :: 0 <= i < AxisLength ==> r.cumulative[i] == Sum(r.values[..i + 1]))
        && r.cumulative[AxisLength - 1] == Sum(r.values)
        && ((forall i :: 0 <= i < AxisLength ==> r.values[i] >= 0) ==>
              forall i, j :: 0 <= i <= j < AxisLength ==> r.cumulative[i] <= r.cumulative[j])
  {
    var r := Aggregate(date, counters, attendance);
    if r.Chart? {
      RunningTotalFacts(r.values);
    }
  }

  lemma RunningTotalFacts(values: seq<int>)
    requires |values| == AxisLength
    ensures var cumulative := RunningSums(values, 0);
      && (forall i :: 0 <= i < AxisLength ==> cumulative[i] == Sum(values[..i + 1]))
      && cumulative[AxisLength - 1] == Sum(values)
      && ((forall i :: 0 <= i < AxisLength ==> values[i] >= 0) ==>
            forall i, j :: 0 <= i <= j < AxisLength ==> cumulative[i] <= cumulative[j])
  {
    RunningSumsArePrefixSums(values, 0);
    assert values[..AxisLength] == values;
    if forall i :: 0 <= i < AxisLength ==> values[i] >= 0 {
      RunningSumsMonotone(values, 0);
    }
  }

  /** When every counter of the day carries an `hourlyTargets` object, the
      fallback is never taken: the target totals do not depend on
      attendance. */
  lemma {:induction false} ExplicitTargetsIgnoreAttendance(cs: seq<Counter>, date: string, a1: seq<Attendance>, a2: seq<Attendance>, h: nat)
    requires forall i :: 0 <= i < |cs| && cs[i].date == date ==> cs[i].hourlyTargets.Some?
    ensures TargetTotal(cs, date, a1, h) == TargetTotal(cs, date, a2, h)
  {
    if cs != [] {
      ExplicitTargetsIgnoreAttendance(cs[..|cs| - 1], date, a1, a2, h);
    }
  }

  /** The same at the level of the chart: with explicit targets on every
      counter of the day, the target series is the same whatever the
      attendance. */
  lemma ExplicitTargetsOverrideFallback(date: string, counters: seq<Counter>, a1: seq<Attendance>, a2: seq<Attendance>)
    requires forall i :: 0 <= i < |counters| && counters[i].date == date ==> counters[i].hourlyTargets.Some?
    ensures Aggregate(date, counters, a1).Chart? ==>
      Aggregate(date, counters, a1).targetValues == Aggregate(date, counters, a2).targetValues
  {
    var r1 := Aggregate(date, counters, a1);
    var r2 := Aggregate(date, counters, a2);
    if r1.Chart? {
      AggregateSeries(date, counters, a1);
      AggregateSeries(date, counters, a2);
      forall i | 0 <= i < AxisLength
        ensures r1.targetValues[i] == r2.targetValues[i]
      {
        ExplicitTargetsIgnoreAttendance(counters, date, a1, a2, FirstHour + i);
      }
    }
  }

  /** A present but empty `hourlyTargets` object is truthy: it still
      suppresses the fallback, so such counters add no target at all. */
  lemma {:induction false} EmptyTargetsAddNothing(cs: seq<Counter>, date: string, attendance: seq<Attendance>, h: nat)
    requires forall i :: 0 <= i < |cs| ==> cs[i].hourlyTargets == Some([])
    ensures TargetTotal(cs, date, attendance, h) == 0
  {
    if cs != [] {
      EmptyTargetsAddNothing(cs[..|cs| - 1], date, attendance, h);
    }
  }

  /** The fallback lands on the eight hours of the counter's shift and
      nowhere else: 6..13 for the first shift, 14..21 for the second, no
      hour at all for any other shift name. */
  lemma FallbackOnlyInShiftWindow(targets: seq<Field<int>>, shift: string, v: int, h: nat)
    requires KeyedByAxis(targets)
    requires OnAxis(h)
    ensures var added := At(AddForShift(targets, shift, v), Label(h)) - At(targets, Label(h));
      && (shift == FirstShift ==> added == if h < 14 then v else 0)
      && (shift == SecondShift ==> added == if h >= 14 then v else 0)
      && (shift != FirstShift && shift != SecondShift ==> added == 0)
  {
    WindowsPartitionAxis(h);
  }

  /** Two counter lists that agree, position by position, on dates and on
      what each counter adds to hour `h` have the same totals for `h`. */
  lemma {:induction false} TotalsAgree(cs1: seq<Counter>, cs2: seq<Counter>, date: string, attendance: seq<Attendance>, h: nat)
    requires |cs1| == |cs2|
    requires forall i :: 0 <= i < |cs1| ==> cs1[i].date == cs2[i].date
    requires forall i :: 0 <= i < |cs1| ==> ActualOf(cs1[i], Label(h)) == ActualOf(cs2[i], Label(h))
    requires forall i :: 0 <= i < |cs1| ==> TargetOf(cs1[i], h, date, attendance) == TargetOf(cs2[i], h, date, attendance)
    ensures ActualTotal(cs1, date, Label(h)) == ActualTotal(cs2, date, Label(h))
    ensures TargetTotal(cs1, date, attendance, h) == TargetTotal(cs2, date, attendance, h)
  {
    if cs1 != [] {
      TotalsAgree(cs1[..|cs1| - 1], cs2[..|cs2| - 1], date, attendance, h);
    }
  }

  /** The chart depends on the counters only through which of them carry
      `date` and the reference totals of each axis hour. */
  lemma ChartDeterminedByTotals(date: string, cs1: seq<Counter>, cs2: seq<Counter>, attendance: seq<Attendance>)
    requires |cs1| == |cs2|
    requires forall i :: 0 <= i < |cs1| ==> cs1[i].date == cs2[i].date
    requires forall h: nat :: OnAxis(h) ==> ActualTotal(cs1, date, Label(h)) == ActualTotal(cs2, date, Label(h))
    requires forall h: nat :: OnAxis(h) ==> TargetTotal(cs1, date, attendance, h) == TargetTotal(cs2, date, attendance, h)
    ensures Aggregate(date, cs1, attendance) == Aggregate(date, cs2, attendance)
  {
    var r1 := Aggregate(date, cs1, attendance);
    var r2 := Aggregate(date, cs2, attendance);
    AggregateSeries(date, cs1, attendance);
    AggregateSeries(date, cs2, attendance);
    if r1.Chart? {
      forall i | 0 <= i < AxisLength
        ensures r1.values[i] == r2.values[i] && r1.targetValues[i] == r2.targetValues[i]
      {
        assert OnAxis(FirstHour + i);
      }
    }
    SameSeriesSameChart(r1, r2);
  }

  /** Two chart outcomes with the same hourly values and targets are the
      same chart, since the labels are fixed and the cumulative series is a
      function of the values. */
  lemma SameSeriesSameChart(r1: Outcome, r2: Outcome)
    requires r1.NoData? <==> r2.NoData?
    requires r1.NoData? ==> r1.date == r2.date
    requires r1.Chart? ==> r1.labels == r2.labels
    requires r1.Chart? ==> |r1.values| == |r2.values| == |r1.targetValues| == |r2.targetValues| == |r1.cumulative| == |r2.cumulative|
    requires r1.Chart? ==> forall i :: 0 <= i < |r1.values| ==> r1.values[i] == r2.values[i] && r1.targetValues[i] == r2.targetValues[i]
    requires r1.Chart? ==> forall i :: 0 <= i < |r1.values| ==>
      r1.cumulative[i] == Sum(r1.values[..i + 1]) && r2.cumulative[i] == Sum(r2.values[..i + 1])
    ensures r1 == r2
  {
    if r1.Chart? {
      assert r1.values == r2.values;
      assert r1.targetValues == r2.targetValues;
      assert r1.cumulative == r2.cumulative;
    }
  }

  /** An hourly actual filed under a label that is not on the axis is
      dropped: adding one to a counter changes neither the labels nor any
      series of the chart. */
  lemma OffAxisActualIgnored(date: string, counters: seq<Counter>, attendance: seq<Attendance>,
                             j: nat, k: string, v: Option<int>)
    requires j < |counters|
    requires counters[j].hourlyActuals.Some?
    requires k !in AxisLabels()
    requires !Has(counters[j].hourlyActuals.value, k)
    ensures var o := counters[j].hourlyActuals.value;
      var o' := o + [Field(k, v)];
      Distinct(Keys(o')) &&
      Aggregate(date, counters[j := counters[j].(hourlyActuals := Some(o'))], attendance)
        == Aggregate(date, counters, attendance)
  {
    var o := counters[j].hourlyActuals.value;
    var o' := o + [Field(k, v)];
    assert Keys(o') == Keys(o) + [k];
    var c' := counters[j].(hourlyActuals := Some(o'));
    var cs := counters[j := c'];
    forall h: nat | OnAxis(h)
      ensures ActualTotal(cs, date, Label(h)) == ActualTotal(counters, date, Label(h))
      ensures TargetTotal(cs, date, attendance, h) == TargetTotal(counters, date, attendance, h)
    {
      AxisPosition(h);
      GetAppend(o, Field(k, v), Label(h));
      TotalsAgree(cs, counters, date, attendance, h);
    }
    ChartDeterminedByTotals(date, cs, counters, attendance);
  }
}
