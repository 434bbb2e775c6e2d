/** The hourly output aggregation of `renderTsHourlyChart(date)`: keep the
    counters of the day, zero one bucket per axis hour, add up actuals and
    targets (or the shift fallback), and run a cumulative total. Drawing the
    chart is not modelled; the function returns the series it would draw. */
module HourlyAggregator {
  import opened Wrappers
  import opened JsObject
  import opened JsArray
  import opened HourAxis
  import opened Records
  import opened FallbackTarget
  import opened HourlySpec

  /** The two objects the aggregation fills: `hourlyData` (actuals) and
      `hourlyTargets`. */
  datatype Tallies = Tallies(hourlyData: seq<Field<int>>, hourlyTargets: seq<Field<int>>)

  predicate KeyedByAxis(o: seq<Field<int>>) {
    Keys(o) == AxisLabels()
  }

  predicate Ready(t: Tallies) {
    KeyedByAxis(t.hourlyData) && KeyedByAxis(t.hourlyTargets)
  }

  /** The number stored under `k`, or `0` when there is none. */
  function At(o: seq<Field<int>>, k: string): int {
    match Get(o, k)
    case None => 0
    case Some(v) => v
  }

  /** The object after the first `n` rounds of
      `for (let h = 6; h < 22; h++) o[label(h)] = 0;`. */
  function ZeroedAxis(n: nat): (o: seq<Field<int>>)
    requires n <= AxisLength
    ensures Keys(o) == AxisLabels()[..n]
    ensures forall k :: At(o, k) == 0
  {
    if n == 0 then []
    else
      var prev := ZeroedAxis(n - 1);
      var k := AxisLabels()[n - 1];
      NewAxisLabel(n - 1);
      PutZero(prev, k);
      Put(prev, k, 0)
  }

  lemma PutZero(o: seq<Field<int>>, k: string)
    requires forall k' :: At(o, k') == 0
    ensures forall k' :: At(Put(o, k, 0), k') == 0
  {
    forall k'
      ensures At(Put(o, k, 0), k') == 0
    {
      if k' != k {
        assert At(o, k') == 0;
      }
    }
  }

  /** The label created in round `i` is not among those of earlier rounds. */
  lemma NewAxisLabel(i: nat)
    requires i < AxisLength
    ensures AxisLabels()[i] !in AxisLabels()[..i]
    ensures AxisLabels()[..i + 1] == AxisLabels()[..i] + [AxisLabels()[i]]
  {
  }

  /** Adds, for each of `labels` that `dst` owns, the number `src` holds
      under it. */
  function AddKnownKeys(dst: seq<Field<int>>, src: seq<Field<Option<int>>>, labels: seq<string>): (r: seq<Field<int>>)
    ensures Keys(r) == Keys(dst)
    decreases |labels|
  {
    if labels == [] then dst
    else
      var k := labels[0];
      var next := if Has(dst, k) then AddTo(dst, k, OrZero(NumberAt(src, k))) else dst;
      AddKnownKeys(next, src, labels[1..])
  }

  lemma {:induction false} AddKnownKeysEffect(dst: seq<Field<int>>, src: seq<Field<Option<int>>>, labels: seq<string>)
    requires Distinct(labels)
    ensures forall k :: (At(AddKnownKeys(dst, src, labels), k)
      == At(dst, k) + (if Has(dst, k) && k in labels then OrZero(NumberAt(src, k)) else 0))
    decreases |labels|
  {
    if labels != [] {
      var k0 := labels[0];
      var rest := labels[1..];
      var next := if Has(dst, k0) then AddTo(dst, k0, OrZero(NumberAt(src, k0))) else dst;
      assert Distinct(rest);
      AddKnownKeysEffect(next, src, rest);
      if Has(dst, k0) {
        AtAddTo(dst, k0, OrZero(NumberAt(src, k0)));
      }
      assert AddKnownKeys(dst, src, labels) == AddKnownKeys(next, src, rest);
      forall k
        ensures At(AddKnownKeys(dst, src, labels), k)
          == At(dst, k) + (if Has(dst, k) && k in labels then OrZero(NumberAt(src, k)) else 0)
      {
        assert k in labels <==> k == k0 || k in rest;
        assert k0 !in rest;
        assert Has(next, k) == Has(dst, k);
      }
    }
  }

  /** `o[k] += d` seen through `At`: only `k` moves, by `d`. */
  lemma AtAddTo(o: seq<Field<int>>, k: string, d: int)
    requires Has(o, k)
    ensures forall k' :: At(AddTo(o, k, d), k') == At(o, k') + (if k' == k then d else 0)
  {
    forall k'
      ensures At(AddTo(o, k, d), k') == At(o, k') + (if k' == k then d else 0)
    {
      if k' != k {
        assert Get(AddTo(o, k, d), k') == Get(o, k');
      }
    }
  }

  /** `Object.keys(src).forEach(label => {
        if (dst.hasOwnProperty(label)) dst[label] += Number(src[label]) || 0; })`:
      every bucket `dst` owns gains `src`'s number for it, and `src`'s other
      keys neither add anything nor create a bucket. */
  function AddKnown(dst: seq<Field<int>>, src: JsObject<Option<int>>): (r: seq<Field<int>>)
    ensures Keys(r) == Keys(dst)
    ensures forall k :: Has(dst, k) ==> At(r, k) == At(dst, k) + OrZero(NumberAt(src, k))
    ensures forall k :: !Has(dst, k) ==> At(r, k) == 0
  {
    AddKnownKeysEffect(dst, src, Keys(src));
    AddKnownKeys(dst, src, Keys(src))
  }

  /** `for (let h = lo; h < hi; h++) dst[label(h)] += v;`. */
  function AddToWindow(dst: seq<Field<int>>, lo: nat, hi: nat, v: int): (r: seq<Field<int>>)
    requires FirstHour <= lo && hi <= EndHour
    requires KeyedByAxis(dst)
    ensures KeyedByAxis(r)
    ensures forall h: nat :: (At(r, Label(h)) == At(dst, Label(h)) + (if lo <= h < hi then v else 0))
    decreases hi - lo
  {
    if lo >= hi then dst
    else
      AxisPosition(lo);
      LabelsDiffer(lo);
      AddToWindow(AddTo(dst, Label(lo), v), lo + 1, hi, v)
  }

  /** `if (counter.hourlyActuals) { ...add its on-axis numbers to hourlyData... }` */
  function AddActuals(data: seq<Field<int>>, c: Counter): (r: seq<Field<int>>)
    requires KeyedByAxis(data)
    ensures KeyedByAxis(r)
    ensures forall h: nat :: OnAxis(h) ==>
      At(r, Label(h)) == At(data, Label(h)) + ActualOf(c, Label(h))
  {
    AxisHoursOwned(data);
    match c.hourlyActuals
    case None => data
    case Some(o) => AddKnown(data, o)
  }

  /** `if (counter.hourlyTargets) { ...add its on-axis numbers... } else
      { ...add the fallback over the shift's hours... }` */
  function AddTargets(targets: seq<Field<int>>, c: Counter, date: string, attendance: seq<Attendance>): (r: seq<Field<int>>)
    requires KeyedByAxis(targets)
    ensures KeyedByAxis(r)
    ensures forall h: nat :: OnAxis(h) ==>
      At(r, Label(h)) == At(targets, Label(h)) + TargetOf(c, h, date, attendance)
  {
    AxisHoursOwned(targets);
    match c.hourlyTargets
    case Some(o) => AddKnown(targets, o)
    case None => AddForShift(targets, c.shift, FallbackHourlyTarget(c, date, attendance))
  }

  /** `if (shift === "1st Shift-(6am-2pm)") { for (let h = 6; h < 14; h++) ... }
      else if (shift === "2nd Shift-(2pm-10pm)") { for (let h = 14; h < 22; h++) ... }`:
      adds `v` to the hours of the shift's window and leaves every other
      bucket alone; an unknown shift changes nothing. */
  function AddForShift(targets: seq<Field<int>>, shift: string, v: int): (r: seq<Field<int>>)
    requires KeyedByAxis(targets)
    ensures KeyedByAxis(r)
    ensures forall h: nat :: (At(r, Label(h)) == At(targets, Label(h)) + (if InWindow(shift, h) then v else 0))
  {
    AddForShiftEffect(targets, shift, v);
    match ShiftWindow(shift)
    case None => targets
    case Some(w) => AddToWindow(targets, w.start, w.end, v)
  }

  lemma AddForShiftEffect(targets: seq<Field<int>>, shift: string, v: int)
    requires KeyedByAxis(targets)
    ensures ShiftWindow(shift).Some? ==> forall h: nat ::
      var w := ShiftWindow(shift).value;
      At(AddToWindow(targets, w.start, w.end, v), Label(h)) == At(targets, Label(h)) + (if InWindow(shift, h) then v else 0)
  {
    if ShiftWindow(shift).Some? {
      var w := ShiftWindow(shift).value;
      forall h: nat
        ensures At(AddToWindow(targets, w.start, w.end, v), Label(h)) == At(targets, Label(h)) + (if InWindow(shift, h) then v else 0)
      {
        AddToWindowAt(targets, w.start, w.end, v, h);
      }
    }
  }

  lemma AddToWindowAt(dst: seq<Field<int>>, lo: nat, hi: nat, v: int, h: nat)
    requires FirstHour <= lo && hi <= EndHour
    requires KeyedByAxis(dst)
    ensures At(AddToWindow(dst, lo, hi, v), Label(h)) == At(dst, Label(h)) + (if lo <= h < hi then v else 0)
  {
  }

  /** The body of `todayCounters.forEach(counter => ...)`. */
  function ApplyCounter(t: Tallies, c: Counter, date: string, attendance: seq<Attendance>): (r: Tallies)
    requires Ready(t)
    ensures Ready(r)
    ensures forall h: nat :: OnAxis(h) ==>
      At(r.hourlyData, Label(h)) == At(t.hourlyData, Label(h)) + ActualOf(c, Label(h))
    ensures forall h: nat :: OnAxis(h) ==>
      At(r.hourlyTargets, Label(h)) == At(t.hourlyTargets, Label(h)) + TargetOf(c, h, date, attendance)
  {
    Tallies(AddActuals(t.hourlyData, c), AddTargets(t.hourlyTargets, c, date, attendance))
  }

  /** `todayCounters.forEach(...)` run over `cs` from freshly zeroed objects. */
  function Tally(cs: seq<Counter>, date: string, attendance: seq<Attendance>): (t: Tallies)
    ensures Ready(t)
  {
    if cs == [] then
      var zero := ZeroedAxis(AxisLength);
      assert AxisLabels()[..AxisLength] == AxisLabels();
      Tallies(zero, zero)
    else
      ApplyCounter(Tally(cs[..|cs| - 1], date, attendance), cs[|cs| - 1], date, attendance)
  }

  /** Run over counters that all carry `date`, the loop leaves in each
      bucket exactly the reference totals of actual and target output. */
  lemma {:induction false} TallyTotals(cs: seq<Counter>, date: string, attendance: seq<Attendance>)
    requires forall i :: 0 <= i < |cs| ==> cs[i].date == date
    ensures forall h: nat :: OnAxis(h) ==>
      && At(Tally(cs, date, attendance).hourlyData, Label(h)) == ActualTotal(cs, date, Label(h))
      && At(Tally(cs, date, attendance).hourlyTargets, Label(h)) == TargetTotal(cs, date, attendance, h)
  {
    var t := Tally(cs, date, attendance);
    if cs == [] {
      forall h: nat | OnAxis(h)
        ensures At(t.hourlyData, Label(h)) == 0 && At(t.hourlyTargets, Label(h)) == 0
      {
      }
    } else {
      var front := cs[..|cs| - 1];
      var last := cs[|cs| - 1];
      assert last.date == date;
      TallyTotals(front, date, attendance);
      var prev := Tally(front, date, attendance);
      assert t == ApplyCounter(prev, last, date, attendance);
      forall h: nat | OnAxis(h)
        ensures At(t.hourlyData, Label(h)) == ActualTotal(cs, date, Label(h))
        ensures At(t.hourlyTargets, Label(h)) == TargetTotal(cs, date, attendance, h)
      {
        assert ActualTotal(cs, date, Label(h)) == ActualTotal(front, date, Label(h)) + ActualOf(last, Label(h));
        assert TargetTotal(cs, date, attendance, h) == TargetTotal(front, date, attendance, h) + TargetOf(last, h, date, attendance);
      }
    }
  }

  /** What `renderTsHourlyChart(date)` would plot: nothing for a day with no
      counters, else the axis labels with the actual, cumulative and target
      series. */
  datatype Outcome =
    | NoData(date: string)
    | Chart(labels: seq<string>, values: seq<int>, targetValues: seq<int>, cumulative: seq<int>)

  function Aggregate(date: string, counters: seq<Counter>, attendance: seq<Attendance>): (r: Outcome)
    ensures r.NoData? <==> forall i :: 0 <= i < |counters| ==> counters[i].date != date
    ensures r.NoData? ==> r.date == date
    ensures r.Chart? ==> r.labels == AxisLabels()
    ensures r.Chart? ==> |r.values| == |r.targetValues| == |r.cumulative| == AxisLength
    ensures r.Chart? ==> forall i :: 0 <= i < AxisLength ==> r.cumulative[i] == Sum(r.values[..i + 1])
  {
    var onDate := OnDate(date);
    var today := Filter(counters, onDate);
    FilterEmpty(counters, onDate);
    if |today| == 0 then NoData(date)
    else
      var t := Tally(today, date, attendance);
      var values := Values(t.hourlyData);
      RunningSumsArePrefixSums(values, 0);
      Chart(Keys(t.hourlyData), values, Values(t.hourlyTargets), RunningSums(values, 0))
  }

  /** An object keyed by the axis owns the label of every axis hour, and of
      no other hour. */
  lemma AxisHoursOwned(o: seq<Field<int>>)
    requires KeyedByAxis(o)
    ensures forall h: nat :: Has(o, Label(h)) <==> OnAxis(h)
  {
    forall h: nat
      ensures Has(o, Label(h)) <==> OnAxis(h)
    {
      AxisPosition(h);
    }
  }
}
