/** The default hourly target used for a counter that carries no explicit
    hourly targets: headcount from attendance, times the standard rate (or
    the day's target output when there is no positive rate), spread over an
    8-hour shift window. */
module FallbackTarget {
  import opened Wrappers
  import opened JsArray
  import opened HourAxis
  import opened Records

  const FirstShift: string := "1st Shift-(6am-2pm)"
  const SecondShift: string := "2nd Shift-(2pm-10pm)"

  /** The fixed shift length the day's target is divided by. */
  const ShiftHours: nat := 8

  /** The hours `start <= h < end` a shift covers. */
  datatype Window = Window(start: nat, end: nat)

  /** The two shifts the fallback knows; any other name gets no window. */
  function ShiftWindow(shift: string): (w: Option<Window>)
    ensures w.Some? <==> shift == FirstShift || shift == SecondShift
    ensures w.Some? ==> FirstHour <= w.value.start && w.value.end <= EndHour
    ensures w.Some? ==> w.value.end - w.value.start == ShiftHours
  {
    if shift == FirstShift then Some(Window(6, 14))
    else if shift == SecondShift then Some(Window(14, 22))
    else None
  }

  predicate InWindow(shift: string, h: nat) {
    match ShiftWindow(shift)
    case None => false
    case Some(w) => w.start <= h < w.end
  }

  /** The two known windows split the axis: each hour of the axis belongs to
      exactly one of the two shifts. */
  lemma WindowsPartitionAxis(h: nat)
    ensures InWindow(FirstShift, h) <==> FirstHour <= h < 14
    ensures InWindow(SecondShift, h) <==> 14 <= h < EndHour
    ensures OnAxis(h) <==> (InWindow(FirstShift, h) != InWindow(SecondShift, h))
  {
    assert FirstShift != SecondShift by { assert FirstShift[0] != SecondShift[0]; }
  }

  /** Whether an attendance record belongs to the given date and shift. */
  predicate Attends(a: Attendance, date: string, shift: string) {
    a.date == date && a.shift == shift
  }

  /** `attendance.filter(a => a.date === date && a.shift === shift).length`. */
  function Headcount(attendance: seq<Attendance>, date: string, shift: string): (n: nat)
    ensures n <= |attendance|
  {
    |Filter(attendance, (a: Attendance) => Attends(a, date, shift))|
  }

  /** The positions of the records of one date and shift. */
  function MatchingPositions(attendance: seq<Attendance>, date: string, shift: string): set<nat> {
    set i: nat | i < |attendance| && Attends(attendance[i], date, shift)
  }

  /** The headcount is the number of attendance records for that date and
      shift. */
  lemma {:induction false} HeadcountCountsRecords(attendance: seq<Attendance>, date: string, shift: string)
    ensures Headcount(attendance, date, shift) == |MatchingPositions(attendance, date, shift)|
  {
    if attendance != [] {
      var n := |attendance| - 1;
      var front := attendance[..n];
      HeadcountCountsRecords(front, date, shift);
      HeadcountStep(attendance, date, shift);
      MatchingPositionsStep(attendance, date, shift);
    }
  }

  lemma MatchingPositionsStep(attendance: seq<Attendance>, date: string, shift: string)
    requires attendance != []
    ensures var n := |attendance| - 1;
      |MatchingPositions(attendance, date, shift)| == |MatchingPositions(attendance[..n], date, shift)|
        + (if Attends(attendance[n], date, shift) then 1 else 0)
  {
    var n := |attendance| - 1;
    var front := attendance[..n];
    var before := MatchingPositions(front, date, shift);
    var after := MatchingPositions(attendance, date, shift);
    var added: set<nat> := if Attends(attendance[n], date, shift) then {n} else {};
    forall i: nat
      ensures i in after <==> i in before + added
    {
      if i < n {
        assert front[i] == attendance[i];
      }
    }
    assert after == before + added;
    assert before !! added;
  }

  /** One more record adds one to the headcount exactly when it matches. */
  lemma HeadcountStep(attendance: seq<Attendance>, date: string, shift: string)
    requires attendance != []
    ensures var n := |attendance| - 1;
      Headcount(attendance, date, shift) == Headcount(attendance[..n], date, shift)
        + (if Attends(attendance[n], date, shift) then 1 else 0)
  {
  }

  /** `Math.round(a / 8)`: JavaScript rounds halves towards +infinity, so
      this is the floor of `a / 8 + 1/2`. */
  function RoundedEighth(a: int): (r: int)
    ensures r == (a as real / 8.0 + 0.5).Floor
    ensures 8 * r - 4 <= a < 8 * r + 4
  {
    (a + 4) / 8
  }

  /** `activeTarget > 0 ? Math.round(activeTarget / 8) : 0`. */
  function DefaultHourlyTarget(activeTarget: int): (r: nat)
    ensures r > 0 <==> activeTarget >= 4
    ensures activeTarget > 0 ==> r == (activeTarget as real / 8.0 + 0.5).Floor
    ensures activeTarget > 0 ==> 8 * r - 4 <= activeTarget < 8 * r + 4
  {
    if activeTarget > 0 then RoundedEighth(activeTarget) else 0
  }

  /** `rate > 0 ? headcount * rate : (Number(targetOutput) || 0)`. */
  function ActiveTarget(c: Counter, headcount: nat): int {
    var rate := OrZero(c.standardRate);
    if rate > 0 then headcount * rate else OrZero(c.targetOutput)
  }

  /** The per-hour default target of counter `c` on `date`. */
  function FallbackHourlyTarget(c: Counter, date: string, attendance: seq<Attendance>): (r: nat)
    ensures OrZero(c.standardRate) > 0 && Headcount(attendance, date, c.shift) == 0 ==> r == 0
    ensures OrZero(c.standardRate) <= 0 && OrZero(c.targetOutput) < 4 ==> r == 0
  {
    DefaultHourlyTarget(ActiveTarget(c, Headcount(attendance, date, c.shift)))
  }

  /** The fallback in full: with a positive rate, the number of matching
      attendance records times the rate, else the target output; then
      `Math.round` of an eighth of it when positive, and 0 otherwise. */
  lemma FallbackHourlyTargetValue(c: Counter, date: string, attendance: seq<Attendance>)
    ensures var rate := OrZero(c.standardRate);
      var active := if rate > 0 then |MatchingPositions(attendance, date, c.shift)| * rate
                    else OrZero(c.targetOutput);
      FallbackHourlyTarget(c, date, attendance)
        == if active > 0 then (active as real / 8.0 + 0.5).Floor else 0
  {
    HeadcountCountsRecords(attendance, date, c.shift);
  }

  /** Without a positive standard rate the attendance is never consulted:
      the target output alone fixes the fallback. */
  lemma FallbackIgnoresAttendanceWithoutRate(c: Counter, date: string, a1: seq<Attendance>, a2: seq<Attendance>)
    requires OrZero(c.standardRate) <= 0
    ensures FallbackHourlyTarget(c, date, a1) == FallbackHourlyTarget(c, date, a2)
  {
  }

  /** With a positive standard rate, more workers on the shift never lower
      the fallback. */
  lemma FallbackGrowsWithHeadcount(c: Counter, date: string, a1: seq<Attendance>, a2: seq<Attendance>)
    requires OrZero(c.standardRate) > 0
    requires Headcount(a1, date, c.shift) <= Headcount(a2, date, c.shift)
    ensures FallbackHourlyTarget(c, date, a1) <= FallbackHourlyTarget(c, date, a2)
  {
    var rate := OrZero(c.standardRate);
    var h1 := Headcount(a1, date, c.shift);
    var h2 := Headcount(a2, date, c.shift);
    MulMonotone(h1, h2, rate);
    assert ActiveTarget(c, h1) == h1 * rate;
    assert ActiveTarget(c, h2) == h2 * rate;
    DefaultHourlyTargetMonotone(h1 * rate, h2 * rate);
  }

  lemma MulMonotone(x: nat, y: nat, k: int)
    requires x <= y && k > 0
    ensures x * k <= y * k
  {
  }

  lemma DefaultHourlyTargetMonotone(a1: int, a2: int)
    requires a1 <= a2
    ensures DefaultHourlyTarget(a1) <= DefaultHourlyTarget(a2)
  {
  }
}
