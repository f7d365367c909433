/** `WORKDAY` and `NETWORKDAYS` over day numbers: termination for every holiday list, and each inverting the other. */
module WorkingDays {

  /** Days are numbered as Python's `date.toordinal`: day 1 is a Monday. */
  function Weekday(d: int): (w: int)
    ensures 0 <= w < 7
  {
    (d + 6) % 7
  }

  predicate Working(d: int, holidays: set<int>) {
    Weekday(d) < 5 && d !in holidays
  }

  /** The working days from `a` to `b`, both included. */
  function Days(a: int, b: int, holidays: set<int>): set<int> {
    set d | a <= d <= b && Working(d, holidays)
  }

  /** `NETWORKDAYS`: how many there are, negative when counted backwards. */
  function NetWorkdays(start: int, end: int, holidays: set<int>): int {
    if end >= start then |Days(start, end, holidays)| else -|Days(end, start, holidays)|
  }

  function Step(days: int): int {
    if days > 0 then 1 else -1
  }

  /** `m` lies at or beyond every holiday, in the direction of travel. */
  ghost predicate Beyond(m: int, holidays: set<int>, step: int) {
    forall h :: h in holidays ==> if step > 0 then h <= m else h >= m
  }

  lemma {:induction false} HolidaysEnd(holidays: set<int>, step: int)
    ensures exists m :: Beyond(m, holidays, step)
    decreases |holidays|
  {
    if |holidays| == 0 {
      assert Beyond(0, holidays, step);
    } else {
      assert (forall k :: k !in holidays) ==> holidays == {};
      var h :| h in holidays;
      HolidaysEnd(holidays - {h}, step);
      var m :| Beyond(m, holidays - {h}, step);
      var further := if step > 0 then (if h > m then h else m) else (if h < m then h else m);
      assert forall k :: k in holidays ==> k == h || k in holidays - {h};
      assert Beyond(further, holidays, step);
    }
  }

  ghost function Horizon(holidays: set<int>, step: int): (m: int)
    ensures Beyond(m, holidays, step)
  {
    HolidaysEnd(holidays, step);
    var m :| Beyond(m, holidays, step);
    m
  }

  /** How many more days there can be before the next working day: up to the horizon, then a weekend at most. */
  ghost function Patience(d: int, step: int, holidays: set<int>): (n: nat)
    requires step == 1 || step == -1
  {
    var m := Horizon(holidays, step);
    if step > 0 then
      if d <= m then m - d + 8 else 6 - Weekday(d)
    else if d >= m then d - m + 8
    else if Weekday(d) == 0 then 2 else if Weekday(d) == 6 then 1 else 0
  }

  lemma PatienceRunsOut(d: int, step: int, holidays: set<int>)
    requires (step == 1 || step == -1) && !Working(d + step, holidays)
    ensures Patience(d + step, step, holidays) < Patience(d, step, holidays)
  {
  }

  function Abs(n: int): nat {
    if n < 0 then -n else n
  }

  /** `WORKDAY`: the day reached, for any day count and any finite set of holidays. */
  function Workday(start: int, days: int, holidays: set<int>): int
    decreases Abs(days), if days == 0 then 0 else Patience(start, Step(days), holidays)
  {
    if days == 0 then start
    else
      var d := start + Step(days);
      if Working(d, holidays) then Workday(d, days - Step(days), holidays)
      else
        PatienceRunsOut(start, Step(days), holidays);
        Workday(d, days, holidays)
  }

  /** `WORKDAY` as written. */
  method WorkdayLoop(start: int, days: int, holidays: seq<int>) returns (d: int)
    ensures d == Workday(start, days, set h | h in holidays)
  {
    hide Patience;
    d := start;
    var hols := set h | h in holidays;
    var remaining := days;
    var step := if remaining > 0 then 1 else -1;
    while remaining != 0
      invariant remaining != 0 ==> step == Step(remaining)
      invariant Workday(d, remaining, hols) == Workday(start, days, hols)
      decreases Abs(remaining), Patience(d, step, hols)
    {
      if !Working(d + step, hols) { PatienceRunsOut(d, step, hols); }
      d := d + step;
      if Weekday(d) < 5 && d !in hols {
        remaining := remaining - step;
      }
    }
  }

  /** `NETWORKDAYS` as written. */
  method NetWorkdaysLoop(start: int, end: int, holidays: seq<int>) returns (n: int)
    ensures n == NetWorkdays(start, end, set h | h in holidays)
  {
    var hols := set h | h in holidays;
    var count := 0;
    var d := start;
    var step := if end >= start then 1 else -1;
    NoDays(start, hols);
    while (step > 0 && d <= end) || (step < 0 && d >= end)
      invariant step > 0 ==> start <= d <= end + 1 && count == |Days(start, d - 1, hols)|
      invariant step < 0 ==> end - 1 <= d <= start && count == |Days(d + 1, start, hols)|
      decreases if step > 0 then end + 1 - d else d - end + 1
    {
      if step > 0 { DaysGrowRight(start, d, hols); } else { DaysGrowLeft(d, start, hols); }
      if Weekday(d) < 5 && d !in hols {
        count := count + 1;
      }
      d := d + step;
    }
    n := count * step;
  }

  lemma NoDays(start: int, holidays: set<int>)
    ensures Days(start, start - 1, holidays) == {} == Days(start + 1, start, holidays)
  {
  }

  lemma DaysGrowRight(a: int, d: int, holidays: set<int>)
    requires a <= d
    ensures Days(a, d, holidays) == Days(a, d - 1, holidays) + (if Working(d, holidays) then {d} else {})
    ensures |Days(a, d, holidays)| == |Days(a, d - 1, holidays)| + if Working(d, holidays) then 1 else 0
  {
  }

  lemma DaysGrowLeft(d: int, b: int, holidays: set<int>)
    requires d <= b
    ensures Days(d, b, holidays) == Days(d + 1, b, holidays) + (if Working(d, holidays) then {d} else {})
    ensures |Days(d, b, holidays)| == |Days(d + 1, b, holidays)| + if Working(d, holidays) then 1 else 0
  {
  }

  /** Forwards: the day reached is the n-th working day after the start. */
  lemma {:induction false} WorkdayForward(start: int, n: int, holidays: set<int>)
    requires n > 0
    ensures var end := Workday(start, n, holidays);
            start < end && Working(end, holidays) && |Days(start + 1, end, holidays)| == n
    decreases n, Patience(start, 1, holidays)
  {
    hide Patience;
    hide Days;
    var d := start + 1;
    if Working(d, holidays) {
      if n == 1 {
        NoDays(d, holidays);
        DaysGrowLeft(d, d, holidays);
      } else {
        WorkdayForward(d, n - 1, holidays);
        DaysGrowLeft(d, Workday(d, n - 1, holidays), holidays);
      }
    } else {
      PatienceRunsOut(start, 1, holidays);
      WorkdayForward(d, n, holidays);
      DaysGrowLeft(d, Workday(d, n, holidays), holidays);
    }
  }

  /** Backwards likewise. */
  lemma {:induction false} WorkdayBackward(start: int, n: int, holidays: set<int>)
    requires n < 0
    ensures var end := Workday(start, n, holidays);
            end < start && Working(end, holidays) && |Days(end, start - 1, holidays)| == -n
    decreases -n, Patience(start, -1, holidays)
  {
    hide Patience;
    hide Days;
    var d := start - 1;
    if Working(d, holidays) {
      if n == -1 {
        NoDays(d, holidays);
        DaysGrowRight(d, d, holidays);
      } else {
        WorkdayBackward(d, n + 1, holidays);
        DaysGrowRight(Workday(d, n + 1, holidays), d, holidays);
      }
    } else {
      PatienceRunsOut(start, -1, holidays);
      WorkdayBackward(d, n, holidays);
      DaysGrowRight(Workday(d, n, holidays), d, holidays);
    }
  }

  /** `WORKDAY` inverts `NETWORKDAYS`: from the day after (or before) the start to the day reached there are exactly
      `n` working days. The sign is `n`'s, except that a single day back counts as one forwards. */
  lemma WorkdayThenNet(start: int, n: int, holidays: set<int>)
    requires n != 0
    ensures var end := Workday(start, n, holidays);
            var net := NetWorkdays(start + Step(n), end, holidays);
            Working(end, holidays) && Abs(net) == Abs(n) && (net == n <==> n > 0 || end != start - 1)
  {
    if n > 0 { WorkdayForward(start, n, holidays); } else { WorkdayBackward(start, n, holidays); }
  }

  lemma {:induction false} DaysAreCounted(a: int, b: int, c: int, holidays: set<int>)
    requires a <= b < c && Working(c, holidays)
    ensures |Days(a, b, holidays)| < |Days(a, c, holidays)|
    decreases c - b
  {
    hide Working;
    DaysGrowRight(a, c, holidays);
    if b + 1 < c { DaysAreCountedWeakly(a, b, c - 1, holidays); }
  }

  lemma {:induction false} DaysAreCountedWeakly(a: int, b: int, c: int, holidays: set<int>)
    requires a <= b <= c
    ensures |Days(a, b, holidays)| <= |Days(a, c, holidays)|
    decreases c - b
  {
    hide Working;
    if b < c {
      DaysGrowRight(a, c, holidays);
      DaysAreCountedWeakly(a, b, c - 1, holidays);
    }
  }

  lemma {:induction false} DaysAreCountedBack(a: int, b: int, c: int, holidays: set<int>)
    requires a < b <= c && Working(a, holidays)
    ensures |Days(b, c, holidays)| < |Days(a, c, holidays)|
  {
    hide Working;
    DaysGrowLeft(a, c, holidays);
    if a + 1 < b { DaysAreCountedBackWeakly(a + 1, b, c, holidays); }
  }

  lemma {:induction false} DaysAreCountedBackWeakly(a: int, b: int, c: int, holidays: set<int>)
    requires a <= b <= c
    ensures |Days(b, c, holidays)| <= |Days(a, c, holidays)|
    decreases b - a
  {
    hide Working;
    if a < b {
      DaysGrowLeft(a, c, holidays);
      DaysAreCountedBackWeakly(a + 1, b, c, holidays);
    }
  }

  /** And the other way round: counting the working days to a working day and stepping that many gets there. */
  lemma NetThenWorkday(start: int, end: int, holidays: set<int>)
    requires Working(end, holidays) && end != start
    ensures end > start ==> Workday(start, NetWorkdays(start + 1, end, holidays), holidays) == end
    ensures end < start ==> Workday(start, 0 - Abs(NetWorkdays(start - 1, end, holidays)), holidays) == end
  {
    hide Workday;
    if end > start {
      var n := |Days(start + 1, end, holidays)|;
      assert end in Days(start + 1, end, holidays);
      assert n > 0;
      WorkdayForward(start, n, holidays);
      var e := Workday(start, n, holidays);
      if e < end { DaysAreCounted(start + 1, e, end, holidays); }
      if end < e { DaysAreCounted(start + 1, end, e, holidays); }
    } else {
      var n := |Days(end, start - 1, holidays)|;
      assert end in Days(end, start - 1, holidays);
      assert n > 0;
      WorkdayBackward(start, -n, holidays);
      var e := Workday(start, -n, holidays);
      if e < end { DaysAreCountedBack(e, end, start - 1, holidays); }
      if end < e { DaysAreCountedBack(end, e, start - 1, holidays); }
    }
  }
}
