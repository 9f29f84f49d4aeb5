/** Billing periods: calendar months of the proleptic Gregorian calendar in UTC. Instants are nanoseconds
    since the start of the year 1, the zero of the Go clock; months are numbered from January of that
    year, earlier ones negatively. */
module Calendar {

  const DAY := 86_400_000_000_000

  /** Half-open. */
  datatype Period = Period(start: int, end: int) {
    predicate Holds(t: int) {
      start <= t < end
    }
  }

  // ---------------------------------------------------------------- the calendar

  predicate Leap(year: int) {
    year % 4 == 0 && (year % 100 != 0 || year % 400 == 0)
  }

  function DaysIn(m: int): (days: int)
    ensures 28 <= days <= 31
  {
    match m % 12
    case 1 => if Leap(m / 12 + 1) then 29 else 28
    case 3 => 30
    case 5 => 30
    case 8 => 30
    case 10 => 30
    case _ => 31
  }

  /** The days from the zero of the clock to the first of the month `m`. */
  function DaysTo(m: int): int
    decreases if m < 0 then -m else m
  {
    if m == 0 then 0
    else if m > 0 then DaysTo(m - 1) + DaysIn(m - 1)
    else DaysTo(m + 1) - DaysIn(m)
  }

  /** The first instant of the month `m`. */
  function FirstOf(m: int): int {
    DAY * DaysTo(m)
  }

  /** Days of a common year before its month `k`. */
  function DaysBefore(k: int): int
    requires 0 <= k < 12
  {
    [0, 31, 59, 90, 120, 151, 181, 212, 243, 273, 304, 334][k]
  }

  function ClosedForm(m: int): int {
    var y, k := m / 12, m % 12;
    365 * y + y / 4 - y / 100 + y / 400 + DaysBefore(k) + if k >= 2 && Leap(y + 1) then 1 else 0
  }

  lemma Quarters(y: int)
    ensures y / 4 - (y - 1) / 4 == if y % 4 == 0 then 1 else 0
  {
  }

  lemma Centuries(y: int)
    ensures y / 100 - (y - 1) / 100 == if y % 100 == 0 then 1 else 0
    ensures y % 100 == 0 ==> y % 4 == 0
  {
    if y % 100 == 0 {
      assert y - 1 == 100 * (y / 100 - 1) + 99;
      assert y == 4 * (25 * (y / 100));
    } else {
      assert y - 1 == 100 * (y / 100) + (y % 100 - 1);
    }
  }

  lemma Cycles(y: int)
    ensures y / 400 - (y - 1) / 400 == if y % 400 == 0 then 1 else 0
    ensures y % 400 == 0 ==> y % 100 == 0
  {
    if y % 400 == 0 {
      assert y - 1 == 400 * (y / 400 - 1) + 399;
      assert y == 100 * (4 * (y / 400));
    } else {
      assert y - 1 == 400 * (y / 400) + (y % 400 - 1);
    }
  }

  lemma LeapDays(y: int)
    ensures y / 4 - y / 100 + y / 400 - ((y - 1) / 4 - (y - 1) / 100 + (y - 1) / 400) == if Leap(y) then 1 else 0
  {
    Quarters(y);
    Centuries(y);
    Cycles(y);
  }

  lemma ClosedFormStep(m: int)
    ensures ClosedForm(m + 1) == ClosedForm(m) + DaysIn(m)
  {
    var y, k := m / 12, m % 12;
    if k == 11 {
      assert (m + 1) / 12 == y + 1 && (m + 1) % 12 == 0;
      LeapDays(y + 1);
    } else {
      assert (m + 1) / 12 == y && (m + 1) % 12 == k + 1;
    }
  }

  /** Adding up the lengths of the months comes to the usual count of days, leap years included. */
  lemma {:induction false} DaysToClosedForm(m: int)
    ensures DaysTo(m) == ClosedForm(m)
    decreases if m < 0 then -m else m
  {
    if m > 0 {
      DaysToClosedForm(m - 1);
      ClosedFormStep(m - 1);
    } else if m < 0 {
      DaysToClosedForm(m + 1);
      ClosedFormStep(m);
    }
  }

  lemma MonthLength(m: int)
    ensures FirstOf(m) + 28 * DAY <= FirstOf(m + 1) <= FirstOf(m) + 31 * DAY
  {
  }

  lemma {:induction false} MonthsInOrder(m: int, n: int)
    requires m <= n
    ensures FirstOf(m) + 28 * DAY * (n - m) <= FirstOf(n) <= FirstOf(m) + 31 * DAY * (n - m)
    decreases n - m
  {
    if m < n {
      MonthLength(n - 1);
      MonthsInOrder(m, n - 1);
    }
  }

  function SearchUp(m: int, t: int): (found: int)
    requires FirstOf(m) <= t
    ensures FirstOf(found) <= t < FirstOf(found + 1)
    decreases t - FirstOf(m)
  {
    MonthLength(m);
    if t < FirstOf(m + 1) then m else SearchUp(m + 1, t)
  }

  function SearchDown(m: int, t: int): (found: int)
    requires t < FirstOf(m + 1)
    ensures FirstOf(found) <= t < FirstOf(found + 1)
    decreases FirstOf(m + 1) - t
  {
    MonthLength(m);
    if FirstOf(m) <= t then m else SearchDown(m - 1, t)
  }

  /** The month an instant is in. */
  function MonthOf(t: int): (m: int)
    ensures FirstOf(m) <= t < FirstOf(m + 1)
  {
    if t >= 0 then SearchUp(0, t) else SearchDown(-1, t)
  }

  lemma LaterMonthStarts(m: int, n: int)
    requires m <= n
    ensures FirstOf(m) <= FirstOf(n)
  {
    MonthsInOrder(m, n);
  }

  lemma MonthsDisjoint(m: int, n: int, t: int)
    requires FirstOf(m) <= t < FirstOf(m + 1) && FirstOf(n) <= t < FirstOf(n + 1)
    ensures m == n
  {
    if m < n {
      LaterMonthStarts(m + 1, n);
    } else if n < m {
      LaterMonthStarts(n + 1, m);
    }
  }

  /** Every instant is in exactly one month. */
  lemma MonthIsUnique(m: int, t: int)
    ensures MonthPeriod(m).Holds(t) <==> m == MonthOf(t)
  {
    if MonthPeriod(m).Holds(t) {
      MonthsDisjoint(m, MonthOf(t), t);
    }
  }

  function MonthPeriod(m: int): Period {
    Period(FirstOf(m), FirstOf(m + 1))
  }

  // ---------------------------------------------------------------- the clock's operations

  function Year(t: int): int {
    MonthOf(t) / 12 + 1
  }

  function Month(t: int): int {
    MonthOf(t) % 12 + 1
  }

  /** The first of a month; months outside 1 to 12 run over into other years. */
  function Date(year: int, month: int): int {
    FirstOf(12 * (year - 1) + month - 1)
  }

  /** The Unix epoch, in nanoseconds from the zero of the clock. */
  lemma UnixEpoch(year: int, month: int)
    requires year == 1970 && month == 1
    ensures Date(year, month) == 62_135_596_800 * 1_000_000_000
  {
    var m := 12 * (year - 1) + month - 1;
    DaysToClosedForm(m);
    assert m / 12 == 1969 && m % 12 == 0;
    assert ClosedForm(m) == 719162;
  }

  /** As many months later, on the same day of the month at the same time; days past the end of that month
      run over. */
  function AddMonths(t: int, n: int): int {
    Date(Year(t), Month(t) + n) + (t - FirstOf(MonthOf(t)))
  }

  /** The period the job bills when it runs at `now`. */
  function ScheduledPeriod(now: int): Period {
    var thisMonth := Date(Year(now), Month(now));
    var lastMonth := AddMonths(thisMonth, -1);
    Period(lastMonth, thisMonth)
  }

  /** At whatever instant of a month the job runs, it bills the whole month before, year ends included. */
  lemma JobBillsPreviousMonth(now: int)
    ensures ScheduledPeriod(now) == MonthPeriod(MonthOf(now) - 1)
  {
    var m := MonthOf(now);
    assert Date(Year(now), Month(now)) == FirstOf(m);
    MonthLength(m);
    MonthIsUnique(m, FirstOf(m));
    var y, k := m / 12, m % 12;
    assert 12 * (y + 1 - 1) + (k + 1 - 1) - 1 == m - 1;
    assert AddMonths(FirstOf(m), -1) == FirstOf(m - 1);
  }

  /** An instant is billed by the runs of the month after it and by no others. */
  lemma BilledByNextMonthsRuns(now: int, t: int)
    ensures ScheduledPeriod(now).Holds(t) <==> MonthOf(now) == MonthOf(t) + 1
  {
    JobBillsPreviousMonth(now);
    MonthIsUnique(MonthOf(now) - 1, t);
  }
}
