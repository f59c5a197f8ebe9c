/**
 * The simulation clock of the daylight calculation: add_time_step advances
 * the global hour, day and month by a time step given in minutes, carrying
 * whole days out of the hour and whole months out of the day.
 */
module PerezCalendar {
  import opened CNumeric

  /** Month lengths used for the rollover: February always has 28 days. */
  const MonthDays: seq<int> := [31, 28, 31, 30, 31, 30, 31, 31, 30, 31, 30, 31]

  function MonthLength(m: int): (n: int)
    requires 1 <= m <= 12
    ensures 28 <= n <= 31
  {
    MonthDays[m - 1]
  }

  /** Days in the months before month m of a 365-day year. */
  function DaysBefore(m: int): (n: int)
    requires 1 <= m <= 13
    ensures n >= 0
  {
    if m == 1 then 0 else DaysBefore(m - 1) + MonthLength(m - 1)
  }

  /**
   * The twelve month tests of add_time_step from test k on, in their
   * order: the test for month j moves on to the next month (December to
   * January) when the day lies past the end of month j.
   */
  function RollFrom(k: int, m: int, d: int): (int, int)
    requires 1 <= k <= 13
    decreases 13 - k
  {
    if k == 13 then (m, d)
    else if m == k && d > MonthLength(k) then RollFrom(k + 1, if k == 12 then 1 else k + 1, d - MonthLength(k))
    else RollFrom(k + 1, m, d)
  }

  function Rollover(m: int, d: int): (int, int)
  {
    RollFrom(1, m, d)
  }

  /** Tests for months before the current one cannot fire. */
  lemma {:induction false} RollFromPast(k: int, m: int, d: int)
    requires 1 <= m < k <= 13
    ensures RollFrom(k, m, d) == (m, d)
    decreases 13 - k
  {
    if k < 13 {
      RollFromPast(k + 1, m, d);
    }
  }

  /**
   * The date (m', d') = r is date (m, d) with its day of the year kept,
   * less one year when it runs past December 31; it lies in a real month,
   * on a day within that month unless the year was left behind.
   */
  predicate KeepsDate(m: int, d: int, r: (int, int))
    requires 1 <= m <= 12
  {
    1 <= r.0 <= 12 && r.1 >= 1 &&
    DaysBefore(r.0) + r.1 == DaysBefore(m) + d - (if DaysBefore(m) + d > 365 then 365 else 0) &&
    (DaysBefore(m) + d <= 365 ==> r.1 <= MonthLength(r.0))
  }

  /** From test k on, a date in month m >= k keeps its day of the year (see KeepsDate). */
  lemma {:induction false} RollFromKeepsDate(k: int, m: int, d: int)
    requires 1 <= k <= m <= 12 && d >= 1
    ensures KeepsDate(m, d, RollFrom(k, m, d))
    decreases 13 - k, 1
  {
    if k < m {
      assert RollFrom(k, m, d) == RollFrom(k + 1, m, d);
      RollFromKeepsDate(k + 1, m, d);
    } else {
      RollFromAtMonth(k, d);
    }
  }

  /** The test for the date's own month keeps the date: it either leaves it or moves it into the next month. */
  lemma {:induction false} RollFromAtMonth(k: int, d: int)
    requires 1 <= k <= 12 && d >= 1
    ensures KeepsDate(k, d, RollFrom(k, k, d))
    decreases 13 - k, 0
  {
    if d <= MonthLength(k) {
      InMonthStays(k, d);
    } else if k == 12 {
      DecemberCarries(d);
    } else {
      var d' := d - MonthLength(k);
      assert RollFrom(k, k, d) == RollFrom(k + 1, k + 1, d');
      assert DaysBefore(k + 1) == DaysBefore(k) + MonthLength(k);
      RollFromKeepsDate(k + 1, k + 1, d');
    }
  }

  /** A day within its month passes every test unchanged. */
  lemma InMonthStays(k: int, d: int)
    requires 1 <= k <= 12 && 1 <= d <= MonthLength(k)
    ensures KeepsDate(k, d, RollFrom(k, k, d))
  {
    RollFromPast(k + 1, k, d);
    assert RollFrom(k, k, d) == (k, d);
    DaysBeforeMonotone(k, 13);
    YearLength();
  }

  /** A day past December 31 moves into January of the next year. */
  lemma DecemberCarries(d: int)
    requires d > 31
    ensures KeepsDate(12, d, RollFrom(12, 12, d))
  {
    RollFromPast(13, 1, d - 31);
    assert RollFrom(12, 12, d) == (1, d - 31);
    YearLength();
  }

  /** The year of the rollover has 365 days, 334 of them before December. */
  lemma YearLength()
    ensures DaysBefore(12) == 334 && DaysBefore(13) == 365
  {
    assert DaysBefore(2) == 31;
    assert DaysBefore(3) == 59;
    assert DaysBefore(4) == 90;
    assert DaysBefore(5) == 120;
    assert DaysBefore(6) == 151;
    assert DaysBefore(7) == 181;
    assert DaysBefore(8) == 212;
    assert DaysBefore(9) == 243;
    assert DaysBefore(10) == 273;
    assert DaysBefore(11) == 304;
    assert DaysBefore(12) == 334;
  }

  lemma {:induction false} DaysBeforeMonotone(m: int, n: int)
    requires 1 <= m <= n <= 13
    ensures DaysBefore(m) + (if m < n then MonthLength(m) else 0) <= DaysBefore(n)
    decreases n - m
  {
    if m < n - 1 {
      DaysBeforeMonotone(m, n - 1);
    }
  }

  /**
   * The month rollover keeps the day of the year, taken once modulo 365,
   * and leaves a valid month; the day lies within its month unless the
   * date ran past the end of the year.
   */
  lemma RolloverKeepsDate(m: int, d: int)
    requires 1 <= m <= 12 && d >= 1
    ensures KeepsDate(m, d, Rollover(m, d))
  {
    RollFromKeepsDate(1, m, d);
  }

  /** The whole days add_time_step carries out of an hour count: C's div of the truncated hour by 24. */
  function DayCarry(h: real): (q: int)
    ensures h >= 0.0 ==> q >= 0 && 0.0 <= h - 24.0 * q as real < 24.0
    ensures h < 0.0 ==> q <= 0 && -24.0 < h - 24.0 * q as real <= 0.0
  {
    CDiv(Trunc(h), 24)
  }

  /** The month test of add_time_step for month k. */
  method MonthTest(k: int, m0: int, d0: int) returns (m: int, d: int)
    requires 1 <= k <= 12
    ensures RollFrom(k + 1, m, d) == RollFrom(k, m0, d0)
    ensures m0 == k && d0 > MonthLength(k) ==> d == d0 - MonthLength(k) && m == (if k == 12 then 1 else k + 1)
    ensures !(m0 == k && d0 > MonthLength(k)) ==> m == m0 && d == d0
  {
    m, d := m0, d0;
    if m == k && d > MonthLength(k) {
      m := if k == 12 then 1 else m + 1;
      d := d - MonthLength(k);
    }
  }

  /** The twelve month tests of add_time_step, one after the other. */
  method RollMonths(m0: int, d0: int) returns (m: int, d: int)
    ensures (m, d) == Rollover(m0, d0)
  {
    m, d := MonthTest(1, m0, d0);
    m, d := MonthTest(2, m, d);
    m, d := MonthTest(3, m, d);
    m, d := MonthTest(4, m, d);
    m, d := MonthTest(5, m, d);
    m, d := MonthTest(6, m, d);
    m, d := MonthTest(7, m, d);
    m, d := MonthTest(8, m, d);
    m, d := MonthTest(9, m, d);
    m, d := MonthTest(10, m, d);
    m, d := MonthTest(11, m, d);
    m, d := MonthTest(12, m, d);
  }

  /** The global clock: hour of the day, day of the month, month of the year. */
  class SimClock {
    var hour: real
    var day: int
    var month: int

    constructor (h: real, d: int, m: int)
      ensures hour == h && day == d && month == m
    {
      hour, day, month := h, d, m;
    }

    /**
     * add_time_step: add a step in minutes to the hour, move the whole
     * days to the day count and roll the day over into later months.
     */
    method AddTimeStep(timeStep: real)
      modifies this
      ensures var h := old(hour) + timeStep / 60.0;
        hour == h - 24.0 * DayCarry(h) as real &&
        (month, day) == Rollover(old(month), old(day) + DayCarry(h))
      ensures old(hour) + timeStep / 60.0 >= 0.0 ==> 0.0 <= hour < 24.0
    {
      var h := hour + timeStep / 60.0;
      var quot := CDiv(Trunc(h), 24);
      var d := day + quot;
      h := h - quot as real * 24.0;
      var m, d' := RollMonths(month, d);
      hour, day, month := h, d', m;
    }
  }
}
