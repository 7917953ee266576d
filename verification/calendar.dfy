/** Instants, UTC weeks, ISO week names and RFC 3339 text.

    An instant is a count of nanoseconds since 1 January of year 1, 00:00 UTC,
    a Monday. It is the zero of Go's time.Time, so IsZero is "equals 0". */
module Calendar {
  import opened Decimal

  type Instant = int

  const SECOND := 1_000_000_000
  const MINUTE := 60 * SECOND
  const DAY := 86400 * SECOND
  const WEEK := 7 * DAY

  // ---------------------------------------------------------------- weeks

  function Truncate(t: Instant, d: int): Instant
    requires d > 0
  {
    t - t % d
  }

  /** time.Weekday: Sunday is 0. */
  function Weekday(t: Instant): int {
    (t / DAY + 1) % 7
  }

  function WeekStart(t: Instant): Instant {
    var midnight := Truncate(t, DAY);
    var offset := (Weekday(midnight) + 6) % 7;
    midnight - offset * DAY
  }

  /** A Monday, 00:00 UTC. */
  predicate IsMonday(t: Instant) {
    t % WEEK == 0
  }

  lemma WeekStartInWeeks(t: Instant)
    ensures WeekStart(t) == (t / DAY / 7) * WEEK
  {
    var q := t / DAY;
    assert Truncate(t, DAY) == q * DAY;
    assert Truncate(t, DAY) / DAY == q;
    assert ((q + 1) % 7 + 6) % 7 == q % 7;
  }

  /** WeekStart is the only Monday whose week holds t. */
  lemma WeekStartHolds(t: Instant)
    ensures IsMonday(WeekStart(t))
    ensures WeekStart(t) <= t < WeekStart(t) + WEEK
    ensures forall m | IsMonday(m) && m <= t < m + WEEK :: m == WeekStart(t)
  {
    WeekStartInWeeks(t);
    hide WeekStart;
    MultipleIsMonday(t / DAY / 7);
    forall m | IsMonday(m) && m <= t < m + WEEK ensures m == WeekStart(t) {
      MondaysApart(m, WeekStart(t));
      MondaysApart(WeekStart(t), m);
    }
  }

  lemma MultipleIsMonday(k: int)
    ensures IsMonday(k * WEEK)
  {
  }

  lemma WeekStartIdempotent(t: Instant)
    ensures WeekStart(WeekStart(t)) == WeekStart(t)
  {
    WeekStartHolds(t);
    WeekStartHolds(WeekStart(t));
  }

  lemma WeekStartMonotone(s: Instant, t: Instant)
    requires s <= t
    ensures WeekStart(s) <= WeekStart(t)
  {
    WeekStartHolds(s);
    WeekStartHolds(t);
    MondaysApart(WeekStart(s), WeekStart(t));
  }

  /** Two Mondays less than a week apart are the same Monday. */
  lemma MondaysApart(a: Instant, b: Instant)
    requires IsMonday(a) && IsMonday(b)
    ensures a < b ==> a + WEEK <= b
  {
    assert a == (a / WEEK) * WEEK && b == (b / WEEK) * WEEK;
  }

  // ----------------------------------------------------- the civil calendar

  predicate Leap(y: int) {
    y % 4 == 0 && (y % 100 != 0 || y % 400 == 0)
  }

  function YearLength(y: int): int {
    if Leap(y) then 366 else 365
  }

  /** Days before 1 January of year y, counted from 1 January of year 1. */
  function YearStart(y: int): int
    decreases if y < 1 then 2 - y else y
  {
    if y == 1 then 0
    else if y > 1 then YearStart(y - 1) + YearLength(y - 1)
    else YearStart(y + 1) - YearLength(y)
  }

  lemma YearStartNext(y: int)
    ensures YearStart(y + 1) == YearStart(y) + YearLength(y)
  {
  }

  /** Every fourth year is a leap year, every hundredth not, every four hundredth again. */
  lemma {:induction false} YearStartIs(y: int)
    ensures YearStart(y) == 365 * (y - 1) + (y - 1) / 4 - (y - 1) / 100 + (y - 1) / 400
    decreases if y < 1 then 2 - y else y
  {
    if y > 1 {
      YearStartIs(y - 1);
      LeapDays(y - 1);
    } else if y < 1 {
      YearStartIs(y + 1);
      LeapDays(y);
    }
    hide Leap;
  }

  lemma LeapDays(y: int)
    ensures y / 4 - y / 100 + y / 400 == (y - 1) / 4 - (y - 1) / 100 + (y - 1) / 400 + if Leap(y) then 1 else 0
  {
    Fourths(y);
    Hundredths(y);
  }

  lemma Fourths(y: int)
    ensures (y - 1) / 4 == y / 4 - if y % 4 == 0 then 1 else 0
  {
  }

  lemma Hundredths(y: int)
    ensures (y - 1) / 100 == y / 100 - if y % 100 == 0 then 1 else 0
    ensures (y - 1) / 400 == y / 400 - if y % 400 == 0 then 1 else 0
    ensures (y % 400 == 0 ==> y % 100 == 0) && (y % 100 == 0 ==> y % 4 == 0)
  {
  }

  /** The calendar repeats every 400 years, which are 146097 days. */
  lemma CenturiesRepeat(y: int)
    ensures YearStart(y + 400) == YearStart(y) + 146097
  {
    YearStartIs(y);
    YearStartIs(y + 400);
    hide YearStart;
    assert (y + 399) / 4 == (y - 1) / 4 + 100 && (y + 399) / 100 == (y - 1) / 100 + 4;
    assert (y + 399) / 400 == (y - 1) / 400 + 1;
  }

  function YearUp(day: int, y: int): (r: int)
    requires YearStart(y) <= day
    ensures YearStart(r) <= day < YearStart(r + 1)
    decreases day - YearStart(y)
  {
    if day < YearStart(y + 1) then y
    else
      YearStartNext(y);
      YearUp(day, y + 1)
  }

  function YearDown(day: int, y: int): (r: int)
    requires day < YearStart(y + 1)
    ensures YearStart(r) <= day < YearStart(r + 1)
    decreases YearStart(y + 1) - day
  {
    if YearStart(y) <= day then y
    else
      YearStartNext(y);
      YearDown(day, y - 1)
  }

  /** The year holding a day. */
  function YearOf(day: int): (y: int)
    ensures YearStart(y) <= day < YearStart(y + 1)
  {
    if day >= 0 then YearUp(day, 1) else YearDown(day, 0)
  }

  /** The ISO year and week of the week that starts on a Monday: those of its
      Thursday, section 4.1.4 of ISO 8601:2004. */
  function IsoWeek(monday: Instant): (r: (int, int))
    ensures 1 <= r.1 <= 53
  {
    var thursday := monday / DAY + 3;
    var year := YearOf(thursday);
    YearStartNext(year);
    (year, (thursday - YearStart(year)) / 7 + 1)
  }

  lemma IsoWeekInjective(a: Instant, b: Instant)
    requires IsMonday(a) && IsMonday(b) && IsoWeek(a) == IsoWeek(b)
    ensures a == b
  {
    MondayDay(a);
    MondayDay(b);
    SameSeventh(a / WEEK, b / WEEK, 3 - YearStart(IsoWeek(a).0));
  }

  lemma {:induction false} YearsGrow(a: int, b: int)
    requires a <= b
    ensures YearStart(a) <= YearStart(b)
    decreases b - a
  {
    if a < b {
      YearsGrow(a, b - 1);
      YearStartNext(b - 1);
    }
  }

  lemma YearOfIs(day: int, y: int)
    requires YearStart(y) <= day < YearStart(y + 1)
    ensures YearOf(day) == y
  {
    hide YearStart;
    var r := YearOf(day);
    if r < y {
      YearsGrow(r + 1, y);
    } else if y < r {
      YearsGrow(y + 1, r);
    }
  }

  /** Week 1 of a year is the one that holds its 4 January. */
  lemma WeekOneHoldsTheFourth(y: int)
    ensures IsoWeek(WeekStart((YearStart(y) + 3) * DAY)) == (y, 1)
  {
    var day := YearStart(y) + 3;
    var thursday := day / 7 * 7 + 3;
    YearStartNext(y);
    hide YearStart;
    YearOfIs(thursday, y);
    WeekStartInWeeks(day * DAY);
    hide WeekStart;
    ThursdayOf(day);
  }

  lemma ThursdayOf(day: int)
    ensures day * DAY / DAY == day && day / 7 * WEEK / DAY + 3 == day / 7 * 7 + 3
  {
    assert day / 7 * WEEK == day / 7 * 7 * DAY;
  }

  /** The weeks of a year are counted from there, one by one. */
  lemma NextWeek(monday: Instant)
    requires IsMonday(monday)
    ensures var (year, week) := IsoWeek(monday);
      IsoWeek(monday + WEEK) == (year, week + 1) || IsoWeek(monday + WEEK) == (year + 1, 1)
  {
    var thursday := monday / DAY + 3;
    var year := YearOf(thursday);
    YearStartNext(year);
    YearStartNext(year + 1);
    SevenDaysOn(monday);
    hide YearStart, IsMonday;
    YearOfIs(thursday + 7, if thursday + 7 < YearStart(year + 1) then year else year + 1);
    SevenOn(thursday - YearStart(year));
  }

  lemma SevenDaysOn(t: Instant)
    ensures (t + WEEK) / DAY == t / DAY + 7
  {
  }

  lemma SevenOn(days: int)
    ensures (days + 7) / 7 == days / 7 + 1
  {
  }

  lemma MondayDay(a: Instant)
    requires IsMonday(a)
    ensures a == (a / WEEK) * WEEK && a / DAY == 7 * (a / WEEK)
  {
    assert a == (a / WEEK) * WEEK;
    assert a == (7 * (a / WEEK)) * DAY;
  }

  lemma SameSeventh(p: int, q: int, r: int)
    requires (7 * p + r) / 7 == (7 * q + r) / 7
    ensures p == q
  {
  }

  function TwoDigits(n: int): (s: string)
    requires 0 <= n < 100
    ensures |s| == 2 && IsDigit(s[0]) && IsDigit(s[1])
    ensures DigitValue(s[0]) * 10 + DigitValue(s[1]) == n
  {
    [Digit(n / 10), Digit(n % 10)]
  }

  /** events_wYYYY_WW, the name a week's partition carries. */
  function PartitionName(weekStart: Instant): string {
    var (year, week) := IsoWeek(weekStart);
    "events_w" + Itoa(year) + "_" + TwoDigits(week)
  }

  /** No two weeks share a name, which the one-record-per-name key rests on. */
  lemma PartitionNameInjective(a: Instant, b: Instant)
    requires IsMonday(a) && IsMonday(b) && PartitionName(a) == PartitionName(b)
    ensures a == b
  {
    var (ya, wa) := IsoWeek(a);
    var (yb, wb) := IsoWeek(b);
    var na, nb := PartitionName(a), PartitionName(b);
    var ta, tb := Itoa(ya), Itoa(yb);
    assert |na| == |ta| + 11 && |nb| == |tb| + 11;
    assert na[8..|na| - 3] == ta;
    assert nb[8..|nb| - 3] == tb;
    ItoaInjective(ya, yb);
    assert na[|na| - 2..] == TwoDigits(wa);
    assert nb[|nb| - 2..] == TwoDigits(wb);
    IsoWeekInjective(a, b);
  }
}
