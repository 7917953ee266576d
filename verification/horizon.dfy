/** The span of weeks the horizon maintainer keeps, the floor the retention run
    derives from it, and when the two can disagree about a week. */
module Horizon {
  import opened Decimal
  import opened Calendar
  import opened Lifecycle

  datatype Span = Span(ahead: int64, behind: int64) {
    function WithDefaults(): (s: Span)
      ensures s.ahead > 0 && s.behind > 0
    {
      Span(if ahead <= 0 then 4 else ahead, if behind <= 0 then 2 else behind)
    }

    /** The weeks of the horizon, the current one among them. */
    function Weeks(): nat
      requires ahead > 0 && behind > 0
    {
      behind + ahead + 1
    }
  }

  // ------------------------------------------------------------- the floor

  /** time.Duration(Behind) * 7 * 24 * time.Hour, each product on an int64. */
  function FloorDuration(behind: int64): int64 {
    Wrap64(Wrap64(Wrap64(behind as int * 7) * 24) * 3600 * SECOND)
  }

  /** The most weeks behind whose floor an int64 of nanoseconds can hold. */
  const MAX_BEHIND := 15250

  /** The floor is the span's length exactly while it fits an int64. */
  lemma FloorIsExact(behind: int64)
    requires behind > 0
    ensures FloorDuration(behind) == behind * WEEK <==> behind <= MAX_BEHIND
  {
  }

  /** What the guard makes every promise cover. */
  function Protected(behind: int64): nat {
    if FloorDuration(behind) > 0 then FloorDuration(behind) else 0
  }

  /** The two guards on the promise. */
  predicate PromiseAllowed(keep: int64, behind: int64) {
    0 < keep && FloorDuration(behind) <= keep
  }

  /** A promise the guard lets through covers the weeks kept behind, for every
      promise, exactly up to that many weeks. Past it the floor wraps. What is protected
      is what the least such promise covers, and up to there the weeks kept behind. */
  lemma FloorGuards(behind: int64)
    requires behind > 0
    ensures (forall keep: int64 :: PromiseAllowed(keep, behind) ==> behind * WEEK <= keep)
      <==> behind <= MAX_BEHIND
    ensures behind <= MAX_BEHIND ==> Protected(behind) == behind * WEEK
    ensures forall keep: int64 :: PromiseAllowed(keep, behind) ==> Protected(behind) <= keep
    ensures Protected(behind) > 0 ==> PromiseAllowed(Protected(behind), behind)
  {
    FloorIsExact(behind);
    if behind > MAX_BEHIND {
      var keep: int64 := MAX_INT64;
      assert PromiseAllowed(keep, behind) && behind * WEEK > keep;
    }
  }

  // ----------------------------------------------------------- the horizon

  predicate WholeWeeks(d: int) {
    d % WEEK == 0
  }

  /** The length of the weeks kept behind the current one. */
  function Kept(behind: nat): (kept: nat) {
    behind * WEEK
  }

  lemma KeptIsWhole(behind: nat)
    ensures WholeWeeks(Kept(behind)) && Kept(behind) >= behind
  {
    MultipleIsMonday(behind);
  }

  /** The i-th week of the horizon, whose oldest is kept behind the current one. */
  function HorizonWeek(now: Instant, kept: nat, i: nat): Instant {
    WeekStart(now) - kept + i * WEEK
  }

  lemma HorizonWeekIsMonday(now: Instant, kept: nat, i: nat)
    requires WholeWeeks(kept)
    ensures IsMonday(HorizonWeek(now, kept, i))
    ensures WeekStart(now) - kept <= HorizonWeek(now, kept, i)
  {
    WeekStartHolds(now);
    WholeWeeksApart(WeekStart(now), kept, i);
  }

  lemma WholeWeeksApart(m: Instant, kept: nat, i: nat)
    requires IsMonday(m) && WholeWeeks(kept)
    ensures IsMonday(m - kept + i * WEEK) && i * WEEK >= 0
  {
    assert m - kept + i * WEEK == (m / WEEK - kept / WEEK + i) * WEEK;
    MultipleIsMonday(m / WEEK - kept / WEEK + i);
  }

  function WeekName(now: Instant, kept: nat, i: nat): Name {
    PartitionName(HorizonWeek(now, kept, i))
  }

  /** The names the horizon still lacks, in the order they are created. */
  function Missing(have: set<Name>, now: Instant, kept: nat, count: nat): seq<Name> {
    if count == 0 then []
    else
      Missing(have, now, kept, count - 1) +
      (if WeekName(now, kept, count - 1) in have then [] else [WeekName(now, kept, count - 1)])
  }

  predicate Present(c: Catalog, from: Instant) {
    var n := PartitionName(from);
    n in c.attached && c.attached[n].from == from && c.attached[n].to == from + WEEK && !c.attached[n].pending
  }

  /** The first weeks of the horizon, count of them, are there. */
  ghost predicate HorizonThere(c: Catalog, now: Instant, kept: nat, count: nat) {
    forall i: nat | i < count :: Present(c, HorizonWeek(now, kept, i))
  }

  predicate Holds(c: Catalog, n: Name, t: Instant) {
    n in c.attached && c.attached[n].from <= t < c.attached[n].to
  }

  /** Every instant of the horizon lies in exactly one attached partition. */
  lemma HorizonTiles(c: Catalog, now: Instant, kept: nat, behind: nat, ahead: nat, t: Instant, floor: nat)
    requires Inv(c, floor) && kept == Kept(behind) && HorizonThere(c, now, kept, behind + ahead + 1)
    requires WeekStart(now) - kept <= t < WeekStart(now) + (ahead + 1) * WEEK
    ensures Holds(c, PartitionName(WeekStart(t)), t)
    ensures forall n | Holds(c, n, t) :: n == PartitionName(WeekStart(t))
  {
    var d := t - (WeekStart(now) - kept);
    var i := d / WEEK;
    InSpan(d, kept, behind, ahead, i);
    HorizonWeekIsMonday(now, kept, i);
    WeekStartHolds(t);
    assert WeekStart(t) == HorizonWeek(now, kept, i);
    assert Present(c, HorizonWeek(now, kept, i));
    forall n | Holds(c, n, t) ensures n == PartitionName(WeekStart(t)) {
      assert NameOk(c, n, floor);
    }
  }

  lemma InSpan(d: int, kept: nat, behind: nat, ahead: nat, i: int)
    requires kept == Kept(behind) && 0 <= d < kept + (ahead + 1) * WEEK && i == d / WEEK
    ensures WholeWeeks(kept)
    ensures 0 <= i < behind + ahead + 1 && i * WEEK <= d < i * WEEK + WEEK
  {
    Grows(behind + ahead + 1, i);
  }

  lemma Grows(j: int, i: int)
    ensures j <= i ==> j * WEEK <= i * WEEK
  {
  }

  /** A second run at the same moment has nothing to create. */
  lemma {:induction false} NothingLeftToCreate(c: Catalog, now: Instant, kept: nat, count: nat)
    requires HorizonThere(c, now, kept, count)
    ensures Missing(c.attached.Keys, now, kept, count) == []
  {
    hide PartitionName, HorizonWeek;
    if count > 0 {
      NothingLeftToCreate(c, now, kept, count - 1);
      assert Present(c, HorizonWeek(now, kept, count - 1));
    }
  }

  // ---------------------------------------------- what a horizon run may ask for

  /** A week a run asks for by name has no record, or is attached in full. */
  predicate Clear(c: Catalog, n: Name) {
    n in c.records ==> n in c.attached && !c.attached[n].pending
  }

  predicate HorizonClear(c: Catalog, now: Instant, kept: nat, count: nat) {
    forall i: nat | i < count :: Clear(c, WeekName(now, kept, i))
  }

  /** A clock read in no earlier week than any retention run's asks for no week that
      has a record. */
  lemma FreshClockAsksForNoRecord(c: Catalog, now: Instant, span: nat, k: nat, kept: nat)
    requires Inv(c, kept) && WholeWeeks(span) && span <= kept && WeekStart(c.newest) <= WeekStart(now)
    ensures WeekName(now, span, k) !in c.records
  {
    hide PartitionName;
    HorizonWeekIsMonday(now, span, k);
    HorizonIsUnrecorded(c, HorizonWeek(now, span, k), kept);
  }

  lemma FreshClockIsClear(c: Catalog, now: Instant, span: nat, count: nat, kept: nat)
    requires Inv(c, kept) && WholeWeeks(span) && span <= kept && WeekStart(c.newest) <= WeekStart(now)
    ensures HorizonClear(c, now, span, count)
  {
    forall i: nat | i < count ensures Clear(c, WeekName(now, span, i)) {
      FreshClockAsksForNoRecord(c, now, span, i, kept);
    }
  }

  /** A week that is not clear comes to grief: skipped by its name while it is not
      there, or created over the record that says it was dropped, which no history of
      the maintainers allows. */
  lemma UnclearWeekFails(c: Catalog, from: Instant, kept: nat)
    requires Inv(c, kept) && IsMonday(from) && !Clear(c, PartitionName(from))
    ensures PartitionName(from) in c.attached || PartitionName(from) in c.standalone ==> !Present(c, from)
    ensures PartitionName(from) !in c.attached && PartitionName(from) !in c.standalone ==>
      Accepts(c, Create(from)) && !Inv(Apply(c, Create(from)), kept)
  {
    var n := PartitionName(from);
    assert NameOk(c, n, kept);
    if n !in c.attached && n !in c.standalone {
      NoOverlap(c, from, kept);
      hide PartitionName;
      assert !NameOk(Apply(c, Create(from)), n, kept);
    }
  }

  /** Weeks start on Mondays, so a week of another name overlaps none that is there. */
  lemma NoOverlap(c: Catalog, from: Instant, kept: nat)
    requires Inv(c, kept) && IsMonday(from) && PartitionName(from) !in c.attached
    ensures forall n | n in c.attached :: !Overlaps(c.attached[n], from, from + WEEK)
  {
    forall n | n in c.attached ensures !Overlaps(c.attached[n], from, from + WEEK) {
      hide PartitionName;
      assert NameOk(c, n, kept);
      var p := c.attached[n];
      MondaysApart(p.from, from);
      MondaysApart(from, p.from);
    }
  }
}
