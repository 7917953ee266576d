/** Both maintainers on one server for as long as anyone cares to run them, and what
    becomes of a horizon run whose clock is stale. */
module Operations {
  import opened Wrappers
  import opened Decimal
  import opened Calendar
  import opened Lifecycle
  import opened Histories
  import opened Horizon
  import opened Server
  import E = PartitionMaintainer
  import R = Retention

  lemma PrefixEvolves(before: seq<Catalog>, states: seq<Catalog>, steps: seq<Step>, kept: nat)
    requires IsHistory(states, steps, kept) && before != [] && before <= states
    ensures Evolves(before[|before| - 1], states[|steps|])
  {
    HistoryEvolves(states, steps, |before| - 1, |steps|, kept);
  }

  lemma NonEmpty(states: seq<Catalog>, steps: seq<Step>, kept: nat)
    requires IsHistory(states, steps, kept)
    ensures |states| == |steps| + 1
  {
  }

  /** A run of either maintainer. */
  datatype Job = Ensure(now: Instant, span: Span) | Retire(now: Instant, keep: int64, span: Span)

  /** What a run answered. Unclear is a run that was not made. */
  datatype Answer =
    | Unclear
    | Ensured(created: seq<Name>, stopped: Option<E.EnsureError>)
    | Retired(dropped: seq<R.Dropped>, refused: Option<R.RetainError>)

  /** No retention run answered that a week it dropped is back. */
  predicate NoneReturned(answers: seq<Answer>) {
    forall a | a in answers && a.Retired? && a.refused.Some? :: !a.refused.value.WeekReturned?
  }

  predicate Clears(c: Catalog, now: Instant, span: Span) {
    HorizonClear(c, now, Kept(span.WithDefaults().behind), span.WithDefaults().Weeks())
  }

  /** A run that answered nil has done its work: every instant of the span is covered, or
      nothing past the promise is left. */
  ghost predicate Achieved(c: Catalog, job: Job, a: Answer) {
    && (job.Ensure? && a.Ensured? && a.stopped.None? ==>
          E.Covered(c, job.now, if job.span.behind <= 0 then 2 else job.span.behind,
                    if job.span.ahead <= 0 then 4 else job.span.ahead))
    && (job.Retire? && a.Retired? && a.refused.None? ==> R.Converged(c, job.now - job.keep))
  }

  /** One run. */
  method Do(db: Database, job: Job) returns (a: Answer)
    requires db.Valid() && !db.locked
    requires job.Retire? ==> db.kept <= Protected(job.span.WithDefaults().behind)
    modifies db
    ensures db.Valid() && !db.locked && old(db.steps) <= db.steps && old(db.states) <= db.states
    ensures NoneReturned([a])
    ensures db.cat.newest <= Max(old(db.cat.newest), job.now)
    ensures a.Unclear? <==> job.Ensure? && !Clears(old(db.cat), job.now, job.span)
    ensures a.Retired? <==> job.Retire?
    ensures Achieved(db.cat, job, a)
  {
    hide *;
    match job {
      case Ensure(now, span) =>
        NewestStays(db.cat, db.cat, [], false);
        NotReturned(Unclear);
        if !Clears(db.cat, now, span) {
          AchievedIs(db.cat, job, Unclear);
          return Unclear;
        }
        ClearsMeans(db.cat, now, span);
        ghost var before := db.cat;
        var created, err := E.EnsurePartitions(db, now, span);
        NewestStays(before, db.cat, created, err.None?);
        a := Ensured(created, err);
      case Retire(now, keep, span) =>
        var dropped, err := R.Retain(db, now, keep, span);
        a := Retired(dropped, err);
    }
    NotReturned(a);
    AchievedIs(db.cat, job, a);
  }

  lemma ClearsMeans(c: Catalog, now: Instant, span: Span)
    requires Clears(c, now, span)
    ensures HorizonClear(c, now, Kept(span.WithDefaults().behind), span.WithDefaults().Weeks())
  {
  }

  lemma AchievedIs(c: Catalog, job: Job, a: Answer)
    requires job.Ensure? && a.Ensured? && a.stopped.None? ==>
      E.Covered(c, job.now, if job.span.behind <= 0 then 2 else job.span.behind,
                if job.span.ahead <= 0 then 4 else job.span.ahead)
    requires job.Retire? && a.Retired? && a.refused.None? ==> R.Converged(c, job.now - job.keep)
    ensures Achieved(c, job, a)
  {
  }

  lemma NotReturned(a: Answer)
    requires a.Retired? && a.refused.Some? ==> !a.refused.value.WeekReturned?
    ensures NoneReturned([a])
  {
  }

  lemma NewestStays(c: Catalog, d: Catalog, created: seq<Name>, complete: bool)
    ensures forall all | E.Created(c, d, created, all, complete) :: d.newest == c.newest
    ensures forall m: Instant :: c.newest <= Max(c.newest, m)
  {
  }

  /** Any runs of either maintainer, in any order, each with any clock, any span and any
      promise, each stopped anywhere, with any writes in between. The retention runs'
      guards cover what the history is told under, and a horizon run whose weeks are not
      clear is not made. No run finds a week it dropped back in the table, and what the
      past fixed at the start is still so at the end; and what the last run answered nil
      for is so then. */
  method Operate(db: Database, jobs: seq<Job>) returns (answers: seq<Answer>)
    requires db.Valid() && !db.locked
    requires forall j | j in jobs && j.Retire? :: db.kept <= Protected(j.span.WithDefaults().behind)
    modifies db
    ensures db.Valid() && !db.locked && old(db.steps) <= db.steps && old(db.states) <= db.states
    ensures |answers| == |jobs| && NoneReturned(answers)
    ensures jobs != [] ==> Achieved(db.cat, jobs[|jobs| - 1], answers[|jobs| - 1])
    ensures Evolves(old(db.cat), db.cat)
    ensures forall n | Gone(old(db.cat), n) :: n !in db.cat.attached && n !in db.cat.standalone
  {
    hide IsHistory, WeekStart, Achieved, Clears;
    NonEmpty(db.states, db.steps, db.kept);
    answers := [];
    for i := 0 to |jobs|
      invariant db.Valid() && !db.locked && old(db.steps) <= db.steps && old(db.states) <= db.states
      invariant i > 0 ==> |answers| == i && Achieved(db.cat, jobs[i - 1], answers[i - 1])
      invariant |answers| == i && NoneReturned(answers)
    {
      db.Others();
      assert jobs[i] in jobs;
      var a := Do(db, jobs[i]);
      NoneReturnedSnoc(answers, a);
      answers := answers + [a];
    }
    NonEmpty(db.states, db.steps, db.kept);
    PrefixEvolves(old(db.states), db.states, db.steps, db.kept);
  }

  lemma NoneReturnedSnoc(answers: seq<Answer>, a: Answer)
    requires NoneReturned(answers) && NoneReturned([a])
    ensures NoneReturned(answers + [a])
  {
    assert a in [a];
  }

  /** One span, and clocks that do not go back. */
  predicate InOrder(jobs: seq<Job>, span: Span) {
    && (forall j | j in jobs :: j.span == span)
    && forall i, k | 0 <= i < k < |jobs| :: jobs[i].now <= jobs[k].now
  }

  /** Retention and the horizon never fight: any runs of both maintainers with one span,
      under clocks that do not go back from one run to the next, with any promises, each
      stopped anywhere, with any writes in between. Every run is made, every week a
      horizon run asks for is clear, and no retention run finds a week back. */
  method OperateInOrder(db: Database, jobs: seq<Job>, span: Span) returns (answers: seq<Answer>)
    requires db.Valid() && !db.locked && InOrder(jobs, span)
    requires Kept(span.WithDefaults().behind) <= db.kept <= Protected(span.WithDefaults().behind)
    requires forall j | j in jobs :: db.cat.newest <= j.now
    modifies db
    ensures db.Valid() && !db.locked && old(db.steps) <= db.steps && old(db.states) <= db.states
    ensures |answers| == |jobs| && NoneReturned(answers) && Unclear !in answers
    ensures forall i | 0 <= i < |jobs| :: answers[i].Retired? <==> jobs[i].Retire?
    ensures jobs != [] ==> Achieved(db.cat, jobs[|jobs| - 1], answers[|jobs| - 1])
    ensures Evolves(old(db.cat), db.cat)
    ensures forall n | Gone(old(db.cat), n) :: n !in db.cat.attached && n !in db.cat.standalone
  {
    hide IsHistory, WeekStart, Achieved, Clears, Inv, Frame;
    NonEmpty(db.states, db.steps, db.kept);
    KeptIsWhole(span.WithDefaults().behind);
    answers := [];
    for i := 0 to |jobs|
      invariant db.Valid() && !db.locked && old(db.steps) <= db.steps && old(db.states) <= db.states
      invariant i > 0 ==> |answers| == i && Achieved(db.cat, jobs[i - 1], answers[i - 1])
      invariant |answers| == i && NoneReturned(answers) && Unclear !in answers
      invariant forall k | 0 <= k < i :: answers[k].Retired? <==> jobs[k].Retire?
      invariant forall k | i <= k < |jobs| :: db.cat.newest <= jobs[k].now
    {
      ghost var before := db.cat;
      db.Others();
      FrameNewest(before, db.cat);
      assert jobs[i] in jobs;
      db.Known();
      InOrderIsClear(db.cat, jobs[i].now, span, db.kept);
      var a := Do(db, jobs[i]);
      NoneReturnedSnoc(answers, a);
      answers := answers + [a];
    }
    NonEmpty(db.states, db.steps, db.kept);
    PrefixEvolves(old(db.states), db.states, db.steps, db.kept);
  }

  lemma FrameNewest(c: Catalog, d: Catalog)
    requires Frame(c, d, {})
    ensures c.newest == d.newest
  {
  }

  lemma InOrderIsClear(c: Catalog, now: Instant, span: Span, kept: nat)
    requires Inv(c, kept) && c.newest <= now && Kept(span.WithDefaults().behind) <= kept
    ensures Clears(c, now, span)
  {
    hide PartitionName, HorizonClear, WeekStart, Inv;
    KeptIsWhole(span.WithDefaults().behind);
    WeekStartMonotone(c.newest, now);
    FreshClockIsClear(c, now, Kept(span.WithDefaults().behind), span.WithDefaults().Weeks(), kept);
  }

  // ------------------------------------------------------------ a stale clock

  /** A week that was dropped, and its record closed. */
  predicate DroppedAndStamped(c: Catalog, n: Name) {
    Gone(c, n) && R.ClosedRecord(c, n)
  }

  /** The life of one week that is attached and empty: recorded, detached, counted,
      dropped and stamped by a retention run at this clock. */
  function Retirement(n: Name, acted: Instant): seq<Step> {
    [Begin(acted), Record(n), DetachStart(n), DetachFinish(n), WriteCount(n, 0, acted), DropTable(n), Stamp(n, acted)]
  }

  /** A table that has one empty week, under a clock. */
  function OneWeek(from: Instant, acted: Instant): Catalog {
    var n := PartitionName(from);
    Catalog(map[n := Partition(from, from + WEEK, false, 0)], map[], map[], false, acted, map[n := 0], acted)
  }

  function WithRecord(c: Catalog, n: Name, r: DropRecord): Catalog {
    c.(records := map[n := r])
  }

  /** The week on its own, recorded and detached. */
  function Detached(from: Instant, acted: Instant): Catalog {
    var n := PartitionName(from);
    WithRecord(OneWeek(from, acted), n, DropRecord(from, from + WEEK, None, None, None))
    .(attached := map[], standalone := map[n := 0])
  }

  function Counted(from: Instant, acted: Instant): DropRecord {
    DropRecord(from, from + WEEK, Some(0), Some(acted), None)
  }

  /** What is left of the week: its record. */
  function Remembered(from: Instant, acted: Instant, r: DropRecord): Catalog {
    WithRecord(OneWeek(from, acted), PartitionName(from), r).(attached := map[])
  }

  /** The states the retirement of that week goes through. */
  function Retiring(from: Instant, acted: Instant): seq<Catalog> {
    var n := PartitionName(from);
    var c, off := OneWeek(from, acted), Detached(from, acted);
    var recorded := WithRecord(c, n, DropRecord(from, from + WEEK, None, None, None));
    [c, c, recorded, recorded.(attached := map[n := Partition(from, from + WEEK, true, 0)]), off,
     WithRecord(off, n, Counted(from, acted)), Remembered(from, acted, Counted(from, acted)),
     Remembered(from, acted, Counted(from, acted).(droppedAt := Some(acted)))]
  }

  lemma FirstHalf(from: Instant, acted: Instant, kept: nat)
    requires IsMonday(from) && from + WEEK <= Floor(acted, kept)
    ensures var states, steps := Retiring(from, acted), Retirement(PartitionName(from), acted);
      && Next(states[0], steps[0], states[1], kept) && Next(states[1], steps[1], states[2], kept)
      && Next(states[2], steps[2], states[3], kept)
  {
    hide PartitionName, Detached, Remembered, Counted;
  }

  lemma TakenOff(from: Instant, acted: Instant, kept: nat)
    ensures var states, steps := Retiring(from, acted), Retirement(PartitionName(from), acted);
      Next(states[3], steps[3], states[4], kept)
  {
    hide PartitionName, Remembered, Counted;
    var n := PartitionName(from);
    assert map[n := Partition(from, from + WEEK, true, 0)] - {n} == map[];
  }

  lemma SecondHalf(from: Instant, acted: Instant, kept: nat)
    ensures var states, steps := Retiring(from, acted), Retirement(PartitionName(from), acted);
      && Next(states[4], steps[4], states[5], kept) && Next(states[5], steps[5], states[6], kept)
      && Next(states[6], steps[6], states[7], kept)
  {
    hide PartitionName;
    var n := PartitionName(from);
    var rows: map<Name, nat> := map[n := 0];
    assert rows - {n} == map[];
  }

  lemma RetirementIsHistory(from: Instant, acted: Instant, kept: nat)
    requires IsMonday(from) && from + WEEK <= Floor(acted, kept)
    ensures IsHistory(Retiring(from, acted), Retirement(PartitionName(from), acted), kept)
    ensures var last := Retiring(from, acted)[7];
      DroppedAndStamped(last, PartitionName(from)) && last.newest == acted
  {
    hide PartitionName, Inv, Next;
    FreshIsInv(OneWeek(from, acted), kept);
    FirstHalf(from, acted, kept);
    TakenOff(from, acted, kept);
    SecondHalf(from, acted, kept);
  }

  /** A history that a retention run at one clock has acted in, and dropped and stamped a
      week that a horizon run at the other asks for. */
  ghost predicate Fight(states: seq<Catalog>, steps: seq<Step>, i: nat, asked: Instant, acted: Instant, kept: nat) {
    && IsHistory(states, steps, kept) && states[|steps|].newest == acted
    && DroppedAndStamped(states[|steps|], WeekName(asked, kept, i))
  }

  ghost predicate MayFight(asked: Instant, acted: Instant, kept: nat, count: nat) {
    exists states: seq<Catalog>, steps: seq<Step>, i: nat :: i < count && Fight(states, steps, i, asked, acted, kept)
  }

  /** It may come to that exactly when the horizon run took its clock in an earlier week
      than the retention run: a maintainer that waited for the lock across midnight on
      Sunday. */
  lemma HorizonFightsIff(asked: Instant, acted: Instant, kept: nat, count: nat)
    requires WholeWeeks(kept) && count > 0
    ensures MayFight(asked, acted, kept, count) <==> WeekStart(asked) < WeekStart(acted)
  {
    hide PartitionName, WeekName, WeekStart;
    if WeekStart(asked) < WeekStart(acted) {
      StaleClockMayFight(asked, acted, kept, count);
    } else if MayFight(asked, acted, kept, count) {
      var states: seq<Catalog>, steps: seq<Step>, i: nat :| i < count && Fight(states, steps, i, asked, acted, kept);
      HistoryKeepsInv(states, steps, |steps|, kept);
      FreshClockAsksForNoRecord(states[|steps|], asked, kept, i, kept);
    }
  }

  lemma StaleClockMayFight(asked: Instant, acted: Instant, kept: nat, count: nat)
    requires WholeWeeks(kept) && count > 0 && WeekStart(asked) < WeekStart(acted)
    ensures MayFight(asked, acted, kept, count)
  {
    hide PartitionName, IsHistory, WeekStart;
    var from := HorizonWeek(asked, kept, 0);
    HorizonWeekIsMonday(asked, kept, 0);
    WeekStartHolds(asked);
    WeekStartHolds(acted);
    MondaysApart(WeekStart(asked), WeekStart(acted));
    RetirementIsHistory(from, acted, kept);
    assert Fight(Retiring(from, acted), Retirement(PartitionName(from), acted), 0, asked, acted, kept);
  }

  /** What such a fight comes to: the database takes the stale run's CREATE, and the next
      retention run refuses the week and drops nothing. */
  method StaleCreateIsRefused(db: Database, from: Instant, now: Instant) returns (err: Option<R.RetainError>)
    requires db.Valid() && db.locked && !db.broken && !db.cat.hasDefault
    requires IsMonday(from) && DroppedAndStamped(db.cat, PartitionName(from))
    modifies db`cat, db`states, db`steps, db`broken
    ensures err == Some(if db.broken then R.Stopped else R.WeekReturned(PartitionName(from)))
    ensures Accepts(old(db.cat), Create(from))
    ensures db.cat == Apply(old(db.cat), Create(from)) && R.ClosedRecord(db.cat, PartitionName(from))
  {
    hide PartitionName, IsHistory;
    db.Known();
    NoOverlap(db.cat, from, db.kept);
    db.CreateStale(from);
    var d;
    d, err := R.DropOne(db, R.Candidate(PartitionName(from), from, from + WEEK, false), now);
  }
}
