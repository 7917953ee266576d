/** internal/store/partition.go: the maintainer that keeps the weeks ahead of the
    writes. */
module PartitionMaintainer {
  import opened Wrappers
  import opened Calendar
  import opened Lifecycle
  import opened Histories
  import opened Horizon
  import opened Server

  datatype EnsureError = Stopped | DefaultPartition

  lemma FrameKeepsPresent(c: Catalog, d: Catalog, touched: set<Name>, from: Instant)
    requires Frame(c, d, touched) && PartitionName(from) !in touched && Present(c, from)
    ensures Present(d, from)
  {
    assert KeepsWeek(c, d, PartitionName(from));
  }

  lemma FrameKeepsNames(c: Catalog, d: Catalog)
    requires Frame(c, d, {})
    ensures c.attached.Keys == d.attached.Keys
  {
    forall n: Name ensures n in c.attached <==> n in d.attached {
      assert KeepsWeek(c, d, n);
    }
  }

  /** Weeks of one horizon have different names. */
  lemma HorizonNamesDiffer(now: Instant, kept: nat, i: nat, k: nat)
    requires WholeWeeks(kept) && i != k
    ensures WeekName(now, kept, i) != WeekName(now, kept, k)
  {
    hide PartitionName;
    HorizonWeekIsMonday(now, kept, i);
    HorizonWeekIsMonday(now, kept, k);
    if WeekName(now, kept, i) == WeekName(now, kept, k) {
      PartitionNameInjective(HorizonWeek(now, kept, i), HorizonWeek(now, kept, k));
    }
  }

  lemma {:induction false} MissingNames(have: set<Name>, now: Instant, kept: nat, i: nat)
    ensures forall n :: n in Missing(have, now, kept, i) <==>
      n !in have && exists k: nat :: k < i && n == WeekName(now, kept, k)
  {
    hide WeekName;
    if i > 0 {
      MissingNames(have, now, kept, i - 1);
    }
  }

  lemma {:induction false} MissingPrefix(have: set<Name>, now: Instant, kept: nat, i: nat, j: nat)
    requires i <= j
    ensures Missing(have, now, kept, i) <= Missing(have, now, kept, j)
    decreases j
  {
    hide WeekName;
    if i < j {
      MissingPrefix(have, now, kept, i, j - 1);
    }
  }

  lemma NameIsNew(have: set<Name>, now: Instant, kept: nat, i: nat)
    requires WholeWeeks(kept)
    ensures WeekName(now, kept, i) !in Missing(have, now, kept, i)
  {
    hide WeekName;
    MissingNames(have, now, kept, i);
    forall k: nat | k < i ensures WeekName(now, kept, k) != WeekName(now, kept, i) {
      HorizonNamesDiffer(now, kept, i, k);
    }
  }

  /** The CREATE a horizon run is about to issue is one the database takes: there
      is no table of that name, attached or left over, and no overlap. */
  lemma CreateIsAccepted(c: Catalog, from: Instant, kept: nat)
    requires Inv(c, kept) && IsMonday(from) && Clear(c, PartitionName(from))
    requires PartitionName(from) !in c.attached
    ensures Accepts(c, Create(from)) && Issued(c, Create(from), kept)
    ensures PartitionName(from) !in c.standalone
  {
    hide PartitionName;
    NoOverlap(c, from, kept);
    assert NameOk(c, PartitionName(from), kept);
  }

  /** An attached week that is clear is there in full: its bounds are the ones the name
      promises, nothing is half detached, and no table is left over. */
  lemma AttachedIsPresent(c: Catalog, from: Instant, kept: nat)
    requires Inv(c, kept) && IsMonday(from) && Clear(c, PartitionName(from))
    ensures PartitionName(from) !in c.standalone
    ensures PartitionName(from) in c.attached ==> Present(c, from)
  {
    hide PartitionName;
    var n := PartitionName(from);
    assert NameOk(c, n, kept);
    if n in c.attached {
      WeekNamesAgree(n, c.attached[n].from, c.attached[n].to, from, from + WEEK);
    }
  }

  /** What is clear stays clear while a week is made or others write. */
  lemma FrameKeepsClear(c: Catalog, d: Catalog, n: Name, now: Instant, span: nat, count: nat)
    requires Frame(c, d, {n}) && Clear(d, n) && HorizonClear(c, now, span, count)
    ensures HorizonClear(d, now, span, count)
  {
    hide PartitionName, WeekName;
    forall i: nat | i < count ensures Clear(d, WeekName(now, span, i)) {
      if WeekName(now, span, i) != n {
        assert KeepsWeek(c, d, WeekName(now, span, i)) && Clear(c, WeekName(now, span, i));
      }
    }
  }

  lemma FrameKeepsHorizon(c: Catalog, mid: Catalog, now: Instant, kept: nat, i: nat)
    requires Frame(c, mid, {}) && HorizonThere(c, now, kept, i)
    ensures HorizonThere(mid, now, kept, i)
  {
    forall k: nat | k < i ensures Present(mid, HorizonWeek(now, kept, k)) {
      FrameKeepsPresent(c, mid, {}, HorizonWeek(now, kept, k));
    }
  }

  lemma CreateExtendsHorizon(c: Catalog, now: Instant, kept: nat, i: nat)
    requires WholeWeeks(kept) && HorizonThere(c, now, kept, i)
    requires Accepts(c, Create(HorizonWeek(now, kept, i)))
    ensures HorizonThere(Apply(c, Create(HorizonWeek(now, kept, i))), now, kept, i + 1)
  {
    hide PartitionName;
    var d := Apply(c, Create(HorizonWeek(now, kept, i)));
    forall k: nat | k <= i ensures Present(d, HorizonWeek(now, kept, k)) {
      if k < i {
        assert Present(c, HorizonWeek(now, kept, k));
        HorizonNamesDiffer(now, kept, i, k);
      }
    }
  }

  /** What a run reports against what it did, complete or stopped. */
  ghost predicate Created(before: Catalog, after: Catalog, created: seq<Name>, all: seq<Name>, complete: bool) {
    && created <= all && (complete ==> created == all)
    && before.attached.Keys <= after.attached.Keys
    && (forall n | n in after.attached ::
          n in before.attached || n in created || (!complete && |created| < |all| && n == all[|created|]))
    && (forall n | n in created :: n in after.attached)
    && after.newest == before.newest
  }

  /** One week of the horizon: asked for by name, created if it is not there. */
  method EnsureWeek(db: Database, now: Instant, kept: nat, i: nat, ghost weeks: nat) returns (made: bool, ok: bool)
    requires db.Valid() && db.locked && !db.broken && WholeWeeks(kept)
    requires i < weeks && HorizonClear(db.cat, now, kept, weeks)
    requires HorizonThere(db.cat, now, kept, i)
    modifies db`cat, db`states, db`steps, db`broken
    ensures db.Valid() && old(db.steps) <= db.steps && old(db.states) <= db.states
    ensures ok <==> !db.broken
    ensures HorizonClear(db.cat, now, kept, weeks)
    ensures Frame(old(db.cat), db.cat, {WeekName(now, kept, i)})
    ensures ok ==> HorizonThere(db.cat, now, kept, i + 1)
    ensures ok ==> (made <==> WeekName(now, kept, i) !in old(db.cat.attached))
    ensures old(db.cat.attached.Keys) <= db.cat.attached.Keys
      <= old(db.cat.attached.Keys) + {WeekName(now, kept, i)}
    ensures ok ==> WeekName(now, kept, i) in db.cat.attached
  {
    hide PartitionName, HorizonClear, Clear, IsHistory, Inv;
    var from := HorizonWeek(now, kept, i);
    var name := PartitionName(from);
    FrameNothing(db.cat, name);
    ok := db.Answers();
    if !ok { return false, false; }
    HorizonWeekIsMonday(now, kept, i);
    db.Known();
    ClearAt(db.cat, now, kept, weeks, i);
    AttachedIsPresent(db.cat, from, db.kept);
    if name in db.cat.attached || name in db.cat.standalone {
      return false, true;
    }
    CreateIsAccepted(db.cat, from, db.kept);
    ghost var before := db.cat;
    ghost var mid;
    ok, mid := db.Exec(Create(from));
    made := ok;
    FrameKeepsNames(before, mid);
    FrameKeepsHorizon(before, mid, now, kept, i);
    CreateExtendsHorizon(mid, now, kept, i);
    MadeIsClear(before, mid, db.cat, from);
    FrameKeepsClear(before, db.cat, name, now, kept, weeks);
  }

  lemma FrameNothing(c: Catalog, n: Name)
    ensures Frame(c, c, {n})
  {
  }

  lemma ClearAt(c: Catalog, now: Instant, kept: nat, weeks: nat, i: nat)
    requires HorizonClear(c, now, kept, weeks) && i < weeks
    ensures Clear(c, PartitionName(HorizonWeek(now, kept, i)))
  {
    assert Clear(c, WeekName(now, kept, i));
  }

  /** A week about to be made, or just made, is clear. */
  lemma MadeIsClear(c: Catalog, mid: Catalog, d: Catalog, from: Instant)
    requires Frame(c, mid, {}) && Clear(c, PartitionName(from)) && PartitionName(from) !in c.attached
    requires Accepts(mid, Create(from)) && (d == mid || d == Apply(mid, Create(from)))
    ensures Clear(d, PartitionName(from))
  {
    hide PartitionName;
    assert KeepsWeek(c, mid, PartitionName(from));
  }

  /** The loop of EnsurePartitions, under the lock. */
  method CreateMissing(db: Database, now: Instant, kept: nat, weeks: nat)
      returns (created: seq<Name>, ok: bool)
    requires db.Valid() && db.locked && !db.broken && WholeWeeks(kept) && HorizonClear(db.cat, now, kept, weeks)
    modifies db`cat, db`states, db`steps, db`broken
    ensures db.Valid() && old(db.steps) <= db.steps && old(db.states) <= db.states
    ensures ok <==> !db.broken
    ensures ok ==> HorizonThere(db.cat, now, kept, weeks)
    ensures Created(old(db.cat), db.cat, created, Missing(old(db.cat.attached.Keys), now, kept, weeks), ok)
  {
    hide PartitionName, WeekName, WeekStart, HorizonWeek, HorizonClear, Clear, IsHistory;
    created := [];
    ghost var have, all := db.cat.attached.Keys, Missing(db.cat.attached.Keys, now, kept, weeks);
    MissingPrefix(have, now, kept, 0, weeks);
    var i := 0;
    while i < weeks
      invariant 0 <= i <= weeks && db.Valid() && db.locked && !db.broken
      invariant old(db.steps) <= db.steps && old(db.states) <= db.states
      invariant created == Missing(have, now, kept, i) && created <= all
      invariant db.cat.newest == old(db.cat.newest)
      invariant have <= db.cat.attached.Keys
      invariant forall n | n in created :: n in db.cat.attached
      invariant forall n | n in db.cat.attached :: n in have || n in created
      invariant HorizonThere(db.cat, now, kept, i)
      invariant HorizonClear(db.cat, now, kept, weeks)
    {
      MissingPrefix(have, now, kept, i + 1, weeks);
      NameIsNew(have, now, kept, i);
      NextIsMissing(have, now, kept, i, weeks);
      var made, done := EnsureWeek(db, now, kept, i, weeks);
      if !done {
        return created, false;
      }
      if made {
        created := created + [WeekName(now, kept, i)];
      }
      i := i + 1;
    }
    ok := true;
  }

  lemma NextIsMissing(have: set<Name>, now: Instant, kept: nat, i: nat, weeks: nat)
    requires i < weeks
    ensures WeekName(now, kept, i) in have || WeekName(now, kept, i) in Missing(have, now, kept, weeks)
  {
    hide WeekName;
    MissingNames(have, now, kept, weeks);
  }

  /** Every instant from this many weeks before the current one to this many after it
      lies in the partition named after its week, and in no other. */
  ghost predicate Covered(c: Catalog, now: Instant, behind: int, ahead: int) {
    forall t | WeekStart(now) - behind * WEEK <= t < WeekStart(now) + (ahead + 1) * WEEK ::
      forall n :: (n in c.attached && c.attached[n].from <= t < c.attached[n].to) <==> n == PartitionName(WeekStart(t))
  }

  lemma ThereIsCovered(c: Catalog, now: Instant, behind: nat, ahead: nat, floor: nat)
    requires Inv(c, floor) && HorizonThere(c, now, Kept(behind), behind + ahead + 1)
    ensures Covered(c, now, behind, ahead)
  {
    hide Inv, HorizonThere, WeekStart, PartitionName;
    forall t | WeekStart(now) - behind * WEEK <= t < WeekStart(now) + (ahead + 1) * WEEK
      ensures forall n ::
        (n in c.attached && c.attached[n].from <= t < c.attached[n].to) <==> n == PartitionName(WeekStart(t))
    {
      HorizonTiles(c, now, Kept(behind), behind, ahead, t, floor);
      forall n
        ensures (n in c.attached && c.attached[n].from <= t < c.attached[n].to) <==> n == PartitionName(WeekStart(t))
      {
        assert Holds(c, n, t) <==> n in c.attached && c.attached[n].from <= t < c.attached[n].to;
      }
    }
  }

  /** Creates every week of the span that is missing, oldest first, and reports
      exactly those, unless it is stopped. The span is the caller's, four weeks ahead and
      two behind where that is not positive. The weeks it asks for are clear, which a
      clock read in no earlier week than any retention run's sees to, and without which
      it fails. */
  method EnsurePartitions(db: Database, now: Instant, span: Span)
      returns (created: seq<Name>, err: Option<EnsureError>)
    requires db.Valid() && !db.locked
    requires HorizonClear(db.cat, now, Kept(span.WithDefaults().behind), span.WithDefaults().Weeks())
    modifies db
    ensures db.Valid() && !db.locked && old(db.steps) <= db.steps && old(db.states) <= db.states
    ensures err == Some(Stopped) <==> db.broken
    ensures err == Some(DefaultPartition) <==> !db.broken && old(db.cat.hasDefault)
    ensures err == Some(DefaultPartition) ==> db.cat == old(db.cat)
    ensures var behind := if span.behind <= 0 then 2 else span.behind;
      var ahead := if span.ahead <= 0 then 4 else span.ahead;
      && (err.None? ==> Covered(db.cat, now, behind, ahead))
      && Created(old(db.cat), db.cat, created,
                 Missing(old(db.cat.attached.Keys), now, behind * WEEK, behind + ahead + 1), err.None?)
  {
    hide PartitionName, WeekName, WeekStart, HorizonWeek, HorizonClear, HorizonThere, Covered, IsHistory, Inv;
    var s := span.WithDefaults();
    MissingPrefix(db.cat.attached.Keys, now, Kept(s.behind), 0, s.Weeks());
    var ok := db.Connect();
    if !ok { return [], Some(Stopped); }
    if db.cat.hasDefault { return [], Some(DefaultPartition); }
    KeptIsWhole(s.behind);
    db.locked := true;
    created, ok := CreateMissing(db, now, Kept(s.behind), s.Weeks());
    db.locked := false;
    err := if ok then None else Some(Stopped);
    if ok {
      db.Known();
      ThereIsCovered(db.cat, now, s.behind, s.ahead, db.kept);
    }
  }
}
