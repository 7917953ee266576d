/** The server both maintainers talk to: it takes statements from other sessions at
    any moment, and it can stop answering before or after any commit. */
module Server {
  import opened Wrappers
  import opened Calendar
  import opened Lifecycle
  import opened Histories

  // ------------------------------------------------------------ the database

  /** One week of d is what it was in c, rows inserted meanwhile aside. */
  predicate KeepsWeek(c: Catalog, d: Catalog, n: Name) {
    && (n in c.attached <==> n in d.attached)
    && (n in c.attached ==> d.attached[n] == c.attached[n].(rows := d.attached[n].rows))
    && (n in c.standalone <==> n in d.standalone)
    && (n in c.standalone ==> c.standalone[n] == d.standalone[n])
    && (n in c.records <==> n in d.records)
    && (n in c.records ==> c.records[n] == d.records[n])
  }

  /** Nothing but the named weeks changed, and no clock went back. */
  ghost predicate Frame(c: Catalog, d: Catalog, touched: set<Name>) {
    && (forall n: Name :: n !in touched ==> KeepsWeek(c, d, n))
    && c.hasDefault == d.hasDefault && c.newest == d.newest && c.clock <= d.clock
  }

  lemma FrameTrans(c: Catalog, d: Catalog, e: Catalog, touched: set<Name>, more: set<Name>)
    requires Frame(c, d, touched) && Frame(d, e, more)
    ensures Frame(c, e, touched + more)
  {
    forall n: Name | n !in touched + more ensures KeepsWeek(c, e, n) {
      assert KeepsWeek(c, d, n) && KeepsWeek(d, e, n);
    }
  }

  lemma StepFrame(c: Catalog, s: Step)
    requires Accepts(c, s) && !s.Begin?
    ensures s.Insert? || s.Tick? ==> Frame(c, Apply(c, s), {})
    ensures Subject(s).Some? ==> Frame(c, Apply(c, s), {Subject(s).value})
  {
    forall n: Name | s.Insert? || Subject(s) != Some(n) ensures KeepsWeek(c, Apply(c, s), n) {
      if Subject(s) != Some(n) {
        ApplyFrame(c, s, n);
      }
    }
  }

  /** Other sessions' writes leave a maintainer's next statement as it was. */
  lemma FrameKeepsEnabled(c: Catalog, d: Catalog, s: Step, kept: nat)
    requires Frame(c, d, {}) && Accepts(c, s) && Issued(c, s, kept)
    requires Subject(s).Some? && !s.Insert?
    ensures Accepts(d, s) && Issued(d, s, kept)
  {
    assert KeepsWeek(c, d, Subject(s).value);
    forall n | n in d.attached ensures n in c.attached && d.attached[n] == c.attached[n].(rows := d.attached[n].rows) {
      assert KeepsWeek(c, d, n);
    }
  }

  /** events, its partitions and events_partition_drops on one server. */
  class Database {
    var cat: Catalog
    var locked: bool
    // the session of the current run is over
    var broken: bool
    ghost var states: seq<Catalog>
    ghost var steps: seq<Step>
    ghost const kept: nat

    /** The database is where a history of statements left it. */
    ghost predicate Valid()
      reads this
    {
      IsHistory(states, steps, kept) && cat == states[|steps|]
    }

    constructor (migrated: Catalog, kept: nat)
      requires Fresh(migrated)
      ensures Valid() && !locked && !broken && cat == migrated && this.kept == kept && steps == []
    {
      cat := migrated;
      locked, broken := false, false;
      states := [migrated];
      steps := [];
      this.kept := kept;
      new;
      FreshIsInv(migrated, kept);
    }

    lemma Known()
      requires Valid()
      ensures Inv(cat, kept)
    {
      HistoryKeepsInv(states, steps, |steps|, kept);
    }

    /** A statement that commits. */
    method Commit(s: Step)
      requires Valid() && Accepts(cat, s) && Issued(cat, s, kept)
      requires s.Insert? || s.Tick? || locked
      modifies this`cat, this`states, this`steps
      ensures Valid() && cat == Apply(old(cat), s)
      ensures steps == old(steps) + [s] && states == old(states) + [cat]
    {
      HistorySnoc(states, steps, s, Apply(cat, s), kept);
      cat := Apply(cat, s);
      states := states + [cat];
      steps := steps + [s];
    }

    /** The CREATE of a horizon run whose clock is stale, for any week the server takes it
        for. The histories of the maintainers have no such statement. */
    method CreateStale(from: Instant)
      requires locked && Accepts(cat, Create(from))
      modifies this`cat
      ensures cat == Apply(old(cat), Create(from))
    {
      cat := Apply(cat, Create(from));
    }

    /** A run opens its session, if the server lets it. */
    method Connect() returns (ok: bool)
      modifies this`broken
      ensures ok <==> !broken
    {
      ok := *;
      broken := !ok;
    }

    /** Whether a statement that only reads is answered. */
    method Answers() returns (ok: bool)
      requires !broken
      modifies this`broken
      ensures ok <==> !broken
    {
      ok := *;
      broken := !ok;
    }

    /** Everyone else: any number of inserts, and time. No other maintainer, as
        the advisory lock is held by the session that calls this. */
    method Others()
      requires Valid()
      modifies this`cat, this`states, this`steps
      ensures Valid() && Frame(old(cat), cat, {}) && old(steps) <= steps && old(states) <= states
    {
      var count: nat := *;
      while count > 0
        invariant Valid() && Frame(old(cat), cat, {}) && old(steps) <= steps && old(states) <= states
      {
        var s: Step := *;
        if (s.Insert? || s.Tick?) && Accepts(cat, s) {
          ghost var before := cat;
          StepFrame(cat, s);
          Commit(s);
          FrameTrans(old(cat), before, cat, {}, {});
        }
        count := count - 1;
      }
    }

    /** A statement of the maintainer holding the lock. Other sessions come first,
        to mid; then it commits and says so, or the session ends before it, or
        after it with the answer lost. */
    method Exec(s: Step) returns (ok: bool, ghost mid: Catalog)
      requires Valid() && locked && Accepts(cat, s) && Issued(cat, s, kept)
      requires Subject(s).Some? && !s.Insert? && !broken
      modifies this`cat, this`states, this`steps, this`broken
      ensures ok <==> !broken
      ensures Valid() && old(steps) <= steps && old(states) <= states
      ensures Frame(old(cat), mid, {}) && Accepts(mid, s)
      ensures ok ==> cat == Apply(mid, s)
      ensures !ok ==> cat == mid || cat == Apply(mid, s)
      ensures Frame(old(cat), cat, {Subject(s).value})
    {
      ghost var before := cat;
      Others();
      mid := cat;
      FrameKeepsEnabled(before, mid, s, kept);
      StepFrame(mid, s);
      FrameTrans(before, mid, mid, {}, {Subject(s).value});
      FrameTrans(before, mid, Apply(mid, s), {}, {Subject(s).value});
      assert {} + {Subject(s).value} == {Subject(s).value};
      if * {
        broken := true;
        return false, mid;
      }
      Commit(s);
      ok := *;
      broken := !ok;
    }
  }
}
