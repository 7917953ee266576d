/** The weekly partitions of events as a state machine: what PostgreSQL holds,
    the statements the two maintainers issue, and what every run of them keeps.

    Kept is the least length of time any retention run's guard makes its promise
    cover. The horizon run issues no CREATE for a week that has a record: whether it
    would is a matter of its clock, see Horizon. */
module Lifecycle {
  import opened Wrappers
  import opened Calendar

  type Name = string

  /** A partition attached to events, possibly half detached. */
  datatype Partition = Partition(from: Instant, to: Instant, pending: bool, rows: nat)

  /** A line of events_partition_drops. */
  datatype DropRecord = DropRecord(
    from: Instant, to: Instant,
    rows: Option<nat>, detachedAt: Option<Instant>, droppedAt: Option<Instant>)

  /** The database. Inserted and newest are history: the rows ever inserted into
      each week, and the greatest clock any retention run has acted on. */
  datatype Catalog = Catalog(
    attached: map<Name, Partition>,
    standalone: map<Name, nat>,
    records: map<Name, DropRecord>,
    hasDefault: bool,
    clock: Instant,
    inserted: map<Name, nat>,
    newest: Instant)

  datatype Step =
    | Insert(name: Name)
    | Tick(to: Instant)
    | Begin(now: Instant)
    | Create(from: Instant)
    | Record(name: Name)
    | DetachStart(name: Name)
    | DetachFinish(name: Name)
    | WriteCount(name: Name, rows: nat, at: Instant)
    | DropTable(name: Name)
    | Stamp(name: Name, at: Instant)

  function Max(a: int, b: int): int {
    if a < b then b else a
  }

  predicate NobodyPending(c: Catalog) {
    forall n | n in c.attached :: !c.attached[n].pending
  }

  predicate Overlaps(p: Partition, from: Instant, to: Instant) {
    p.from < to && from < p.to
  }

  /** What PostgreSQL needs before it takes the statement. */
  predicate Accepts(c: Catalog, s: Step) {
    match s
    case Insert(n) => n in c.attached
    case Tick(t) => c.clock <= t
    case Begin(_) => true
    case Create(from) =>
      && PartitionName(from) !in c.attached && PartitionName(from) !in c.standalone
      && forall n | n in c.attached :: !Overlaps(c.attached[n], from, from + WEEK)
    case Record(n) => n in c.attached && (n in c.records ==> c.records[n].droppedAt.None?)
    case DetachStart(n) => n in c.attached && !c.hasDefault && NobodyPending(c)
    case DetachFinish(n) => n in c.attached && c.attached[n].pending
    case WriteCount(n, _, _) => n in c.records
    case DropTable(n) => n in c.standalone
    case Stamp(n, _) => n in c.records
  }

  /** Every live week ends after this instant, and every dropped one by it. */
  function Floor(now: Instant, kept: nat): Instant {
    now - kept
  }

  predicate Open(c: Catalog, n: Name) {
    n in c.records && c.records[n].droppedAt.None?
  }

  /** When the maintainers issue the statement. */
  predicate Issued(c: Catalog, s: Step, kept: nat) {
    match s
    case Insert(_) => true
    case Tick(_) => true
    case Begin(now) => now <= c.clock + MINUTE
    case Create(from) => IsMonday(from) && PartitionName(from) !in c.records
    case Record(n) =>
      && n in c.attached
      && c.attached[n].to <= Floor(c.newest, kept)
      && c.attached[n].to <= Floor(c.clock + MINUTE, kept)
    case DetachStart(n) => Open(c, n)
    case DetachFinish(n) => Open(c, n)
    case WriteCount(n, rows, _) =>
      Open(c, n) && c.records[n].rows.None? && n in c.standalone && rows == c.standalone[n]
    case DropTable(n) =>
      Open(c, n) && n in c.standalone && c.records[n].rows == Some(c.standalone[n])
    case Stamp(n, _) =>
      Open(c, n) && c.records[n].rows.Some? && n !in c.attached && n !in c.standalone
  }

  /** The record after INSERT ... ON CONFLICT DO UPDATE SET range_start. */
  function Upsert(c: Catalog, n: Name): DropRecord
    requires n in c.attached
  {
    var p := c.attached[n];
    if n in c.records then c.records[n].(from := p.from)
    else DropRecord(p.from, p.to, None, None, None)
  }

  function Apply(c: Catalog, s: Step): Catalog
    requires Accepts(c, s)
  {
    match s
    case Insert(n) =>
      c.(attached := c.attached[n := c.attached[n].(rows := c.attached[n].rows + 1)],
         inserted := c.inserted[n := (if n in c.inserted then c.inserted[n] else 0) + 1])
    case Tick(t) => c.(clock := t)
    case Begin(now) => c.(newest := Max(c.newest, now))
    case Create(from) =>
      var n := PartitionName(from);
      c.(attached := c.attached[n := Partition(from, from + WEEK, false, 0)],
         inserted := c.inserted[n := if n in c.inserted then c.inserted[n] else 0])
    case Record(n) => c.(records := c.records[n := Upsert(c, n)])
    case DetachStart(n) => c.(attached := c.attached[n := c.attached[n].(pending := true)])
    case DetachFinish(n) =>
      c.(attached := c.attached - {n}, standalone := c.standalone[n := c.attached[n].rows])
    case WriteCount(n, rows, at) =>
      c.(records := c.records[n := c.records[n].(rows := Some(rows), detachedAt := Some(at))])
    case DropTable(n) => c.(standalone := c.standalone - {n})
    case Stamp(n, at) => c.(records := c.records[n := c.records[n].(droppedAt := Some(at))])
  }

  // ------------------------------------------------------------ the invariant

  predicate Week(n: Name, from: Instant, to: Instant) {
    IsMonday(from) && to == from + WEEK && n == PartitionName(from)
  }

  /** A recorded week was past for every clock that could have an opinion. */
  predicate PastRecord(c: Catalog, n: Name, kept: nat)
    requires n in c.records
  {
    var r := c.records[n];
    && Week(n, r.from, r.to)
    && r.to <= Floor(c.newest, kept)
    && r.to <= Floor(c.clock + MINUTE, kept)
    && (r.rows.Some? <==> r.detachedAt.Some?)
  }

  /** One week is attached, or standalone, or gone; its record and its rows say so. */
  predicate NameOk(c: Catalog, n: Name, kept: nat) {
    && (n in c.records ==> PastRecord(c, n, kept))
    && if n in c.attached then
         var p := c.attached[n];
         && n !in c.standalone
         && Week(n, p.from, p.to)
         && n in c.inserted && c.inserted[n] == p.rows
         && (n in c.records ==> Open(c, n) && c.records[n].rows.None?)
         && (p.pending ==> n in c.records)
       else if n in c.standalone then
         && n in c.inserted && c.inserted[n] == c.standalone[n]
         && Open(c, n)
         && (c.records[n].rows.None? || c.records[n].rows == Some(c.standalone[n]))
       else
         && (n in c.inserted <==> n in c.records)
         && (n in c.records ==> c.records[n].rows == Some(c.inserted[n]))
  }

  ghost predicate OnePending(c: Catalog) {
    forall m, n | m in c.attached && n in c.attached :: c.attached[m].pending && c.attached[n].pending ==> m == n
  }

  ghost predicate Inv(c: Catalog, kept: nat) {
    && (forall n: Name :: NameOk(c, n, kept))
    && OnePending(c)
  }

  /** The table as the first migration leaves it: weeks attached, nothing else. */
  ghost predicate Fresh(c: Catalog) {
    && c.standalone == map[] && c.records == map[]
    && c.inserted.Keys == c.attached.Keys
    && forall n | n in c.attached ::
         var p := c.attached[n]; Week(n, p.from, p.to) && !p.pending && c.inserted[n] == p.rows
  }

  lemma FreshIsInv(c: Catalog, kept: nat)
    requires Fresh(c)
    ensures Inv(c, kept)
  {
  }

  lemma WeekNamesAgree(n: Name, f: Instant, t: Instant, g: Instant, u: Instant)
    requires Week(n, f, t) && Week(n, g, u)
    ensures f == g && t == u
  {
    PartitionNameInjective(f, g);
  }

  /** A week the horizon may ask for has no record: it ends after the floor. */
  lemma HorizonIsUnrecorded(c: Catalog, from: Instant, kept: nat)
    requires Inv(c, kept)
    requires IsMonday(from) && Floor(WeekStart(c.newest), kept) <= from
    ensures PartitionName(from) !in c.records && PartitionName(from) !in c.standalone
  {
    var n := PartitionName(from);
    assert NameOk(c, n, kept);
    WeekStartHolds(c.newest);
    if n in c.records {
      WeekNamesAgree(n, from, from + WEEK, c.records[n].from, c.records[n].to);
    }
  }

  /** The week a step touches, if any. */
  function Subject(s: Step): Option<Name> {
    match s
    case Insert(n) => Some(n)
    case Tick(_) => None
    case Begin(_) => None
    case Create(from) => Some(PartitionName(from))
    case Record(n) => Some(n)
    case DetachStart(n) => Some(n)
    case DetachFinish(n) => Some(n)
    case WriteCount(n, _, _) => Some(n)
    case DropTable(n) => Some(n)
    case Stamp(n, _) => Some(n)
  }

  /** Two databases that agree on one week, clocks aside. */
  predicate SameWeek(c: Catalog, d: Catalog, n: Name) {
    && (n in c.attached <==> n in d.attached) && (n in c.attached ==> c.attached[n] == d.attached[n])
    && (n in c.standalone <==> n in d.standalone) && (n in c.standalone ==> c.standalone[n] == d.standalone[n])
    && (n in c.records <==> n in d.records) && (n in c.records ==> c.records[n] == d.records[n])
    && (n in c.inserted <==> n in d.inserted) && (n in c.inserted ==> c.inserted[n] == d.inserted[n])
  }

  /** A step leaves every week but its own alone, and no clock goes back. */
  lemma ApplyFrame(c: Catalog, s: Step, n: Name)
    requires Accepts(c, s) && Subject(s) != Some(n)
    ensures SameWeek(c, Apply(c, s), n)
    ensures c.clock <= Apply(c, s).clock && c.newest <= Apply(c, s).newest
    ensures Apply(c, s).hasDefault == c.hasDefault
  {
  }

  lemma FrameKeepsName(c: Catalog, d: Catalog, n: Name, kept: nat)
    requires NameOk(c, n, kept) && SameWeek(c, d, n) && c.clock <= d.clock && c.newest <= d.newest
    ensures NameOk(d, n, kept)
  {
  }

  lemma CreateKeepsName(c: Catalog, from: Instant, kept: nat)
    requires Inv(c, kept) && Accepts(c, Create(from)) && Issued(c, Create(from), kept)
    ensures NameOk(Apply(c, Create(from)), PartitionName(from), kept)
  {
    hide PartitionName;
    assert NameOk(c, PartitionName(from), kept);
  }

  lemma RecordKeepsName(c: Catalog, n: Name, kept: nat)
    requires Inv(c, kept) && Accepts(c, Record(n)) && Issued(c, Record(n), kept)
    ensures NameOk(Apply(c, Record(n)), n, kept)
  {
    assert NameOk(c, n, kept);
    if n in c.records {
      WeekNamesAgree(n, c.attached[n].from, c.attached[n].to, c.records[n].from, c.records[n].to);
    }
  }

  lemma OtherStepKeepsName(c: Catalog, s: Step, n: Name, kept: nat)
    requires NameOk(c, n, kept) && Accepts(c, s) && Issued(c, s, kept)
    requires Subject(s) == Some(n) && !s.Create? && !s.Record?
    ensures NameOk(Apply(c, s), n, kept)
  {
  }

  lemma ApplyOne(c: Catalog, s: Step, kept: nat, n: Name)
    requires Inv(c, kept) && Accepts(c, s) && Issued(c, s, kept)
    ensures NameOk(Apply(c, s), n, kept)
  {
    assert NameOk(c, n, kept);
    if Subject(s) != Some(n) {
      ApplyFrame(c, s, n);
      FrameKeepsName(c, Apply(c, s), n, kept);
    } else if s.Create? {
      CreateKeepsName(c, s.from, kept);
    } else if s.Record? {
      RecordKeepsName(c, n, kept);
    } else {
      OtherStepKeepsName(c, s, n, kept);
    }
  }

  lemma StepKeepsInv(c: Catalog, s: Step, kept: nat)
    requires Inv(c, kept) && Accepts(c, s) && Issued(c, s, kept)
    ensures Inv(Apply(c, s), kept)
  {
    forall n: Name ensures NameOk(Apply(c, s), n, kept) {
      ApplyOne(c, s, kept, n);
    }
  }
}
