/** internal/store/retention.go: the run that drops the weeks older than the
    promise, in an order that a stop anywhere leaves resumable. */
module Retention {
  import opened Wrappers
  import opened Decimal
  import opened Calendar
  import opened Lifecycle
  import opened Histories
  import opened Horizon
  import opened Server
  import opened Sorting

  datatype RetainError =
    | KeepNotPositive
    | Stopped
    | LockHeld
    | ClockAhead
    | KeepInsideHorizon
    | DefaultPartition
    | PendingElsewhere(name: Name)
    | WeekReturned(name: Name)

  /** A line of the report. */
  datatype Dropped = Dropped(name: Name, from: Instant, to: Instant, rows: nat, counted: bool)

  datatype Candidate = Candidate(name: Name, from: Instant, to: Instant, pending: bool)

  datatype UnfinishedRow = UnfinishedRow(
    name: Name, from: Instant, to: Instant, rows: Option<nat>, counted: bool, onDisk: bool)

  // --------------------------------------------------- what the queries return

  /** The attached weeks wholly older than the boundary. */
  function Past(c: Catalog, boundary: Instant): set<Name> {
    set n | n in c.attached && c.attached[n].to <= boundary
  }

  predicate CandidateOf(c: Catalog, k: Candidate) {
    && k.name in c.attached
    && c.attached[k.name].from == k.from && c.attached[k.name].to == k.to
    && c.attached[k.name].pending == k.pending
  }

  predicate RowOf(c: Catalog, u: UnfinishedRow) {
    && u.name in c.records && c.records[u.name].droppedAt.None?
    && c.records[u.name].from == u.from && c.records[u.name].to == u.to
    && c.records[u.name].rows == u.rows
    && (u.counted <==> c.records[u.name].detachedAt.Some?)
    && (u.onDisk <==> u.name in c.standalone)
    && u.name !in c.attached
  }

  function CandidateName(k: Candidate): Name { k.name }

  function RowName(u: UnfinishedRow): Name { u.name }

  /** The same partitions are attached, rows inserted meanwhile aside. */
  ghost predicate SameWeeks(c: Catalog, d: Catalog) {
    && (forall n | n in c.attached :: n in d.attached && d.attached[n] == c.attached[n].(rows := d.attached[n].rows))
    && (forall n | n in d.attached :: n in c.attached)
  }

  lemma SamePast(c: Catalog, d: Catalog, boundary: Instant)
    requires SameWeeks(c, d)
    ensures Past(c, boundary) == Past(d, boundary)
  {
  }

  /** The converged state: nothing past is attached, nothing detached is open. */
  ghost predicate Converged(c: Catalog, boundary: Instant) {
    Past(c, boundary) == {} && Unfinished(c) == {} && c.standalone == map[]
  }

  /** What the report says about a week is what its closed record says. */
  predicate Reported(c: Catalog, d: Dropped, now: Instant) {
    && Gone(c, d.name)
    && c.records[d.name].droppedAt == Some(now)
    && c.records[d.name].from == d.from && c.records[d.name].to == d.to
    && c.records[d.name].rows == Some(d.rows) && d.counted
  }

  // ------------------------------------------------------ the order of the report

  /** What was unfinished goes before what is attached, and the older by its record first;
      then the half detached week, and then the older first. */
  predicate Precedes(c: Catalog, a: Name, b: Name) {
    if a in c.attached then
      && b in c.attached
      && (c.attached[a].pending || (!c.attached[b].pending && c.attached[a].from <= c.attached[b].from))
    else b in c.attached || (a in c.records && b in c.records && c.records[a].from <= c.records[b].from)
  }

  function Names(out: seq<Dropped>): set<Name> {
    set d | d in out :: d.name
  }

  /** The report lists some of these weeks, each once and in their order, and what it does
      not list comes after all it does. */
  ghost predicate InTurn(c: Catalog, all: set<Name>, out: seq<Dropped>) {
    && (forall i | 0 <= i < |out| :: out[i].name in all)
    && (forall i, k | 0 <= i < k < |out| :: out[i].name != out[k].name && Precedes(c, out[i].name, out[k].name))
    && (forall i, n | 0 <= i < |out| && n in all && n !in Names(out) :: Precedes(c, out[i].name, n))
  }

  /** These names in this order are the whole agenda. */
  ghost predicate Agenda(c: Catalog, all: set<Name>, names: seq<Name>) {
    && (forall i | 0 <= i < |names| :: names[i] in all)
    && (forall n | n in all :: exists i :: 0 <= i < |names| && names[i] == n)
    && (forall i, k | 0 <= i < k < |names| :: names[i] != names[k] && Precedes(c, names[i], names[k]))
  }

  /** A report that names the first of an agenda, in order. */
  predicate Follows(out: seq<Dropped>, names: seq<Name>) {
    |out| <= |names| && forall i | 0 <= i < |out| :: out[i].name == names[i]
  }

  function RowNames(us: seq<UnfinishedRow>): seq<Name> {
    seq(|us|, i requires 0 <= i < |us| => us[i].name)
  }

  function CandidateNames(ks: seq<Candidate>): seq<Name> {
    seq(|ks|, i requires 0 <= i < |ks| => ks[i].name)
  }

  lemma RowsAreAgenda(c: Catalog, us: seq<UnfinishedRow>)
    requires Lists(us, RowName, Unfinished(c)) && (forall u | u in us :: RowOf(c, u))
    requires Sorted(us, (u: UnfinishedRow) => u.from)
    ensures Agenda(c, Unfinished(c), RowNames(us))
  {
    var names := RowNames(us);
    forall n | n in Unfinished(c) ensures exists i :: 0 <= i < |names| && names[i] == n {
      var i :| 0 <= i < |us| && RowName(us[i]) == n;
      assert names[i] == n;
    }
    forall i, k | 0 <= i < k < |names| ensures names[i] != names[k] && Precedes(c, names[i], names[k]) {
      assert RowName(us[i]) != RowName(us[k]) && us[i].from <= us[k].from;
      assert us[i] in us && us[k] in us;
    }
  }

  /** The candidates in bounds order, or with the one that is pending put first. */
  lemma CandidatesAreAgenda(c: Catalog, ks: seq<Candidate>, first: seq<Candidate>, boundary: Instant)
    requires Lists(ks, CandidateName, Past(c, boundary)) && (forall k | k in ks :: CandidateOf(c, k))
    requires Sorted(ks, (k: Candidate) => k.from)
    requires Lists(first, CandidateName, Past(c, boundary)) && PendingIsFirst(c, first)
    requires first == ks || PendingAhead(ks, first)
    ensures Agenda(c, Past(c, boundary), CandidateNames(first))
  {
    hide Past;
    var names := CandidateNames(first);
    forall n | n in Past(c, boundary) ensures exists i :: 0 <= i < |names| && names[i] == n {
      var i :| 0 <= i < |first| && CandidateName(first[i]) == n;
      assert names[i] == n;
    }
    forall i | 0 <= i < |names| ensures names[i] in Past(c, boundary) {
      assert CandidateName(first[i]) in Past(c, boundary);
    }
    forall i, k | 0 <= i < k < |names| ensures names[i] != names[k] && Precedes(c, names[i], names[k]) {
      assert CandidateName(first[i]) != CandidateName(first[k]);
      FirstPrecedes(c, ks, first, i, k);
    }
  }

  lemma FirstPrecedes(c: Catalog, ks: seq<Candidate>, first: seq<Candidate>, i: nat, k: nat)
    requires (forall x | x in ks :: CandidateOf(c, x)) && Sorted(ks, (k: Candidate) => k.from)
    requires Distinct(first, CandidateName) && PendingIsFirst(c, first) && (first == ks || PendingAhead(ks, first))
    requires i < k < |first|
    ensures Precedes(c, first[i].name, first[k].name)
  {
    hide *;
    if first == ks {
      SortedAt(ks, (k: Candidate) => k.from, i, k);
      LaterIsWhole(c, first, k);
      NotLater(c, ks[i], ks[k]);
    } else {
      var j := AheadAt(ks, first);
      MovedAt(ks, j, 0);
      MovedAt(ks, j, i);
      MovedAt(ks, j, k);
      LaterIsWhole(c, first, k);
      if i == 0 {
        FirstIsFirst(c, first[0], first[k]);
      } else {
        SortedAt(ks, (k: Candidate) => k.from, if i <= j then i - 1 else i, if k <= j then k - 1 else k);
        NotLater(c, first[i], first[k]);
      }
    }
  }

  lemma AheadAt(ks: seq<Candidate>, first: seq<Candidate>) returns (j: nat)
    requires PendingAhead(ks, first)
    ensures j < |ks| && ks[j].pending && first == MoveToFront(ks, j)
  {
    j :| j < |ks| && ks[j].pending && first == MoveToFront(ks, j);
  }

  lemma LaterIsWhole(c: Catalog, first: seq<Candidate>, k: nat)
    requires Distinct(first, CandidateName) && PendingIsFirst(c, first)
    requires 0 < k < |first| && CandidateOf(c, first[k])
    ensures !first[k].pending
  {
    assert CandidateName(first[0]) != CandidateName(first[k]);
  }

  lemma NotLater(c: Catalog, a: Candidate, b: Candidate)
    requires CandidateOf(c, a) && CandidateOf(c, b) && a.from <= b.from && !b.pending
    ensures Precedes(c, a.name, b.name)
  {
  }

  lemma FirstIsFirst(c: Catalog, a: Candidate, b: Candidate)
    requires CandidateOf(c, a) && CandidateOf(c, b) && a.pending && !b.pending
    ensures Precedes(c, a.name, b.name)
  {
  }

  lemma FollowsInTurn(c: Catalog, all: set<Name>, names: seq<Name>, out: seq<Dropped>)
    requires Agenda(c, all, names) && Follows(out, names)
    ensures InTurn(c, all, out)
    ensures |out| == |names| ==> Names(out) == all
  {
    forall i | 0 <= i < |out| ensures out[i].name in Names(out) {}
    forall n | n in all && (n !in Names(out) || |out| == |names|)
      ensures exists k :: 0 <= k < |names| && names[k] == n
    {
    }
  }

  /** pastPartitions: the attached weeks wholly older than the boundary, oldest
      first by bounds. */
  method PastPartitions(db: Database, boundary: Instant) returns (out: seq<Candidate>)
    ensures Lists(out, CandidateName, Past(db.cat, boundary))
    ensures forall k | k in out :: CandidateOf(db.cat, k)
    ensures Sorted(out, (k: Candidate) => k.from)
  {
    var left := db.cat.attached.Keys;
    out := [];
    ghost var seen: set<Name> := {};
    while left != {}
      invariant left <= db.cat.attached.Keys
      invariant seen == Past(db.cat, boundary) - left
      invariant Lists(out, CandidateName, seen)
      invariant forall k | k in out :: CandidateOf(db.cat, k)
      decreases left
    {
      var name :| name in left;
      left := left - {name};
      var p := db.cat.attached[name];
      if p.to <= boundary {
        ListsSnoc(out, Candidate(name, p.from, p.to, p.pending), CandidateName, seen);
        out := out + [Candidate(name, p.from, p.to, p.pending)];
        seen := seen + {name};
      }
    }
    assert seen == Past(db.cat, boundary);
    ListsSorted(out, (k: Candidate) => k.from, CandidateName, seen);
    out := SortBy(out, (k: Candidate) => k.from);
  }

  /** The resume query: open records whose name is not attached, oldest first,
      each with whether its table is still on disk. */
  method UnfinishedRows(db: Database) returns (out: seq<UnfinishedRow>)
    ensures Lists(out, RowName, Unfinished(db.cat))
    ensures forall u | u in out :: RowOf(db.cat, u)
    ensures Sorted(out, (u: UnfinishedRow) => u.from)
  {
    var left := db.cat.records.Keys;
    out := [];
    ghost var seen: set<Name> := {};
    while left != {}
      invariant left <= db.cat.records.Keys
      invariant seen == Unfinished(db.cat) - left
      invariant Lists(out, RowName, seen)
      invariant forall u | u in out :: RowOf(db.cat, u)
      decreases left
    {
      var name :| name in left;
      left := left - {name};
      var r := db.cat.records[name];
      if r.droppedAt.None? && name !in db.cat.attached {
        var u := UnfinishedRow(name, r.from, r.to, r.rows, r.detachedAt.Some?, name in db.cat.standalone);
        ListsSnoc(out, u, RowName, seen);
        out := out + [u];
        seen := seen + {name};
      }
    }
    assert seen == Unfinished(db.cat);
    ListsSorted(out, (u: UnfinishedRow) => u.from, RowName, seen);
    out := SortBy(out, (u: UnfinishedRow) => u.from);
  }

  /** pendingDetach: the partition left half detached, if there is one. */
  method PendingDetach(db: Database) returns (pending: Option<Name>)
    ensures pending.None? <==> NobodyPending(db.cat)
    ensures pending.Some? ==> pending.value in db.cat.attached && db.cat.attached[pending.value].pending
  {
    var left := db.cat.attached.Keys;
    while left != {}
      invariant left <= db.cat.attached.Keys
      invariant forall n | n in db.cat.attached && n !in left :: !db.cat.attached[n].pending
      decreases left
    {
      var name :| name in left;
      if db.cat.attached[name].pending {
        return Some(name);
      }
      left := left - {name};
    }
    return None;
  }

  method IndexOf(ks: seq<Candidate>, name: Name) returns (i: int)
    ensures i == -1 ==> forall k | 0 <= k < |ks| :: ks[k].name != name
    ensures i != -1 ==> 0 <= i < |ks| && ks[i].name == name && forall k | 0 <= k < i :: ks[k].name != name
  {
    i := 0;
    while i < |ks|
      invariant 0 <= i <= |ks|
      invariant forall k | 0 <= k < i :: ks[k].name != name
    {
      if ks[i].name == name {
        return;
      }
      i := i + 1;
    }
    return -1;
  }

  // ------------------------------------------------------------- one partition

  /** No partition but this one is half detached. */
  ghost predicate OnlyPending(c: Catalog, n: Name) {
    forall m | m in c.attached && c.attached[m].pending :: m == n
  }

  lemma FrameAgain(c: Catalog, d: Catalog, e: Catalog, n: Name)
    requires Frame(c, d, {n}) && Frame(d, e, {n})
    ensures Frame(c, e, {n})
  {
    FrameTrans(c, d, e, {n}, {n});
    assert {n} + {n} == {n};
  }

  lemma FrameRefl(c: Catalog, n: Name)
    ensures Frame(c, c, {n})
  {
  }

  predicate SameClocks(c: Catalog, d: Catalog) {
    c.hasDefault == d.hasDefault && c.newest == d.newest && c.clock <= d.clock
  }

  lemma FrameClocks(c: Catalog, d: Catalog, n: Name)
    requires Frame(c, d, {n})
    ensures SameClocks(c, d)
  {
  }

  lemma FrameOnlyPending(c: Catalog, d: Catalog, n: Name)
    requires Frame(c, d, {n}) && OnlyPending(c, n)
    ensures OnlyPending(d, n)
  {
    forall m | m in d.attached && m != n ensures !d.attached[m].pending {
      assert KeepsWeek(c, d, m);
    }
  }

  predicate RecordedAs(c: Catalog, n: Name, from: Instant, to: Instant) {
    Open(c, n) && c.records[n].from == from && c.records[n].to == to
  }

  predicate Started(c: Catalog, n: Name, from: Instant, to: Instant) {
    RecordedAs(c, n, from, to) && c.records[n].rows.None?
  }

  /** INSERT ... ON CONFLICT DO UPDATE ... WHERE dropped_at IS NULL. */
  method RecordWeek(db: Database, c: Candidate) returns (ok: bool)
    requires db.Valid() && db.locked && !db.broken && CandidateOf(db.cat, c)
    requires c.to <= Floor(db.cat.newest, db.kept) && c.to <= Floor(db.cat.clock + MINUTE, db.kept)
    requires c.name in db.cat.records ==> db.cat.records[c.name].droppedAt.None?
    modifies db`cat, db`states, db`steps, db`broken
    ensures db.Valid() && old(db.steps) <= db.steps && old(db.states) <= db.states
    ensures ok <==> !db.broken
    ensures Frame(old(db.cat), db.cat, {c.name})
    ensures ok ==> CandidateOf(db.cat, c) && Started(db.cat, c.name, c.from, c.to)
  {
    hide PartitionName;
    db.Known();
    assert NameOk(db.cat, c.name, db.kept);
    ghost var before := db.cat;
    ghost var mid;
    ok, mid := db.Exec(Record(c.name));
    assert KeepsWeek(before, mid, c.name);
    if c.name in before.records {
      WeekNamesAgree(c.name, c.from, c.to, before.records[c.name].from, before.records[c.name].to);
    }
  }

  /** DETACH PARTITION ... CONCURRENTLY, its two transactions, or FINALIZE for the
      second alone. The first is only ever issued with nobody pending. */
  method DetachWeek(db: Database, c: Candidate) returns (ok: bool)
    requires db.Valid() && db.locked && !db.broken && !db.cat.hasDefault
    requires CandidateOf(db.cat, c) && Started(db.cat, c.name, c.from, c.to) && OnlyPending(db.cat, c.name)
    modifies db`cat, db`states, db`steps, db`broken
    ensures db.Valid() && old(db.steps) <= db.steps && old(db.states) <= db.states
    ensures ok <==> !db.broken
    ensures Frame(old(db.cat), db.cat, {c.name})
    ensures ok ==> Started(db.cat, c.name, c.from, c.to) && c.name in db.cat.standalone && c.name !in db.cat.attached
  {
    hide PartitionName;
    ghost var mid;
    ghost var first := db.cat;
    ok := true;
    if !c.pending {
      ok, mid := db.Exec(DetachStart(c.name));
      assert KeepsWeek(first, mid, c.name);
      if !ok { return; }
    }
    ghost var second := db.cat;
    assert second.attached[c.name].pending && Started(second, c.name, c.from, c.to);
    ok, mid := db.Exec(DetachFinish(c.name));
    assert KeepsWeek(second, mid, c.name);
    if !c.pending {
      FrameAgain(first, second, db.cat, c.name);
    }
  }

  /** SELECT count(*) on the standalone table, then the record's count. The rows
      cannot change in between: nothing writes to a detached table. */
  method CountWeek(db: Database, name: Name, now: Instant) returns (rows: nat, ok: bool)
    requires db.Valid() && db.locked && !db.broken && Open(db.cat, name)
    requires db.cat.records[name].rows.None? && name in db.cat.standalone
    modifies db`cat, db`states, db`steps, db`broken
    ensures db.Valid() && old(db.steps) <= db.steps && old(db.states) <= db.states
    ensures ok <==> !db.broken
    ensures Frame(old(db.cat), db.cat, {name})
    ensures ok ==> RecordedAs(db.cat, name, old(db.cat.records[name].from), old(db.cat.records[name].to))
    ensures ok ==> name in db.cat.standalone && name !in db.cat.attached
    ensures ok ==> db.cat.records[name].rows == Some(rows) && rows == db.cat.standalone[name]
  {
    hide PartitionName;
    db.Known();
    assert NameOk(db.cat, name, db.kept);
    ok := db.Answers();
    if !ok { return 0, false; }
    rows := db.cat.standalone[name];
    ghost var before := db.cat;
    ghost var mid;
    ok, mid := db.Exec(WriteCount(name, rows, now));
    assert KeepsWeek(before, mid, name);
  }

  /** DROP TABLE of a standalone table that is counted. */
  method DropWeek(db: Database, name: Name) returns (ok: bool)
    requires db.Valid() && db.locked && !db.broken && Open(db.cat, name)
    requires name in db.cat.standalone && db.cat.records[name].rows == Some(db.cat.standalone[name])
    modifies db`cat, db`states, db`steps, db`broken
    ensures db.Valid() && old(db.steps) <= db.steps && old(db.states) <= db.states
    ensures ok <==> !db.broken
    ensures Frame(old(db.cat), db.cat, {name})
    ensures ok ==> Gone(db.cat, name) && db.cat.records[name] == old(db.cat.records[name])
  {
    hide PartitionName;
    db.Known();
    assert NameOk(db.cat, name, db.kept);
    ghost var before := db.cat;
    ghost var mid;
    ok, mid := db.Exec(DropTable(name));
    assert KeepsWeek(before, mid, name);
  }

  /** UPDATE ... SET dropped_at, once the table is gone. */
  method StampWeek(db: Database, name: Name, now: Instant) returns (ok: bool)
    requires db.Valid() && db.locked && !db.broken
    requires Open(db.cat, name) && Gone(db.cat, name) && db.cat.records[name].rows.Some?
    modifies db`cat, db`states, db`steps, db`broken
    ensures db.Valid() && old(db.steps) <= db.steps && old(db.states) <= db.states
    ensures ok <==> !db.broken
    ensures Frame(old(db.cat), db.cat, {name})
    ensures ok ==> Gone(db.cat, name) && db.cat.records[name] == old(db.cat.records[name]).(droppedAt := Some(now))
  {
    hide PartitionName;
    ghost var before := db.cat;
    ghost var mid;
    ok, mid := db.Exec(Stamp(name, now));
    assert KeepsWeek(before, mid, name);
  }

  /** The record of this name says its week was dropped. */
  predicate ClosedRecord(c: Catalog, n: Name) {
    n in c.records && c.records[n].droppedAt.Some?
  }

  /** dropOne: record, detach, count, drop, stamp, each its own commit, with a stop
      possible before, inside and after every one of them. A week whose record is
      already closed is refused before anything is touched, however it came back. */
  method DropOne(db: Database, c: Candidate, now: Instant) returns (d: Dropped, err: Option<RetainError>)
    requires db.locked && !db.broken && !db.cat.hasDefault && CandidateOf(db.cat, c)
    requires ClosedRecord(db.cat, c.name) || (db.Valid() && OnlyPending(db.cat, c.name)
      && c.to <= Floor(db.cat.newest, db.kept) && c.to <= Floor(db.cat.clock + MINUTE, db.kept))
    modifies db`cat, db`states, db`steps, db`broken
    ensures old(db.Valid()) ==> db.Valid()
    ensures old(db.steps) <= db.steps && old(db.states) <= db.states
    ensures Frame(old(db.cat), db.cat, {c.name})
    ensures err == Some(Stopped) <==> db.broken
    ensures err == Some(WeekReturned(c.name)) <==> !db.broken && old(ClosedRecord(db.cat, c.name))
    ensures old(ClosedRecord(db.cat, c.name)) ==> db.cat == old(db.cat)
    ensures err.None? ==> d.name == c.name && Reported(db.cat, d, now)
    ensures err in {None, Some(Stopped), Some(WeekReturned(c.name))}
  {
    hide PartitionName, Frame, IsHistory, Floor;
    d := Dropped(c.name, c.from, c.to, 0, false);
    if ClosedRecord(db.cat, c.name) {
      FrameRefl(db.cat, c.name);
      var ok := db.Answers();
      if !ok { return d, Some(Stopped); }
      return d, Some(WeekReturned(c.name));
    }
    ghost var c0 := db.cat;
    var ok := RecordWeek(db, c);
    if !ok { return d, Some(Stopped); }
    ghost var c1 := db.cat;
    FrameClocks(c0, c1, c.name);
    FrameOnlyPending(c0, c1, c.name);
    ok := DetachWeek(db, c);
    FrameAgain(c0, c1, db.cat, c.name);
    if !ok { return d, Some(Stopped); }
    ghost var c2 := db.cat;
    var rows;
    rows, ok := CountWeek(db, c.name, now);
    FrameAgain(c0, c2, db.cat, c.name);
    if !ok { return d, Some(Stopped); }
    ghost var c3 := db.cat;
    ok := DropWeek(db, c.name);
    FrameAgain(c0, c3, db.cat, c.name);
    if !ok { return d, Some(Stopped); }
    ghost var c4 := db.cat;
    ok := StampWeek(db, c.name, now);
    FrameAgain(c0, c4, db.cat, c.name);
    if !ok { return d, Some(Stopped); }
    return Dropped(c.name, c.from, c.to, rows, true), None;
  }

  // ---------------------------------------------- what a stopped run left behind

  lemma FrameUnfinished(c: Catalog, d: Catalog, n: Name)
    requires Frame(c, d, {n}) && Gone(d, n) && d.records[n].droppedAt.Some?
    ensures Unfinished(d) == Unfinished(c) - {n}
  {
    forall m: Name | m != n ensures m in Unfinished(d) <==> m in Unfinished(c) {
      assert KeepsWeek(c, d, m);
    }
  }

  lemma FramePast(c: Catalog, d: Catalog, n: Name, boundary: Instant)
    requires Frame(c, d, {n}) && n !in d.attached
    ensures Past(d, boundary) == Past(c, boundary) - {n}
  {
    forall m: Name | m != n ensures m in Past(d, boundary) <==> m in Past(c, boundary) {
      assert KeepsWeek(c, d, m);
    }
  }

  lemma FrameReported(c: Catalog, d: Catalog, n: Name, out: seq<Dropped>, now: Instant)
    requires Frame(c, d, {n}) && (n in c.records ==> c.records[n].droppedAt.None?)
    requires forall r | r in out :: Reported(c, r, now)
    ensures forall r | r in out :: Reported(d, r, now)
  {
    forall r | r in out ensures Reported(d, r, now) {
      assert r.name != n;
      assert KeepsWeek(c, d, r.name);
    }
  }

  /** One row of the resume query: count it unless a count was written, drop what is
      still on disk, stamp. */
  method ResumeOne(db: Database, u: UnfinishedRow, now: Instant) returns (d: Dropped, ok: bool)
    requires db.Valid() && db.locked && !db.broken && RowOf(db.cat, u)
    modifies db`cat, db`states, db`steps, db`broken
    ensures db.Valid() && old(db.steps) <= db.steps && old(db.states) <= db.states
    ensures ok <==> !db.broken
    ensures Frame(old(db.cat), db.cat, {u.name})
    ensures ok ==> d.name == u.name && Reported(db.cat, d, now)
  {
    hide PartitionName;
    db.Known();
    assert NameOk(db.cat, u.name, db.kept);
    ghost var c0 := db.cat;
    var n: nat, counted := 0, true;
    d := Dropped(u.name, u.from, u.to, 0, false);
    ok := true;
    if u.onDisk {
      if u.counted && u.rows.Some? {
        n := u.rows.value;
      } else {
        n, ok := CountWeek(db, u.name, now);
        if !ok { return; }
      }
      ghost var c1 := db.cat;
      ok := DropWeek(db, u.name);
      if !(u.counted && u.rows.Some?) {
        FrameAgain(c0, c1, db.cat, u.name);
      }
      if !ok { return; }
    } else if u.rows.Some? {
      n := u.rows.value;
    } else {
      counted := false;
    }
    ghost var c2 := db.cat;
    ok := StampWeek(db, u.name, now);
    if u.onDisk {
      FrameAgain(c0, c2, db.cat, u.name);
    }
    d := Dropped(u.name, u.from, u.to, n, counted);
  }

  lemma FrameRows(c: Catalog, d: Catalog, n: Name, us: seq<UnfinishedRow>)
    requires Frame(c, d, {n}) && (forall u | u in us :: RowOf(c, u) && u.name != n)
    ensures forall u | u in us :: RowOf(d, u)
  {
    forall u | u in us ensures RowOf(d, u) {
      assert KeepsWeek(c, d, u.name);
    }
  }

  lemma FrameCandidates(c: Catalog, d: Catalog, n: Name, ks: seq<Candidate>)
    requires Frame(c, d, {n}) && (forall k | k in ks :: CandidateOf(c, k) && k.name != n)
    ensures forall k | k in ks :: CandidateOf(d, k)
  {
    forall k | k in ks ensures CandidateOf(d, k) {
      assert KeepsWeek(c, d, k.name);
    }
  }

  /** One week further: what the resume loop knows after a row is done. */
  lemma ResumedOne(c: Catalog, e: Catalog, u: UnfinishedRow, open: seq<UnfinishedRow>, out: seq<Dropped>, d: Dropped,
                   now: Instant)
    requires Lists([u] + open, RowName, Unfinished(c)) && RowOf(c, u) && forall v | v in open :: RowOf(c, v)
    requires Frame(c, e, {u.name}) && forall r | r in out :: Reported(c, r, now)
    ensures forall r | r in out :: Reported(e, r, now)
    ensures SameClocks(c, e)
    ensures d.name == u.name && Reported(e, d, now) ==>
      && Lists(open, RowName, Unfinished(e)) && (forall v | v in open :: RowOf(e, v))
      && (forall r | r in out + [d] :: Reported(e, r, now))
      && SameWeeks(c, e)
  {
    FrameReported(c, e, u.name, out, now);
    ListsTail([u] + open, RowName, Unfinished(c));
    assert ([u] + open)[1..] == open;
    if d.name == u.name && Reported(e, d, now) {
      FrameUnfinished(c, e, u.name);
      forall n | n in c.attached || n in e.attached
        ensures n in c.attached && n in e.attached
        ensures e.attached[n] == c.attached[n].(rows := e.attached[n].rows)
      {
        assert n != u.name && KeepsWeek(c, e, n);
      }
      ListsNames(open, RowName, Unfinished(c) - {u.name});
      forall v | v in open ensures v.name != u.name {
        assert RowName(v) in Unfinished(c) - {u.name};
      }
      FrameRows(c, e, u.name, open);
    }
  }

  /** One line more of an agenda. */
  lemma FollowsOn(out: seq<Dropped>, d: Dropped, names: seq<Name>)
    requires Follows(out, names) && |out| < |names| && d.name == names[|out|]
    ensures Follows(out + [d], names)
  {
  }

  lemma RowNameAt(us: seq<UnfinishedRow>, i: nat)
    requires i < |us|
    ensures |RowNames(us)| == |us| && RowNames(us)[i] == us[i].name
  {
  }

  /** resumeUnfinished: when it answers, no record is left open for a name that is
      not attached, and it has reported each week it finished. What it reports are the
      oldest of those it found, each once and oldest first, and all of them when it
      answers. */
  method ResumeUnfinished(db: Database, now: Instant) returns (out: seq<Dropped>, ok: bool)
    requires db.Valid() && db.locked && !db.broken
    modifies db`cat, db`states, db`steps, db`broken
    ensures db.Valid() && old(db.steps) <= db.steps && old(db.states) <= db.states
    ensures ok <==> !db.broken
    ensures SameClocks(old(db.cat), db.cat)
    ensures forall d | d in out :: Reported(db.cat, d, now)
    ensures InTurn(old(db.cat), Unfinished(old(db.cat)), out)
    ensures ok ==> Unfinished(db.cat) == {} && Names(out) == Unfinished(old(db.cat)) && SameWeeks(old(db.cat), db.cat)
  {
    hide PartitionName, Lists, Frame, Reported, RowOf, CandidateOf, Unfinished, IsHistory, Names, InTurn, Agenda;
    hide Follows, RowNames, Sorted;
    out := [];
    ok := db.Answers();
    if !ok {
      NothingInTurn(db.cat, Unfinished(db.cat));
      return out, false;
    }
    var open := UnfinishedRows(db);
    ghost var all, rows, names := Unfinished(db.cat), open, RowNames(open);
    RowsAreAgenda(db.cat, open);
    FollowsNothing(names);
    RowCount(rows);
    while open != []
      invariant db.Valid() && db.locked && !db.broken && old(db.steps) <= db.steps && old(db.states) <= db.states
      invariant SameClocks(old(db.cat), db.cat)
      invariant SameWeeks(old(db.cat), db.cat)
      invariant Lists(open, RowName, Unfinished(db.cat))
      invariant forall u | u in open :: RowOf(db.cat, u)
      invariant forall d | d in out :: Reported(db.cat, d, now)
      invariant |out| <= |rows| && open == rows[|out|..] && Follows(out, names)
      decreases |open|
    {
      ghost var c, done := db.cat, out;
      var u := open[0];
      assert open == [u] + open[1..];
      RowNameAt(rows, |out|);
      open := open[1..];
      var d;
      d, ok := ResumeOne(db, u, now);
      ResumedOne(c, db.cat, u, open, out, d, now);
      if !ok {
        FollowsInTurn(old(db.cat), all, names, out);
        return;
      }
      FollowsOn(out, d, names);
      out := out + [d];
    }
    FollowsInTurn(old(db.cat), all, names, out);
    ListsNames(open, RowName, Unfinished(db.cat));
    ok := true;
  }

  lemma NothingInTurn(c: Catalog, all: set<Name>)
    ensures InTurn(c, all, [])
  {
  }

  lemma FollowsNothing(names: seq<Name>)
    ensures Follows([], names)
  {
  }

  lemma RowCount(us: seq<UnfinishedRow>)
    ensures |RowNames(us)| == |us|
  {
  }

  // ------------------------------------------------------------------ the run

  /** No week is half detached but the first candidate, while it is still to do. */
  ghost predicate PendingIsFirst(c: Catalog, ks: seq<Candidate>) {
    forall m | m in c.attached && c.attached[m].pending :: ks != [] && ks[0].name == m
  }

  /** One week further: what the drop loop knows after a candidate is done. */
  lemma DroppedOne(c: Catalog, e: Catalog, k: Candidate, left: seq<Candidate>, out: seq<Dropped>, d: Dropped,
                   now: Instant, boundary: Instant)
    requires Lists([k] + left, CandidateName, Past(c, boundary)) && forall x | x in left :: CandidateOf(c, x)
    requires PendingIsFirst(c, [k] + left) && Unfinished(c) == {}
    requires Open(c, k.name) || k.name !in c.records
    requires Frame(c, e, {k.name}) && forall r | r in out :: Reported(c, r, now)
    ensures forall r | r in out :: Reported(e, r, now)
    ensures SameClocks(c, e)
    ensures d.name == k.name && Reported(e, d, now) ==>
      && Lists(left, CandidateName, Past(e, boundary)) && (forall x | x in left :: CandidateOf(e, x))
      && PendingIsFirst(e, left) && Unfinished(e) == {}
      && (forall r | r in out + [d] :: Reported(e, r, now))
  {
    FrameReported(c, e, k.name, out, now);
    ListsTail([k] + left, CandidateName, Past(c, boundary));
    assert ([k] + left)[1..] == left && ([k] + left)[0] == k;
    if d.name == k.name && Reported(e, d, now) {
      FrameUnfinished(c, e, k.name);
      FramePast(c, e, k.name, boundary);
      FrameOnlyPending(c, e, k.name);
      ListsNames(left, CandidateName, Past(c, boundary) - {k.name});
      forall x | x in left ensures x.name != k.name {
        assert CandidateName(x) in Past(c, boundary) - {k.name};
      }
      FrameCandidates(c, e, k.name, left);
    }
  }

  /** What the run knows of its first candidate: it is there, past, and its record, if
      it has one, is open; nobody else is pending. */
  lemma FirstCandidate(c: Catalog, k: Candidate, left: seq<Candidate>, boundary: Instant, kept: nat)
    requires Inv(c, kept) && Lists([k] + left, CandidateName, Past(c, boundary)) && CandidateOf(c, k)
    requires PendingIsFirst(c, [k] + left)
    ensures k.to <= boundary && OnlyPending(c, k.name)
    ensures Open(c, k.name) || k.name !in c.records
  {
    ListsTail([k] + left, CandidateName, Past(c, boundary));
    assert NameOk(c, k.name, kept);
  }

  /** The loop over the candidates, pending one first: a line for each, in their order,
      as far as it gets. */
  method DropAll(db: Database, candidates: seq<Candidate>, now: Instant, boundary: Instant, resumed: seq<Dropped>)
      returns (out: seq<Dropped>, err: Option<RetainError>)
    requires db.Valid() && db.locked && !db.broken && !db.cat.hasDefault
    requires boundary <= Floor(db.cat.newest, db.kept) && boundary <= Floor(db.cat.clock + MINUTE, db.kept)
    requires Unfinished(db.cat) == {}
    requires Lists(candidates, CandidateName, Past(db.cat, boundary))
    requires forall k | k in candidates :: CandidateOf(db.cat, k)
    requires PendingIsFirst(db.cat, candidates)
    requires forall d | d in resumed :: Reported(db.cat, d, now)
    modifies db`cat, db`states, db`steps, db`broken
    ensures db.Valid() && old(db.steps) <= db.steps && old(db.states) <= db.states
    ensures err == if db.broken then Some(Stopped) else None
    ensures forall d | d in out :: Reported(db.cat, d, now)
    ensures resumed <= out && |out| <= |resumed| + |candidates|
    ensures forall i | |resumed| <= i < |out| :: out[i].name == candidates[i - |resumed|].name
    ensures err.None? ==> |out| == |resumed| + |candidates|
    ensures SameClocks(old(db.cat), db.cat)
    ensures err.None? ==> Past(db.cat, boundary) == {} && Unfinished(db.cat) == {} && NobodyPending(db.cat)
  {
    hide PartitionName, Lists, Frame, Reported, CandidateOf, Unfinished, Past, PendingIsFirst, OnlyPending;
    hide IsHistory;
    out := resumed;
    var left := candidates;
    while left != []
      invariant db.Valid() && db.locked && !db.broken && old(db.steps) <= db.steps && old(db.states) <= db.states
      invariant SameClocks(old(db.cat), db.cat)
      invariant Unfinished(db.cat) == {}
      invariant Lists(left, CandidateName, Past(db.cat, boundary))
      invariant forall k | k in left :: CandidateOf(db.cat, k)
      invariant PendingIsFirst(db.cat, left)
      invariant forall d | d in out :: Reported(db.cat, d, now)
      invariant resumed <= out && |out| + |left| == |resumed| + |candidates|
      invariant left == candidates[|out| - |resumed|..]
      invariant forall i | |resumed| <= i < |out| :: out[i].name == candidates[i - |resumed|].name
      decreases |left|
    {
      ghost var before := db.cat;
      var c := left[0];
      assert left == [c] + left[1..];
      left := left[1..];
      db.Known();
      FirstCandidate(before, c, left, boundary, db.kept);
      var d;
      d, err := DropOne(db, c, now);
      DroppedOne(before, db.cat, c, left, out, d, now, boundary);
      if err.Some? { return; }
      out := out + [d];
    }
    ListsNames(left, CandidateName, Past(db.cat, boundary));
    NoneLeft(db.cat);
    err := None;
  }

  lemma NoneLeft(c: Catalog)
    requires PendingIsFirst(c, [])
    ensures NobodyPending(c)
  {
  }

  /** A half detached partition that ends after the boundary. */
  predicate PendingAfter(c: Catalog, n: Name, boundary: Instant) {
    n in c.attached && c.attached[n].pending && boundary < c.attached[n].to
  }

  lemma NotAmongPast(c: Catalog, ks: seq<Candidate>, n: Name, boundary: Instant)
    requires Lists(ks, CandidateName, Past(c, boundary)) && forall k | 0 <= k < |ks| :: ks[k].name != n
    ensures n !in Past(c, boundary)
  {
  }

  lemma NoneIsFirst(c: Catalog, ks: seq<Candidate>)
    requires NobodyPending(c)
    ensures PendingIsFirst(c, ks)
  {
  }

  /** The candidates with the half detached one taken to the front. */
  ghost predicate PendingAhead(candidates: seq<Candidate>, ks: seq<Candidate>) {
    exists i: nat :: i < |candidates| && candidates[i].pending && ks == MoveToFront(candidates, i)
  }

  /** The splice: the same candidates, the pending one first and nobody else pending. */
  lemma Splices(c: Catalog, candidates: seq<Candidate>, i: nat, boundary: Instant, kept: nat)
    requires Inv(c, kept) && Lists(candidates, CandidateName, Past(c, boundary)) && i < |candidates|
    requires (forall k | k in candidates :: CandidateOf(c, k)) && c.attached[candidates[i].name].pending
    ensures var ks := MoveToFront(candidates, i);
      && Lists(ks, CandidateName, Past(c, boundary)) && PendingIsFirst(c, ks) && PendingAhead(candidates, ks)
      && (forall k | k in ks :: CandidateOf(c, k))
      && candidates[i].name in Past(c, boundary)
      && forall m | m in c.attached && c.attached[m].pending :: m == candidates[i].name
  {
    ListsMoved(candidates, i, CandidateName, Past(c, boundary));
    ListsNames(candidates, CandidateName, Past(c, boundary));
    MoveToFrontOrder(candidates, i);
    assert candidates[i] in candidates;
    hide Lists, MoveToFront;
  }

  /** What pendingDetach and the splice establish: the half detached partition goes
      first, or the run stops because it is not one to drop. */
  method PutPendingFirst(db: Database, candidates: seq<Candidate>, boundary: Instant)
      returns (ks: seq<Candidate>, err: Option<RetainError>)
    requires db.Valid() && Lists(candidates, CandidateName, Past(db.cat, boundary))
    requires forall k | k in candidates :: CandidateOf(db.cat, k)
    ensures err.None? ==> Lists(ks, CandidateName, Past(db.cat, boundary)) && PendingIsFirst(db.cat, ks)
    ensures err.None? ==> forall k | k in ks :: CandidateOf(db.cat, k)
    ensures err.None? && NobodyPending(db.cat) ==> ks == candidates
    ensures err.None? && !NobodyPending(db.cat) ==> PendingAhead(candidates, ks)
    ensures err.Some? <==> exists n ::
      n in db.cat.attached && db.cat.attached[n].pending && n !in Past(db.cat, boundary)
    ensures err.Some? ==> err.value.PendingElsewhere? && PendingAfter(db.cat, err.value.name, boundary)
  {
    hide PartitionName, IsHistory, Lists, PendingIsFirst, PendingAhead, MoveToFront;
    db.Known();
    ks := candidates;
    var pending := PendingDetach(db);
    if pending.Some? {
      var i := IndexOf(candidates, pending.value);
      if i < 0 {
        NotAmongPast(db.cat, candidates, pending.value, boundary);
        return ks, Some(PendingElsewhere(pending.value));
      }
      Splices(db.cat, candidates, i, boundary, db.kept);
      ks := MoveToFront(candidates, i);
    } else {
      NoneIsFirst(db.cat, ks);
    }
    err := None;
  }

  /** A refusal that comes before anything is touched. */
  predicate Guarded(err: Option<RetainError>) {
    err in {Some(ClockAhead), Some(KeepInsideHorizon), Some(DefaultPartition)}
  }

  ghost predicate PendingBeyond(c: Catalog, boundary: Instant) {
    exists n :: PendingAfter(c, n, boundary)
  }

  /** What a run that nothing stopped answers: the first guard that refuses, or nil. */
  ghost predicate Decided(c: Catalog, err: Option<RetainError>, now: Instant, keep: int, behind: int64) {
    if c.clock + MINUTE < now then err == Some(ClockAhead)
    else if keep < FloorDuration(behind) then err == Some(KeepInsideHorizon)
    else if c.hasDefault then err == Some(DefaultPartition)
    else if PendingBeyond(c, now - keep) then
      err.Some? && err.value.PendingElsewhere? && PendingAfter(c, err.value.name, now - keep)
    else err == None
  }

  lemma FrameListings(c: Catalog, d: Catalog, boundary: Instant)
    requires Frame(c, d, {})
    ensures Unfinished(c) == Unfinished(d) && Past(c, boundary) == Past(d, boundary)
  {
    forall n: Name
      ensures n in Unfinished(c) <==> n in Unfinished(d)
      ensures n in Past(c, boundary) <==> n in Past(d, boundary)
    {
      assert KeepsWeek(c, d, n);
    }
  }

  function LineNames(out: seq<Dropped>): seq<Name> {
    seq(|out|, i requires 0 <= i < |out| => out[i].name)
  }

  /** What is not attached comes before what is. */
  lemma WiderInTurn(c: Catalog, all: set<Name>, more: set<Name>, out: seq<Dropped>)
    requires InTurn(c, all, out) && all !! c.attached.Keys && more <= c.attached.Keys
    ensures InTurn(c, all + more, out)
  {
  }

  /** The lines of the resume, then the candidates. */
  lemma WholeAgenda(c: Catalog, d: Catalog, resumed: seq<Dropped>, ks: seq<Candidate>, boundary: Instant)
    requires InTurn(c, Unfinished(c), resumed) && Names(resumed) == Unfinished(c)
    requires SameWeeks(c, d) && Agenda(d, Past(d, boundary), CandidateNames(ks))
    ensures Agenda(c, Unfinished(c) + Past(c, boundary), LineNames(resumed) + CandidateNames(ks))
  {
    SamePast(c, d, boundary);
    UnfinishedIsOff(c);
    LinesAreAgenda(c, Unfinished(c), resumed);
    SameAgenda(c, d, Past(c, boundary), CandidateNames(ks));
    AgendaJoin(c, Unfinished(c), Past(c, boundary), LineNames(resumed), CandidateNames(ks));
  }

  lemma UnfinishedIsOff(c: Catalog)
    ensures forall n | n in Unfinished(c) :: n !in c.attached
  {
  }

  lemma LinesAreAgenda(c: Catalog, all: set<Name>, out: seq<Dropped>)
    requires InTurn(c, all, out) && Names(out) == all
    ensures Agenda(c, all, LineNames(out))
  {
    hide Precedes;
    forall n | n in all ensures exists i :: 0 <= i < |LineNames(out)| && LineNames(out)[i] == n {
      var d :| d in out && d.name == n;
      var i :| 0 <= i < |out| && out[i] == d;
      assert LineNames(out)[i] == n;
    }
  }

  lemma SameAgenda(c: Catalog, d: Catalog, all: set<Name>, names: seq<Name>)
    requires SameWeeks(c, d) && Agenda(d, all, names) && all <= c.attached.Keys
    ensures Agenda(c, all, names)
  {
    forall i, k | 0 <= i < k < |names| ensures names[i] != names[k] && Precedes(c, names[i], names[k]) {
      assert names[i] in all && names[k] in all && Precedes(d, names[i], names[k]);
    }
  }

  lemma AgendaJoin(c: Catalog, off: set<Name>, on: set<Name>, a: seq<Name>, b: seq<Name>)
    requires Agenda(c, off, a) && Agenda(c, on, b)
    requires (forall n | n in off :: n !in c.attached) && on <= c.attached.Keys
    ensures Agenda(c, off + on, a + b)
  {
    var names := a + b;
    forall n | n in off + on ensures exists i :: 0 <= i < |names| && names[i] == n {
      if n in off {
        var i :| 0 <= i < |a| && a[i] == n;
        assert names[i] == n;
      } else {
        var i :| 0 <= i < |b| && b[i] == n;
        assert names[|a| + i] == n;
      }
    }
    forall i, k | 0 <= i < k < |names| ensures names[i] != names[k] && Precedes(c, names[i], names[k]) {
      if i < |a| <= k {
        assert a[i] in off && b[k - |a|] in on;
      } else if |a| <= i {
        assert names[i] == b[i - |a|] && names[k] == b[k - |a|];
      }
    }
  }

  lemma JoinFollows(resumed: seq<Dropped>, ks: seq<Candidate>, out: seq<Dropped>)
    requires resumed <= out && |out| <= |resumed| + |ks|
    requires forall i | |resumed| <= i < |out| :: out[i].name == ks[i - |resumed|].name
    ensures Follows(out, LineNames(resumed) + CandidateNames(ks))
    ensures |LineNames(resumed) + CandidateNames(ks)| == |resumed| + |ks|
  {
    assert forall i | 0 <= i < |resumed| :: out[i] == resumed[i];
  }

  /** Retain past its guards: finish what a stopped run left, find what is past, put a half
      detached week first, drop them all. */
  method RetireWeeks(db: Database, now: Instant, boundary: Instant)
      returns (out: seq<Dropped>, err: Option<RetainError>)
    requires db.Valid() && db.locked && !db.broken && !db.cat.hasDefault
    requires boundary <= Floor(db.cat.newest, db.kept) && boundary <= Floor(db.cat.clock + MINUTE, db.kept)
    modifies db`cat, db`states, db`steps, db`broken
    ensures db.Valid() && old(db.steps) <= db.steps && old(db.states) <= db.states
    ensures SameClocks(old(db.cat), db.cat)
    ensures InTurn(old(db.cat), Unfinished(old(db.cat)) + Past(old(db.cat), boundary), out)
    ensures forall d | d in out :: Reported(db.cat, d, now)
    ensures err == Some(Stopped) <==> db.broken
    ensures err.Some? && !db.broken ==>
      out == [] && err.value.PendingElsewhere? && PendingAfter(db.cat, err.value.name, boundary)
    ensures err.None? ==> Converged(db.cat, boundary) && NobodyPending(db.cat)
    ensures err.None? ==> Names(out) == Unfinished(old(db.cat)) + Past(old(db.cat), boundary)
  {
    hide PartitionName, IsHistory, Lists, Names, Past, Unfinished, Converged, Reported, InTurn, Agenda, Sorted, Follows;
    hide SameWeeks, PendingIsFirst, PendingAhead, CandidateOf, PendingAfter, CandidateNames, LineNames, NobodyPending;
    ghost var c, all := db.cat, Unfinished(db.cat) + Past(db.cat, boundary);
    NothingInTurn(c, all);
    var ok;
    out, ok := ResumeUnfinished(db, now);
    if !ok {
      OffAndOn(c, boundary);
      WiderInTurn(c, Unfinished(c), Past(c, boundary), out);
      return out, Some(Stopped);
    }
    ok := db.Answers();
    if !ok { return [], Some(Stopped); }
    var candidates := PastPartitions(db, boundary);
    ok := db.Answers();
    if !ok { return [], Some(Stopped); }
    var ks;
    ks, err := PutPendingFirst(db, candidates, boundary);
    if err.Some? { return [], err; }
    CandidatesAreAgenda(db.cat, candidates, ks, boundary);
    WholeAgenda(c, db.cat, out, ks, boundary);
    ghost var resumed := out;
    out, err := DropAll(db, ks, now, boundary, out);
    JoinFollows(resumed, ks, out);
    FollowsInTurn(c, all, LineNames(resumed) + CandidateNames(ks), out);
    if err.None? {
      db.Known();
      ConvergedBy(db.cat, boundary, db.kept);
    }
  }

  lemma OffAndOn(c: Catalog, boundary: Instant)
    ensures Unfinished(c) !! c.attached.Keys && Past(c, boundary) <= c.attached.Keys
  {
  }

  /** Others' writes and the run's own beginning leave the order as it was. */
  lemma InTurnStays(c: Catalog, d: Catalog, now: Instant, all: set<Name>, out: seq<Dropped>)
    requires Frame(c, d, {}) && InTurn(Apply(d, Begin(now)), all, out)
    ensures InTurn(c, all, out)
  {
    var e := Apply(d, Begin(now));
    forall a, b | Precedes(e, a, b) ensures Precedes(c, a, b) {
      assert KeepsWeek(c, d, a) && KeepsWeek(c, d, b);
    }
    hide Precedes;
  }

  /** Retain, under the lock. */
  method RetainLocked(db: Database, now: Instant, keep: int64, behind: nat)
      returns (out: seq<Dropped>, err: Option<RetainError>)
    requires db.Valid() && db.locked && !db.broken && keep > 0
    requires 0 < behind <= MAX_INT64 && db.kept <= Protected(behind)
    modifies db`cat, db`states, db`steps, db`broken
    ensures db.Valid() && old(db.steps) <= db.steps && old(db.states) <= db.states
    ensures err.None? ==> Converged(db.cat, now - keep) && db.kept <= keep
    ensures InTurn(old(db.cat), Unfinished(old(db.cat)) + Past(old(db.cat), now - keep), out)
    ensures err.None? ==> Names(out) == Unfinished(old(db.cat)) + Past(old(db.cat), now - keep)
    ensures forall d | d in out :: Reported(db.cat, d, now)
    ensures err == Some(Stopped) <==> db.broken
    ensures err.Some? ==> !err.value.WeekReturned? && !err.value.KeepNotPositive? && !err.value.LockHeld?
    ensures !db.broken ==> Decided(db.cat, err, now, keep, behind)
    ensures err.Some? && !err.value.Stopped? ==> out == []
    ensures Guarded(err) ==> Frame(old(db.cat), db.cat, {})
    ensures db.cat.newest <= Max(old(db.cat.newest), now)
  {
    hide PartitionName, IsHistory, Lists, Names, Past, Unfinished, Converged, Reported, InTurn, Agenda, Sorted;
    hide SameWeeks, PendingIsFirst, CandidateOf, FloorDuration, PendingAfter, NobodyPending;
    out := [];
    var boundary := now - keep;
    ghost var c0, all := db.cat, Unfinished(db.cat) + Past(db.cat, boundary);
    NothingInTurn(c0, all);
    db.Others();
    FrameListings(c0, db.cat, boundary);
    var ok := db.Answers();
    if !ok { return out, Some(Stopped); }
    var dbNow := db.cat.clock;
    if now - dbNow > MINUTE {
      return out, Some(ClockAhead);
    }
    if keep < FloorDuration(behind) {
      return out, Some(KeepInsideHorizon);
    }
    ok := db.Answers();
    if !ok { return out, Some(Stopped); }
    if db.cat.hasDefault {
      return out, Some(DefaultPartition);
    }
    BeginKeepsLists(db.cat, now, boundary);
    ghost var c1 := db.cat;
    db.Commit(Begin(now));
    out, err := RetireWeeks(db, now, boundary);
    InTurnStays(c0, c1, now, all, out);
    NobodyIsAfter(db.cat, boundary);
  }

  lemma NobodyIsAfter(c: Catalog, boundary: Instant)
    ensures NobodyPending(c) ==> !PendingBeyond(c, boundary)
    ensures forall n | PendingAfter(c, n, boundary) :: PendingBeyond(c, boundary)
  {
  }

  lemma ConvergedBy(c: Catalog, boundary: Instant, kept: nat)
    requires Inv(c, kept) && Past(c, boundary) == {} && Unfinished(c) == {}
    ensures Converged(c, boundary)
  {
    forall n: Name ensures n !in c.standalone {
      assert NameOk(c, n, kept);
      assert n !in Unfinished(c);
    }
  }

  lemma BeginKeepsLists(c: Catalog, now: Instant, boundary: Instant)
    ensures var d := Apply(c, Begin(now));
      Unfinished(d) == Unfinished(c) && Past(d, boundary) == Past(c, boundary)
  {
  }

  /** Retain: from any state any number of stopped runs left, a run that answers
      nil has converged, and has reported every week it finished or dropped and no
      other, each once and in its order. A run whose session lasts answers nil or the
      first guard that refuses; whatever it answers, the history is legal, what it
      reports is what the records say, and no week was found that had returned. */
  method Retain(db: Database, now: Instant, keep: int64, span: Span)
      returns (out: seq<Dropped>, err: Option<RetainError>)
    requires db.Valid()
    requires db.kept <= Protected(span.WithDefaults().behind)
    modifies db
    ensures db.Valid() && old(db.steps) <= db.steps && old(db.states) <= db.states
    ensures db.locked == old(db.locked)
    ensures err.None? ==> Converged(db.cat, now - keep) && db.kept <= keep
    ensures InTurn(old(db.cat), Unfinished(old(db.cat)) + Past(old(db.cat), now - keep), out)
    ensures err.None? ==> Names(out) == Unfinished(old(db.cat)) + Past(old(db.cat), now - keep)
    ensures forall d | d in out :: Reported(db.cat, d, now)
    ensures err.Some? ==> !err.value.WeekReturned?
    ensures err == Some(KeepNotPositive) <==> keep <= 0
    ensures err == Some(Stopped) <==> keep > 0 && db.broken
    ensures err == Some(LockHeld) <==> keep > 0 && !db.broken && old(db.locked)
    ensures keep > 0 && !db.broken && !old(db.locked) ==>
      Decided(db.cat, err, now, keep, if span.behind <= 0 then 2 else span.behind)
    ensures err.Some? && !err.value.Stopped? ==> out == []
    ensures old(db.locked) || keep <= 0 ==> err.Some? && db.cat == old(db.cat)
    ensures Guarded(err) ==> Frame(old(db.cat), db.cat, {})
    ensures db.cat.newest <= Max(old(db.cat.newest), now)
  {
    hide PartitionName, IsHistory, Names, Past, Unfinished, Converged, Reported, InTurn, Decided;
    NothingInTurn(db.cat, Unfinished(db.cat) + Past(db.cat, now - keep));
    if keep <= 0 { return [], Some(KeepNotPositive); }
    var ok := db.Connect();
    if !ok { return [], Some(Stopped); }
    if db.locked { return [], Some(LockHeld); }
    db.locked := true;
    out, err := RetainLocked(db, now, keep, span.WithDefaults().behind);
    db.locked := false;
  }
}
