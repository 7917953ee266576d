/** internal/store/store.go: the insert that a redelivered message may repeat, and
    what that makes of a log delivered at least once. */
module Store {
  import opened Wrappers
  import opened Decimal
  import opened Calendar

  /** One row of events. The hashes are their bytes. */
  datatype AgentRun = AgentRun(
    tenant: string, eventId: string, occurredAt: Instant,
    agent: nat, agentVersion: Option<string>, sessionId: Option<seq<bv8>>, repoHash: Option<seq<bv8>>,
    durationMs: int64, outcome: nat, errorKind: Option<nat>, model: Option<string>,
    tokensIn: Option<int64>, tokensOut: Option<int64>, costMicros: Option<int64>,
    filesTouched: Option<int64>, linesAdded: Option<int64>, linesRemoved: Option<int64>, toolCalls: Option<int64>)

  /** Two rows the unique key of the partitioned table does not tell apart. */
  predicate SameEvent(r: AgentRun, e: AgentRun) {
    r.tenant == e.tenant && r.eventId == e.eventId && r.occurredAt == e.occurredAt
  }

  predicate Recorded(rows: seq<AgentRun>, e: AgentRun) {
    exists r | r in rows :: SameEvent(r, e)
  }

  /** Some partition, named by its Monday, takes a row of that instant. */
  predicate HasPartition(weeks: set<Instant>, at: Instant) {
    WeekStart(at) in weeks
  }

  /** A partition takes the instants from its Monday up to the next. */
  lemma PartitionTakes(weeks: set<Instant>, at: Instant)
    ensures HasPartition(weeks, at) <==> exists w | w in weeks && IsMonday(w) :: w <= at < w + WEEK
  {
    WeekStartHolds(at);
    hide WeekStart;
  }

  /** INSERT ... ON CONFLICT DO NOTHING, on the rows in the order they were written. */
  function Inserted(weeks: set<Instant>, rows: seq<AgentRun>, e: AgentRun): seq<AgentRun> {
    if !HasPartition(weeks, e.occurredAt) || Recorded(rows, e) then rows else rows + [e]
  }

  /** One pass over some events. */
  function Pass(weeks: set<Instant>, rows: seq<AgentRun>, es: seq<AgentRun>): seq<AgentRun> {
    if es == [] then rows
    else Inserted(weeks, Pass(weeks, rows, es[..|es| - 1]), es[|es| - 1])
  }

  ghost predicate UniqueKeys(rows: seq<AgentRun>) {
    forall i, j | 0 <= i < j < |rows| :: !SameEvent(rows[i], rows[j])
  }

  // --------------------------------------------------------- what a pass leaves

  lemma RecordedAppend(rows: seq<AgentRun>, e: AgentRun, d: AgentRun)
    ensures Recorded(rows + [e], d) <==> Recorded(rows, d) || SameEvent(e, d)
  {
    assert e in rows + [e];
    assert forall r :: r in rows + [e] <==> r in rows || r == e;
  }

  /** An event whose key is there, or that no partition takes, changes nothing. */
  predicate Absorbed(weeks: set<Instant>, rows: seq<AgentRun>, e: AgentRun) {
    !HasPartition(weeks, e.occurredAt) || Recorded(rows, e)
  }

  lemma InsertedAbsorbs(weeks: set<Instant>, rows: seq<AgentRun>, e: AgentRun, d: AgentRun)
    ensures Absorbed(weeks, Inserted(weeks, rows, e), e)
    ensures Absorbed(weeks, rows, d) ==> Absorbed(weeks, Inserted(weeks, rows, e), d)
  {
    hide HasPartition, Recorded;
    RecordedAppend(rows, e, e);
    RecordedAppend(rows, e, d);
  }

  lemma {:induction false} PassAbsorbs(weeks: set<Instant>, rows: seq<AgentRun>, es: seq<AgentRun>, k: nat)
    requires k < |es|
    ensures Absorbed(weeks, Pass(weeks, rows, es), es[k])
  {
    hide Absorbed, Inserted;
    var last := |es| - 1;
    InsertedAbsorbs(weeks, Pass(weeks, rows, es[..last]), es[last], es[k]);
    if k < last {
      PassAbsorbs(weeks, rows, es[..last], k);
    }
  }

  lemma {:induction false} PassKeepsKeysUnique(weeks: set<Instant>, rows: seq<AgentRun>, es: seq<AgentRun>)
    requires UniqueKeys(rows)
    ensures UniqueKeys(Pass(weeks, rows, es)) && rows <= Pass(weeks, rows, es)
  {
    if es != [] {
      PassKeepsKeysUnique(weeks, rows, es[..|es| - 1]);
    }
  }

  /** The first event of its key among these. */
  predicate IsFirst(es: seq<AgentRun>, j: nat)
    requires j < |es|
  {
    forall i | 0 <= i < j :: !SameEvent(es[i], es[j])
  }

  /** This event is there first of its key, and a partition takes it. */
  ghost predicate FirstAmong(weeks: set<Instant>, es: seq<AgentRun>, e: AgentRun) {
    HasPartition(weeks, e.occurredAt) && exists j :: 0 <= j < |es| && es[j] == e && IsFirst(es, j)
  }

  lemma FirstAmongSnoc(weeks: set<Instant>, es: seq<AgentRun>, e: AgentRun)
    requires es != []
    ensures var last := |es| - 1;
      FirstAmong(weeks, es, e) <==>
        FirstAmong(weeks, es[..last], e) || (e == es[last] && HasPartition(weeks, e.occurredAt) && IsFirst(es, last))
  {
    hide HasPartition;
    var last := |es| - 1;
    assert forall j | 0 <= j < last :: es[..last][j] == es[j] && (IsFirst(es[..last], j) <==> IsFirst(es, j));
    hide IsFirst;
  }

  lemma {:induction false} PassIsFirsts(weeks: set<Instant>, es: seq<AgentRun>, e: AgentRun)
    ensures e in Pass(weeks, [], es) <==> FirstAmong(weeks, es, e)
  {
    hide HasPartition, IsFirst, Recorded, FirstAmong;
    if es == [] {
      NothingIsFirst(weeks, e);
    } else {
      var last := |es| - 1;
      PassIsFirsts(weeks, es[..last], e);
      FirstAmongSnoc(weeks, es, e);
      if HasPartition(weeks, es[last].occurredAt) {
        KeyComesFirst(weeks, es, last);
      }
    }
  }

  /** From an empty table a pass leaves, for each tenant, event id and instant that a
      partition takes, the first event that carried the three, once, and nothing else. */
  lemma FirstWriterWins(weeks: set<Instant>, es: seq<AgentRun>, e: AgentRun)
    ensures e in Pass(weeks, [], es) <==>
      && (exists w | w in weeks && IsMonday(w) :: w <= e.occurredAt < w + WEEK)
      && exists j :: 0 <= j < |es| && es[j] == e && forall i | 0 <= i < j ::
           es[i].tenant != e.tenant || es[i].eventId != e.eventId || es[i].occurredAt != e.occurredAt
    ensures var rows := Pass(weeks, [], es);
      forall i, j | 0 <= i < j < |rows| ::
        || rows[i].tenant != rows[j].tenant
        || rows[i].eventId != rows[j].eventId || rows[i].occurredAt != rows[j].occurredAt
  {
    PassKeepsKeysUnique(weeks, [], es);
    PassIsFirsts(weeks, es, e);
    PartitionTakes(weeks, e.occurredAt);
    hide HasPartition;
    assert forall j | 0 <= j < |es| && es[j] == e :: IsFirst(es, j) <==>
      forall i | 0 <= i < j ::
        es[i].tenant != e.tenant || es[i].eventId != e.eventId || es[i].occurredAt != e.occurredAt;
  }

  lemma NothingIsFirst(weeks: set<Instant>, e: AgentRun)
    ensures !FirstAmong(weeks, [], e)
  {
  }

  /** An event is recorded by a pass exactly when one like it came before. */
  lemma {:induction false} KeyComesFirst(weeks: set<Instant>, es: seq<AgentRun>, j: nat)
    requires j < |es| && HasPartition(weeks, es[j].occurredAt)
    ensures Recorded(Pass(weeks, [], es[..j]), es[j]) <==> !IsFirst(es, j)
  {
    if !IsFirst(es, j) {
      var i :| 0 <= i < j && SameEvent(es[i], es[j]);
      PassAbsorbs(weeks, [], es[..j], i);
    }
    if Recorded(Pass(weeks, [], es[..j]), es[j]) {
      var r :| r in Pass(weeks, [], es[..j]) && SameEvent(r, es[j]);
      PassInvents(weeks, es[..j], r);
    }
  }

  lemma {:induction false} PassInvents(weeks: set<Instant>, es: seq<AgentRun>, r: AgentRun)
    requires r in Pass(weeks, [], es)
    ensures r in es
  {
    if r != es[|es| - 1] {
      PassInvents(weeks, es[..|es| - 1], r);
    }
  }

  // -------------------------------------------------------------- redelivery

  /** One past the furthest offset among these deliveries. */
  function Furthest(ks: seq<nat>): nat {
    if ks == [] then 0
    else
      var before, k := Furthest(ks[..|ks| - 1]), ks[|ks| - 1];
      if k < before then before else k + 1
  }

  /** Deliveries of a log at least once: each goes on from the one before, or is the
      start of a run that begins no further than anything reached before it. */
  ghost predicate AtLeastOnce(log: seq<AgentRun>, ks: seq<nat>) {
    forall i | 0 <= i < |ks| ::
      ks[i] < |log| && ((i > 0 && ks[i] == ks[i - 1] + 1) || ks[i] <= Furthest(ks[..i]))
  }

  function Deliveries(log: seq<AgentRun>, ks: seq<nat>): seq<AgentRun>
    requires forall i | 0 <= i < |ks| :: ks[i] < |log|
  {
    seq(|ks|, i requires 0 <= i < |ks| => log[ks[i]])
  }

  lemma {:induction false} FurthestBounds(ks: seq<nat>, i: nat)
    requires i < |ks|
    ensures ks[i] < Furthest(ks)
  {
    if i < |ks| - 1 {
      FurthestBounds(ks[..|ks| - 1], i);
    }
  }

  /** The last delivery goes no further than one past what was reached. */
  lemma AtLeastOnceLast(log: seq<AgentRun>, ks: seq<nat>)
    requires AtLeastOnce(log, ks) && ks != []
    ensures AtLeastOnce(log, ks[..|ks| - 1])
    ensures ks[|ks| - 1] < |log| && ks[|ks| - 1] <= Furthest(ks[..|ks| - 1])
    ensures Deliveries(log, ks)[..|ks| - 1] == Deliveries(log, ks[..|ks| - 1])
    ensures |Deliveries(log, ks)| == |ks| && Deliveries(log, ks)[|ks| - 1] == log[ks[|ks| - 1]]
  {
    var last := |ks| - 1;
    assert forall i | 0 <= i < last :: ks[..last][..i] == ks[..i];
    if last > 0 {
      FurthestBounds(ks[..last], last - 1);
    }
  }

  lemma {:induction false} FurthestInLog(log: seq<AgentRun>, ks: seq<nat>)
    requires AtLeastOnce(log, ks)
    ensures Furthest(ks) <= |log|
  {
    if ks != [] {
      AtLeastOnceLast(log, ks);
      FurthestInLog(log, ks[..|ks| - 1]);
    }
  }

  /** A log delivered with any restarts whatever leaves the table that one pass over
      the longest prefix delivered would have left. */
  lemma {:induction false} RedeliveryIsOnePass(
      weeks: set<Instant>, rows: seq<AgentRun>, log: seq<AgentRun>, ks: seq<nat>)
    requires AtLeastOnce(log, ks)
    ensures Furthest(ks) <= |log|
    ensures Pass(weeks, rows, Deliveries(log, ks)) == Pass(weeks, rows, log[..Furthest(ks)])
  {
    hide AtLeastOnce, Deliveries, Inserted;
    FurthestInLog(log, ks);
    if ks == [] {
      NoDeliveries(log);
    } else {
      var last := |ks| - 1;
      AtLeastOnceLast(log, ks);
      FurthestInLog(log, ks[..last]);
      RedeliveryIsOnePass(weeks, rows, log, ks[..last]);
      OneMore(weeks, rows, log, Furthest(ks[..last]), ks[last]);
    }
  }

  lemma NoDeliveries(log: seq<AgentRun>)
    ensures Deliveries(log, []) == []
  {
  }

  /** Delivering an offset that was reached changes nothing; the next one extends
      the pass. */
  lemma OneMore(weeks: set<Instant>, rows: seq<AgentRun>, log: seq<AgentRun>, n: nat, k: nat)
    requires k <= n <= |log| && k < |log|
    ensures Inserted(weeks, Pass(weeks, rows, log[..n]), log[k]) == Pass(weeks, rows, log[..if k < n then n else k + 1])
  {
    if k < n {
      PassAbsorbs(weeks, rows, log[..n], k);
    } else {
      assert log[..k + 1][..k] == log[..k];
    }
  }

  // --------------------------------------------------------------- the store

  /** What Insert answers. Broken is the network or the server going away, which says
      nothing about whether the row was written. */
  datatype Answer = Written | AlreadyRecorded | NoPartition | Broken

  /** Whether the connection outlives the statement: it does, or is lost before the
      statement commits, or after. */
  datatype Fault = Fine | LostBefore | LostAfter

  /** What happens to a consumer: it dies and starts again from its commit, it commits, or
      it takes its next event, and forwards it or not if no partition takes it. */
  datatype Move = Crash | Commit | Take(fault: Fault, forwards: bool)

  /** The committed offset, the next one, and one past the last that an insert reached. */
  datatype Progress = Progress(committed: nat, position: nat, reached: nat)

  function Moved(weeks: set<Instant>, log: seq<AgentRun>, p: Progress, m: Move): Progress {
    match m
    case Crash => p.(position := p.committed)
    case Commit => p.(committed := p.position)
    case Take(fault, forwards) =>
      if p.position >= |log| then p
      else
        var on := fault.Fine? && (HasPartition(weeks, log[p.position].occurredAt) || forwards);
        Progress(p.committed, if on then p.position + 1 else p.committed,
                 if fault.LostBefore? || p.position < p.reached then p.reached else p.position + 1)
  }

  function Progressed(weeks: set<Instant>, log: seq<AgentRun>, moves: seq<Move>): Progress {
    if moves == [] then Progress(0, 0, 0)
    else Moved(weeks, log, Progressed(weeks, log, moves[..|moves| - 1]), moves[|moves| - 1])
  }

  class Events {
    const weeks: set<Instant>
    var rows: seq<AgentRun>

    constructor (weeks: set<Instant>)
      ensures this.weeks == weeks && rows == []
    {
      this.weeks := weeks;
      rows := [];
    }

    /** The table as a transaction finds it. */
    constructor Found(weeks: set<Instant>, rows: seq<AgentRun>)
      ensures this.weeks == weeks && this.rows == rows
    {
      this.weeks := weeks;
      this.rows := rows;
    }

    /** One statement, its own transaction. */
    method Insert(e: AgentRun, fault: Fault) returns (a: Answer)
      modifies this
      ensures rows == if fault.LostBefore? then old(rows) else Inserted(weeks, old(rows), e)
      ensures a == Broken <==> fault != Fine
      ensures a == Written ==> rows == old(rows) + [e]
      ensures a == Written || a == AlreadyRecorded ==>
        exists w | w in weeks && IsMonday(w) :: w <= e.occurredAt < w + WEEK
      ensures a == Written ==> forall r | r in old(rows) ::
        r.tenant != e.tenant || r.eventId != e.eventId || r.occurredAt != e.occurredAt
      ensures a == AlreadyRecorded ==> rows == old(rows) && exists r | r in old(rows) ::
        r.tenant == e.tenant && r.eventId == e.eventId && r.occurredAt == e.occurredAt
      ensures a == NoPartition ==> rows == old(rows)
      ensures a == NoPartition ==> forall w | w in weeks && IsMonday(w) :: !(w <= e.occurredAt < w + WEEK)
      ensures old(UniqueKeys(rows)) ==> UniqueKeys(rows)
    {
      PartitionTakes(weeks, e.occurredAt);
      hide HasPartition;
      if fault.LostBefore? { return Broken; }
      if !HasPartition(weeks, e.occurredAt) {
        a := NoPartition;
      } else if Recorded(rows, e) {
        a := AlreadyRecorded;
      } else {
        rows := rows + [e];
        a := Written;
      }
      if fault.LostAfter? { a := Broken; }
    }

    /** A consumer of one partition of the log, over any number of lives. Each life
        begins at the committed offset; a crash or a failure ends it before or after
        an insert, before or after a commit. A row with no partition to go to may be
        forwarded, and the life goes on. */
    method Consume(log: seq<AgentRun>, moves: seq<Move>) returns (p: Progress)
      modifies this
      ensures p == Progressed(weeks, log, moves) && p.committed <= p.reached <= |log|
      ensures rows == Pass(weeks, old(rows), log[..p.reached])
      ensures old(UniqueKeys(rows)) ==> UniqueKeys(rows)
    {
      hide HasPartition, Inserted, UniqueKeys;
      p := Progress(0, 0, 0);
      assert log[..0] == [];
      for i := 0 to |moves|
        invariant p == Progressed(weeks, log, moves[..i])
        invariant p.committed <= p.position <= p.reached <= |log|
        invariant rows == Pass(weeks, old(rows), log[..p.reached])
        invariant old(UniqueKeys(rows)) ==> UniqueKeys(rows)
      {
        assert moves[..i + 1][..i] == moves[..i];
        match moves[i] {
          case Crash => p := p.(position := p.committed);
          case Commit => p := p.(committed := p.position);
          case Take(fault, forwards) =>
            if p.position < |log| {
              OneMore(weeks, old(rows), log, p.reached, p.position);
              var a := Insert(log[p.position], fault);
              PartitionTakes(weeks, log[p.position].occurredAt);
              var on := a == Written || a == AlreadyRecorded || (a == NoPartition && forwards);
              p := Progress(p.committed, if on then p.position + 1 else p.committed,
                            if fault.LostBefore? || p.position < p.reached then p.reached else p.position + 1);
            }
        }
      }
      assert moves[..|moves|] == moves;
    }
  }
}
