/** Every topic of the chain as a log, with one consumer group on each, the events
    table, and the two topics where records end. No record is lost between them. */
module Network {
  import opened Wrappers
  import opened Calendar
  import opened Chain
  import opened Marks
  import opened Store
  import opened Classification

  /** What the consumers decode a record's key and value with. */
  type Decoder = (string, string) -> Result<AgentRun, DecodeFailure>

  /** One partition of the topic on one rung of the chain. */
  datatype Slot = Slot(level: nat, part: nat)

  /** A record on a log. Its lineage is history: the record produced to the source
      that it is, or is a forwarded copy of. At is the broker's timestamp. */
  datatype Stored = Stored(lineage: nat, at: Instant, body: Message)

  /** What a record says, whatever headers it travels with. */
  datatype Payload = Payload(key: string, value: string)

  /** Events is every row ever written, in order; parked and dead the records on the
      parked and the dead letter topic; produced what ever entered the source. */
  datatype Net = Net(
    decode: Decoder,
    logs: map<Slot, seq<Stored>>,
    committed: map<Slot, nat>,
    events: seq<AgentRun>,
    parked: seq<Stored>,
    dead: seq<Stored>,
    produced: map<nat, Payload>)

  datatype Event =
    | Produce(part: nat, record: Stored)
    | Insert(weeks: set<Instant>, row: AgentRun)
    | Append(from: Slot, offset: nat, slot: Slot, record: Stored)
    | ParkIt(from: Slot, offset: nat, record: Stored)
    | Bury(from: Slot, offset: nat, record: Stored)
    | CommitTo(slot: Slot, upto: nat)

  function PayloadOf(r: Stored): Payload {
    Payload(r.body.key, r.body.value)
  }

  /** The forwarded record is one of a record on that log: its lineage, its key, its
      value. */
  predicate CopyOf(n: Net, from: Slot, offset: nat, r: Stored) {
    && from in n.logs && offset < |n.logs[from]|
    && n.logs[from][offset].lineage == r.lineage && PayloadOf(n.logs[from][offset]) == PayloadOf(r)
  }

  predicate HasLineage(rs: seq<Stored>, lineage: nat) {
    exists r | r in rs :: r.lineage == lineage
  }

  predicate OnLevel(n: Net, level: nat, lineage: nat) {
    exists s | s in n.logs :: s.level == level && HasLineage(n.logs[s], lineage)
  }

  /** The event a produced record decodes to is in the table. */
  predicate Written(n: Net, lineage: nat) {
    lineage in n.produced && RowThere(n, n.produced[lineage])
  }

  predicate RowThere(n: Net, p: Payload) {
    var row := n.decode(p.key, p.value);
    row.Ok? && Recorded(n.events, row.value)
  }

  /** A record of this rung is accounted for: it ended, or it has a copy further on. */
  predicate Resolved(n: Net, level: nat, lineage: nat) {
    || Written(n, lineage) || HasLineage(n.parked, lineage) || HasLineage(n.dead, lineage)
    || OnLevel(n, level + 1, lineage)
  }

  predicate ResolvedBelow(n: Net, slot: Slot, upto: nat)
    requires slot in n.logs && upto <= |n.logs[slot]|
  {
    forall o | 0 <= o < upto :: Resolved(n, slot.level, n.logs[slot][o].lineage)
  }

  /** What the consumers, the producers and the writers of the table do. */
  predicate Allowed(chain: seq<string>, n: Net, e: Event) {
    match e
    case Produce(part, r) =>
      Slot(0, part) in n.logs && chain != [] && r.body.topic == chain[0] && r.lineage !in n.produced
    case Insert(_, _) => true
    case Append(from, offset, slot, r) =>
      && CopyOf(n, from, offset, r) && slot in n.logs && slot.level == from.level + 1
      && slot.level < |chain| && r.body.topic == chain[slot.level]
    case ParkIt(from, offset, r) => CopyOf(n, from, offset, r) && r.body.topic == PARKED
    case Bury(from, offset, r) => CopyOf(n, from, offset, r) && r.body.topic == DLQ
    case CommitTo(slot, upto) => slot in n.logs && upto <= |n.logs[slot]| && ResolvedBelow(n, slot, upto)
  }

  function Happen(chain: seq<string>, n: Net, e: Event): Net
    requires Allowed(chain, n, e)
  {
    match e
    case Produce(part, r) =>
      n.(logs := n.logs[Slot(0, part) := n.logs[Slot(0, part)] + [r]],
         produced := n.produced[r.lineage := PayloadOf(r)])
    case Insert(weeks, row) => n.(events := Inserted(weeks, n.events, row))
    case Append(_, _, slot, r) => n.(logs := n.logs[slot := n.logs[slot] + [r]])
    case ParkIt(_, _, r) => n.(parked := n.parked + [r])
    case Bury(_, _, r) => n.(dead := n.dead + [r])
    case CommitTo(slot, upto) => n.(committed := n.committed[slot := upto])
  }

  /** The record carries what was produced under its lineage. */
  predicate Faithful(n: Net, r: Stored) {
    r.lineage in n.produced && PayloadOf(r) == n.produced[r.lineage]
  }

  ghost predicate SlotOk(chain: seq<string>, n: Net, s: Slot)
    requires s in n.logs
  {
    && s.level < |chain| && s in n.committed && n.committed[s] <= |n.logs[s]|
    && ResolvedBelow(n, s, n.committed[s])
    && forall r | r in n.logs[s] :: r.body.topic == chain[s.level] && Faithful(n, r)
  }

  ghost predicate Inv(chain: seq<string>, n: Net) {
    && n.committed.Keys == n.logs.Keys
    && (forall s | s in n.logs :: SlotOk(chain, n, s))
    && (forall r | r in n.parked || r in n.dead :: Faithful(n, r))
    && (forall l | l in n.produced :: OnLevel(n, 0, l))
  }

  // -------------------------------------------------------------- what only grows

  /** Logs and the table only grow, and what was produced stays as it was. */
  ghost predicate Grows(n: Net, m: Net) {
    && m.decode == n.decode && m.logs.Keys == n.logs.Keys
    && (forall s | s in n.logs :: n.logs[s] <= m.logs[s])
    && n.events <= m.events && n.parked <= m.parked && n.dead <= m.dead
    && forall l | l in n.produced :: l in m.produced && m.produced[l] == n.produced[l]
  }

  lemma GrowsTrans(n: Net, m: Net, k: Net)
    requires Grows(n, m) && Grows(m, k)
    ensures Grows(n, k)
  {
  }

  lemma EventGrows(chain: seq<string>, n: Net, e: Event)
    requires Allowed(chain, n, e)
    ensures Grows(n, Happen(chain, n, e))
  {
    hide CopyOf, ResolvedBelow, HasPartition, Recorded;
  }

  lemma HasLineageGrows(rs: seq<Stored>, more: seq<Stored>, lineage: nat)
    requires rs <= more && HasLineage(rs, lineage)
    ensures HasLineage(more, lineage)
  {
    var i :| 0 <= i < |rs| && rs[i].lineage == lineage;
    assert more[i] == rs[i];
  }

  lemma RecordedGrows(rows: seq<AgentRun>, more: seq<AgentRun>, e: AgentRun)
    requires rows <= more && Recorded(rows, e)
    ensures Recorded(more, e)
  {
    var i :| 0 <= i < |rows| && SameEvent(rows[i], e);
    assert more[i] == rows[i];
  }

  lemma OnLevelGrows(n: Net, m: Net, level: nat, lineage: nat)
    requires Grows(n, m) && OnLevel(n, level, lineage)
    ensures OnLevel(m, level, lineage)
  {
    hide HasLineage;
    var s :| s in n.logs && s.level == level && HasLineage(n.logs[s], lineage);
    HasLineageGrows(n.logs[s], m.logs[s], lineage);
  }

  lemma ResolvedGrows(n: Net, m: Net, level: nat, lineage: nat)
    requires Grows(n, m) && Resolved(n, level, lineage)
    ensures Resolved(m, level, lineage)
  {
    hide HasLineage, OnLevel, Recorded;
    if Written(n, lineage) {
      var p := n.produced[lineage];
      RecordedGrows(n.events, m.events, n.decode(p.key, p.value).value);
    } else if HasLineage(n.parked, lineage) {
      HasLineageGrows(n.parked, m.parked, lineage);
    } else if HasLineage(n.dead, lineage) {
      HasLineageGrows(n.dead, m.dead, lineage);
    } else {
      OnLevelGrows(n, m, level + 1, lineage);
    }
  }

  /** What was resolved below a point stays resolved below it. */
  lemma ResolvedBelowGrows(n: Net, m: Net, slot: Slot, upto: nat)
    requires Grows(n, m) && slot in n.logs && upto <= |n.logs[slot]| && ResolvedBelow(n, slot, upto)
    ensures upto <= |m.logs[slot]| && ResolvedBelow(m, slot, upto)
  {
    hide Resolved;
    forall o | 0 <= o < upto ensures Resolved(m, slot.level, m.logs[slot][o].lineage) {
      assert m.logs[slot][o] == n.logs[slot][o];
      ResolvedGrows(n, m, slot.level, n.logs[slot][o].lineage);
    }
  }

  // ------------------------------------------------------------- what every step keeps

  /** The records an event adds to a log. */
  function Added(e: Event, s: Slot): seq<Stored> {
    match e
    case Produce(part, r) => if s == Slot(0, part) then [r] else []
    case Append(_, _, slot, r) => if s == slot then [r] else []
    case _ => []
  }

  lemma LogAfter(chain: seq<string>, n: Net, e: Event, s: Slot)
    requires Allowed(chain, n, e) && s in n.logs
    ensures var m := Happen(chain, n, e); s in m.logs && m.logs[s] == n.logs[s] + Added(e, s)
  {
    hide CopyOf, ResolvedBelow, Inserted;
  }

  lemma CopyIsFaithful(chain: seq<string>, n: Net, from: Slot, offset: nat, r: Stored)
    requires Inv(chain, n) && CopyOf(n, from, offset, r)
    ensures Faithful(n, r)
  {
    assert SlotOk(chain, n, from) && n.logs[from][offset] in n.logs[from];
  }

  lemma FaithfulGrows(n: Net, m: Net, r: Stored)
    requires Grows(n, m) && Faithful(n, r)
    ensures Faithful(m, r)
  {
  }

  lemma AddedIsFaithful(chain: seq<string>, n: Net, e: Event, s: Slot, r: Stored)
    requires Inv(chain, n) && Allowed(chain, n, e) && s in n.logs && r in Added(e, s)
    ensures r.body.topic == chain[s.level] && Faithful(Happen(chain, n, e), r)
  {
    hide ResolvedBelow, SlotOk, OnLevel;
    if e.Append? {
      CopyIsFaithful(chain, n, e.from, e.offset, r);
    }
  }

  lemma EventKeepsSlot(chain: seq<string>, n: Net, e: Event, s: Slot)
    requires Inv(chain, n) && Allowed(chain, n, e) && s in n.logs
    ensures s in Happen(chain, n, e).logs && SlotOk(chain, Happen(chain, n, e), s)
  {
    var m := Happen(chain, n, e);
    EventGrows(chain, n, e);
    LogAfter(chain, n, e, s);
    assert SlotOk(chain, n, s);
    hide Grows, ResolvedBelow, Faithful, CopyOf, Inserted, OnLevel;
    ResolvedBelowGrows(n, m, s, m.committed[s]);
    forall r | r in m.logs[s] ensures r.body.topic == chain[s.level] && Faithful(m, r) {
      if r in n.logs[s] {
        FaithfulGrows(n, m, r);
      } else {
        AddedIsFaithful(chain, n, e, s, r);
      }
    }
  }

  lemma EventKeepsStopped(chain: seq<string>, n: Net, e: Event, r: Stored)
    requires Inv(chain, n) && Allowed(chain, n, e)
    requires r in Happen(chain, n, e).parked || r in Happen(chain, n, e).dead
    ensures Faithful(Happen(chain, n, e), r)
  {
    EventGrows(chain, n, e);
    if r in n.parked || r in n.dead {
      FaithfulGrows(n, Happen(chain, n, e), r);
    } else {
      CopyIsFaithful(chain, n, e.from, e.offset, r);
      FaithfulGrows(n, Happen(chain, n, e), r);
    }
  }

  lemma EventKeepsProduced(chain: seq<string>, n: Net, e: Event, l: nat)
    requires Inv(chain, n) && Allowed(chain, n, e) && l in Happen(chain, n, e).produced
    ensures OnLevel(Happen(chain, n, e), 0, l)
  {
    var m := Happen(chain, n, e);
    if l in n.produced {
      EventGrows(chain, n, e);
      OnLevelGrows(n, m, 0, l);
    } else {
      var s := Slot(0, e.part);
      LogAfter(chain, n, e, s);
      assert e.record in m.logs[s];
      assert HasLineage(m.logs[s], l);
    }
  }

  lemma EventKeepsInv(chain: seq<string>, n: Net, e: Event)
    requires Inv(chain, n) && Allowed(chain, n, e)
    ensures Inv(chain, Happen(chain, n, e))
  {
    var m := Happen(chain, n, e);
    assert m.logs.Keys == n.logs.Keys && m.committed.Keys == n.committed.Keys;
    hide Happen, Allowed, OnLevel, SlotOk, Faithful;
    forall s | s in n.logs ensures SlotOk(chain, m, s) {
      EventKeepsSlot(chain, n, e, s);
    }
    forall r | r in m.parked || r in m.dead ensures Faithful(m, r) {
      EventKeepsStopped(chain, n, e, r);
    }
    forall l | l in m.produced ensures OnLevel(m, 0, l) {
      EventKeepsProduced(chain, n, e, l);
    }
  }

  // ------------------------------------------------------------------ no loss

  predicate IsCopy(r: Stored, lineage: nat, p: Payload) {
    r.lineage == lineage && PayloadOf(r) == p
  }

  predicate Waits(n: Net, lineage: nat, p: Payload) {
    exists s | s in n.logs && s in n.committed ::
      exists o | n.committed[s] <= o < |n.logs[s]| :: IsCopy(n.logs[s][o], lineage, p)
  }

  /** What was produced is in events, or its own key and value are on the parked or the
      dead letter topic, or on a topic of the chain where its group will still read it. */
  predicate Kept(n: Net, lineage: nat)
    requires lineage in n.produced
  {
    var p := n.produced[lineage];
    || RowThere(n, p)
    || (exists r | r in n.parked :: IsCopy(r, lineage, p))
    || (exists r | r in n.dead :: IsCopy(r, lineage, p))
    || Waits(n, lineage, p)
  }

  predicate NothingLost(n: Net) {
    forall l | l in n.produced :: Kept(n, l)
  }

  /** From any rung it was on, a record is found by going down. */
  lemma {:induction false} Chase(chain: seq<string>, n: Net, level: nat, lineage: nat)
    requires Inv(chain, n) && OnLevel(n, level, lineage) && lineage in n.produced
    ensures Kept(n, lineage)
    decreases |chain| - level
  {
    hide RowThere, OnLevel;
    var s := WhereOnLevel(n, level, lineage);
    assert SlotOk(chain, n, s);
    var o :| 0 <= o < |n.logs[s]| && n.logs[s][o].lineage == lineage;
    assert n.logs[s][o] in n.logs[s] && IsCopy(n.logs[s][o], lineage, n.produced[lineage]);
    if o < n.committed[s] {
      assert Resolved(n, level, n.logs[s][o].lineage);
      if OnLevel(n, level + 1, lineage) {
        Chase(chain, n, level + 1, lineage);
      } else if HasLineage(n.parked, lineage) {
        var r :| r in n.parked && r.lineage == lineage;
        assert IsCopy(r, lineage, n.produced[lineage]);
      } else if HasLineage(n.dead, lineage) {
        var r :| r in n.dead && r.lineage == lineage;
        assert IsCopy(r, lineage, n.produced[lineage]);
      }
    }
  }

  ghost function WhereOnLevel(n: Net, level: nat, lineage: nat): (s: Slot)
    requires OnLevel(n, level, lineage)
    ensures s in n.logs && s.level == level && HasLineage(n.logs[s], lineage)
  {
    var s :| s in n.logs && s.level == level && HasLineage(n.logs[s], lineage); s
  }

  /** A history of the whole network: any events of any number of consumers. */
  ghost predicate IsHistory(chain: seq<string>, nets: seq<Net>, events: seq<Event>) {
    && |nets| == |events| + 1
    && Inv(chain, nets[0])
    && forall i | 0 <= i < |events| ::
         Allowed(chain, nets[i], events[i]) && nets[i + 1] == Happen(chain, nets[i], events[i])
  }

  lemma {:induction false} HistoryKeepsInv(chain: seq<string>, nets: seq<Net>, events: seq<Event>, i: nat)
    requires IsHistory(chain, nets, events) && i <= |events|
    ensures Inv(chain, nets[i])
  {
    hide Inv, Allowed, Happen;
    if i > 0 {
      HistoryKeepsInv(chain, nets, events, i - 1);
      EventKeepsInv(chain, nets[i - 1], events[i - 1]);
    }
  }

  lemma HistorySnoc(chain: seq<string>, nets: seq<Net>, events: seq<Event>, e: Event)
    requires IsHistory(chain, nets, events) && Allowed(chain, nets[|events|], e)
    ensures IsHistory(chain, nets + [Happen(chain, nets[|events|], e)], events + [e])
  {
    hide Allowed, Happen, Inv;
  }

  /** No record is lost over the whole network, at any moment of any history: an event of
      the tenant, the id and the instant it decodes to is in the table, or its own key
      and value are parked, dead or still to be read. */
  lemma NoRecordIsLost(chain: seq<string>, nets: seq<Net>, events: seq<Event>, i: nat)
    requires IsHistory(chain, nets, events) && i <= |events|
    ensures NothingLost(nets[i])
    ensures var n := nets[i];
      forall l | l in n.produced ::
        var p := n.produced[l];
        || (n.decode(p.key, p.value).Ok? && exists r | r in n.events ::
              var e := n.decode(p.key, p.value).value;
              r.tenant == e.tenant && r.eventId == e.eventId && r.occurredAt == e.occurredAt)
        || (exists r | r in n.parked || r in n.dead ::
              r.lineage == l && r.body.key == p.key && r.body.value == p.value)
        || (exists s, o | s in n.logs && s in n.committed && n.committed[s] <= o < |n.logs[s]| ::
              var r := n.logs[s][o]; r.lineage == l && r.body.key == p.key && r.body.value == p.value)
  {
    HistoryKeepsInv(chain, nets, events, i);
    forall l | l in nets[i].produced ensures Kept(nets[i], l) {
      hide Kept, OnLevel, IsHistory;
      Chase(chain, nets[i], 0, l);
    }
    hide Inv, OnLevel, IsHistory;
  }
}
