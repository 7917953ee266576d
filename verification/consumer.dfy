/** internal/consumer/consumer.go against the client contract: the loop of one group
    member on one topic of the chain, among everyone else's. */
module ConsumerLoop {
  import opened Wrappers
  import opened Decimal
  import opened Calendar
  import opened Chain
  import opened Marks
  import opened Network
  import opened Loop
  import opened Turns
  import opened Verdicts
  import C = Classification
  import F = Forwarder
  import H = Handler
  import P = Pipeline
  import R = Records
  import S = Store

  /** Kafka and the events table, shared by every consumer. */
  class Broker {
    const chain: seq<string>
    var net: Net
    // every state there ever was, and what happened in between
    ghost var nets: seq<Net>
    ghost var events: seq<Event>

    ghost predicate Valid()
      reads this
    {
      && Ladder(chain) && |chain| <= MAX_INT64 && PARKED !in chain && DLQ !in chain
      && Inv(chain, net)
      && IsHistory(chain, nets, events) && nets[|events|] == net
    }

    /** A broker with these logs, on which nothing has been produced yet. */
    constructor (chain: seq<string>, slots: set<Slot>, decode: Decoder)
      requires Ladder(chain) && |chain| <= MAX_INT64 && PARKED !in chain && DLQ !in chain
      requires forall s | s in slots :: s.level < |chain|
      ensures Valid() && this.chain == chain && net.logs.Keys == slots && net.produced == map[]
    {
      this.chain := chain;
      var logs: map<Slot, seq<Stored>> := map s | s in slots :: [];
      var committed: map<Slot, nat> := map s | s in slots :: 0;
      var n := Net(decode, logs, committed, [], [], [], map[]);
      net := n;
      nets := [n];
      events := [];
    }

    lemma NoneLost()
      requires Valid()
      ensures forall i | 0 <= i < |nets| :: NothingLost(nets[i])
    {
      forall i | 0 <= i < |nets| ensures NothingLost(nets[i]) {
        NoRecordIsLost(chain, nets, events, i);
      }
    }

    method Do(e: Event)
      requires Valid() && Allowed(chain, net, e)
      modifies this
      ensures Valid() && net == Happen(chain, old(net), e) && Grows(old(net), net)
      ensures nets == old(nets) + [net] && events == old(events) + [e]
    {
      EventKeepsInv(chain, net, e);
      EventGrows(chain, net, e);
      HistorySnoc(chain, nets, events, e);
      net := Happen(chain, net, e);
      nets, events := nets + [net], events + [e];
    }

    /** Every other producer and consumer, for any number of steps. The partitions a
        member owns are committed by nobody else. */
    method Others(level: nat, owned: set<nat>)
      requires Valid()
      modifies this
      ensures Valid() && Elsewhere(old(net), net, level, owned) && old(nets) <= nets
    {
      hide IsHistory, Inv, Ladder, Grows;
      ElsewhereRefl(net, level, owned);
      var count: nat :| count >= 0;
      while count > 0
        invariant Valid() && Elsewhere(old(net), net, level, owned) && old(nets) <= nets
      {
        var e: Event := *;
        if Allowed(chain, net, e) && !(e.CommitTo? && e.slot.level == level && e.slot.part in owned) {
          ghost var before := net;
          Do(e);
          EventElsewhere(chain, before, e, level, owned);
          ElsewhereTrans(old(net), before, net, level, owned);
        }
        count := count - 1;
      }
    }
  }

  /** What others can change around a member: logs grow, and its own commits stay. */
  ghost predicate Elsewhere(n: Net, m: Net, level: nat, owned: set<nat>) {
    && Grows(n, m)
    && m.committed.Keys == n.committed.Keys
    && forall p | p in owned && Slot(level, p) in n.committed ::
         m.committed[Slot(level, p)] == n.committed[Slot(level, p)]
  }

  lemma ElsewhereRefl(n: Net, level: nat, owned: set<nat>)
    ensures Elsewhere(n, n, level, owned)
  {
  }

  lemma ElsewhereGrows(n: Net, m: Net, level: nat, owned: set<nat>)
    requires Elsewhere(n, m, level, owned)
    ensures Grows(n, m)
  {
  }

  lemma ElsewhereTrans(n: Net, m: Net, k: Net, level: nat, owned: set<nat>)
    requires Elsewhere(n, m, level, owned) && Elsewhere(m, k, level, owned)
    ensures Elsewhere(n, k, level, owned)
  {
    GrowsTrans(n, m, k);
  }

  lemma EventElsewhere(chain: seq<string>, n: Net, e: Event, level: nat, owned: set<nat>)
    requires Inv(chain, n) && Allowed(chain, n, e)
    requires !(e.CommitTo? && e.slot.level == level && e.slot.part in owned)
    ensures Elsewhere(n, Happen(chain, n, e), level, owned)
  {
    EventGrows(chain, n, e);
  }

  /** A fetched record is the one at its place in the log. */
  predicate IsStored(n: Net, level: nat, r: Fetched) {
    Slot(level, r.part) in n.logs && r.offset < |n.logs[Slot(level, r.part)]|
    && n.logs[Slot(level, r.part)][r.offset] == r.record
  }

  ghost predicate AllStored(n: Net, level: nat, f: seq<Fetched>) {
    forall r | r in f :: IsStored(n, level, r)
  }

  ghost predicate AllResolved(n: Net, level: nat, f: seq<Fetched>) {
    forall r | r in f :: Resolved(n, level, r.record.lineage)
  }

  lemma StoredGrows(n: Net, m: Net, level: nat, f: seq<Fetched>)
    requires Grows(n, m)
    ensures AllStored(n, level, f) ==> AllStored(m, level, f)
    ensures AllResolved(n, level, f) ==> AllResolved(m, level, f)
  {
    if AllResolved(n, level, f) {
      forall r | r in f ensures Resolved(m, level, r.record.lineage) {
        ResolvedGrows(n, m, level, r.record.lineage);
      }
    }
  }

  /** The committed offset of one partition of this level. */
  function CommittedAt(n: Net, level: nat, p: nat): nat {
    if Slot(level, p) in n.committed then n.committed[Slot(level, p)] else 0
  }

  function OwnCommitted(n: Net, level: nat, owned: set<nat>): map<nat, nat> {
    map p | p in owned :: CommittedAt(n, level, p)
  }

  lemma ResolvedOneMore(n: Net, slot: Slot, upto: nat)
    requires slot in n.logs && upto < |n.logs[slot]| && ResolvedBelow(n, slot, upto)
    requires Resolved(n, slot.level, n.logs[slot][upto].lineage)
    ensures ResolvedBelow(n, slot, upto + 1)
  {
    hide Resolved;
  }

  lemma CommittedIsResolved(chain: seq<string>, n: Net, s: Slot)
    requires Inv(chain, n) && s in n.committed
    ensures s in n.logs && n.committed[s] <= |n.logs[s]| && ResolvedBelow(n, s, n.committed[s])
  {
    hide ResolvedBelow, OnLevel, Faithful;
    assert SlotOk(chain, n, s);
  }

  /** Everything below where a gap-free acknowledgement ends is resolved. */
  lemma {:induction false} AckedResolves(
      chain: seq<string>, n: Net, level: nat, start: map<nat, nat>, acked: seq<Fetched>, p: nat)
    requires Inv(chain, n) && Contiguous(start, acked) && p in start
    requires Slot(level, p) in n.committed && start[p] == CommittedAt(n, level, p)
    requires AllStored(n, level, acked) && AllResolved(n, level, acked)
    ensures p in Advance(start, acked) && Slot(level, p) in n.logs
    ensures Advance(start, acked)[p] <= |n.logs[Slot(level, p)]|
    ensures ResolvedBelow(n, Slot(level, p), Advance(start, acked)[p])
  {
    hide Inv, Resolved, ResolvedBelow;
    if acked == [] {
      CommittedIsResolved(chain, n, Slot(level, p));
    } else {
      var last := |acked| - 1;
      assert acked[last] in acked && forall r | r in acked[..last] :: r in acked;
      AckedResolves(chain, n, level, start, acked[..last], p);
      if acked[last].part == p {
        ResolvedOneMore(n, Slot(level, p), acked[last].offset);
      }
    }
  }

  /** One rung down the chain, or off it to where records end. */
  ghost predicate GoesOn(chain: seq<string>, from: string, to: string) {
    to == PARKED || to == DLQ || exists i :: 0 <= i < |chain| - 1 && from == chain[i] && to == chain[i + 1]
  }

  lemma ForwardedGoesOn(chain: seq<string>, m: Message, o: P.Outcome, f: F.Failure)
    requires Ladder(chain) && |chain| <= MAX_INT64
    ensures var p := F.Forwarded(chain, m, o, f);
      p.Ok? ==> GoesOn(chain, m.topic, p.value.topic) && p.value.key == m.key && p.value.value == m.value
  {
    F.ForwardGoes(chain, m, o, f);
  }

  /** This very message of this lineage is where its topic is: on the parked or the
      dead letter topic, or on a log of the next rung. */
  ghost predicate Landed(n: Net, level: nat, lineage: nat, message: Message) {
    if message.topic == PARKED then Among(n.parked, lineage, message)
    else if message.topic == DLQ then Among(n.dead, lineage, message)
    else exists s | s in n.logs && s.level == level + 1 :: Among(n.logs[s], lineage, message)
  }

  ghost predicate Among(rs: seq<Stored>, lineage: nat, message: Message) {
    exists r | r in rs :: r.lineage == lineage && r.body == message
  }

  lemma LastIsAmong(rs: seq<Stored>, r: Stored)
    requires rs != [] && rs[|rs| - 1] == r
    ensures Among(rs, r.lineage, r.body)
  {
  }

  lemma StoredIsFaithful(chain: seq<string>, n: Net, level: nat, r: Fetched)
    requires Inv(chain, n) && IsStored(n, level, r)
    ensures Faithful(n, r.record)
  {
    assert SlotOk(chain, n, Slot(level, r.part)) && r.record in n.logs[Slot(level, r.part)];
  }

  lemma WrittenIsResolved(n: Net, level: nat, lineage: nat)
    requires Network.Written(n, lineage)
    ensures Resolved(n, level, lineage)
  {
  }

  lemma LandedIsResolved(n: Net, level: nat, lineage: nat, message: Message)
    requires Landed(n, level, lineage, message)
    ensures Resolved(n, level, lineage)
  {
    hide Network.Written;
  }

  // ---------------------------------------------------------- the world's part

  /** The world's part once a batch is processed: whether the hook refuses, whether the
      commit request fails and for which partitions it then landed, and whether the
      context has ended. */
  datatype Tail = Tail(refuses: bool, fails: bool, landed: set<nat>, ended: bool)

  /** The world's part in one turn: the partitions taken and given before the clock is
      looked at, that clock, those taken and given while the poll is out, those the client
      offers records of, whether the context ends before the poll's answer is looked at, each record's, and the rest. */
  datatype World = World(
    taken: set<nat>, given: set<nat>, now: Instant, takenLate: set<nat>, givenLate: set<nat>,
    offers: seq<nat>, cancelled: bool, lucks: nat -> Luck, tail: Tail)

  function SiteOf(chain: seq<string>, n: Net, level: nat, hasSink: bool): Site {
    Site(chain, n.decode, n.logs.Keys, level, hasSink)
  }

  lemma SiteStays(chain: seq<string>, n: Net, m: Net, level: nat, hasSink: bool, owned: set<nat>)
    requires Elsewhere(n, m, level, owned)
    ensures SiteOf(chain, n, level, hasSink) == SiteOf(chain, m, level, hasSink)
  {
  }

  lemma OnlyCommits(chain: seq<string>, n: Net, m: Net, level: nat, hasSink: bool, f: seq<Fetched>)
    requires m == n.(committed := m.committed)
    ensures SiteOf(chain, n, level, hasSink) == SiteOf(chain, m, level, hasSink)
    ensures AllStored(n, level, f) ==> AllStored(m, level, f)
  {
  }

  lemma LookAt(site: Site, f: seq<Fetched>, lucks: nat -> Luck, i: nat)
    requires i < |f|
    ensures Looks(site, f, lucks)[i] == Look(lucks(i).now, Accounts(site, f[i].record.body, lucks(i)))
  {
    hide Accounts;
  }

  lemma AccountsIs(site: Site, body: Message, luck: Luck, o: P.Outcome, why: C.ErrorChain)
    requires (o, why) == Verdict(site.decode, body, luck) && 0 < |site.chain| <= MAX_INT64
    ensures Accounts(site, body, luck) <==>
      o.Done? ||
      (site.hasSink && !F.Unforwardable(site.chain, body, o, Failing(why, luck)) && luck.produce.Fine?
       && F.Forwarded(site.chain, body, o, Failing(why, luck)).Ok?
       && Lands(site, F.Forwarded(site.chain, body, o, Failing(why, luck)).value.topic, luck.part))
  {
    hide Verdict, F.Unforwardable, F.Forwarded, Lands, Failing;
    F.RefusedIff(site.chain, body, o, Failing(why, luck));
  }

  /** The record the routing names has landed where it names, and says this code if its
      round read. */
  ghost predicate Sent(
      chain: seq<string>, n: Net, level: nat, r: Stored, o: P.Outcome, f: F.Failure, code: string)
  {
    && 0 < |chain| <= MAX_INT64 && F.Forwarded(chain, r.body, o, f).Ok?
    && Landed(n, level, r.lineage, F.Forwarded(chain, r.body, o, f).value)
    && (Round(r.body.headers).Ok? ==>
          Lookup(F.Forwarded(chain, r.body, o, f).value.headers, FAILURE_CODE) == Some(code))
  }

  lemma AmongIsOnLevel(n: Net, level: nat, lineage: nat, message: Message)
    requires Landed(n, level, lineage, message)
    ensures message.topic == PARKED ==> HasLineage(n.parked, lineage)
    ensures message.topic == DLQ ==> HasLineage(n.dead, lineage)
    ensures message.topic != PARKED && message.topic != DLQ ==> OnLevel(n, level + 1, lineage)
  {
    F.VerdictsDiffer();
    if message.topic != PARKED && message.topic != DLQ {
      var s :| s in n.logs && s.level == level + 1 && Among(n.logs[s], lineage, message);
      assert HasLineage(n.logs[s], lineage);
    }
  }

  /** Where what the forwarder sent landed: a Retry parked or one rung down, a Poison
      dead, and named. */
  lemma LandedWhere(chain: seq<string>, n: Net, level: nat, r: Stored, o: P.Outcome, f: F.Failure)
    requires Ladder(chain) && |chain| <= MAX_INT64 && PARKED !in chain && DLQ !in chain && f.code != ""
    requires F.Forwarded(chain, r.body, o, f).Ok?
    requires Landed(n, level, r.lineage, F.Forwarded(chain, r.body, o, f).value)
    ensures Resolved(n, level, r.lineage)
    ensures o.Retry? ==> HasLineage(n.parked, r.lineage) || OnLevel(n, level + 1, r.lineage)
    ensures o.Poison? ==> HasLineage(n.dead, r.lineage)
    ensures Sent(chain, n, level, r, o, f, f.code)
  {
    hide Landed, F.Forwarded, HasLineage, OnLevel, Network.Written, Lookup, Foreign;
    var p := F.Forwarded(chain, r.body, o, f).value;
    F.ForwardGoes(chain, r.body, o, f);
    AmongIsOnLevel(n, level, r.lineage, p);
    if Round(r.body.headers).Ok? {
      F.ForwardedSays(chain, r.body, o, f);
    }
    F.VerdictsDiffer();
  }

  predicate Givable(site: Site, rd: Reader, taken: set<nat>, given: set<nat>, policy: Policy) {
    && (forall p | p in given :: Slot(site.level, p) in site.slots && p !in rd.position.Keys - taken)
    && |rd.position - taken| + |given| <= policy.most
  }

  lemma OwnKeys(n: Net, level: nat, owned: set<nat>)
    ensures OwnCommitted(n, level, owned).Keys == owned
  {
  }

  lemma RebalanceIs(rd: Reader, ch: Change, fewer: Reader, after: Reader, site: Site, given: set<nat>,
                    gives: bool, policy: Policy)
    requires ch.given.Keys == if gives && Givable(site, rd, ch.taken, given, policy) then given else {}
    requires fewer == Reader(rd.position - ch.taken, rd.paused - ch.taken, rd.waiting - ch.taken)
    requires after == fewer.(position := fewer.position + ch.given)
    ensures ChangeOk(rd, ch) && after == Changed(rd, ch) && after.position == ChangedCommits(rd.position, ch)
  {
  }

  // ------------------------------------------------------------ a turn of the loop

  /** A turn that ends the run: its poll's answer is not thrown away, and the commit fails,
      a record stops the batch or the context ends. */
  ghost predicate EndsRun(rd: Reader, t: Turn, w: World, delay: int) {
    (w.cancelled || !Deadline(rd, t)) &&
    var b := Loop.Process(delay, t.fetch, t.looks);
    (b.acked != [] && (w.tail.refuses || w.tail.fails)) || b.stopped || w.cancelled || w.tail.ended
  }

  /** The turn has the world's part in it, and ends the run or does not. */
  ghost predicate Follows(site: Site, policy: Policy, delay: int, rd: Reader, t: Turn, w: World, ends: bool) {
    && t.before.taken == w.taken && t.now == w.now && t.during.taken == w.takenLate
    && t.before.given.Keys == (if Givable(site, rd, w.taken, w.given, policy) then w.given else {})
    && t.during.given.Keys ==
         (if (!Deadline(rd, t) || policy.late) && Givable(site, Resumed(rd, t), w.takenLate, w.givenLate, policy)
          then w.givenLate else {})
    && |t.fetch| <= |w.offers| && (forall i | 0 <= i < |t.fetch| :: t.fetch[i].part == w.offers[i])
    && t.looks == Looks(site, t.fetch, w.lucks)
    && (EndsRun(rd, t, w, delay) <==> ends)
  }

  /** How a run ended in this turn: what it finished is committed, unless the hook refused
      or the request failed, and it failed unless the context's end is all it was. */
  ghost predicate Ended(own: map<nat, nat>, committed: map<nat, nat>, t: Turn, w: World, delay: int, failed: bool) {
    var b, start := Loop.Process(delay, t.fetch, t.looks), CommitsAtPoll(committed, t);
    var kept := b.acked == [] || (!w.tail.refuses && !w.tail.fails);
    && (kept ==> own == Committed(start, b.acked))
    && (w.tail.refuses ==> own == start)
    && (failed <==> !kept || (b.stopped && !w.cancelled && !w.tail.ended))
  }

  function BeforeTurn(rd: Reader, own: map<nat, nat>, ts: seq<Turn>, k: nat, delay: int): Reader
    requires k <= |ts|
  {
    After(rd, own, ts[..k], delay).0
  }

  lemma NoTurns(rd: Reader, own: map<nat, nat>, delay: int, policy: Policy)
    ensures RunOk(rd, [], delay, policy) && After(rd, own, [], delay) == (rd, own)
  {
  }

  /** A turn as the loop has made it up to the poll's answer. */
  ghost predicate Polled(policy: Policy, rd: Reader, own: map<nat, nat>, t: Turn) {
    && Ready(rd, own) && ChangeOk(rd, t.before) && ChangeOk(Resumed(rd, t), t.during)
    && PollReturns(AtPoll(rd, t), t.fetch) && Obeys(rd, t, policy)
  }

  lemma TurnIs(site: Site, policy: Policy, delay: int, rd: Reader, own: map<nat, nat>, t: Turn, w: World,
               resumed: Reader, polled: Reader, atPoll: map<nat, nat>)
    requires Ready(rd, own) && ChangeOk(rd, t.before) && resumed == Resume(Changed(rd, t.before), t.now)
    requires |resumed.position| <= policy.most && ChangeOk(resumed, t.during) && polled == Changed(resumed, t.during)
    requires |polled.position| <= policy.most && atPoll == ChangedCommits(ChangedCommits(own, t.before), t.during)
    requires PollReturns(polled, t.fetch) && t.looks == Looks(site, t.fetch, w.lucks)
    requires |t.fetch| <= |w.offers| && forall i | 0 <= i < |t.fetch| :: t.fetch[i].part == w.offers[i]
    requires t.before.taken == w.taken && t.now == w.now && t.during.taken == w.takenLate
    requires t.before.given.Keys == if Givable(site, rd, w.taken, w.given, policy) then w.given else {}
    requires t.during.given.Keys ==
      if (resumed.waiting == map[] || policy.late) && Givable(site, resumed, w.takenLate, w.givenLate, policy)
      then w.givenLate else {}
    ensures Polled(policy, rd, own, t) && Obeys(rd, t, policy) && (Deadline(rd, t) <==> resumed.waiting != map[])
    ensures AtPoll(rd, t) == polled && CommitsAtPoll(own, t) == atPoll
    ensures Follows(site, policy, delay, rd, t, w, EndsRun(rd, t, w, delay))
  {
    hide Looks, Givable, PollReturns, ChangeOk, Changed, ChangedCommits, EndsRun, Ready;
  }

  /** A fetch thrown away under a safe policy is nothing, and the loop is ready again. */
  lemma Discarded(policy: Policy, delay: int, rd: Reader, own: map<nat, nat>, t: Turn, w: World)
    requires Polled(policy, rd, own, t) && Within(rd, delay, policy) && Safe(delay, policy)
    requires Deadline(rd, t) && !w.cancelled
    ensures TurnOk(rd, t, delay) && !EndsRun(rd, t, w, delay)
    ensures var polled := AtPoll(rd, t);
      AfterTurn(rd, t, delay) == polled.(position := Advance(polled.position, t.fetch))
      && CommittedByTurn(rd, t, delay, own) == CommitsAtPoll(own, t)
    ensures Fits(AfterTurn(rd, t, delay), CommittedByTurn(rd, t, delay, own), delay, policy)
  {
    hide Looks, PollReturns, ChangeOk, Changed, ChangedCommits, Ready, Obeys, Safe, Loop.Process, Advance;
    NothingCommitted(CommitsAtPoll(own, t));
    SafeTurn(rd, t, delay, own, policy);
  }

  /** Ready to poll, within the policy. */
  ghost predicate Fits(rd: Reader, own: map<nat, nat>, delay: int, policy: Policy) {
    Ready(rd, own) && (delay <= 0 ==> rd.waiting == map[]) && |rd.position| <= policy.most
  }

  /** A batch that ended the run, or after which the loop is ready again. */
  lemma Batched(policy: Policy, delay: int, rd: Reader, own: map<nat, nat>, t: Turn, w: World,
                rd': Reader, own': map<nat, nat>, done: bool, failed: bool)
    requires Polled(policy, rd, own, t) && Within(rd, delay, policy) && Safe(delay, policy)
    requires w.cancelled || !Deadline(rd, t)
    requires rd' == AfterBatch(AtPoll(rd, t), t.fetch, Loop.Process(delay, t.fetch, t.looks), delay)
    requires var b, start := Loop.Process(delay, t.fetch, t.looks), CommitsAtPoll(own, t);
      var ended, kept := w.cancelled || w.tail.ended, b.acked == [] || (!w.tail.refuses && !w.tail.fails);
      && (kept ==> own' == Committed(start, b.acked)) && (w.tail.refuses ==> own' == start)
      && (done <==> !kept || b.stopped || ended) && (failed <==> !kept || (b.stopped && !ended))
    ensures EndsRun(rd, t, w, delay) <==> done
    ensures done ==> Ended(own', own, t, w, delay, failed)
    ensures !done ==> TurnOk(rd, t, delay) && !failed
    ensures !done ==> rd' == AfterTurn(rd, t, delay) && own' == CommittedByTurn(rd, t, delay, own)
    ensures !done ==> Fits(rd', own', delay, policy)
  {
    hide Looks, PollReturns, ChangeOk, Changed, ChangedCommits, Ready, Obeys, Safe, Loop.Process, AtPoll, Resumed;
    hide Committed, AfterBatch, CommitsAtPoll;
    if !done {
      SafeTurn(rd, t, delay, own, policy);
    }
  }

  lemma OneMoreTurn(site: Site, policy: Policy, delay: int, rd: Reader, own: map<nat, nat>, ts: seq<Turn>, t: Turn,
                    worlds: seq<World>)
    requires |ts| < |worlds| && RunOk(rd, ts, delay, policy)
    requires TurnOk(After(rd, own, ts, delay).0, t, delay) && Obeys(After(rd, own, ts, delay).0, t, policy)
    requires Follows(site, policy, delay, After(rd, own, ts, delay).0, t, worlds[|ts|], false)
    requires forall k | 0 <= k < |ts| ::
      Follows(site, policy, delay, BeforeTurn(rd, own, ts, k, delay), ts[k], worlds[k], false)
    ensures RunOk(rd, ts + [t], delay, policy)
    ensures var (rd', own') := After(rd, own, ts, delay);
      After(rd, own, ts + [t], delay) == (AfterTurn(rd', t, delay), CommittedByTurn(rd', t, delay, own'))
    ensures forall k | 0 <= k <= |ts| ::
      Follows(site, policy, delay, BeforeTurn(rd, own, ts + [t], k, delay), (ts + [t])[k], worlds[k], false)
  {
    hide RunOk, After, Follows, TurnOk, Obeys, AfterTurn, CommittedByTurn;
    RunSnoc(rd, own, ts, t, delay, policy);
    forall k | 0 <= k <= |ts|
      ensures Follows(site, policy, delay, BeforeTurn(rd, own, ts + [t], k, delay), (ts + [t])[k], worlds[k], false)
    {
      assert (ts + [t])[..k] == ts[..k];
      if k == |ts| { assert ts[..k] == ts; }
    }
  }

  class Consumer {
    const broker: Broker
    const level: nat
    const delay: int
    const maxPoll: nat
    const hasSink: bool
    // how the group treats this member
    const policy: Policy
    // the client's
    var position: map<nat, nat>
    var paused: set<nat>
    // the consumer's own
    var waiting: map<nat, Instant>

    ghost predicate Valid()
      reads this, broker
    {
      && broker.Valid() && level < |broker.chain|
      && forall p | p in position :: Slot(level, p) in broker.net.committed
    }

    lemma RdMeans()
      ensures Rd() == Reader(position, paused, waiting)
    {
    }

    lemma ValidMeans()
      requires Valid()
      ensures broker.Valid() && Inv(broker.chain, broker.net)
      ensures forall p | p in position :: Slot(level, p) in broker.net.committed
    {
    }

    ghost function Rd(): Reader
      reads this
    {
      Reader(position, paused, waiting)
    }

    /** Ready to poll, within a policy the loop is safe under. */
    ghost predicate AtTop()
      reads this, broker
    {
      && Valid()
      && Ready(Rd(), OwnCommitted(broker.net, level, position.Keys))
      && Within(Rd(), delay, policy) && Safe(delay, policy)
    }

    /** A member that has joined and owns nothing yet. */
    constructor (broker: Broker, level: nat, delay: int, maxPoll: int, hasSink: bool, policy: Policy)
      requires broker.Valid() && level < |broker.chain|
      ensures this.broker == broker && this.level == level && this.delay == delay && this.hasSink == hasSink
      ensures this.policy == policy && this.maxPoll == if maxPoll <= 0 then 100 else maxPoll
      ensures position == map[] && (Safe(delay, policy) ==> AtTop())
    {
      this.policy := policy;
      this.broker := broker;
      this.level := level;
      this.delay := delay;
      this.maxPoll := if maxPoll <= 0 then 100 else maxPoll;
      this.hasSink := hasSink;
      position := map[];
      paused := {};
      waiting := map[];
    }

    /** resumeRipe: unpause what has ripened. */
    method ResumeRipe(now: Instant)
      modifies this`paused, this`waiting
      ensures Rd() == Resume(old(Rd()), now)
      ensures old(AtTop()) ==> AtTop()
    {
      hide IsHistory, Inv, Ladder;
      var ready := set p | p in waiting && waiting[p] <= now;
      waiting := waiting - ready;
      paused := paused - ready;
    }

    /** PollRecords: records of the owned partitions that are not paused, each
        partition's in order from its position, which moves past them. The client offers
        the partitions in this order, and the poll ends at the first that has nothing. */
    method Poll(offers: seq<nat>) returns (f: seq<Fetched>)
      requires Valid()
      modifies this`position
      ensures Valid() && PollReturns(old(Rd()), f) && AllStored(broker.net, level, f)
      ensures Rd() == old(Rd()).(position := Advance(old(position), f))
      ensures |f| <= maxPoll && |f| <= |offers| && forall i | 0 <= i < |f| :: f[i].part == offers[i]
      ensures |f| < maxPoll && |f| < |offers| ==>
        var p := offers[|f|];
        p !in position || p in paused || position[p] >= |broker.net.logs[Slot(level, p)]|
    {
      hide IsHistory, Inv, Ladder;
      f := [];
      while |f| < maxPoll && |f| < |offers|
        invariant Valid() && PollReturns(old(Rd()), f) && AllStored(broker.net, level, f)
        invariant position == Advance(old(position), f) && paused == old(paused) && waiting == old(waiting)
        invariant |f| <= maxPoll && |f| <= |offers| && forall i | 0 <= i < |f| :: f[i].part == offers[i]
        decreases maxPoll - |f|
      {
        var p := offers[|f|];
        SlotIsThere(p);
        if p !in position || p in paused || position[p] >= |broker.net.logs[Slot(level, p)]| {
          return;
        }
        AdvanceKeys(old(position), f);
        var r := Fetched(p, position[p], broker.net.logs[Slot(level, p)][position[p]]);
        Snoc(f, r);
        f := f + [r];
        position := position[p := position[p] + 1];
      }
    }

    lemma SlotIsThere(p: nat)
      requires Valid()
      ensures p in position ==> Slot(level, p) in broker.net.logs
    {
    }

    /** hold: the partition will be fetched again from exactly this record, and not
        before the record is ripe. To a batch that has held others it is one held more. */
    method Hold(r: Fetched, until: Instant)
      requires until == r.record.at + delay
      modifies this`position, this`paused, this`waiting
      ensures position == old(position)[r.part := r.offset] && paused == old(paused) + {r.part}
      ensures forall now :: r.part in Resume(Rd(), now).paused <==> now < until
      ensures forall rd, held | old(Rd()) == Holding(rd, held, delay) :: Rd() == Holding(rd, held[r.part := r], delay)
    {
      position := position[r.part := r.offset];
      paused := paused + {r.part};
      waiting := waiting[r.part := until];
      forall rd, held | old(Rd()) == Holding(rd, held, delay) ensures Rd() == Holding(rd, held[r.part := r], delay) {
        HoldOneMore(rd, held, r, delay);
      }
    }

    /** The broker's and the database's side of everything one does. */
    ghost predicate Undisturbed(before: Net, past: seq<Net>)
      reads this, broker
    {
      Valid() && Elsewhere(before, broker.net, level, position.Keys) && past <= broker.nets
    }

    /** What its group has committed of the partitions it owns. */
    ghost function Own(): map<nat, nat>
      reads this, broker
    {
      OwnCommitted(broker.net, level, position.Keys)
    }

    lemma OwnIs()
      ensures Own() == OwnCommitted(broker.net, level, position.Keys)
    {
    }

    lemma WhereIs()
      ensures Where() == SiteOf(broker.chain, broker.net, level, hasSink)
      ensures Where() == Site(broker.chain, broker.net.decode, broker.net.logs.Keys, level, hasSink)
    {
    }

    /** Where this consumer stands. */
    ghost function Where(): Site
      reads broker
    {
      SiteOf(broker.chain, broker.net, level, hasSink)
    }

    /** The sink: build the record, produce it, answer once it is acknowledged. What
        was acknowledged is the record Forwarded names, where it names. */
    method Forward(r: Fetched, o: P.Outcome, f: F.Failure, luck: Luck) returns (ok: bool)
      requires Valid() && IsStored(broker.net, level, r)
      modifies broker
      ensures Undisturbed(old(broker.net), old(broker.nets))
      ensures ok <==>
        && !F.Unforwardable(broker.chain, r.record.body, o, f) && luck.produce.Fine?
        && F.Forwarded(broker.chain, r.record.body, o, f).Ok?
        && Lands(Where(), F.Forwarded(broker.chain, r.record.body, o, f).value.topic, luck.part)
      ensures ok ==> Landed(broker.net, level, r.record.lineage, F.Forwarded(broker.chain, r.record.body, o, f).value)
    {
      hide *;
      BeforeForward();
      F.RefusedIff(broker.chain, r.record.body, o, f);
      ForwardedGoesOn(broker.chain, r.record.body, o, f);
      var source := R.Received(r.record.body);
      var out, err := R.Build(broker.chain, source, o, f);
      if out == null { return false; }
      var message := R.Sending(out);
      ok := Produce(r, message, luck);
    }

    lemma BeforeForward()
      requires Valid()
      ensures Undisturbed(broker.net, broker.nets)
      ensures Ladder(broker.chain) && 0 < |broker.chain| <= MAX_INT64
    {
      hide IsHistory, Inv;
      ElsewhereRefl(broker.net, level, position.Keys);
    }

    /** ProduceSync to wherever route sends the record. Without an acknowledgement it may
        have landed or not. */
    method Produce(r: Fetched, message: Message, luck: Luck) returns (ok: bool)
      requires Valid() && IsStored(broker.net, level, r)
      requires GoesOn(broker.chain, r.record.body.topic, message.topic)
      requires message.key == r.record.body.key && message.value == r.record.body.value
      modifies broker
      ensures Undisturbed(old(broker.net), old(broker.nets))
      ensures ok <==> luck.produce.Fine? && Lands(Where(), message.topic, luck.part)
      ensures ok ==> Landed(broker.net, level, r.record.lineage, message)
    {
      hide IsHistory, Inv, Ladder, Among;
      ghost var before := broker.net;
      ElsewhereRefl(before, level, position.Keys);
      if luck.produce.LostBefore? { return false; }
      var from := Slot(level, r.part);
      var copy := Stored(r.record.lineage, luck.at, message);
      if message.topic == PARKED {
        EventElsewhere(broker.chain, before, ParkIt(from, r.offset, copy), level, position.Keys);
        broker.Do(ParkIt(from, r.offset, copy));
        LastIsAmong(broker.net.parked, copy);
      } else if message.topic == DLQ {
        EventElsewhere(broker.chain, before, Bury(from, r.offset, copy), level, position.Keys);
        broker.Do(Bury(from, r.offset, copy));
        LastIsAmong(broker.net.dead, copy);
      } else {
        NextLevel(broker.chain, before, level, r, message);
        var slot := Slot(level + 1, luck.part);
        if slot !in broker.net.logs { return false; }
        EventElsewhere(broker.chain, before, Append(from, r.offset, slot, copy), level, position.Keys);
        broker.Do(Append(from, r.offset, slot, copy));
        LastIsAmong(broker.net.logs[slot], copy);
      }
      ok := luck.produce.Fine?;
    }

    /** One record: decode, handle, and forward what was not done. It is accounted for
        exactly when Accounts says so: with the event in events, or the record the routing
        names acknowledged where it names, a Retry one rung down or parked and a Poison
        dead, under the name of the error it failed with. */
    method One(r: Fetched, luck: Luck) returns (accounted: bool, ghost outcome: P.Outcome, ghost cause: C.ErrorChain)
      requires Valid() && IsStored(broker.net, level, r)
      modifies broker
      ensures Undisturbed(old(broker.net), old(broker.nets))
      ensures (outcome, cause) == Verdict(broker.net.decode, r.record.body, luck)
      ensures accounted <==> Accounts(Where(), r.record.body, luck)
      ensures accounted ==> Resolved(broker.net, level, r.record.lineage)
      ensures outcome.Done? ==> accounted && Network.Written(broker.net, r.record.lineage)
      ensures outcome.Fatal? || outcome.Unknown? || (!hasSink && !outcome.Done?) ==> !accounted
      ensures broker.net.decode(r.record.body.key, r.record.body.value).Err? <==> outcome.Poison?
      ensures accounted && outcome.Retry? ==>
        HasLineage(broker.net.parked, r.record.lineage) || OnLevel(broker.net, level + 1, r.record.lineage)
      ensures accounted && outcome.Poison? ==> HasLineage(broker.net.dead, r.record.lineage)
      ensures accounted && !outcome.Done? ==>
        Sent(broker.chain, broker.net, level, r.record, outcome,
             F.Failure(C.FailureCode(cause), luck.bodyId, luck.clock), C.FailureCode(cause))
    {
      hide Resolved, Ladder, Inv, IsHistory, Sent, Accounts, HasLineage, OnLevel, Network.Written, SiteOf;
      hide C.FailureCode, Handled, C.DecodeError, Lands, F.Unforwardable;
      ghost var n0 := broker.net;
      broker.Others(level, position.Keys);
      ghost var n1 := broker.net;
      assert IsStored(n1, level, r);
      var o, why := P.Poison, [];
      var decoded := broker.net.decode(r.record.body.key, r.record.body.value);
      match decoded {
        case Err(failure) => why := C.DecodeError(failure);
        case Ok(e) => o, why := HandleEvent(r, e, luck);
      }
      ghost var n2 := broker.net;
      ElsewhereTrans(n0, n1, n2, level, position.Keys);
      WhereIs();
      AccountsIs(Where(), r.record.body, luck, o, why);
      SiteStays(broker.chain, n0, n2, level, hasSink, position.Keys);
      outcome, cause := o, why;
      match o {
        case Done =>
          accounted := true;
          WrittenIsResolved(broker.net, level, r.record.lineage);
        case Retry => accounted := ForwardIfSink(r, o, why, luck);
        case Poison => accounted := ForwardIfSink(r, o, why, luck);
        case _ => accounted := false;
      }
      SiteStays(broker.chain, n2, broker.net, level, hasSink, position.Keys);
      ElsewhereTrans(n0, n2, broker.net, level, position.Keys);
    }

    /** The handler: one transaction on the table as it is at that moment, which adds the
        event's row or nothing. Its only unique index is the key's. */
    method HandleEvent(r: Fetched, e: S.AgentRun, luck: Luck) returns (o: P.Outcome, cause: C.ErrorChain)
      requires Valid() && IsStored(broker.net, level, r)
      requires broker.net.decode(r.record.body.key, r.record.body.value) == Ok(e)
      modifies broker
      ensures Undisturbed(old(broker.net), old(broker.nets)) && IsStored(broker.net, level, r)
      ensures (o, cause) == Handled(e, luck)
      ensures broker.net.events ==
        if luck.insert.LostBefore? then old(broker.net.events) else S.Inserted(luck.weeks, old(broker.net.events), e)
      ensures o.Done? ==> Network.Written(broker.net, r.record.lineage)
      ensures o.Done? || o.Retry? || o.Fatal?
    {
      hide IsHistory, Ladder, S.HasPartition, S.Inserted, C.Classify;
      var db := new S.Events.Found(luck.weeks, broker.net.events);
      o, cause := H.Handle(db, e, true, luck.insert, luck.cause);
      S.PartitionTakes(luck.weeks, e.occurredAt);
      ghost var before := broker.net;
      StoredIsFaithful(broker.chain, before, level, r);
      EventElsewhere(broker.chain, before, Insert(luck.weeks, e), level, position.Keys);
      ElsewhereRefl(before, level, position.Keys);
      hide Inv;
      if db.rows != broker.net.events {
        broker.Do(Insert(luck.weeks, e));
      }
    }

    method ForwardIfSink(r: Fetched, o: P.Outcome, cause: C.ErrorChain, luck: Luck) returns (ok: bool)
      requires Valid() && IsStored(broker.net, level, r) && (o.Retry? || o.Poison?)
      modifies broker
      ensures Undisturbed(old(broker.net), old(broker.nets))
      ensures ok <==>
        && hasSink && !F.Unforwardable(broker.chain, r.record.body, o, Failing(cause, luck)) && luck.produce.Fine?
        && F.Forwarded(broker.chain, r.record.body, o, Failing(cause, luck)).Ok?
        && Lands(Where(), F.Forwarded(broker.chain, r.record.body, o, Failing(cause, luck)).value.topic, luck.part)
      ensures ok ==> Resolved(broker.net, level, r.record.lineage)
      ensures ok && o.Retry? ==>
        HasLineage(broker.net.parked, r.record.lineage) || OnLevel(broker.net, level + 1, r.record.lineage)
      ensures ok && o.Poison? ==> HasLineage(broker.net.dead, r.record.lineage)
      ensures ok ==>
        Sent(broker.chain, broker.net, level, r.record, o,
             F.Failure(C.FailureCode(cause), luck.bodyId, luck.clock), C.FailureCode(cause))
    {
      hide IsHistory, Inv, IsStored, Resolved, Landed, Sent, HasLineage, OnLevel, Lands, F.Unforwardable, SiteOf;
      hide C.FailureCode, F.Forwarded;
      ElsewhereRefl(broker.net, level, position.Keys);
      if !hasSink { return false; }
      ok := Forward(r, o, Failing(cause, luck), luck);
      if ok {
        C.CodeIsNeverEmpty(cause);
        LandedWhere(broker.chain, broker.net, level, r.record, o, Failing(cause, luck));
      }
    }

    /** One record of the fetch: passed over behind a stop or a hold, held while it is
        not ripe, acknowledged if it is accounted for, and a stop if it is not. */
    method Consider(r: Fetched, b: Batch, luck: Luck) returns (c: Batch)
      requires Valid() && IsStored(broker.net, level, r) && r.part in position
      modifies broker, this`position, this`paused, this`waiting
      ensures Undisturbed(old(broker.net), old(broker.nets)) && position.Keys == old(position.Keys)
      ensures c == Step(delay, b, r, Look(luck.now, Accounts(Where(), r.record.body, luck)))
      ensures c.acked == b.acked || (c.acked == b.acked + [r] && Resolved(broker.net, level, r.record.lineage))
      ensures forall rd | old(Rd()) == Holding(rd, b.held, delay) :: Rd() == Holding(rd, c.held, delay)
    {
      hide IsHistory, IsStored, Inv, Ladder, Resolved, Holding, Accounts, SiteOf;
      ElsewhereRefl(broker.net, level, position.Keys);
      c := b;
      if b.stopped || r.part in b.held {
      } else if !Ripe(delay, r.record, luck.now) {
        Hold(r, r.record.at + delay);
        c := b.(held := b.held[r.part := r]);
      } else {
        ghost var outcome, cause;
        var accounted;
        accounted, outcome, cause := One(r, luck);
        c := if accounted then b.(acked := b.acked + [r]) else b.(stopped := true);
      }
    }

    /** process: every record of the fetch, up to the first that is not accounted for.
        What it acknowledges and holds is what Loop.Process says of what it sees. */
    method Process(f: seq<Fetched>, lucks: nat -> Luck) returns (b: Batch)
      requires Valid() && AllStored(broker.net, level, f)
      requires forall r | r in f :: r.part in position
      modifies broker, this`position, this`paused, this`waiting
      ensures Undisturbed(old(broker.net), old(broker.nets)) && position.Keys == old(position.Keys)
      ensures b == Loop.Process(delay, f, Looks(old(Where()), f, lucks))
      ensures Rd() == Holding(old(Rd()), b.held, delay)
      ensures AllStored(broker.net, level, b.acked) && AllResolved(broker.net, level, b.acked)
    {
      hide Loop.Process, Resolved, IsStored, Step, Holding, IsHistory, Inv, Ladder, Grows, Accounts, SiteOf, Looks;
      b := Batch([], map[], false);
      ghost var looks := Looks(Where(), f, lucks);
      ghost var n := broker.net;
      ProcessNothing(delay, f);
      assert looks[..0] == [];
      HoldNothing(Rd(), delay);
      ElsewhereRefl(broker.net, level, position.Keys);
      var i := 0;
      while i < |f| && !b.stopped
        invariant 0 <= i <= |f|
        invariant Undisturbed(n, old(broker.nets)) && position.Keys == old(position.Keys)
        invariant AllStored(broker.net, level, f)
        invariant AllStored(broker.net, level, b.acked) && AllResolved(broker.net, level, b.acked)
        invariant b == Loop.Process(delay, f[..i], looks[..i])
        invariant Rd() == Holding(old(Rd()), b.held, delay)
      {
        ghost var before, acked := broker.net, b.acked;
        b := Consider(f[i], b, lucks(i));
        ElsewhereTrans(n, before, broker.net, level, position.Keys);
        SiteStays(broker.chain, n, broker.net, level, hasSink, position.Keys);
        LookAt(old(Where()), f, lucks, i);
        StoredGrows(before, broker.net, level, f);
        StoredGrows(before, broker.net, level, acked);
        ProcessStep(delay, f, looks[..i], i, looks[i]);
        assert looks[..i + 1] == looks[..i] + [looks[i]];
        i := i + 1;
      }
      StoppedStays(delay, f, looks, i);
    }

    /** commit: nothing for nothing; the hook, which may refuse; and then CommitRecords. */
    method Commit(acked: seq<Fetched>, tail: Tail) returns (ok: bool)
      requires Valid() && Contiguous(OwnCommitted(broker.net, level, position.Keys), acked)
      requires AllStored(broker.net, level, acked) && AllResolved(broker.net, level, acked)
      modifies broker
      ensures Valid() && old(broker.nets) <= broker.nets
      ensures broker.net == old(broker.net).(committed := broker.net.committed)
      ensures ok <==> acked == [] || (!tail.refuses && !tail.fails)
      ensures ok ==>
        OwnCommitted(broker.net, level, position.Keys)
        == Committed(old(OwnCommitted(broker.net, level, position.Keys)), acked)
      ensures tail.refuses || acked == [] ==> broker.net == old(broker.net)
      ensures var start := old(OwnCommitted(broker.net, level, position.Keys));
        acked != [] && !tail.refuses && tail.fails ==> forall p | p in position ::
          CommittedAt(broker.net, level, p) == if p in tail.landed then Committed(start, acked)[p] else start[p]
    {
      hide IsHistory, Inv, Ladder, Committed, AllStored, AllResolved, Contiguous;
      ghost var start := OwnCommitted(broker.net, level, position.Keys);
      CommitNothing(start);
      CommitKeys(start, acked);
      if acked == [] { return true; }
      if tail.refuses { return false; }
      ok := CommitRecords(start, acked, tail);
    }

    /** The highest offset plus one of each partition given. A request that fails may
        have landed for any of them. */
    method CommitRecords(ghost start: map<nat, nat>, acked: seq<Fetched>, tail: Tail) returns (ok: bool)
      requires Valid() && Contiguous(start, acked) && start.Keys == position.Keys
      requires forall p | p in position :: start[p] == CommittedAt(broker.net, level, p)
      requires AllStored(broker.net, level, acked) && AllResolved(broker.net, level, acked)
      modifies broker
      ensures Valid() && old(broker.nets) <= broker.nets
      ensures broker.net == old(broker.net).(committed := broker.net.committed)
      ensures ok <==> !tail.fails
      ensures forall p | p in position ::
        CommittedAt(broker.net, level, p)
        == if !tail.fails || p in tail.landed then Committed(start, acked)[p] else start[p]
    {
      hide *;
      ghost var n := broker.net;
      ValidMeans();
      UncommittedParts(start, acked);
      CommitKeys(start, acked);
      var all := Parts(acked);
      var sent := if tail.fails then all * tail.landed else all;
      var left := sent;
      while left != {}
        invariant Valid() && broker.net == n.(committed := broker.net.committed) && old(broker.nets) <= broker.nets
        invariant left <= sent
        invariant forall p | p in position ::
          CommittedAt(broker.net, level, p)
          == (if p in left || p !in sent then start[p] else Committed(start, acked)[p])
      {
        var p :| p in left;
        CommitTarget(broker.chain, n, level, start, acked, p);
        CommitOne(n, p, Highest(acked, p).value + 1);
        left := left - {p};
      }
      ok := !tail.fails;
    }

    method CommitOne(ghost before: Net, p: nat, upto: nat)
      requires Valid() && p in position && broker.net == before.(committed := broker.net.committed)
      requires Slot(level, p) in before.logs && upto <= |before.logs[Slot(level, p)]|
      requires ResolvedBelow(before, Slot(level, p), upto)
      modifies broker
      ensures Valid() && broker.net == before.(committed := broker.net.committed)
      ensures forall q ::
        CommittedAt(broker.net, level, q) == (if q == p then upto else CommittedAt(old(broker.net), level, q))
      ensures broker.nets == old(broker.nets) + [broker.net]
    {
      ResolvedBelowGrows(before, broker.net, Slot(level, p), upto);
      hide IsHistory, Ladder, ResolvedBelow;
      broker.Do(CommitTo(Slot(level, p), upto));
    }

    /** batch: process, then commit what it acknowledged, then stop if it has to. What it
        finished is committed whether it stops or not. It is done when the commit failed,
        when a record stopped it or when the context ended; and that is an error unless
        the context's end is all it was. */
    method BatchOnce(ghost rd: Reader, f: seq<Fetched>, lucks: nat -> Luck, tail: Tail)
        returns (done: bool, failed: bool)
      requires Valid() && PollReturns(rd, f) && AllStored(broker.net, level, f)
      requires Rd() == rd.(position := Advance(rd.position, f))
      requires Ready(rd, OwnCommitted(broker.net, level, rd.position.Keys))
      modifies broker, this`position, this`paused, this`waiting
      ensures Valid() && old(broker.nets) <= broker.nets && position.Keys == old(position.Keys)
      ensures old(Where()) == Where() && AllStored(broker.net, level, f)
      ensures var b := Loop.Process(delay, f, Looks(Where(), f, lucks));
        && Rd() == AfterBatch(rd, f, b, delay)
        && (b.acked == [] || (!tail.refuses && !tail.fails) ==>
              OwnCommitted(broker.net, level, position.Keys)
              == Committed(old(OwnCommitted(broker.net, level, rd.position.Keys)), b.acked))
        && (tail.refuses ==>
              OwnCommitted(broker.net, level, position.Keys) == old(OwnCommitted(broker.net, level, rd.position.Keys)))
        && (done <==> (b.acked != [] && (tail.refuses || tail.fails)) || b.stopped || tail.ended)
        && (failed <==> (b.acked != [] && (tail.refuses || tail.fails)) || (b.stopped && !tail.ended))
    {
      hide *;
      ghost var n, committed := broker.net, OwnCommitted(broker.net, level, rd.position.Keys);
      ghost var looks := Looks(Where(), f, lucks);
      ValidMeans();
      WhereIs();
      RdMeans();
      BeforeProcess(rd, f, committed);
      var b := Process(f, lucks);
      UndisturbedMeans(n, old(broker.nets));
      SiteStays(broker.chain, n, broker.net, level, hasSink, position.Keys);
      ElsewhereGrows(n, broker.net, level, position.Keys);
      StoredGrows(n, broker.net, level, f);
      WhereIs();
      AfterProcess(rd, f, looks, delay);
      ghost var m := broker.net;
      var ok := Commit(b.acked, tail);
      OnlyCommits(broker.chain, m, broker.net, level, hasSink, f);
      WhereIs();
      done := !ok || b.stopped || tail.ended;
      failed := !ok || (b.stopped && !tail.ended);
    }

    /** A rebalance: some partitions are taken away, and others given, if the group's policy
        lets it. Everyone else goes on in between. */
    method Rebalance(taken: set<nat>, given: set<nat>, gives: bool) returns (ghost ch: Change)
      requires AtTop()
      modifies broker, this`position, this`paused, this`waiting
      ensures AtTop() && old(broker.nets) <= broker.nets && old(Where()) == Where()
      ensures ch.taken == taken && ChangeOk(old(Rd()), ch) && Rd() == Changed(old(Rd()), ch)
      ensures OwnCommitted(broker.net, level, position.Keys)
        == ChangedCommits(old(OwnCommitted(broker.net, level, position.Keys)), ch)
      ensures ch.given.Keys
        == if gives && Givable(old(Where()), old(Rd()), taken, given, policy) then given else {}
    {
      hide *;
      OwnIsPosition();
      ghost var rd := Rd();
      GiveUp(taken);
      CanGiveIs(rd, taken, given);
      var all := if gives && CanGive(given) then given else {};
      ghost var fewer, offered := Rd(), OwnCommitted(broker.net, level, all);
      OwnKeys(broker.net, level, all);
      Assign(all);
      ch := Change(taken, offered);
      RebalanceIs(rd, ch, fewer, Rd(), Where(), given, gives, policy);
      OwnIsPosition();
    }

    /** What is taken is given up, and everyone else goes on. */
    method GiveUp(taken: set<nat>)
      requires AtTop()
      modifies broker, this`position, this`paused, this`waiting
      ensures AtTop() && old(broker.nets) <= broker.nets && old(Where()) == Where()
      ensures position == Rd().position == old(Rd()).position - taken
      ensures Rd() == Reader(old(Rd()).position - taken, old(Rd()).paused - taken, old(Rd()).waiting - taken)
    {
      hide *;
      RdMeans();
      WhereIs();
      Revoke(taken);
      ghost var n := broker.net;
      TopMeans();
      broker.Others(level, position.Keys);
      ElsewhereKeepsTop(n);
      SiteStays(broker.chain, n, broker.net, level, hasSink, position.Keys);
      WhereIs();
      RdMeans();
    }

    /** Partitions taken away: their waits are forgotten and their pauses lifted. */
    method Revoke(gone: set<nat>)
      requires AtTop()
      modifies this`position, this`paused, this`waiting
      ensures AtTop()
      ensures position == old(position) - gone && paused == old(paused) - gone && waiting == old(waiting) - gone
    {
      hide IsHistory, Inv, Ladder;
      FewerOwned(position, gone);
      position, paused, waiting := position - gone, paused - gone, waiting - gone;
      assert OwnCommitted(broker.net, level, position.Keys)
        == old(OwnCommitted(broker.net, level, position.Keys)) - gone;
    }

    /** The group can give these: they are there, not owned, and not too many. */
    predicate CanGive(given: set<nat>)
      reads this, broker
    {
      && (forall p | p in given :: Slot(level, p) in broker.net.committed && p !in position)
      && |position| + |given| <= policy.most
    }

    lemma CanGiveMeans(given: set<nat>)
      requires given == {} || CanGive(given)
      requires |position| <= policy.most
      ensures (forall p | p in given :: Slot(level, p) in broker.net.committed && p !in position)
      ensures |position| + |given| <= policy.most
    {
    }

    lemma CanGiveIs(rd: Reader, taken: set<nat>, given: set<nat>)
      requires AtTop() && position == rd.position - taken
      ensures CanGive(given) <==> Givable(Where(), rd, taken, given, policy)
    {
      hide IsHistory, Ladder, SlotOk, OnLevel;
    }

    /** Partitions given, to be read from where their group has committed. */
    method Assign(given: set<nat>)
      requires AtTop() && (given == {} || CanGive(given))
      modifies this`position
      ensures AtTop() && Rd() == old(Rd()).(position := old(Rd()).position + OwnCommitted(broker.net, level, given))
    {
      hide *;
      TopMeans();
      ghost var own := OwnCommitted(broker.net, level, position.Keys);
      var more := OwnCommitted(broker.net, level, given);
      OwnKeys(broker.net, level, given);
      CanGiveMeans(given);
      OwnMore(broker.net, level, position.Keys, given);
      MoreOwned(position, more);
      position := position + more;
      MoreKeys(old(position), more);
      RdMeans();
      ReadyMore(old(Rd()), own, more);
      ValidIs();
      TopIs();
    }

    lemma TopMeans()
      requires AtTop()
      ensures Valid() && broker.Valid() && level < |broker.chain|
      ensures Ready(Rd(), OwnCommitted(broker.net, level, position.Keys))
      ensures forall p | p in position :: Slot(level, p) in broker.net.committed
      ensures Rd() == Reader(position, paused, waiting) && paused == waiting.Keys <= position.Keys
      ensures Within(Rd(), delay, policy) && Safe(delay, policy)
      ensures (delay <= 0 ==> waiting == map[]) && |position| <= policy.most
    {
    }

    lemma OwnIsPosition()
      requires AtTop()
      ensures OwnCommitted(broker.net, level, position.Keys) == position == Rd().position
    {
    }

    lemma TopIs()
      requires Valid() && Ready(Rd(), OwnCommitted(broker.net, level, position.Keys))
      requires (delay <= 0 ==> waiting == map[]) && |position| <= policy.most && Safe(delay, policy)
      ensures AtTop()
    {
    }

    lemma FitsIsTop()
      requires Valid() && Fits(Rd(), Own(), delay, policy) && Safe(delay, policy)
      ensures AtTop()
    {
    }

    lemma ValidIs()
      requires broker.Valid() && level < |broker.chain|
      requires forall p | p in position :: Slot(level, p) in broker.net.committed
      ensures Valid()
    {
    }

    /** Others leave a member that is ready to poll ready to poll. */
    lemma ElsewhereKeepsTop(n: Net)
      requires broker.Valid() && level < |broker.chain| && Elsewhere(n, broker.net, level, position.Keys)
      requires forall p | p in position :: Slot(level, p) in n.committed
      requires Ready(Rd(), OwnCommitted(n, level, position.Keys))
      requires (delay <= 0 ==> waiting == map[]) && |position| <= policy.most && Safe(delay, policy)
      ensures AtTop()
    {
      assert OwnCommitted(broker.net, level, position.Keys) == OwnCommitted(n, level, position.Keys);
    }

    /** Run, through these turns of the world or until one ends it. What it does is a run of
        turns as Turns has them, each with the world's part in it and none that ends it but
        the last; every state of the broker is one in which nothing is lost. The context of
        a poll under a deadline is cancelled before it is looked at, so whatever such a poll
        returned is thrown away, unless the caller's context ended. A rebalance falls
        between a batch and the return of the next poll. */
    method Run(worlds: seq<World>) returns (failed: bool, ghost ts: seq<Turn>, ghost end: Option<Turn>)
      requires AtTop()
      modifies broker, this`position, this`paused, this`waiting
      ensures broker.Valid() && old(broker.nets) <= broker.nets
      ensures forall i | 0 <= i < |broker.nets| :: NothingLost(broker.nets[i])
      ensures |ts| <= |worlds| && RunOk(old(Rd()), ts, delay, policy)
      ensures forall k | 0 <= k < |ts| ::
        Follows(old(Where()), policy, delay, BeforeTurn(old(Rd()), old(Own()), ts, k, delay), ts[k], worlds[k], false)
      ensures end.None? <==> |ts| == |worlds|
      ensures end.None? ==> !failed && (Rd(), Own()) == After(old(Rd()), old(Own()), ts, delay)
      ensures end.Some? ==>
        Follows(old(Where()), policy, delay, After(old(Rd()), old(Own()), ts, delay).0, end.value, worlds[|ts|], true)
      ensures end.Some? ==>
        Polled(policy, After(old(Rd()), old(Own()), ts, delay).0, After(old(Rd()), old(Own()), ts, delay).1, end.value)
      ensures end.Some? ==>
        Ended(Own(), After(old(Rd()), old(Own()), ts, delay).1, end.value, worlds[|ts|], delay, failed)
    {
      hide *;
      TopMeans();
      ghost var rd0, own0, site := Rd(), Own(), Where();
      ts, end, failed := [], None, false;
      NoTurns(rd0, own0, delay, policy);
      for i := 0 to |worlds|
        invariant AtTop() && broker.Valid() && old(broker.nets) <= broker.nets && Where() == site
        invariant |ts| == i && RunOk(rd0, ts, delay, policy) && After(rd0, own0, ts, delay) == (Rd(), Own())
        invariant forall k | 0 <= k < i ::
          Follows(site, policy, delay, BeforeTurn(rd0, own0, ts, k, delay), ts[k], worlds[k], false)
        invariant end.None? && !failed
      {
        var done;
        ghost var t;
        done, failed, t := OneTurn(worlds[i]);
        if done {
          end := Some(t);
          break;
        }
        OneMoreTurn(site, policy, delay, rd0, own0, ts, t, worlds);
        ts := ts + [t];
        TopMeans();
      }
      broker.NoneLost();
    }

    /** One turn of the loop. */
    method OneTurn(w: World) returns (done: bool, failed: bool, ghost t: Turn)
      requires AtTop()
      modifies broker, this`position, this`paused, this`waiting
      ensures broker.Valid() && old(broker.nets) <= broker.nets && Where() == old(Where())
      ensures Follows(old(Where()), policy, delay, old(Rd()), t, w, done)
      ensures Polled(policy, old(Rd()), old(Own()), t) && AllStored(broker.net, level, t.fetch)
      ensures !done ==> AtTop() && !failed && TurnOk(old(Rd()), t, delay) && Obeys(old(Rd()), t, policy)
      ensures !done ==>
        (Rd(), Own()) == (AfterTurn(old(Rd()), t, delay), CommittedByTurn(old(Rd()), t, delay, old(Own())))
      ensures done ==> Ended(Own(), old(Own()), t, w, delay, failed)
    {
      hide *;
      TopMeans();
      OwnIs();
      ghost var site, rd, own := Where(), Rd(), Own();
      ghost var before := Rebalance(w.taken, w.given, true);
      ResumeRipe(w.now);
      TopMeans();
      ghost var resumed := Rd();
      var deadline := waiting != map[];
      ghost var during := Rebalance(w.takenLate, w.givenLate, !deadline || policy.late);
      TopMeans();
      OwnIs();
      ghost var polled, atPoll := Rd(), Own();
      var fetches := Poll(w.offers);
      SamePartitions(polled, fetches);
      RdMeans();
      t := Turn(before, w.now, during, fetches, Looks(site, fetches, w.lucks));
      TurnIs(site, policy, delay, rd, own, t, w, resumed, polled, atPoll);
      done, failed := false, false;
      if !w.cancelled && deadline {
        Discarded(policy, delay, rd, own, t, w);
      } else {
        done, failed := BatchOnce(polled, fetches, w.lucks, w.tail.(ended := w.cancelled || w.tail.ended));
        OwnIs();
        Batched(policy, delay, rd, own, t, w, Rd(), Own(), done, failed);
      }
      OwnIs();
      RdMeans();
      ValidMeans();
      if !done {
        FitsIsTop();
      }
    }

    lemma UndisturbedMeans(before: Net, past: seq<Net>)
      requires Undisturbed(before, past)
      requires forall p | p in position :: Slot(level, p) in before.committed
      ensures Elsewhere(before, broker.net, level, position.Keys)
      ensures Valid() && past <= broker.nets
      ensures OwnCommitted(broker.net, level, position.Keys) == OwnCommitted(before, level, position.Keys)
    {
    }
  }

  lemma OwnMore(n: Net, level: nat, owned: set<nat>, given: set<nat>)
    ensures OwnCommitted(n, level, owned + given) == OwnCommitted(n, level, owned) + OwnCommitted(n, level, given)
  {
  }

  lemma MoreKeys<V>(a: map<nat, V>, b: map<nat, V>)
    ensures (a + b).Keys == a.Keys + b.Keys
  {
  }

  lemma ReadyMore(rd: Reader, committed: map<nat, nat>, more: map<nat, nat>)
    requires Ready(rd, committed)
    ensures Ready(Reader(rd.position + more, rd.paused, rd.waiting), committed + more)
  {
  }

  lemma MoreOwned(a: map<nat, nat>, b: map<nat, nat>)
    requires a.Keys !! b.Keys
    ensures |a + b| == |a| + |b.Keys|
  {
    assert (a + b).Keys == a.Keys + b.Keys;
    assert |(a + b).Keys| == |a + b| && |a.Keys| == |a|;
  }

  lemma FewerOwned(position: map<nat, nat>, gone: set<nat>)
    ensures |position - gone| <= |position|
  {
    assert (position - gone).Keys == position.Keys - gone;
    assert |(position - gone).Keys| == |position - gone| && |position.Keys| == |position|;
    assert |position.Keys - gone| <= |position.Keys|;
  }

  lemma SamePartitions(rd: Reader, f: seq<Fetched>)
    requires PollReturns(rd, f)
    ensures Advance(rd.position, f).Keys == rd.position.Keys
  {
    AdvanceKeys(rd.position, f);
  }

  lemma BeforeProcess(rd: Reader, f: seq<Fetched>, committed: map<nat, nat>)
    requires PollReturns(rd, f) && Ready(rd, committed)
    ensures committed == rd.position && Advance(rd.position, f).Keys == rd.position.Keys
    ensures forall r | r in f :: r.part in Advance(rd.position, f)
  {
    AdvanceKeys(rd.position, f);
    ContiguousOwned(rd.position, f);
  }

  lemma AfterProcess(rd: Reader, f: seq<Fetched>, looks: seq<Look>, delay: int)
    requires PollReturns(rd, f) && |looks| == |f|
    ensures var b := Loop.Process(delay, f, looks);
      && Contiguous(rd.position, b.acked)
      && AfterBatch(rd, f, b, delay) == Holding(rd.(position := Advance(rd.position, f)), b.held, delay)
  {
    AckedIsContiguous(delay, rd.position, f, looks);
  }

  lemma {:induction false} ContiguousOwned(start: map<nat, nat>, f: seq<Fetched>)
    requires Contiguous(start, f)
    ensures forall r | r in f :: r.part in start
  {
    if f != [] {
      ContiguousOwned(start, f[..|f| - 1]);
      assert forall r | r in f :: r in f[..|f| - 1] || r == f[|f| - 1];
    }
  }

  lemma CommitNothing(start: map<nat, nat>)
    ensures Committed(start, []) == start
  {
  }

  lemma CommitKeys(start: map<nat, nat>, acked: seq<Fetched>)
    ensures Committed(start, acked).Keys == start.Keys
  {
  }

  function Parts(f: seq<Fetched>): set<nat> {
    set r | r in f :: r.part
  }

  lemma {:induction false} HighestIff(start: map<nat, nat>, f: seq<Fetched>, p: nat)
    requires Contiguous(start, f)
    ensures Highest(f, p).Some? <==> p in Parts(f)
    ensures p in Parts(f) ==> p in start
  {
    if f != [] {
      HighestIff(start, f[..|f| - 1], p);
      assert f == f[..|f| - 1] + [f[|f| - 1]];
      assert Parts(f) == Parts(f[..|f| - 1]) + {f[|f| - 1].part};
    }
  }

  lemma UncommittedParts(start: map<nat, nat>, acked: seq<Fetched>)
    requires Contiguous(start, acked)
    ensures Parts(acked) <= start.Keys
    ensures forall p | p in start && p !in Parts(acked) :: Committed(start, acked)[p] == start[p]
  {
    forall p: nat ensures (Highest(acked, p).Some? <==> p in Parts(acked)) && (p in Parts(acked) ==> p in start) {
      HighestIff(start, acked, p);
    }
    hide Highest, Parts, Contiguous;
  }

  /** Each offset a commit sends is one everything below is resolved under. */
  lemma CommitTarget(chain: seq<string>, n: Net, level: nat, start: map<nat, nat>, acked: seq<Fetched>, p: nat)
    requires Inv(chain, n) && Contiguous(start, acked) && p in Parts(acked)
    requires forall p | p in start :: Slot(level, p) in n.committed && start[p] == CommittedAt(n, level, p)
    requires AllStored(n, level, acked) && AllResolved(n, level, acked)
    ensures p in start && Highest(acked, p).Some?
    ensures var upto := Highest(acked, p).value + 1;
      && Committed(start, acked)[p] == upto
      && Slot(level, p) in n.logs && upto <= |n.logs[Slot(level, p)]| && ResolvedBelow(n, Slot(level, p), upto)
  {
    HighestIff(start, acked, p);
    AckedResolves(chain, n, level, start, acked, p);
    HighestIsLast(start, acked, p);
    hide Highest, ResolvedBelow, Contiguous, Advance, AllStored, AllResolved;
  }

  /** On a ladder the next rung of a stored record's topic is the next level's topic. */
  lemma NextLevel(chain: seq<string>, n: Net, level: nat, r: Fetched, message: Message)
    requires Ladder(chain) && Inv(chain, n) && IsStored(n, level, r)
    requires GoesOn(chain, r.record.body.topic, message.topic) && message.topic != PARKED && message.topic != DLQ
    ensures level + 1 < |chain| && message.topic == chain[level + 1]
  {
    var i :| 0 <= i < |chain| - 1 && r.record.body.topic == chain[i] && message.topic == chain[i + 1];
    assert n.logs[Slot(level, r.part)][r.offset].body.topic == chain[level];
  }
}
