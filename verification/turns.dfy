/** Runs of the consumer's loop as values, rebalances included: what a turn does, the
    runs that commit past a record nobody handled, and when there are none. */
module Turns {
  import opened Calendar
  import opened Marks
  import opened Network
  import opened Loop

  // ---------------------------------------------------------------- rebalances

  /** A rebalance of this member: the partitions taken from it, and the ones given to
      it, each with the offset its group has committed. */
  datatype Change = Change(taken: set<nat>, given: map<nat, nat>)

  const NO_CHANGE := Change({}, map[])

  /** What is given is not owned already. */
  predicate ChangeOk(rd: Reader, ch: Change) {
    ch.given.Keys !! (rd.position.Keys - ch.taken)
  }

  /** A partition taken is no longer paused or waited on; one given starts where its
      group has committed. */
  function Changed(rd: Reader, ch: Change): Reader {
    Reader(rd.position - ch.taken + ch.given, rd.paused - ch.taken, rd.waiting - ch.taken)
  }

  function ChangedCommits(committed: map<nat, nat>, ch: Change): map<nat, nat> {
    committed - ch.taken + ch.given
  }

  lemma ChangeIsReady(rd: Reader, ch: Change, committed: map<nat, nat>)
    requires Ready(rd, committed) && ChangeOk(rd, ch)
    ensures Ready(Changed(rd, ch), ChangedCommits(committed, ch))
  {
  }

  lemma NothingChanges(rd: Reader, committed: map<nat, nat>)
    ensures Changed(rd, NO_CHANGE) == rd && ChangedCommits(committed, NO_CHANGE) == committed
    ensures ChangeOk(rd, NO_CHANGE)
  {
  }

  // --------------------------------------------------------------------- turns

  /** One turn of Run's loop that does not end it: a rebalance before it looks at its
      clock, another while its poll is out, and the fetch the poll returns. */
  datatype AnyTurn = Turn(before: Change, now: Instant, during: Change, fetch: seq<Fetched>, looks: seq<Look>)

  type Turn = t: AnyTurn | |t.looks| == |t.fetch| witness Turn(NO_CHANGE, 0, NO_CHANGE, [], [])

  function Resumed(rd: Reader, t: Turn): Reader {
    Resume(Changed(rd, t.before), t.now)
  }

  /** The poll has a deadline if anything still waits when it is set. */
  predicate Deadline(rd: Reader, t: Turn) {
    Resumed(rd, t).waiting != map[]
  }

  /** The member when the poll returns. */
  function AtPoll(rd: Reader, t: Turn): Reader {
    Changed(Resumed(rd, t), t.during)
  }

  function CommitsAtPoll(committed: map<nat, nat>, t: Turn): map<nat, nat> {
    ChangedCommits(ChangedCommits(committed, t.before), t.during)
  }

  ghost predicate TurnOk(rd: Reader, t: Turn, delay: int) {
    && ChangeOk(rd, t.before) && ChangeOk(Resumed(rd, t), t.during)
    && PollReturns(AtPoll(rd, t), t.fetch)
    && (!Deadline(rd, t) ==> !Process(delay, t.fetch, t.looks).stopped)
  }

  /** Under a deadline the fetch, whatever it is, is thrown away. */
  function AfterTurn(rd: Reader, t: Turn, delay: int): Reader {
    var polled := AtPoll(rd, t);
    if Deadline(rd, t) then polled.(position := Advance(polled.position, t.fetch))
    else AfterBatch(polled, t.fetch, Process(delay, t.fetch, t.looks), delay)
  }

  function AckedByTurn(rd: Reader, t: Turn, delay: int): seq<Fetched> {
    if Deadline(rd, t) then [] else Process(delay, t.fetch, t.looks).acked
  }

  function CommittedByTurn(rd: Reader, t: Turn, delay: int, committed: map<nat, nat>): map<nat, nat> {
    Committed(CommitsAtPoll(committed, t), AckedByTurn(rd, t, delay))
  }

  lemma NothingCommitted(committed: map<nat, nat>)
    ensures Committed(committed, []) == committed
  {
  }

  lemma AtPollIsReady(rd: Reader, t: Turn, delay: int, committed: map<nat, nat>)
    requires Ready(rd, committed) && TurnOk(rd, t, delay)
    ensures Ready(Changed(rd, t.before), ChangedCommits(committed, t.before))
    ensures Ready(Resumed(rd, t), ChangedCommits(committed, t.before))
    ensures Ready(AtPoll(rd, t), CommitsAtPoll(committed, t))
  {
    hide Ready, Resume, PollReturns, Process;
    ChangeIsReady(rd, t.before, committed);
    ResumeIsReady(Changed(rd, t.before), t.now, ChangedCommits(committed, t.before));
    ChangeIsReady(Resumed(rd, t), t.during, ChangedCommits(committed, t.before));
  }

  /** A turn leaves the loop ready to poll again exactly when it processed its fetch
      or had nothing to throw away. */
  lemma TurnIsReadyIff(rd: Reader, t: Turn, delay: int, committed: map<nat, nat>)
    requires Ready(rd, committed) && TurnOk(rd, t, delay)
    ensures Ready(AfterTurn(rd, t, delay), CommittedByTurn(rd, t, delay, committed))
      <==> !Deadline(rd, t) || t.fetch == []
  {
    hide Process, Committed, Resumed, Ready, Changed, ChangedCommits, PollReturns;
    AtPollIsReady(rd, t, delay, committed);
    if Deadline(rd, t) {
      NothingCommitted(CommitsAtPoll(committed, t));
      DiscardIsReadyIff(AtPoll(rd, t), t.fetch, CommitsAtPoll(committed, t));
    } else {
      BatchIsReady(AtPoll(rd, t), t.fetch, t.looks, delay, CommitsAtPoll(committed, t));
    }
  }

  // ---------------------------------------------------------------------- runs

  /** How a group treats this member: the most partitions it ever owns at once, and
      whether it may be given one while its poll is out under a deadline. */
  datatype Policy = Policy(most: nat, late: bool)

  predicate Obeys(rd: Reader, t: Turn, policy: Policy) {
    && |Changed(rd, t.before).position| <= policy.most
    && |AtPoll(rd, t).position| <= policy.most
    && (Deadline(rd, t) && !policy.late ==> t.during.given == map[])
  }

  /** The member and the commits of what it owns, after some turns. */
  function After(rd: Reader, committed: map<nat, nat>, ts: seq<Turn>, delay: int): (Reader, map<nat, nat>)
    decreases |ts|
  {
    if ts == [] then (rd, committed)
    else After(AfterTurn(rd, ts[0], delay), CommittedByTurn(rd, ts[0], delay, committed), ts[1..], delay)
  }

  /** Every turn of a run is one the client, the group and the clock allow. */
  ghost predicate RunOk(rd: Reader, ts: seq<Turn>, delay: int, policy: Policy)
    decreases |ts|
  {
    ts == [] ||
    (TurnOk(rd, ts[0], delay) && Obeys(rd, ts[0], policy) && RunOk(AfterTurn(rd, ts[0], delay), ts[1..], delay, policy))
  }

  /** Everything a run acknowledged, in order. */
  function AckedIn(rd: Reader, ts: seq<Turn>, delay: int): seq<Fetched>
    decreases |ts|
  {
    if ts == [] then [] else AckedByTurn(rd, ts[0], delay) + AckedIn(AfterTurn(rd, ts[0], delay), ts[1..], delay)
  }

  predicate AcknowledgedBy(acked: seq<Fetched>, part: nat, offset: nat) {
    exists r | r in acked :: r.part == part && r.offset == offset
  }

  /** A run and one turn more. */
  lemma {:induction false} RunSnoc(
      rd: Reader, committed: map<nat, nat>, ts: seq<Turn>, t: Turn, delay: int, policy: Policy)
    requires RunOk(rd, ts, delay, policy)
    requires TurnOk(After(rd, committed, ts, delay).0, t, delay) && Obeys(After(rd, committed, ts, delay).0, t, policy)
    ensures RunOk(rd, ts + [t], delay, policy)
    ensures var (rd', c') := After(rd, committed, ts, delay);
      After(rd, committed, ts + [t], delay) == (AfterTurn(rd', t, delay), CommittedByTurn(rd', t, delay, c'))
    decreases |ts|
  {
    hide TurnOk, Obeys, AfterTurn, CommittedByTurn;
    if ts == [] {
      assert [] + [t] == [t] && [t][1..] == [];
      assert RunOk(AfterTurn(rd, t, delay), [t][1..], delay, policy);
      assert After(AfterTurn(rd, t, delay), CommittedByTurn(rd, t, delay, committed), [t][1..], delay)
        == (AfterTurn(rd, t, delay), CommittedByTurn(rd, t, delay, committed));
    } else {
      assert (ts + [t])[1..] == ts[1..] + [t] && (ts + [t])[0] == ts[0];
      RunSnoc(AfterTurn(rd, ts[0], delay), CommittedByTurn(rd, ts[0], delay, committed), ts[1..], t, delay, policy);
    }
  }

  // ------------------------------------------------------------ the lost record

  /** A record at the fetch position of a partition that is owned and not paused. */
  predicate IsNext(rd: Reader, r: Fetched) {
    r.part in rd.position && r.part !in rd.paused && r.offset == rd.position[r.part]
  }

  function Ripens(r: Fetched, delay: int): Instant {
    r.record.at + delay
  }

  /** The member once a young record holds its partition. */
  function Held(rd: Reader, r: Fetched, delay: int): Reader {
    Reader(rd.position, {r.part}, map[r.part := Ripens(r, delay)])
  }

  /** A turn that fetches one record and would account for it. */
  function Single(before: Change, now: Instant, during: Change, r: Fetched): Turn {
    Turn(before, now, during, [r], [Look(now, true)])
  }

  /** Three turns. A young record holds its partition; under its deadline another
      record is fetched and thrown away, from a partition owned all along or given
      while the poll was out; and once nothing waits the record after it is read. */
  function LosingRun(
      before: Change, young: Fetched, during: Change, lost: Fetched, next: Fetched, delay: int): seq<Turn> {
    [Single(before, Ripens(young, delay) - 1, NO_CHANGE, young),
     Single(NO_CHANGE, Ripens(young, delay) - 1, during, lost),
     Single(NO_CHANGE, Latest(Ripens(young, delay), Ripens(next, delay)), NO_CHANGE, next)]
  }

  function Latest(a: Instant, b: Instant): Instant {
    if a < b then b else a
  }

  /** The member after the discarded fetch. */
  function Skipped(rd: Reader, lost: Fetched): Reader {
    rd.(position := rd.position[lost.part := lost.offset + 1])
  }

  lemma HoldTurn(rd: Reader, committed: map<nat, nat>, before: Change, young: Fetched, delay: int)
    requires delay > 0 && Ready(rd, committed) && ChangeOk(rd, before)
    requires Changed(rd, before).waiting == map[] && IsNext(Changed(rd, before), young)
    ensures var t := Single(before, Ripens(young, delay) - 1, NO_CHANGE, young);
      && TurnOk(rd, t, delay) && !Deadline(rd, t) && AtPoll(rd, t) == Changed(rd, before)
      && AfterTurn(rd, t, delay) == Held(Changed(rd, before), young, delay)
      && AckedByTurn(rd, t, delay) == []
      && CommittedByTurn(rd, t, delay, committed) == ChangedCommits(committed, before)
  {
    var rd1 := Changed(rd, before);
    var now := Ripens(young, delay) - 1;
    ChangeIsReady(rd, before, committed);
    assert Resume(rd1, now) == rd1;
    NothingChanges(rd1, ChangedCommits(committed, before));
    OneRecord(delay, rd1.position, young, Look(now, true));
    NothingCommitted(ChangedCommits(committed, before));
    hide Changed, ChangedCommits, Process, Advance, Contiguous, Committed, Ready;
    var b := Process(delay, [young], [Look(now, true)]);
    assert AfterBatch(rd1, [young], b, delay).position == rd1.position;
  }

  lemma DiscardTurn(
      rd: Reader, committed: map<nat, nat>, p: nat, until: Instant, during: Change, lost: Fetched, delay: int)
    requires rd.paused == {p} && rd.waiting == map[p := until]
    requires ChangeOk(rd, during) && IsNext(Changed(rd, during), lost)
    ensures var t := Single(NO_CHANGE, until - 1, during, lost);
      && TurnOk(rd, t, delay) && Deadline(rd, t) && AtPoll(rd, t) == Changed(rd, during)
      && AfterTurn(rd, t, delay) == Skipped(Changed(rd, during), lost)
      && AckedByTurn(rd, t, delay) == []
      && CommittedByTurn(rd, t, delay, committed) == ChangedCommits(committed, during)
  {
    NothingChanges(rd, committed);
    assert Resume(rd, until - 1) == rd;
    OneRecord(delay, Changed(rd, during).position, lost, Look(until - 1, true));
    NothingCommitted(ChangedCommits(committed, during));
  }

  lemma ReadOnTurn(rd: Reader, committed: map<nat, nat>, now: Instant, next: Fetched, delay: int)
    requires forall p | p in rd.waiting :: rd.waiting[p] <= now
    requires rd.paused <= rd.waiting.Keys && Ripens(next, delay) <= now
    requires next.part in rd.position && next.offset == rd.position[next.part] && next.part in committed
    ensures var t := Single(NO_CHANGE, now, NO_CHANGE, next);
      && TurnOk(rd, t, delay) && !Deadline(rd, t) && AtPoll(rd, t).position == rd.position
      && AckedByTurn(rd, t, delay) == [next]
      && CommittedByTurn(rd, t, delay, committed) == committed[next.part := next.offset + 1]
  {
    NothingChanges(rd, committed);
    assert Resume(rd, now) == Reader(rd.position, {}, map[]);
    hide Resume, Changed, ChangedCommits, ChangeOk, Advance, Contiguous, Process, Committed;
    NothingChanges(Resume(rd, now), committed);
    OneRecord(delay, rd.position, next, Look(now, true));
    CommitsOne(committed, next);
  }

  lemma CommitsOne(committed: map<nat, nat>, r: Fetched)
    requires r.part in committed
    ensures Committed(committed, [r]) == committed[r.part := r.offset + 1]
  {
    OneRecord(0, map[], r, Look(0, true));
  }

  /** A run of three turns, unfolded. */
  lemma ThreeTurns(rd: Reader, committed: map<nat, nat>, a: Turn, b: Turn, c: Turn, delay: int, policy: Policy)
    ensures var rd1, c1 := AfterTurn(rd, a, delay), CommittedByTurn(rd, a, delay, committed);
      var rd2, c2 := AfterTurn(rd1, b, delay), CommittedByTurn(rd1, b, delay, c1);
      && (RunOk(rd, [a, b, c], delay, policy) <==>
            && TurnOk(rd, a, delay) && Obeys(rd, a, policy)
            && TurnOk(rd1, b, delay) && Obeys(rd1, b, policy)
            && TurnOk(rd2, c, delay) && Obeys(rd2, c, policy))
      && (RunOk(rd, [a, b], delay, policy) <==>
            && TurnOk(rd, a, delay) && Obeys(rd, a, policy) && TurnOk(rd1, b, delay) && Obeys(rd1, b, policy))
      && After(rd, committed, [a, b], delay) == (rd2, c2)
      && After(rd, committed, [a, b, c], delay).1 == CommittedByTurn(rd2, c, delay, c2)
      && AckedIn(rd, [a, b, c], delay)
         == AckedByTurn(rd, a, delay) + (AckedByTurn(rd1, b, delay) + (AckedByTurn(rd2, c, delay) + []))
  {
    hide TurnOk, Obeys, AfterTurn, CommittedByTurn, AckedByTurn;
    var none: seq<Turn> := [];
    assert [c][1..] == none && [b][1..] == none && [b, c][1..] == [c] && [a, b, c][1..] == [b, c] && [a, b][1..] == [b];
    var rd1, c1 := AfterTurn(rd, a, delay), CommittedByTurn(rd, a, delay, committed);
    var rd2, c2 := AfterTurn(rd1, b, delay), CommittedByTurn(rd1, b, delay, c1);
    assert RunOk(rd2, [c], delay, policy) <==> TurnOk(rd2, c, delay) && Obeys(rd2, c, policy);
    assert RunOk(rd1, [b], delay, policy) <==> TurnOk(rd1, b, delay) && Obeys(rd1, b, policy);
    assert After(rd2, c2, [c], delay).1 == CommittedByTurn(rd2, c, delay, c2);
    assert After(rd1, c1, [b, c], delay) == After(rd2, c2, [c], delay);
    assert After(rd1, c1, [b], delay) == (rd2, c2);
    assert AckedIn(rd2, [c], delay) == AckedByTurn(rd2, c, delay) + [];
    assert AckedIn(rd1, [b, c], delay) == AckedByTurn(rd1, b, delay) + AckedIn(rd2, [c], delay);
  }

  /** What a losing run needs: a young record next on one partition, and after the
      rebalance under its deadline two records in a row on one that is read. */
  predicate CanLose(
      rd: Reader, before: Change, young: Fetched, during: Change, lost: Fetched, next: Fetched, delay: int)
  {
    && delay > 0 && ChangeOk(rd, before) && Changed(rd, before).waiting == map[] && IsNext(Changed(rd, before), young)
    && var held := Held(Changed(rd, before), young, delay);
      && ChangeOk(held, during) && IsNext(Changed(held, during), lost)
      && next.part == lost.part && next.offset == lost.offset + 1
  }

  predicate LosingObeys(rd: Reader, before: Change, young: Fetched, during: Change, delay: int, policy: Policy) {
    && |Changed(rd, before).position| <= policy.most
    && |Changed(Held(Changed(rd, before), young, delay), during).position| <= policy.most
    && (during.given == map[] || policy.late)
  }

  lemma LosingHold(rd: Reader, committed: map<nat, nat>, before: Change, young: Fetched, delay: int, policy: Policy)
    requires delay > 0 && Ready(rd, committed) && ChangeOk(rd, before)
    requires Changed(rd, before).waiting == map[] && IsNext(Changed(rd, before), young)
    requires |Changed(rd, before).position| <= policy.most
    ensures var t := Single(before, Ripens(young, delay) - 1, NO_CHANGE, young);
      && TurnOk(rd, t, delay) && Obeys(rd, t, policy) && AckedByTurn(rd, t, delay) == []
      && AfterTurn(rd, t, delay) == Held(Changed(rd, before), young, delay)
      && CommittedByTurn(rd, t, delay, committed) == ChangedCommits(committed, before)
  {
    hide Changed, ChangedCommits, ChangeOk, TurnOk, AfterTurn, AckedByTurn, CommittedByTurn, AtPoll, Deadline, IsNext;
    HoldTurn(rd, committed, before, young, delay);
  }

  lemma LosingDiscard(held: Reader, committed: map<nat, nat>, p: nat, until: Instant, during: Change, lost: Fetched,
                      delay: int, policy: Policy)
    requires held.paused == {p} && held.waiting == map[p := until] && |held.position| <= policy.most
    requires ChangeOk(held, during) && IsNext(Changed(held, during), lost)
    requires |Changed(held, during).position| <= policy.most && (during.given == map[] || policy.late)
    ensures var t := Single(NO_CHANGE, until - 1, during, lost);
      && TurnOk(held, t, delay) && Obeys(held, t, policy) && AckedByTurn(held, t, delay) == []
      && AfterTurn(held, t, delay) == Skipped(Changed(held, during), lost)
      && CommittedByTurn(held, t, delay, committed) == ChangedCommits(committed, during)
  {
    hide Changed, ChangedCommits, ChangeOk, TurnOk, AfterTurn, AckedByTurn, CommittedByTurn, AtPoll, Deadline, IsNext;
    NothingChanges(held, committed);
    DiscardTurn(held, committed, p, until, during, lost, delay);
  }

  lemma LosingRead(rd: Reader, committed: map<nat, nat>, now: Instant, next: Fetched, delay: int, policy: Policy)
    requires forall p | p in rd.waiting :: rd.waiting[p] <= now
    requires rd.paused <= rd.waiting.Keys && Ripens(next, delay) <= now && |rd.position| <= policy.most
    requires next.part in rd.position && next.offset == rd.position[next.part] && next.part in committed
    ensures var t := Single(NO_CHANGE, now, NO_CHANGE, next);
      && TurnOk(rd, t, delay) && Obeys(rd, t, policy) && AckedByTurn(rd, t, delay) == [next]
      && CommittedByTurn(rd, t, delay, committed) == committed[next.part := next.offset + 1]
  {
    hide Changed, ChangedCommits, ChangeOk, TurnOk, AfterTurn, AckedByTurn, CommittedByTurn, AtPoll, Deadline;
    NothingChanges(rd, committed);
    ReadOnTurn(rd, committed, now, next, delay);
  }

  /** After the discard: what was read on is next, nothing waits past the young record,
      and the position is one past the commit. */
  lemma AfterDiscard(rd1: Reader, c1: map<nat, nat>, young: Fetched, during: Change, lost: Fetched, delay: int)
    requires Ready(Held(rd1, young, delay), c1) && ChangeOk(Held(rd1, young, delay), during)
    requires IsNext(Changed(Held(rd1, young, delay), during), lost)
    ensures var rd2 := Skipped(Changed(Held(rd1, young, delay), during), lost);
      && (forall p | p in rd2.waiting :: rd2.waiting[p] <= Ripens(young, delay))
      && rd2.paused <= rd2.waiting.Keys && lost.part in rd2.position && rd2.position[lost.part] == lost.offset + 1
      && |rd2.position| == |Changed(Held(rd1, young, delay), during).position|
      && lost.part in ChangedCommits(c1, during) && ChangedCommits(c1, during)[lost.part] == lost.offset
      && !Ready(rd2, ChangedCommits(c1, during))
  {
    var polled := Changed(Held(rd1, young, delay), during);
    ChangeIsReady(Held(rd1, young, delay), during, c1);
    assert Skipped(polled, lost).position.Keys == polled.position.Keys;
    assert |polled.position.Keys| == |polled.position|;
    assert |Skipped(polled, lost).position.Keys| == |Skipped(polled, lost).position|;
  }

  /** Every such run is one the loop can make; it leaves the position past the commit
      after two turns; and after three it has committed past a record that no turn
      acknowledged. */
  lemma DiscardLosesARecord(
      rd: Reader, committed: map<nat, nat>, before: Change, young: Fetched, during: Change, lost: Fetched,
      next: Fetched, delay: int, policy: Policy)
    requires Ready(rd, committed) && CanLose(rd, before, young, during, lost, next, delay)
    requires LosingObeys(rd, before, young, during, delay, policy)
    ensures var ts := LosingRun(before, young, during, lost, next, delay);
      var owned := ChangedCommits(ChangedCommits(committed, before), during);
      && RunOk(rd, ts, delay, policy) && RunOk(rd, [ts[0], ts[1]], delay, policy)
      && lost.part in owned && owned[lost.part] == lost.offset
      && !Ready(After(rd, committed, [ts[0], ts[1]], delay).0, After(rd, committed, [ts[0], ts[1]], delay).1)
      && After(rd, committed, ts, delay).1 == owned[lost.part := lost.offset + 2]
      && !AcknowledgedBy(AckedIn(rd, ts, delay), lost.part, lost.offset)
  {
    hide Changed, ChangedCommits, ChangeOk, TurnOk, Obeys, AfterTurn, AckedByTurn, CommittedByTurn;
    hide Ready, Skipped, RunOk, After, AckedIn;
    var rd1, c1 := Changed(rd, before), ChangedCommits(committed, before);
    var held, c2 := Held(rd1, young, delay), ChangedCommits(c1, during);
    var ts := LosingRun(before, young, during, lost, next, delay);
    HeldIsReady(rd, committed, before, young, delay);
    LosingHold(rd, committed, before, young, delay, policy);
    LosingDiscard(held, c1, young.part, Ripens(young, delay), during, lost, delay, policy);
    AfterDiscard(rd1, c1, young, during, lost, delay);
    var rd2 := Skipped(Changed(held, during), lost);
    LosingRead(rd2, c2, Latest(Ripens(young, delay), Ripens(next, delay)), next, delay, policy);
    ThreeTurns(rd, committed, ts[0], ts[1], ts[2], delay, policy);
    assert ts == [ts[0], ts[1], ts[2]];
    assert AckedIn(rd, ts, delay) == [next];
  }

  lemma HeldIsReady(rd: Reader, committed: map<nat, nat>, before: Change, young: Fetched, delay: int)
    requires Ready(rd, committed) && ChangeOk(rd, before) && IsNext(Changed(rd, before), young)
    ensures Ready(Held(Changed(rd, before), young, delay), ChangedCommits(committed, before))
  {
    ChangeIsReady(rd, before, committed);
  }

  /** For every delay and every member that owns two partitions for good, whatever the
      records: one young on a partition, and two in a row on another. */
  lemma TwoPartitionsLoseARecord(
      rd: Reader, committed: map<nat, nat>, young: Fetched, lost: Fetched, next: Fetched, delay: int)
    requires delay > 0 && Ready(rd, committed) && rd.waiting == map[]
    requires IsNext(rd, young) && IsNext(rd, lost) && young.part != lost.part
    requires next.part == lost.part && next.offset == lost.offset + 1
    ensures var ts := LosingRun(NO_CHANGE, young, NO_CHANGE, lost, next, delay);
      && RunOk(rd, ts, delay, Policy(|rd.position|, false))
      && After(rd, committed, ts, delay).1 == committed[lost.part := committed[lost.part] + 2]
      && !AcknowledgedBy(AckedIn(rd, ts, delay), lost.part, committed[lost.part])
  {
    hide Changed, ChangedCommits, ChangeOk, RunOk, After, AckedIn;
    NothingChanges(rd, committed);
    NothingChanges(Held(rd, young, delay), committed);
    DiscardLosesARecord(rd, committed, NO_CHANGE, young, NO_CHANGE, lost, next, delay, Policy(|rd.position|, false));
  }

  /** For every delay and every member of one partition, if that is taken from it and
      one is given to it, the same one or another, while its poll is out under the
      deadline: whatever the records and wherever the group has committed. */
  lemma HandoverLosesARecord(
      rd: Reader, committed: map<nat, nat>, young: Fetched, lost: Fetched, next: Fetched, delay: int)
    requires delay > 0 && Ready(rd, committed) && rd.waiting == map[]
    requires rd.position == map[young.part := young.offset]
    requires next.part == lost.part && next.offset == lost.offset + 1
    ensures var during := Change({young.part}, map[lost.part := lost.offset]);
      var ts := LosingRun(NO_CHANGE, young, during, lost, next, delay);
      && RunOk(rd, ts, delay, Policy(1, true))
      && After(rd, committed, ts, delay).1 == map[lost.part := lost.offset + 2]
      && !AcknowledgedBy(AckedIn(rd, ts, delay), lost.part, lost.offset)
  {
    hide RunOk, After, AckedIn, Changed, ChangedCommits, ChangeOk, LosingRun;
    var during := Change({young.part}, map[lost.part := lost.offset]);
    NothingChanges(rd, committed);
    Handover(rd, committed, young, lost, delay);
    assert CanLose(rd, NO_CHANGE, young, during, lost, next, delay);
    DiscardLosesARecord(rd, committed, NO_CHANGE, young, during, lost, next, delay, Policy(1, true));
  }

  lemma Handover(rd: Reader, committed: map<nat, nat>, young: Fetched, lost: Fetched, delay: int)
    requires rd.position == map[young.part := young.offset] == committed
    ensures var during := Change({young.part}, map[lost.part := lost.offset]);
      && ChangeOk(Held(rd, young, delay), during)
      && Changed(Held(rd, young, delay), during) == Reader(map[lost.part := lost.offset], {}, map[])
      && ChangedCommits(committed, during) == map[lost.part := lost.offset]
      && |rd.position| == |map[lost.part := lost.offset]| == 1
  {
    var p, given := young.part, map[lost.part := lost.offset];
    TakeAndGive(rd.position, p, given);
    Takes(p, Ripens(young, delay));
    SizeOfOne(rd.position, p);
    SizeOfOne(given, lost.part);
    assert rd.position.Keys - {p} == {};
  }

  lemma TakeAndGive(m: map<nat, nat>, p: nat, given: map<nat, nat>)
    requires m.Keys == {p}
    ensures m - {p} + given == given
  {
  }

  lemma Takes(p: nat, at: Instant)
    ensures map[p := at] - {p} == map[] && {p} - {p} == {}
  {
  }

  lemma SizeOfOne(m: map<nat, nat>, p: nat)
    requires m.Keys == {p}
    ensures |m| == 1
  {
    assert |m.Keys| == |m|;
  }

  // --------------------------------------------- when the loop is safe, exactly

  /** No delay; or a member that never owns two partitions, and is given none while its
      poll is out under a deadline. */
  predicate Safe(delay: int, policy: Policy) {
    delay <= 0 || policy.most == 0 || (policy.most == 1 && !policy.late)
  }

  /** What a member keeps under a policy: no wait without a delay, and no more
      partitions than it may own. */
  predicate Within(rd: Reader, delay: int, policy: Policy) {
    (delay <= 0 ==> rd.waiting == map[]) && |rd.position| <= policy.most
  }

  /** A turn fetches and handles, but owns what it owned when its poll returned. */
  lemma SameOwned(rd: Reader, t: Turn, delay: int)
    requires TurnOk(rd, t, delay)
    ensures AfterTurn(rd, t, delay).position.Keys == AtPoll(rd, t).position.Keys
    ensures |AfterTurn(rd, t, delay).position| == |AtPoll(rd, t).position|
  {
    hide Process, AtPoll, Deadline;
    var polled := AtPoll(rd, t);
    AdvanceKeys(polled.position, t.fetch);
    AckedIsContiguous(delay, polled.position, t.fetch, t.looks);
    hide Contiguous, Advance;
    assert AfterTurn(rd, t, delay).position.Keys == polled.position.Keys;
    assert |polled.position.Keys| == |polled.position|;
    assert |AfterTurn(rd, t, delay).position.Keys| == |AfterTurn(rd, t, delay).position|;
  }

  lemma NoDelayNoDeadline(rd: Reader, t: Turn, delay: int)
    requires rd.waiting == map[]
    ensures !Deadline(rd, t)
    ensures delay <= 0 ==> AfterTurn(rd, t, delay).waiting == map[]
  {
    if delay <= 0 {
      NothingHeld(delay, t.fetch, t.looks);
    }
    hide Process, Advance;
  }

  /** Under a safe policy a deadline only ever bounds a poll that fetches nothing: what
      is owned is what waits, and nothing joins it. */
  lemma NothingToDiscard(rd: Reader, t: Turn, delay: int, committed: map<nat, nat>, policy: Policy)
    requires Ready(rd, committed) && delay > 0 && Deadline(rd, t)
    requires TurnOk(rd, t, delay) && Obeys(rd, t, policy) && Safe(delay, policy)
    ensures t.fetch == []
  {
    hide Process, Contiguous, Advance;
    AtPollIsReady(rd, t, delay, committed);
    OneWaits(Resumed(rd, t));
    NothingFetched(AtPoll(rd, t), t.fetch);
  }

  lemma SafeTurn(rd: Reader, t: Turn, delay: int, committed: map<nat, nat>, policy: Policy)
    requires Ready(rd, committed) && Within(rd, delay, policy)
    requires TurnOk(rd, t, delay) && Obeys(rd, t, policy) && Safe(delay, policy)
    ensures Ready(AfterTurn(rd, t, delay), CommittedByTurn(rd, t, delay, committed))
    ensures Within(AfterTurn(rd, t, delay), delay, policy)
  {
    hide TurnOk, AfterTurn, CommittedByTurn, Deadline, Ready, AtPoll, Changed;
    SameOwned(rd, t, delay);
    TurnIsReadyIff(rd, t, delay, committed);
    if delay <= 0 {
      NoDelayNoDeadline(rd, t, delay);
    } else if Deadline(rd, t) {
      NothingToDiscard(rd, t, delay, committed, policy);
    }
  }

  lemma {:induction false} SafeRunsStayReady(
      rd: Reader, committed: map<nat, nat>, ts: seq<Turn>, delay: int, policy: Policy)
    requires Ready(rd, committed) && Within(rd, delay, policy)
    requires RunOk(rd, ts, delay, policy) && Safe(delay, policy)
    ensures Ready(After(rd, committed, ts, delay).0, After(rd, committed, ts, delay).1)
    decreases |ts|
  {
    hide TurnOk, Obeys, AfterTurn, CommittedByTurn, Ready, Within, Safe;
    if ts != [] {
      SafeTurn(rd, ts[0], delay, committed, policy);
      var rd', committed' := AfterTurn(rd, ts[0], delay), CommittedByTurn(rd, ts[0], delay, committed);
      SafeRunsStayReady(rd', committed', ts[1..], delay, policy);
    }
  }

  // ------------------------------------------------- what a partition is handled in

  /** Offsets one after another. */
  ghost predicate Consecutive(start: nat, f: seq<Fetched>) {
    forall i | 0 <= i < |f| :: f[i].offset == start + i
  }

  lemma {:induction false} OfContiguous(start: map<nat, nat>, f: seq<Fetched>, p: nat)
    requires Contiguous(start, f) && p in start
    ensures Consecutive(start[p], Of(f, p))
    ensures p in Advance(start, f) && Advance(start, f)[p] == start[p] + |Of(f, p)|
  {
    if f != [] {
      OfContiguous(start, f[..|f| - 1], p);
    }
  }

  lemma {:induction false} OfConcat(f: seq<Fetched>, g: seq<Fetched>, p: nat)
    ensures Of(f + g, p) == Of(f, p) + Of(g, p)
  {
    if g == [] {
      assert f + g == f;
    } else {
      var last := |g| - 1;
      OfConcat(f, g[..last], p);
      assert (f + g)[..|f + g| - 1] == f + g[..last];
    }
  }

  lemma TurnHandles(rd: Reader, committed: map<nat, nat>, t: Turn, delay: int, p: nat)
    requires Ready(rd, committed) && TurnOk(rd, t, delay)
    requires p in committed && p !in t.before.taken && p !in t.during.taken
    ensures Consecutive(committed[p], Of(AckedByTurn(rd, t, delay), p))
    ensures var after := CommittedByTurn(rd, t, delay, committed);
      p in after && after[p] == committed[p] + |Of(AckedByTurn(rd, t, delay), p)|
  {
    var start := CommitsAtPoll(committed, t);
    assert p in start && start[p] == committed[p];
    AtPollIsReady(rd, t, delay, committed);
    if Deadline(rd, t) {
      NothingCommitted(start);
    } else {
      AckedIsContiguous(delay, start, t.fetch, t.looks);
      CommitLandsAtPosition(start, AckedByTurn(rd, t, delay));
      OfContiguous(start, AckedByTurn(rd, t, delay), p);
    }
    hide *;
  }

  ghost predicate Keeps(ts: seq<Turn>, p: nat) {
    forall t | t in ts :: p !in t.before.taken && p !in t.during.taken
  }

  /** Over every safe run, the records handled on a partition that is not taken away
      are consecutive from where its group had committed, whatever happens to the
      others, and the group has committed up to the last of them. */
  lemma {:induction false} HandledAreConsecutive(
      rd: Reader, committed: map<nat, nat>, ts: seq<Turn>, delay: int, policy: Policy, p: nat)
    requires Ready(rd, committed) && Within(rd, delay, policy)
    requires RunOk(rd, ts, delay, policy) && Safe(delay, policy) && p in committed && Keeps(ts, p)
    ensures Consecutive(committed[p], Of(AckedIn(rd, ts, delay), p))
    ensures var after := After(rd, committed, ts, delay).1;
      p in after && after[p] == committed[p] + |Of(AckedIn(rd, ts, delay), p)|
    decreases |ts|
  {
    hide TurnOk, Obeys, AfterTurn, AckedByTurn, CommittedByTurn, Ready, Within, Safe, Of;
    if ts != [] {
      assert ts[0] in ts;
      SafeTurn(rd, ts[0], delay, committed, policy);
      TurnHandles(rd, committed, ts[0], delay, p);
      var rd', committed' := AfterTurn(rd, ts[0], delay), CommittedByTurn(rd, ts[0], delay, committed);
      HandledAreConsecutive(rd', committed', ts[1..], delay, policy, p);
      OfConcat(AckedByTurn(rd, ts[0], delay), AckedIn(rd', ts[1..], delay), p);
    } else {
      NothingOf(p);
    }
  }

  lemma NothingOf(p: nat)
    ensures Of([], p) == []
  {
  }

  // ---------------------------------------------------------------- exactly when

  /** Every run from here is ready to poll again whenever it does. */
  ghost predicate AlwaysReady(rd: Reader, committed: map<nat, nat>, delay: int, policy: Policy) {
    forall ts: seq<Turn> | RunOk(rd, ts, delay, policy) ::
      Ready(After(rd, committed, ts, delay).0, After(rd, committed, ts, delay).1)
  }

  /** A record of no interest, at a place of the log and of an age. */
  function Blank(part: nat, offset: nat, at: Instant): Fetched {
    Fetched(part, offset, Stored(0, at, Message("", "", "", [])))
  }

  /** The loop's promise, that each poll starts where the group has committed and
      nothing is skipped, holds over every run with any rebalances, exactly when there
      is no delay, or the member never owns two partitions and is given none while its
      poll is out under a deadline. */
  lemma LoopIsSafeIff(rd: Reader, committed: map<nat, nat>, delay: int, policy: Policy)
    requires Ready(rd, committed) && rd.waiting == map[] && |rd.position| <= policy.most
    ensures AlwaysReady(rd, committed, delay, policy)
      <==> delay <= 0 || policy.most == 0 || (policy.most == 1 && !policy.late)
  {
    hide RunOk, After, Ready;
    if Safe(delay, policy) {
      forall ts: seq<Turn> | RunOk(rd, ts, delay, policy)
        ensures Ready(After(rd, committed, ts, delay).0, After(rd, committed, ts, delay).1)
      {
        SafeRunsStayReady(rd, committed, ts, delay, policy);
      }
    } else if policy.most >= 2 {
      UnsafeWithTwo(rd, committed, delay, policy);
    } else {
      UnsafeWhenLate(rd, committed, delay, policy);
    }
  }

  /** A losing run under a policy leaves the loop unready after two turns. */
  lemma LosingIsUnready(
      rd: Reader, committed: map<nat, nat>, before: Change, young: Fetched, during: Change, lost: Fetched,
      next: Fetched, delay: int, policy: Policy)
    requires Ready(rd, committed) && CanLose(rd, before, young, during, lost, next, delay)
    requires LosingObeys(rd, before, young, during, delay, policy)
    ensures !AlwaysReady(rd, committed, delay, policy)
  {
    hide CanLose, LosingObeys, RunOk, After, AckedIn, Ready, ChangedCommits;
    DiscardLosesARecord(rd, committed, before, young, during, lost, next, delay, policy);
    var ts := LosingRun(before, young, during, lost, next, delay);
    var two: seq<Turn> := [ts[0], ts[1]];
    var after := After(rd, committed, two, delay);
    assert RunOk(rd, two, delay, policy) && !Ready(after.0, after.1);
  }

  /** Give such a member two partitions, and the losing run begins. */
  lemma UnsafeWithTwo(rd: Reader, committed: map<nat, nat>, delay: int, policy: Policy)
    requires Ready(rd, committed) && rd.waiting == map[] && delay > 0 && policy.most >= 2
    ensures !AlwaysReady(rd, committed, delay, policy)
  {
    hide AlwaysReady, Changed, ChangeOk;
    var before := Change(rd.position.Keys, map[0 := 0, 1 := 0]);
    var young := Blank(0, 0, 0);
    GivenTwo(rd);
    SizeOfTwo(Changed(rd, before).position);
    NothingChanges(Held(Changed(rd, before), young, delay), committed);
    assert CanLose(rd, before, young, NO_CHANGE, Blank(1, 0, 0), Blank(1, 1, 0), delay);
    LosingIsUnready(rd, committed, before, young, NO_CHANGE, Blank(1, 0, 0), Blank(1, 1, 0), delay, policy);
  }

  lemma GivenTwo(rd: Reader)
    requires rd.waiting == map[] && rd.paused == {}
    ensures var before := Change(rd.position.Keys, map[0 := 0, 1 := 0]);
      && ChangeOk(rd, before)
      && Changed(rd, before) == Reader(map[0 := 0, 1 := 0], {}, map[])
      && Changed(rd, before).position.Keys == {0, 1}
  {
  }

  lemma SizeOfTwo(m: map<nat, nat>)
    requires m.Keys == {0, 1}
    ensures |m| == 2
  {
    assert |m.Keys| == |m|;
  }

  /** Give such a member one partition, and take it and give it again under its own
      deadline. */
  lemma UnsafeWhenLate(rd: Reader, committed: map<nat, nat>, delay: int, policy: Policy)
    requires Ready(rd, committed) && rd.waiting == map[] && delay > 0 && policy.most == 1 && policy.late
    ensures !AlwaysReady(rd, committed, delay, policy)
  {
    hide AlwaysReady, Changed, ChangeOk, ChangedCommits;
    var before, during := Change(rd.position.Keys, map[0 := 0]), Change({0}, map[0 := 0]);
    var young := Blank(0, 0, 0);
    GivenOne(rd);
    Handover(Changed(rd, before), map[0 := 0], young, young, delay);
    assert CanLose(rd, before, young, during, young, Blank(0, 1, 0), delay);
    LosingIsUnready(rd, committed, before, young, during, young, Blank(0, 1, 0), delay, policy);
  }

  lemma GivenOne(rd: Reader)
    requires rd.waiting == map[] && rd.paused == {}
    ensures var before := Change(rd.position.Keys, map[0 := 0]);
      ChangeOk(rd, before) && Changed(rd, before) == Reader(map[0 := 0], {}, map[])
  {
  }
}
