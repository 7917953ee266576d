/** The consumer's loop as values: what a poll returns, what process acknowledges,
    what a commit commits, and when the loop may poll again without a gap. */
module Loop {
  import opened Wrappers
  import opened Calendar
  import opened Network

  /** A record as a poll returned it. */
  datatype Fetched = Fetched(part: nat, offset: nat, record: Stored)

  /** The fetch position of each owned partition after these records. */
  function Advance(start: map<nat, nat>, f: seq<Fetched>): (end: map<nat, nat>) {
    if f == [] then start
    else Advance(start, f[..|f| - 1])[f[|f| - 1].part := f[|f| - 1].offset + 1]
  }

  /** Per partition, a contiguous run from the start. Partitions interleave freely. */
  ghost predicate Contiguous(start: map<nat, nat>, f: seq<Fetched>) {
    f == [] ||
    (var last := |f| - 1;
     && Contiguous(start, f[..last])
     && f[last].part in start && f[last].part in Advance(start, f[..last])
     && f[last].offset == Advance(start, f[..last])[f[last].part])
  }

  lemma {:induction false} AdvanceKeys(start: map<nat, nat>, f: seq<Fetched>)
    requires Contiguous(start, f)
    ensures Advance(start, f).Keys == start.Keys
    ensures forall p | p in start :: start[p] <= Advance(start, f)[p]
  {
    if f != [] {
      AdvanceKeys(start, f[..|f| - 1]);
    }
  }

  lemma Snoc(f: seq<Fetched>, r: Fetched)
    ensures (f + [r])[..|f + [r]| - 1] == f
  {
  }

  /** One partition's records, in order. */
  function Of(f: seq<Fetched>, p: nat): seq<Fetched> {
    if f == [] then []
    else Of(f[..|f| - 1], p) + (if f[|f| - 1].part == p then [f[|f| - 1]] else [])
  }

  // ------------------------------------------------------------------ process

  /** What the loop saw when it came to a record: its clock, and whether the handler
      or the sink accounted for it. */
  datatype Look = Look(now: Instant, accounted: bool)

  predicate Ripe(delay: int, r: Stored, now: Instant) {
    delay <= 0 || r.at + delay <= now
  }

  /** What process makes of a fetch: the acknowledged records, the record each held
      partition is held at, and whether it stopped. */
  datatype Batch = Batch(acked: seq<Fetched>, held: map<nat, Fetched>, stopped: bool)

  function Process(delay: int, f: seq<Fetched>, looks: seq<Look>): Batch
    requires |looks| == |f|
  {
    if f == [] then Batch([], map[], false)
    else
      var last := |f| - 1;
      Step(delay, Process(delay, f[..last], looks[..last]), f[last], looks[last])
  }

  /** One record further. */
  function Step(delay: int, b: Batch, r: Fetched, look: Look): Batch {
    if b.stopped || r.part in b.held then b
    else if !Ripe(delay, r.record, look.now) then b.(held := b.held[r.part := r])
    else if !look.accounted then b.(stopped := true)
    else b.(acked := b.acked + [r])
  }

  lemma ProcessNothing(delay: int, f: seq<Fetched>)
    ensures Process(delay, f[..0], []) == Batch([], map[], false)
  {
  }

  lemma ProcessStep(delay: int, f: seq<Fetched>, looks: seq<Look>, i: nat, look: Look)
    requires i < |f| && |looks| == i
    ensures Process(delay, f[..i + 1], looks + [look]) == Step(delay, Process(delay, f[..i], looks), f[i], look)
  {
    assert f[..i + 1][..i] == f[..i] && (looks + [look])[..i] == looks;
  }

  /** Once it stopped, what the rest of the fetch looked like is nobody's business. */
  lemma {:induction false} StoppedStays(delay: int, f: seq<Fetched>, looks: seq<Look>, i: nat)
    requires |looks| == |f| && i <= |f|
    requires Process(delay, f[..i], looks[..i]).stopped || i == |f|
    ensures Process(delay, f, looks) == Process(delay, f[..i], looks[..i])
    decreases |f| - i
  {
    if i == |f| {
      assert f[..i] == f && looks[..i] == looks;
    } else {
      assert looks[..i + 1] == looks[..i] + [looks[i]];
      ProcessStep(delay, f, looks[..i], i, looks[i]);
      StoppedStays(delay, f, looks, i + 1);
    }
  }

  /** A batch that stopped came to a ripe record that was not accounted for, behind no
      hold of its partition; each partition it holds, it holds at an unripe one. */
  lemma {:induction false} StopsAndHolds(delay: int, f: seq<Fetched>, looks: seq<Look>)
    requires |looks| == |f|
    ensures var b := Process(delay, f, looks);
      b.stopped ==>
        exists k :: 0 <= k < |f| && f[k].part !in b.held && !looks[k].accounted &&
          (delay <= 0 || f[k].record.at + delay <= looks[k].now)
    ensures var b := Process(delay, f, looks);
      forall p | p in b.held ::
        b.held[p].part == p && delay > 0 &&
        exists k :: 0 <= k < |f| && f[k] == b.held[p] && looks[k].now < f[k].record.at + delay
  {
    if f != [] {
      var last := |f| - 1;
      StopsAndHolds(delay, f[..last], looks[..last]);
      var a, b := Process(delay, f[..last], looks[..last]), Process(delay, f, looks);
      assert forall k | 0 <= k < last :: f[..last][k] == f[k] && looks[..last][k] == looks[k];
      hide Process;
      if b.stopped && !a.stopped {
        assert f[last].part !in b.held;
      }
      forall p | p in b.held
        ensures b.held[p].part == p && delay > 0
        ensures exists k :: 0 <= k < |f| && f[k] == b.held[p] && looks[k].now < f[k].record.at + delay
      {
        if p !in a.held {
          assert f[last] == b.held[p];
        }
      }
    }
  }

  /** And it stops and holds whenever it has to: a batch that did not stop accounted for
      each record that was ripe and on a partition it does not hold, and a partition it
      neither held nor stopped before had nothing unripe. */
  lemma {:induction false} StopsWhenItMust(delay: int, f: seq<Fetched>, looks: seq<Look>, k: nat)
    requires |looks| == |f| && k < |f|
    ensures var b := Process(delay, f, looks);
      !b.stopped && f[k].part !in b.held ==>
        looks[k].accounted && (delay <= 0 || f[k].record.at + delay <= looks[k].now)
  {
    var last := |f| - 1;
    if k < last {
      StopsWhenItMust(delay, f[..last], looks[..last], k);
    }
  }

  /** Where each partition stands: acknowledged up to the position, or held there. */
  ghost predicate Standing(b: Batch, start: map<nat, nat>, end: map<nat, nat>) {
    && Contiguous(start, b.acked)
    && b.held.Keys <= start.Keys
    && (forall p | p in b.held ::
          p in Advance(start, b.acked) && Advance(start, b.acked)[p] == b.held[p].offset && b.held[p].part == p)
    && (!b.stopped ==> forall p | p in start && p !in b.held ::
          p in Advance(start, b.acked) && p in end && Advance(start, b.acked)[p] == end[p])
  }

  lemma StandingStep(delay: int, b: Batch, start: map<nat, nat>, end: map<nat, nat>, r: Fetched, look: Look)
    requires Standing(b, start, end) && end.Keys == start.Keys && r.part in start && r.offset == end[r.part]
    ensures Standing(Step(delay, b, r, look), start, end[r.part := r.offset + 1])
  {
    hide Contiguous, Ripe;
    AdvanceKeys(start, b.acked);
    if !b.stopped && r.part !in b.held && Ripe(delay, r.record, look.now) && look.accounted {
      ContiguousSnoc(start, b.acked, r);
    }
  }

  lemma ContiguousSnoc(start: map<nat, nat>, f: seq<Fetched>, r: Fetched)
    requires Contiguous(start, f) && r.part in start
    requires r.part in Advance(start, f) && r.offset == Advance(start, f)[r.part]
    ensures Contiguous(start, f + [r]) && Advance(start, f + [r]) == Advance(start, f)[r.part := r.offset + 1]
  {
    Snoc(f, r);
  }

  /** After any batch each partition stands somewhere: acknowledged up to there, and
      where it is held, held exactly there. */
  lemma {:induction false} AckedIsContiguous(delay: int, start: map<nat, nat>, f: seq<Fetched>, looks: seq<Look>)
    requires |looks| == |f| && Contiguous(start, f)
    ensures Standing(Process(delay, f, looks), start, Advance(start, f))
  {
    if f != [] {
      hide Standing, Step;
      var last := |f| - 1;
      AckedIsContiguous(delay, start, f[..last], looks[..last]);
      AdvanceKeys(start, f[..last]);
      var b := Process(delay, f[..last], looks[..last]);
      StandingStep(delay, b, start, Advance(start, f[..last]), f[last], looks[last]);
    } else {
      hide Step;
    }
  }

  /** The record was fetched, was ripe when the loop came to it, and was accounted for. */
  ghost predicate Seen(delay: int, f: seq<Fetched>, looks: seq<Look>, r: Fetched)
    requires |looks| == |f|
  {
    exists k :: 0 <= k < |f| && f[k] == r && looks[k].accounted && Ripe(delay, r.record, looks[k].now)
  }

  lemma {:induction false} AckedWasSeen(delay: int, f: seq<Fetched>, looks: seq<Look>, r: Fetched)
    requires |looks| == |f| && r in Process(delay, f, looks).acked
    ensures Seen(delay, f, looks, r)
  {
    if f != [] {
      var last := |f| - 1;
      if r in Process(delay, f[..last], looks[..last]).acked {
        AckedWasSeen(delay, f[..last], looks[..last], r);
        var k :|
          && 0 <= k < last && f[..last][k] == r
          && looks[..last][k].accounted && Ripe(delay, r.record, looks[..last][k].now);
        assert f[k] == r && looks[k].accounted;
      } else {
        assert f[last] == r;
      }
    }
  }

  /** Acknowledged so far of one partition, against what was fetched of it. */
  ghost predicate GapFree(b: Batch, acked: seq<Fetched>, fetched: seq<Fetched>, p: nat) {
    acked <= fetched && (!b.stopped && p !in b.held ==> acked == fetched)
  }

  lemma GapFreeStep(delay: int, b: Batch, r: Fetched, look: Look, fetched: seq<Fetched>, p: nat)
    requires GapFree(b, Of(b.acked, p), fetched, p)
    ensures var after := Step(delay, b, r, look);
      GapFree(after, Of(after.acked, p), fetched + (if r.part == p then [r] else []), p)
  {
    Snoc(b.acked, r);
    hide Ripe;
  }

  /** The acknowledged records of each partition are a prefix of what was fetched of
      it: all of it, unless the partition was held or the batch stopped. Every one
      of them was ripe and accounted for. So the highest offset acknowledged never
      passes a record nobody accounted for. */
  lemma {:induction false} AckedIsGapFree(delay: int, f: seq<Fetched>, looks: seq<Look>, p: nat)
    requires |looks| == |f|
    ensures GapFree(Process(delay, f, looks), Of(Process(delay, f, looks).acked, p), Of(f, p), p)
    ensures forall r | r in Process(delay, f, looks).acked :: Seen(delay, f, looks, r)
  {
    forall r | r in Process(delay, f, looks).acked ensures Seen(delay, f, looks, r) {
      AckedWasSeen(delay, f, looks, r);
    }
    if f != [] {
      hide Seen, Step, GapFree;
      var last := |f| - 1;
      AckedIsGapFree(delay, f[..last], looks[..last], p);
      GapFreeStep(delay, Process(delay, f[..last], looks[..last]), f[last], looks[last], Of(f[..last], p), p);
    }
  }

  // ------------------------------------------------------------------- commit

  /** The highest offset given for a partition. */
  function Highest(f: seq<Fetched>, p: nat): Option<nat> {
    if f == [] then None
    else
      var h := Highest(f[..|f| - 1], p);
      var r := f[|f| - 1];
      if r.part != p then h
      else if h.Some? && r.offset < h.value then h
      else Some(r.offset)
  }

  /** CommitRecords: the highest given offset plus one, for each partition given. */
  function Committed(committed: map<nat, nat>, acked: seq<Fetched>): map<nat, nat> {
    map p | p in committed :: if Highest(acked, p).Some? then Highest(acked, p).value + 1 else committed[p]
  }

  lemma {:induction false} HighestIsLast(start: map<nat, nat>, f: seq<Fetched>, p: nat)
    requires Contiguous(start, f) && p in start
    ensures p in Advance(start, f)
    ensures Advance(start, f)[p] == (if Highest(f, p).Some? then Highest(f, p).value + 1 else start[p])
  {
    if f != [] {
      HighestIsLast(start, f[..|f| - 1], p);
      AdvanceKeys(start, f[..|f| - 1]);
    }
  }

  /** Committing a gap-free acknowledgement lands where the fetch would resume. */
  lemma CommitLandsAtPosition(start: map<nat, nat>, acked: seq<Fetched>)
    requires Contiguous(start, acked)
    ensures Committed(start, acked) == Advance(start, acked)
  {
    AdvanceKeys(start, acked);
    forall p | p in start ensures Committed(start, acked)[p] == Advance(start, acked)[p] {
      HighestIsLast(start, acked, p);
    }
  }

  // ------------------------------------------------------------------ the loop

  /** A group member: the client's positions and pauses, and the waiting map. */
  datatype Reader = Reader(position: map<nat, nat>, paused: set<nat>, waiting: map<nat, Instant>)

  /** resumeRipe. */
  function Resume(rd: Reader, now: Instant): Reader {
    var ready := set p | p in rd.waiting && rd.waiting[p] <= now;
    rd.(waiting := rd.waiting - ready, paused := rd.paused - ready)
  }

  /** A poll of the client: a contiguous run of each unpaused partition. */
  ghost predicate PollReturns(rd: Reader, f: seq<Fetched>) {
    Contiguous(rd.position, f) && forall r | r in f :: r.part !in rd.paused
  }

  function HeldOffsets(held: map<nat, Fetched>): map<nat, nat> {
    map p | p in held :: held[p].offset
  }

  function RipeTimes(held: map<nat, Fetched>, delay: int): map<nat, Instant> {
    map p | p in held :: held[p].record.at + delay
  }

  /** The client and the waiting map after hold has seen these records. */
  function Holding(rd: Reader, held: map<nat, Fetched>, delay: int): Reader {
    Reader(rd.position + HeldOffsets(held), rd.paused + held.Keys, rd.waiting + RipeTimes(held, delay))
  }

  lemma HeldMore(held: map<nat, Fetched>, r: Fetched, delay: int)
    ensures HeldOffsets(held[r.part := r]) == HeldOffsets(held)[r.part := r.offset]
    ensures RipeTimes(held[r.part := r], delay) == RipeTimes(held, delay)[r.part := r.record.at + delay]
  {
  }

  lemma HoldOneMore(rd: Reader, held: map<nat, Fetched>, r: Fetched, delay: int)
    ensures var before, after := Holding(rd, held, delay), Holding(rd, held[r.part := r], delay);
      && after.position == before.position[r.part := r.offset]
      && after.paused == before.paused + {r.part}
      && after.waiting == before.waiting[r.part := r.record.at + delay]
  {
    HeldMore(held, r, delay);
    PutLast(rd.position, HeldOffsets(held), r.part, r.offset);
    PutLast(rd.waiting, RipeTimes(held, delay), r.part, r.record.at + delay);
    hide HeldOffsets, RipeTimes;
  }

  lemma PutLast<V>(a: map<nat, V>, b: map<nat, V>, p: nat, v: V)
    ensures a + b[p := v] == (a + b)[p := v]
  {
  }

  lemma HoldNothing(rd: Reader, delay: int)
    ensures Holding(rd, map[], delay) == rd
  {
  }

  /** The client after a batch: past what was fetched, set back where it was held. */
  function AfterBatch(rd: Reader, f: seq<Fetched>, b: Batch, delay: int): Reader {
    Holding(rd.(position := Advance(rd.position, f)), b.held, delay)
  }

  /** Ready to poll: every owned partition would be fetched from exactly where its
      group has committed, and what waits is what is paused. */
  ghost predicate Ready(rd: Reader, committed: map<nat, nat>) {
    rd.position == committed && rd.paused == rd.waiting.Keys && rd.waiting.Keys <= rd.position.Keys
  }

  /** Fetching anything moves a position. */
  lemma FetchMoves(start: map<nat, nat>, f: seq<Fetched>)
    requires Contiguous(start, f)
    ensures Advance(start, f) == start <==> f == []
  {
    if f != [] {
      var last := |f| - 1;
      AdvanceKeys(start, f[..last]);
      assert Advance(start, f)[f[last].part] > start[f[last].part];
    }
  }

  /** What holding sets back lands where the acknowledged records end. */
  lemma PositionAfterBatch(rd: Reader, end: map<nat, nat>, b: Batch)
    requires Standing(b, rd.position, end) && end.Keys == rd.position.Keys && !b.stopped
    ensures end + HeldOffsets(b.held) == Advance(rd.position, b.acked)
  {
    AdvanceKeys(rd.position, b.acked);
    hide Contiguous, Advance;
  }

  /** Throwing a fetch away leaves a reader ready only if there was nothing in it. */
  lemma DiscardIsReadyIff(rd: Reader, f: seq<Fetched>, committed: map<nat, nat>)
    requires Ready(rd, committed) && PollReturns(rd, f)
    ensures Ready(rd.(position := Advance(rd.position, f)), committed) <==> f == []
  {
    FetchMoves(rd.position, f);
    AdvanceKeys(rd.position, f);
  }

  /** After a batch that did not stop, the client is set to fetch from exactly where
      the commit landed. */
  lemma BatchIsReady(rd: Reader, f: seq<Fetched>, looks: seq<Look>, delay: int, committed: map<nat, nat>)
    requires |looks| == |f| && PollReturns(rd, f) && Ready(rd, committed)
    requires !Process(delay, f, looks).stopped
    ensures var b := Process(delay, f, looks);
      Ready(AfterBatch(rd, f, b, delay), Committed(committed, b.acked))
  {
    hide Process, Committed;
    var b := Process(delay, f, looks);
    AckedIsContiguous(delay, rd.position, f, looks);
    AdvanceKeys(rd.position, f);
    CommitLandsAtPosition(rd.position, b.acked);
    PositionAfterBatch(rd, Advance(rd.position, f), b);
    AdvanceKeys(rd.position, b.acked);
    hide Contiguous, Advance, HeldOffsets;
    assert RipeTimes(b.held, delay).Keys == b.held.Keys;
    hide RipeTimes;
  }

  lemma ResumeIsReady(rd: Reader, now: Instant, committed: map<nat, nat>)
    requires Ready(rd, committed)
    ensures Ready(Resume(rd, now), committed)
  {
  }

  lemma {:induction false} NothingHeld(delay: int, f: seq<Fetched>, looks: seq<Look>)
    requires |looks| == |f| && delay <= 0
    ensures Process(delay, f, looks).held == map[]
  {
    if f != [] {
      NothingHeld(delay, f[..|f| - 1], looks[..|f| - 1]);
    }
  }

  lemma LastIsOwned(start: map<nat, nat>, f: seq<Fetched>)
    requires Contiguous(start, f)
    ensures f != [] ==> f[|f| - 1] in f && f[|f| - 1].part in start
  {
  }

  /** A member whose every partition is paused fetches nothing. */
  lemma NothingFetched(rd: Reader, f: seq<Fetched>)
    requires PollReturns(rd, f) && rd.position.Keys <= rd.paused
    ensures f == [] && Advance(rd.position, f) == rd.position
  {
    LastIsOwned(rd.position, f);
  }

  /** With one partition owned, if any waits, all do. */
  lemma OneWaits(rd: Reader)
    requires |rd.position| <= 1 && rd.waiting.Keys <= rd.position.Keys && rd.waiting != map[]
    ensures rd.position.Keys == rd.waiting.Keys
  {
    var p :| p in rd.waiting;
    assert |rd.position.Keys - {p}| == 0;
  }

  /** A fetch of one record, all the way through. */
  lemma OneRecord(delay: int, start: map<nat, nat>, r: Fetched, look: Look)
    ensures Advance(start, [r]) == start[r.part := r.offset + 1]
    ensures r.part in start && r.offset == start[r.part] ==> Contiguous(start, [r])
    ensures Process(delay, [r], [look]) ==
      if !Ripe(delay, r.record, look.now) then Batch([], map[r.part := r], false)
      else Batch(if look.accounted then [r] else [], map[], !look.accounted)
    ensures forall p :: Highest([r], p) == if r.part == p then Some(r.offset) else None
  {
    assert [r][..0] == [] && [look][..0] == [];
    assert [] + [r] == [r];
  }
}
