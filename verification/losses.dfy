/** What a discarded fetch costs: the commit that follows it is one no history of the
    network has, and after it a record that was produced is nowhere. */
module Losses {
  import opened Chain
  import opened Marks
  import opened Network
  import opened Loop
  import opened Turns
  import opened ConsumerLoop

  /** A record its member's loop threw away and has yet to account for: the only trace of
      its lineage that is not behind a commit is itself. */
  ghost predicate OnlyHere(n: Net, level: nat, r: Fetched) {
    var l := r.record.lineage;
    && IsStored(n, level, r) && l in n.produced && !RowThere(n, n.produced[l])
    && !HasLineage(n.parked, l) && !HasLineage(n.dead, l)
    && forall s | s in n.logs && s in n.committed ::
         forall o | n.committed[s] <= o < |n.logs[s]| ::
           n.logs[s][o].lineage == l ==> s == Slot(level, r.part) && o == r.offset
  }

  lemma NotWaiting(n: Net, level: nat, r: Fetched, upto: nat)
    requires OnlyHere(n, level, r) && r.offset < upto
    requires Slot(level, r.part) in n.committed && n.committed[Slot(level, r.part)] <= r.offset
    ensures var m := n.(committed := n.committed[Slot(level, r.part) := upto]);
      !Waits(m, r.record.lineage, m.produced[r.record.lineage])
  {
    hide RowThere, HasLineage;
    var m := n.(committed := n.committed[Slot(level, r.part) := upto]);
    forall s, o | s in m.logs && s in m.committed && m.committed[s] <= o < |m.logs[s]|
      ensures m.logs[s][o].lineage != r.record.lineage
    {
    }
  }

  lemma NotKept(n: Net, level: nat, r: Fetched, upto: nat)
    requires OnlyHere(n, level, r) && r.offset < upto
    requires Slot(level, r.part) in n.committed && n.committed[Slot(level, r.part)] <= r.offset
    ensures var m := n.(committed := n.committed[Slot(level, r.part) := upto]);
      !Kept(m, r.record.lineage) && !NothingLost(m)
  {
    NotWaiting(n, level, r, upto);
    hide Waits;
    var m := n.(committed := n.committed[Slot(level, r.part) := upto]);
    assert RowThere(m, m.produced[r.record.lineage]) == RowThere(n, n.produced[r.record.lineage]);
    hide RowThere;
  }

  /** Committing past such a record loses it, and is no step of any history. */
  lemma CommittingPastLoses(chain: seq<string>, n: Net, level: nat, r: Fetched, upto: nat)
    requires Inv(chain, n) && OnlyHere(n, level, r) && r.offset < upto
    requires Slot(level, r.part) in n.committed && n.committed[Slot(level, r.part)] <= r.offset
    ensures !NothingLost(n.(committed := n.committed[Slot(level, r.part) := upto]))
    ensures !Allowed(chain, n, CommitTo(Slot(level, r.part), upto))
  {
    NotKept(n, level, r, upto);
    var m := n.(committed := n.committed[Slot(level, r.part) := upto]);
    var e := CommitTo(Slot(level, r.part), upto);
    if Allowed(chain, n, e) {
      assert Happen(chain, n, e) == m;
      hide Kept, ResolvedBelow, SlotOk, Faithful, OnLevel;
      EventKeepsInv(chain, n, e);
      assert OnLevel(m, 0, r.record.lineage);
      Chase(chain, m, 0, r.record.lineage);
    }
  }

  /** The network as a losing run's last turn leaves it before its commit: the run's
      records are where they were fetched, the one read on is accounted for, and the
      member's commits are the group's. */
  ghost predicate BeforeCommit(
      n: Net, level: nat, owned: map<nat, nat>, young: Fetched, lost: Fetched, next: Fetched)
  {
    && IsStored(n, level, young) && IsStored(n, level, lost) && IsStored(n, level, next)
    && Resolved(n, level, next.record.lineage)
    && owned == OwnCommitted(n, level, owned.Keys)
  }

  /** The losing runs end in such a loss: of this record. */
  lemma DiscardIsALoss(
      chain: seq<string>, n: Net, level: nat, rd: Reader, committed: map<nat, nat>, before: Change, young: Fetched,
      during: Change, lost: Fetched, next: Fetched, delay: int, policy: Policy)
    requires Ready(rd, committed) && CanLose(rd, before, young, during, lost, next, delay)
    requires LosingObeys(rd, before, young, during, delay, policy)
    requires Inv(chain, n) && OnlyHere(n, level, lost)
    requires BeforeCommit(n, level, ChangedCommits(ChangedCommits(committed, before), during), young, lost, next)
    ensures var ts := LosingRun(before, young, during, lost, next, delay);
      var after := After(rd, committed, ts, delay).1;
      && RunOk(rd, ts, delay, policy) && lost.part in after
      && !AcknowledgedBy(AckedIn(rd, ts, delay), lost.part, lost.offset)
      && lost.record.lineage in n.produced
      && !Kept(n.(committed := n.committed[Slot(level, lost.part) := after[lost.part]]), lost.record.lineage)
      && !Allowed(chain, n, CommitTo(Slot(level, lost.part), after[lost.part]))
  {
    hide CanLose, LosingObeys, RunOk, After, Ready, ChangedCommits, Allowed, AckedIn, AcknowledgedBy;
    DiscardLosesARecord(rd, committed, before, young, during, lost, next, delay, policy);
    CommitsAt(chain, n, level, ChangedCommits(ChangedCommits(committed, before), during), young, lost, next);
    hide Inv, OnlyHere, Kept, BeforeCommit;
    LineageProduced(n, level, lost);
    NotKept(n, level, lost, lost.offset + 2);
    CommittingPastLoses(chain, n, level, lost, lost.offset + 2);
  }

  lemma LineageProduced(n: Net, level: nat, r: Fetched)
    requires OnlyHere(n, level, r)
    ensures r.record.lineage in n.produced
  {
  }

  lemma CommitsAt(
      chain: seq<string>, n: Net, level: nat, owned: map<nat, nat>, young: Fetched, lost: Fetched, next: Fetched)
    requires Inv(chain, n) && BeforeCommit(n, level, owned, young, lost, next)
    requires lost.part in owned && owned[lost.part] == lost.offset
    ensures Slot(level, lost.part) in n.committed && n.committed[Slot(level, lost.part)] == lost.offset
  {
    hide Resolved, SlotOk, OnLevel;
  }

  // ------------------------------------------------------------------ an instance

  /** Three records, with values of their own. */
  const VALUES: seq<string> := ["a", "b", "c"]

  function Plain(lineage: nat, topic: string): Stored
    requires lineage < 3
  {
    Stored(lineage, 0, Message(topic, "", VALUES[lineage], []))
  }

  /** How they come to the delay topic: produced to one partition of the source, copied to
      two of the first delay topic, committed past on the source; and the third of them
      is then sent to the dead letter topic from there. */
  function Story(chain: seq<string>): seq<Event>
    requires |chain| >= 2
  {
    [Produce(0, Plain(0, chain[0])), Produce(0, Plain(1, chain[0])), Produce(0, Plain(2, chain[0])),
     Append(Slot(0, 0), 0, Slot(1, 0), Plain(0, chain[1])),
     Append(Slot(0, 0), 1, Slot(1, 1), Plain(1, chain[1])),
     Append(Slot(0, 0), 2, Slot(1, 1), Plain(2, chain[1])),
     CommitTo(Slot(0, 0), 3),
     Bury(Slot(1, 1), 1, Plain(2, DLQ))]
  }

  function Sources(chain: seq<string>, k: nat): seq<Stored>
    requires |chain| >= 2 && k <= 3
  {
    [Plain(0, chain[0]), Plain(1, chain[0]), Plain(2, chain[0])][..k]
  }

  function Payloads(k: nat): map<nat, Payload>
    requires k <= 3
  {
    map l: nat | l < k :: Payload("", VALUES[l])
  }

  /** The network once k records are produced, these are on the delay topic, the source
      is committed up to there and these are dead. */
  function Stage(chain: seq<string>, decode: Decoder, k: nat, first: seq<Stored>, second: seq<Stored>, upto: nat,
                 dead: seq<Stored>): Net
    requires |chain| >= 2 && k <= 3
  {
    Net(decode,
        map[Slot(0, 0) := Sources(chain, k), Slot(1, 0) := first, Slot(1, 1) := second],
        map[Slot(0, 0) := upto, Slot(1, 0) := 0, Slot(1, 1) := 0],
        [], [], dead, Payloads(k))
  }

  function Stages(chain: seq<string>, decode: Decoder): seq<Net>
    requires |chain| >= 2
  {
    var r0, r1, r2 := Plain(0, chain[1]), Plain(1, chain[1]), Plain(2, chain[1]);
    [Stage(chain, decode, 0, [], [], 0, []),
     Stage(chain, decode, 1, [], [], 0, []),
     Stage(chain, decode, 2, [], [], 0, []),
     Stage(chain, decode, 3, [], [], 0, []),
     Stage(chain, decode, 3, [r0], [], 0, []),
     Stage(chain, decode, 3, [r0], [r1], 0, []),
     Stage(chain, decode, 3, [r0], [r1, r2], 0, []),
     Stage(chain, decode, 3, [r0], [r1, r2], 3, []),
     Example(chain, decode)]
  }

  /** The end of the story. */
  function Example(chain: seq<string>, decode: Decoder): Net
    requires |chain| >= 2
  {
    Stage(chain, decode, 3, [Plain(0, chain[1])], [Plain(1, chain[1]), Plain(2, chain[1])], 3, [Plain(2, DLQ)])
  }

  ghost predicate Follows(chain: seq<string>, n: Net, e: Event, m: Net) {
    Allowed(chain, n, e) && m == Happen(chain, n, e)
  }

  lemma Produces(chain: seq<string>, decode: Decoder, k: nat)
    requires |chain| >= 2 && k < 3
    ensures Follows(chain, Stage(chain, decode, k, [], [], 0, []), Produce(0, Plain(k, chain[0])),
                    Stage(chain, decode, k + 1, [], [], 0, []))
  {
    var n, r := Stage(chain, decode, k, [], [], 0, []), Plain(k, chain[0]);
    assert Sources(chain, k + 1) == Sources(chain, k) + [r];
    assert Payloads(k + 1) == Payloads(k)[k := PayloadOf(r)];
    assert n.logs[Slot(0, 0) := n.logs[Slot(0, 0)] + [r]] == Stage(chain, decode, k + 1, [], [], 0, []).logs;
  }

  lemma Copies(chain: seq<string>, decode: Decoder)
    requires |chain| >= 2
    ensures var r0, r1, r2 := Plain(0, chain[1]), Plain(1, chain[1]), Plain(2, chain[1]);
      && Follows(chain, Stage(chain, decode, 3, [], [], 0, []), Append(Slot(0, 0), 0, Slot(1, 0), r0),
                 Stage(chain, decode, 3, [r0], [], 0, []))
      && Follows(chain, Stage(chain, decode, 3, [r0], [], 0, []), Append(Slot(0, 0), 1, Slot(1, 1), r1),
                 Stage(chain, decode, 3, [r0], [r1], 0, []))
      && Follows(chain, Stage(chain, decode, 3, [r0], [r1], 0, []), Append(Slot(0, 0), 2, Slot(1, 1), r2),
                 Stage(chain, decode, 3, [r0], [r1, r2], 0, []))
  {
    var r0, r1, r2 := Plain(0, chain[1]), Plain(1, chain[1]), Plain(2, chain[1]);
    hide Payloads;
    assert [] + [r0] == [r0] && [] + [r1] == [r1] && [r1] + [r2] == [r1, r2];
  }

  /** Each of the three has its copy on the delay topic. */
  lemma CopyIsThere(n: Net, chain: seq<string>, l: nat)
    requires |chain| >= 2 && l < 3
    requires Slot(1, 0) in n.logs && n.logs[Slot(1, 0)] == [Plain(0, chain[1])]
    requires Slot(1, 1) in n.logs && n.logs[Slot(1, 1)] == [Plain(1, chain[1]), Plain(2, chain[1])]
    ensures OnLevel(n, 1, l)
  {
    var s := if l == 0 then Slot(1, 0) else Slot(1, 1);
    var o := if l == 2 then 1 else 0;
    assert n.logs[s][o].lineage == l;
    assert HasLineage(n.logs[s], l);
  }

  lemma Commits(chain: seq<string>, decode: Decoder)
    requires |chain| >= 2
    ensures var r0, both := Plain(0, chain[1]), [Plain(1, chain[1]), Plain(2, chain[1])];
      Follows(chain, Stage(chain, decode, 3, [r0], both, 0, []), CommitTo(Slot(0, 0), 3),
              Stage(chain, decode, 3, [r0], both, 3, []))
  {
    var n := Stage(chain, decode, 3, [Plain(0, chain[1])], [Plain(1, chain[1]), Plain(2, chain[1])], 0, []);
    hide OnLevel, Network.Written, Payloads;
    CopyIsThere(n, chain, 0);
    CopyIsThere(n, chain, 1);
    CopyIsThere(n, chain, 2);
    assert forall o | 0 <= o < 3 :: n.logs[Slot(0, 0)][o].lineage == o;
  }

  lemma Buries(chain: seq<string>, decode: Decoder)
    requires |chain| >= 2
    ensures var r0, both := Plain(0, chain[1]), [Plain(1, chain[1]), Plain(2, chain[1])];
      Follows(chain, Stage(chain, decode, 3, [r0], both, 3, []), Bury(Slot(1, 1), 1, Plain(2, DLQ)),
              Example(chain, decode))
  {
    hide Payloads;
    assert [] + [Plain(2, DLQ)] == [Plain(2, DLQ)];
  }

  lemma EmptyIsInv(chain: seq<string>, decode: Decoder)
    requires |chain| >= 2
    ensures Inv(chain, Stage(chain, decode, 0, [], [], 0, []))
    ensures Stage(chain, decode, 0, [], [], 0, []).produced == map[]
  {
    assert Sources(chain, 0) == [];
  }

  lemma StoryIsHistory(chain: seq<string>, decode: Decoder)
    requires |chain| >= 2
    ensures IsHistory(chain, Stages(chain, decode), Story(chain))
    ensures Stages(chain, decode)[0].produced == map[]
  {
    hide Stage, Plain, Inv, Allowed, Happen;
    EmptyIsInv(chain, decode);
    Produces(chain, decode, 0);
    Produces(chain, decode, 1);
    Produces(chain, decode, 2);
    Copies(chain, decode);
    Commits(chain, decode);
    Buries(chain, decode);
  }

  lemma LostOnlyHere(chain: seq<string>, decode: Decoder)
    requires |chain| >= 2
    ensures OnlyHere(Example(chain, decode), 1, Fetched(1, 0, Plain(1, chain[1])))
  {
    var n := Example(chain, decode);
    assert 1 in Payloads(3);
    hide Payloads, Sources;
    forall s, o | s in n.logs && s in n.committed && n.committed[s] <= o < |n.logs[s]| && n.logs[s][o].lineage == 1
      ensures s == Slot(1, 1) && o == 0
    {
    }
    hide Plain;
  }

  lemma ExampleBeforeCommit(chain: seq<string>, decode: Decoder, owned: map<nat, nat>)
    requires |chain| >= 2 && owned == map[0 := 0, 1 := 0]
    ensures BeforeCommit(Example(chain, decode), 1, owned, Fetched(0, 0, Plain(0, chain[1])),
                         Fetched(1, 0, Plain(1, chain[1])), Fetched(1, 1, Plain(2, chain[1])))
  {
    hide Payloads, Sources, OnLevel;
    var n := Example(chain, decode);
    assert n.dead[0].lineage == 2;
    assert HasLineage(n.dead, 2);
  }

  /** On every chain with a delay topic, for every decoder and every delay: a history that
      begins with nothing produced and loses nothing, at the end of which a member owns
      the two partitions of the delay topic, has sent the third record to the dead
      letter topic in the last turn of a losing run, as it does if that does not decode,
      and is about to commit. The commit it is about to make is a step no history has,
      and the second record is then nowhere. */
  lemma ALossHappens(chain: seq<string>, decode: Decoder, delay: nat)
    requires |chain| >= 2 && delay > 0
    ensures IsHistory(chain, Stages(chain, decode), Story(chain)) && Stages(chain, decode)[0].produced == map[]
    ensures Stages(chain, decode)[8] == Example(chain, decode) && NothingLost(Example(chain, decode))
    ensures var n, rd := Example(chain, decode), Reader(map[0 := 0, 1 := 0], {}, map[]);
      var young, lost := Fetched(0, 0, Plain(0, chain[1])), Fetched(1, 0, Plain(1, chain[1]));
      var next := Fetched(1, 1, Plain(2, chain[1]));
      var ts := LosingRun(NO_CHANGE, young, NO_CHANGE, lost, next, delay);
      var after := After(rd, rd.position, ts, delay).1;
      && RunOk(rd, ts, delay, Policy(2, false)) && 1 in after && Resolved(n, 1, 2)
      && !Allowed(chain, n, CommitTo(Slot(1, 1), after[1]))
      && 1 in n.produced && !Kept(n.(committed := n.committed[Slot(1, 1) := after[1]]), 1)
  {
    hide RunOk, After, OnlyHere, NothingLost, Allowed, LosingRun, Changed, ChangeOk, ChangedCommits;
    hide Inv, Example, Kept, Stage, IsHistory, Resolved;
    var n, rd := Example(chain, decode), Reader(map[0 := 0, 1 := 0], {}, map[]);
    var young, lost := Fetched(0, 0, Plain(0, chain[1])), Fetched(1, 0, Plain(1, chain[1]));
    var next := Fetched(1, 1, Plain(2, chain[1]));
    StoryIsHistory(chain, decode);
    HistoryKeepsInv(chain, Stages(chain, decode), Story(chain), 8);
    NoRecordIsLost(chain, Stages(chain, decode), Story(chain), 8);
    LostOnlyHere(chain, decode);
    SizeOfTwo(rd.position);
    NothingChanges(rd, rd.position);
    NothingChanges(Held(rd, young, delay), rd.position);
    ExampleBeforeCommit(chain, decode, rd.position);
    DiscardIsALoss(chain, n, 1, rd, rd.position, NO_CHANGE, young, NO_CHANGE, lost, next, delay, Policy(2, false));
  }
}
