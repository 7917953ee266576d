/** internal/retry/forwarder.go: where a record goes, and what it says when it gets
    there. */
module Forwarder {
  import opened Wrappers
  import opened Decimal
  import opened Calendar
  import opened Rfc3339
  import opened Chain
  import opened Marks
  import P = Pipeline

  datatype RouteError = OffChain | NotForwarded | Refused(mark: MarkError)

  /** One failure of one record: the code its cause is named by, the event id its
      body parses to (empty when it does not), and the forwarder's clock. */
  datatype Failure = Failure(code: string, bodyId: string, now: Instant)

  /** From the header if there is one, from the body if not. */
  function EventId(m: Message, bodyId: string): string {
    match Read(m)
    case Ok(p) => if p.eventId != "" then p.eventId else bodyId
    case Err(_) => bodyId
  }

  function Marked(dest: string, marks: Result<MarkSet, MarkError>): Result<(string, MarkSet), RouteError> {
    match marks
    case Ok(m) => Ok((dest, m))
    case Err(e) => Err(Refused(e))
  }

  function Route(chain: seq<string>, m: Message, o: P.Outcome, f: Failure): Result<(string, MarkSet), RouteError>
    requires 0 < |chain| <= MAX_INT64
  {
    match o
    case Poison => Marked(DLQ, Poison(m, EventId(m, f.bodyId), f.code, f.now))
    case Retry =>
      if !InChain(chain, m.topic) then Err(OffChain)
      else
        var next := NextTopic(chain, m.topic);
        if next.Some? && !Spent(m.headers, Tiers(chain))
        then Marked(next.value, Retry(m, EventId(m, f.bodyId), f.code, f.now))
        else Marked(PARKED, Park(m, EventId(m, f.bodyId), f.code, Tiers(chain), f.now))
    case _ => Err(NotForwarded)
  }

  /** The record Forward produces. */
  function Forwarded(chain: seq<string>, m: Message, o: P.Outcome, f: Failure): Result<Message, RouteError>
    requires 0 < |chain| <= MAX_INT64
  {
    match Route(chain, m, o, f)
    case Err(e) => Err(e)
    case Ok((dest, marks)) => Ok(Message(dest, m.key, m.value, Applied(marks, m.headers)))
  }

  /** A record goes one rung down, to the parked topic or to the dead letter topic,
      with its own key, value and headers, or nowhere. */
  lemma ForwardGoes(chain: seq<string>, m: Message, o: P.Outcome, f: Failure)
    requires Ladder(chain) && |chain| <= MAX_INT64
    ensures var r := Forwarded(chain, m, o, f);
      r.Ok? ==>
        && (o.Retry? || o.Poison?)
        && r.value.key == m.key && r.value.value == m.value
        && Foreign(r.value.headers) == Foreign(m.headers)
        && (o.Poison? ==> r.value.topic == DLQ)
        && (o.Retry? ==>
              || r.value.topic == PARKED
              || exists i :: 0 <= i < |chain| - 1 && m.topic == chain[i] && r.value.topic == chain[i + 1])
  {
    hide Applied;
    var route := Route(chain, m, o, f);
    if route.Ok? {
      ApplyReplaces(route.value.1, route.value.1, m.headers);
    }
    if InChain(chain, m.topic) {
      var i :| 0 <= i < |chain| && chain[i] == m.topic;
      NextRung(chain, i);
    }
  }

  // ------------------------------------------------------- where nothing goes

  /** A time header that is there and does not parse. */
  predicate TimeUnreadable(hs: seq<Header>) {
    ReadTime(hs, FIRST_FAILED_AT).Err? || ReadTime(hs, PARKED_AT).Err?
  }

  /** What the forwarder refuses, and so what its consumer stops on: an outcome it does
      not forward, a Retry off the chain, a round that reads beside a time that does
      not, a Poison whose round does not read, and a code outside the vocabulary on a
      record that reads. A Retry whose round does not read is parked. */
  predicate Unforwardable(chain: seq<string>, m: Message, o: P.Outcome, f: Failure) {
    || !(o.Retry? || o.Poison?)
    || (o.Retry? && m.topic !in chain)
    || (Round(m.headers).Ok? && TimeUnreadable(m.headers))
    || (o.Poison? && Round(m.headers).Err?)
    || (Round(m.headers).Ok? && f.code != "" && !ValidCode(f.code))
  }

  lemma RefusedIff(chain: seq<string>, m: Message, o: P.Outcome, f: Failure)
    requires 0 < |chain| <= MAX_INT64
    ensures Forwarded(chain, m, o, f).Err? <==> Unforwardable(chain, m, o, f)
  {
    hide Applied, ValidCode, ParseTime;
    UnknownIsValid();
  }

  /** Where a Retry goes: down while there is a rung left and a round left, to the parked
      topic when either is not, or when the round does not read. */
  lemma RetryGoes(chain: seq<string>, m: Message, i: nat, f: Failure)
    requires Ladder(chain) && |chain| <= MAX_INT64 && i < |chain| && m.topic == chain[i]
    requires Forwarded(chain, m, P.Retry, f).Ok?
    ensures var to := Forwarded(chain, m, P.Retry, f).value.topic;
      if i + 1 < |chain| && Round(m.headers).Ok? && Round(m.headers).value < |chain| - 1
      then to == chain[i + 1]
      else to == PARKED
  {
    hide Applied, Build, Round;
    NextRung(chain, i);
  }

  /** What a forwarded record says, if its round read: the failure's code, the topic it
      failed on, one round more exactly if it goes on to another, and a verdict exactly
      if it does not. */
  lemma ForwardedSays(chain: seq<string>, m: Message, o: P.Outcome, f: Failure)
    requires 0 < |chain| <= MAX_INT64 && Round(m.headers).Ok? && Forwarded(chain, m, o, f).Ok?
    requires PARKED !in chain && DLQ !in chain
    ensures var p, round := Forwarded(chain, m, o, f).value, Round(m.headers).value;
      && Lookup(p.headers, FAILURE_CODE) == Some(if f.code == "" then UNKNOWN else f.code)
      && Lookup(p.headers, SOURCE_TOPIC) == Some(m.topic)
      && Lookup(p.headers, ROUND) == Some(Itoa(if p.topic == PARKED || p.topic == DLQ then round else round + 1))
      && Lookup(p.headers, OUTCOME) ==
         (if p.topic == PARKED then Some(RETRY_EXHAUSTED) else if p.topic == DLQ then Some(POISONED) else None)
  {
    hide Applied, ParseTime, FormatTime, Itoa, Atoi, ValidCode, Ladder;
    NamesDiffer();
    VerdictsDiffer();
    if o.Retry? && NextTopic(chain, m.topic).Some? {
      NextIsInChain(chain, m.topic);
    }
    var marks := Route(chain, m, o, f).value.1;
    AppliedWrites(marks, m.headers, FAILURE_CODE);
    AppliedWrites(marks, m.headers, SOURCE_TOPIC);
    AppliedWrites(marks, m.headers, ROUND);
    AppliedWrites(marks, m.headers, OUTCOME);
    hide NextTopic;
  }

  lemma VerdictsDiffer()
    ensures PARKED != DLQ && RETRY_EXHAUSTED != "" && POISONED != ""
  {
    assert |PARKED| == 13 && |DLQ| == 10;
  }

  lemma {:induction false} NextIsInChain(chain: seq<string>, from: string)
    requires NextTopic(chain, from).Some?
    ensures NextTopic(chain, from).value in chain
  {
    if |chain| >= 2 && chain[0] != from {
      NextIsInChain(chain[1..], from);
      assert forall t | t in chain[1..] :: t in chain;
    }
  }

  /** A Retry whose round does not read is parked with every round spent, under a code that
      says so, from the topic it was read from, as first failed and stopped just then. */
  lemma UnreadableRoundParks(chain: seq<string>, m: Message, f: Failure)
    requires 0 < |chain| <= MAX_INT64 && m.topic in chain && Round(m.headers).Err?
    requires Printable(Truncate(f.now, SECOND)) && Truncate(f.now, SECOND) != 0
    ensures var now := Truncate(f.now, SECOND);
      Carries(Forwarded(chain, m, P.Retry, f), PARKED,
        MarkSet(f.bodyId, |chain| - 1, RETRY_EXHAUSTED, UNREADABLE_ROUND, m.topic, now, now))
  {
    hide Applied, Printable, Truncate, Read, NextTopic;
    var now := Truncate(f.now, SECOND);
    var marks := MarkSet(f.bodyId, |chain| - 1, RETRY_EXHAUSTED, UNREADABLE_ROUND, m.topic, now, now);
    UnreadableRoundIsUnread(m);
    assert Route(chain, m, P.Retry, f) == Ok((PARKED, marks));
    hide Route;
    SentCarries(chain, m, P.Retry, f, PARKED, marks);
  }

  lemma UnreadableRoundIsUnread(m: Message)
    requires Round(m.headers).Err?
    ensures Read(m) == Err(UnreadableRound)
  {
  }

  // ------------------------------------------------------------ walks of retries

  /** A record that fails with Retry again and again. */
  function Walk(chain: seq<string>, m: Message, fs: seq<Failure>): Result<Message, RouteError>
    requires 0 < |chain| <= MAX_INT64
  {
    if fs == [] then Ok(m)
    else
      match Walk(chain, m, fs[..|fs| - 1])
      case Err(e) => Err(e)
      case Ok(p) => Forwarded(chain, p, P.Retry, fs[|fs| - 1])
  }

  /** The walk came to a record the forwarder refuses. */
  ghost predicate RefusedAlong(chain: seq<string>, m: Message, fs: seq<Failure>)
    requires 0 < |chain| <= MAX_INT64
  {
    exists k :: 0 <= k < |fs| && RefusedAt(chain, m, fs, k)
  }

  predicate RefusedAt(chain: seq<string>, m: Message, fs: seq<Failure>, k: nat)
    requires 0 < |chain| <= MAX_INT64 && k < |fs|
  {
    Walk(chain, m, fs[..k]).Ok? && Unforwardable(chain, Walk(chain, m, fs[..k]).value, P.Retry, fs[k])
  }

  /** Whatever headers a record carries, one that starts on rung i is parked or
      refused within the rungs that are left, and refused exactly where it came to
      what the forwarder does not forward. */
  lemma {:induction false} WalkEnds(chain: seq<string>, m: Message, i: nat, fs: seq<Failure>)
    requires Ladder(chain) && |chain| <= MAX_INT64 && PARKED !in chain
    requires i < |chain| && m.topic == chain[i]
    ensures Walk(chain, m, fs).Ok? ==> Reached(chain, Walk(chain, m, fs).value.topic, i, |fs|)
    ensures Walk(chain, m, fs).Err? <==> RefusedAlong(chain, m, fs)
  {
    hide Forwarded, Ladder, Unforwardable;
    if fs != [] {
      var last := |fs| - 1;
      WalkEnds(chain, m, i, fs[..last]);
      var p := Walk(chain, m, fs[..last]);
      if p.Ok? {
        OneStep(chain, p.value, i, last, fs[last]);
        RefusedIff(chain, p.value, P.Retry, fs[last]);
      }
      assert forall k | 0 <= k <= last :: fs[..last][..k] == fs[..k];
      assert forall k: nat | k < last :: RefusedAt(chain, m, fs[..last], k) <==> RefusedAt(chain, m, fs, k);
      assert RefusedAt(chain, m, fs, last) <==> p.Ok? && Walk(chain, m, fs).Err?;
    }
  }

  /** After k retries from rung i: parked already, or exactly k rungs down. */
  predicate Reached(chain: seq<string>, topic: string, i: nat, k: nat) {
    || (topic == PARKED && 0 < k <= |chain| - i)
    || (i + k < |chain| && topic == chain[i + k])
  }

  lemma OffChainIsRefused(chain: seq<string>, m: Message, f: Failure)
    requires 0 < |chain| <= MAX_INT64 && m.topic !in chain
    ensures Forwarded(chain, m, P.Retry, f) == Err(OffChain)
  {
  }

  lemma OneStep(chain: seq<string>, m: Message, i: nat, k: nat, f: Failure)
    requires Ladder(chain) && |chain| <= MAX_INT64 && PARKED !in chain && i < |chain|
    requires Reached(chain, m.topic, i, k)
    ensures Forwarded(chain, m, P.Retry, f).Ok? ==>
      Reached(chain, Forwarded(chain, m, P.Retry, f).value.topic, i, k + 1)
  {
    hide Forwarded, Foreign;
    ForwardGoes(chain, m, P.Retry, f);
    if m.topic == PARKED {
      OffChainIsRefused(chain, m, f);
    }
  }

  /** A code inside the vocabulary and a clock that text can carry. */
  predicate Nameable(f: Failure) {
    && (f.code == "" || ValidCode(f.code))
    && Truncate(f.now, SECOND) != 0 && Printable(Truncate(f.now, SECOND))
  }

  function CodeText(code: string): string {
    if code == "" then UNKNOWN else code
  }

  function NextId(id: string, f: Failure): string {
    if id != "" then id else f.bodyId
  }

  function FirstFailed(first: Instant, f: Failure): Instant {
    if first == 0 then Truncate(f.now, SECOND) else first
  }

  /** No time, or one that text can carry. */
  predicate WritableTime(t: Instant) {
    t == 0 || Printable(t)
  }

  /** The marks one failure leads to, from the ones before it. */
  function Advanced(prev: MarkSet, topic: string, f: Failure, outcome: string, round: int64): MarkSet {
    MarkSet(NextId(prev.eventId, f), round, outcome, CodeText(f.code), topic,
            FirstFailed(prev.firstFailedAt, f), if outcome == "" then 0 else Truncate(f.now, SECOND))
  }

  /** A record some forward produced, on that topic, reading as those marks. */
  predicate Carries(r: Result<Message, RouteError>, topic: string, marks: MarkSet) {
    r.Ok? && r.value.topic == topic && Read(r.value) == Ok(marks)
  }

  lemma BuildAnswers(m: Message, prev: MarkSet, f: Failure, outcome: string, spend: bool)
    requires Read(m) == Ok(prev) && prev.round >= 0 && (spend ==> prev.round < MAX_INT64) && Nameable(f)
    ensures Build(m, EventId(m, f.bodyId), f.code, outcome, spend, f.now)
      == Ok(Advanced(prev, m.topic, f, outcome, if spend then prev.round + 1 else prev.round))
  {
    hide Read, Printable, ValidCode;
    UnknownIsValid();
  }

  lemma UnknownIsValid()
    ensures ValidCode(UNKNOWN)
  {
  }

  lemma AdvancedIsWritable(prev: MarkSet, topic: string, f: Failure, outcome: string, round: int64)
    requires Nameable(f) && round >= 0 && (prev.firstFailedAt == 0 || Printable(prev.firstFailedAt))
    ensures Writable(Advanced(prev, topic, f, outcome, round))
  {
    hide Printable;
  }

  /** A readable record that forward sends with those marks carries them. */
  lemma SentCarries(chain: seq<string>, m: Message, o: P.Outcome, f: Failure, dest: string, marks: MarkSet)
    requires 0 < |chain| <= MAX_INT64 && Route(chain, m, o, f) == Ok((dest, marks)) && Writable(marks)
    ensures Carries(Forwarded(chain, m, o, f), dest, marks)
  {
    hide Route, Read, Applied, Writable;
    MarksReadBack(marks, dest, m.key, m.value, m.headers);
  }

  lemma ReadRound(m: Message, prev: MarkSet)
    requires Read(m) == Ok(prev)
    ensures Round(m.headers) == Ok(prev.round) && prev.round >= 0
  {
  }

  lemma SpentByRound(hs: seq<Header>, n: int64, tiers: int)
    requires Round(hs) == Ok(n)
    ensures Spent(hs, tiers) <==> n >= tiers
  {
  }

  /** The ladder and the round agree on whether there is another rung. */
  lemma LadderAndRoundAgree(chain: seq<string>, m: Message, i: nat)
    requires Ladder(chain) && |chain| <= MAX_INT64 && i < |chain| && m.topic == chain[i]
    requires Round(m.headers) == Ok(i)
    ensures InChain(chain, m.topic)
    ensures NextTopic(chain, m.topic) == (if i < Tiers(chain) then Some(chain[i + 1]) else None)
    ensures Spent(m.headers, Tiers(chain)) <==> i == Tiers(chain)
  {
    NextRung(chain, i);
    SpentByRound(m.headers, i, Tiers(chain));
  }

  /** One Retry on rung i of a record that says it has spent i rounds: the ladder and
      the round agree on where it goes, and the marks it leaves with read back. */
  lemma RetryHop(chain: seq<string>, m: Message, i: nat, prev: MarkSet, f: Failure)
    requires Ladder(chain) && |chain| <= MAX_INT64 && i < |chain| && m.topic == chain[i]
    requires Read(m) == Ok(prev) && prev.round == i && Nameable(f)
    requires prev.firstFailedAt == 0 || Printable(prev.firstFailedAt)
    ensures i < Tiers(chain) ==>
      Carries(Forwarded(chain, m, P.Retry, f), chain[i + 1], Advanced(prev, chain[i], f, "", i + 1))
    ensures i == Tiers(chain) ==>
      Carries(Forwarded(chain, m, P.Retry, f), PARKED, Advanced(prev, chain[i], f, RETRY_EXHAUSTED, i))
  {
    hide Advanced, Nameable, Build, EventId, Forwarded, Carries, Writable, Read, Spent, NextTopic, Ladder, InChain;
    ReadRound(m, prev);
    LadderAndRoundAgree(chain, m, i);
    if i < Tiers(chain) {
      BuildAnswers(m, prev, f, "", true);
      AdvancedIsWritable(prev, chain[i], f, "", i + 1);
      SentCarries(chain, m, P.Retry, f, chain[i + 1], Advanced(prev, chain[i], f, "", i + 1));
    } else {
      BuildAnswers(m, prev, f, RETRY_EXHAUSTED, false);
      AdvancedIsWritable(prev, chain[i], f, RETRY_EXHAUSTED, i);
      SentCarries(chain, m, P.Retry, f, PARKED, Advanced(prev, chain[i], f, RETRY_EXHAUSTED, i));
    }
  }

  /** A Poison goes to the dead letter topic from any topic, and spends no round, if
      its record reads; if it does not, the forwarder refuses it for what does not. */
  lemma PoisonHop(chain: seq<string>, m: Message, f: Failure)
    requires 0 < |chain| <= MAX_INT64
    ensures Read(m).Err? ==> Forwarded(chain, m, P.Poison, f) == Err(Refused(Read(m).error))
    ensures Read(m).Ok? && Nameable(f) && WritableTime(Read(m).value.firstFailedAt) ==>
      Carries(Forwarded(chain, m, P.Poison, f), DLQ, Advanced(Read(m).value, m.topic, f, POISONED, Read(m).value.round))
  {
    hide Advanced, Nameable, EventId, Carries, Writable, Read, Applied;
    if Read(m).Ok? && Nameable(f) && WritableTime(Read(m).value.firstFailedAt) {
      var prev := Read(m).value;
      ReadRound(m, prev);
      BuildAnswers(m, prev, f, POISONED, false);
      AdvancedIsWritable(prev, m.topic, f, POISONED, prev.round);
      SentCarries(chain, m, P.Poison, f, DLQ, Advanced(prev, m.topic, f, POISONED, prev.round));
    }
  }

  /** The id a walk settles on: the first that is not empty. */
  function SettledId(id: string, fs: seq<Failure>): string {
    if fs == [] then id else NextId(SettledId(id, fs[..|fs| - 1]), fs[|fs| - 1])
  }

  /** The marks of a record that has failed fs times since the source. */
  function Journey(chain: seq<string>, start: MarkSet, fs: seq<Failure>): MarkSet
    requires |fs| < |chain| <= MAX_INT64
  {
    if fs == [] then start
    else
      var last := |fs| - 1;
      Advanced(Journey(chain, start, fs[..last]), chain[last], fs[last], "", |fs|)
  }

  /** A journey's memory: the first failure is the first hop's clock, to the second,
      the id the first one known, the round the number of hops. */
  lemma {:induction false} JourneyRemembers(chain: seq<string>, start: MarkSet, fs: seq<Failure>)
    requires |fs| < |chain| <= MAX_INT64 && start.round == 0 && start.firstFailedAt == 0
    requires forall f | f in fs :: Nameable(f)
    ensures var p := Journey(chain, start, fs);
      && p.round == |fs|
      && p.eventId == SettledId(start.eventId, fs)
      && p.firstFailedAt == (if fs == [] then 0 else Truncate(fs[0].now, SECOND))
      && (p.firstFailedAt == 0 || Printable(p.firstFailedAt))
  {
    hide Printable;
    if fs != [] {
      assert fs[0] in fs && fs[|fs| - 1] in fs;
      JourneyRemembers(chain, start, fs[..|fs| - 1]);
    }
  }

  /** A record straight off the source that fails with Retry at every rung is on rung
      k after k of them, and carries its journey's marks. */
  lemma {:induction false} WalkCounts(chain: seq<string>, m: Message, fs: seq<Failure>, start: MarkSet)
    requires Ladder(chain) && |chain| <= MAX_INT64 && m.topic == chain[0]
    requires Read(m) == Ok(start) && start.round == 0 && start.firstFailedAt == 0
    requires |fs| <= Tiers(chain) && forall f | f in fs :: Nameable(f)
    ensures Carries(Walk(chain, m, fs), chain[|fs|], Journey(chain, start, fs))
  {
    hide Forwarded, Read, Printable, Nameable, Advanced, Ladder;
    if fs != [] {
      var last := |fs| - 1;
      WalkCounts(chain, m, fs[..last], start);
      JourneyRemembers(chain, start, fs[..last]);
      assert fs[last] in fs;
      RetryHop(chain, Walk(chain, m, fs[..last]).value, last, Journey(chain, start, fs[..last]), fs[last]);
    }
  }

  lemma TruncateMonotone(s: Instant, t: Instant)
    ensures s <= t ==> Truncate(s, SECOND) <= Truncate(t, SECOND)
  {
  }

  /** What a stopped record says: the first clock and the last, to the second, the
      id first known, and the rounds spent. */
  function Epitaph(chain: seq<string>, start: MarkSet, fs: seq<Failure>, last: Failure, verdict: string): MarkSet
    requires |fs| < |chain| <= MAX_INT64
  {
    MarkSet(SettledId(start.eventId, fs + [last]), |fs|, verdict, CodeText(last.code), chain[|fs|],
            Truncate((fs + [last])[0].now, SECOND), Truncate(last.now, SECOND))
  }

  lemma JourneyLeadsToEpitaph(chain: seq<string>, start: MarkSet, fs: seq<Failure>, last: Failure, verdict: string)
    requires |fs| < |chain| <= MAX_INT64 && start.round == 0 && start.firstFailedAt == 0 && verdict != ""
    requires Nameable(last) && forall f | f in fs :: Nameable(f)
    ensures Advanced(Journey(chain, start, fs), chain[|fs|], last, verdict, |fs|)
      == Epitaph(chain, start, fs, last, verdict)
  {
    hide Printable, Truncate, Journey, CodeText;
    JourneyRemembers(chain, start, fs);
    assert (fs + [last])[..|fs|] == fs;
    if fs != [] {
      assert (fs + [last])[0] == fs[0] && fs[0] in fs;
    }
  }

  /** How a journey ends: after every tier, one more Retry parks it with round
      Tiers() exactly; after any number of rounds, Poison buries it with the rounds
      it spent. Either way it kept its first failure and its id, and it did not stop
      before it first failed. */
  lemma JourneyEnds(chain: seq<string>, m: Message, fs: seq<Failure>, start: MarkSet, last: Failure)
    requires Ladder(chain) && |chain| <= MAX_INT64 && m.topic == chain[0]
    requires Read(m) == Ok(start) && start.round == 0 && start.firstFailedAt == 0
    requires |fs| <= Tiers(chain) && Nameable(last) && forall f | f in fs :: Nameable(f)
    ensures Walk(chain, m, fs).Ok?
    ensures Carries(Forwarded(chain, Walk(chain, m, fs).value, P.Poison, last), DLQ,
                    Epitaph(chain, start, fs, last, POISONED))
    ensures |fs| == Tiers(chain) ==>
      Carries(Forwarded(chain, Walk(chain, m, fs).value, P.Retry, last), PARKED,
              Epitaph(chain, start, fs, last, RETRY_EXHAUSTED))
    ensures (fs + [last])[0].now <= last.now ==>
      Epitaph(chain, start, fs, last, POISONED).firstFailedAt <= Epitaph(chain, start, fs, last, POISONED).parkedAt
  {
    hide Forwarded, Read, Printable, Ladder, Walk, Truncate, Nameable, Journey, Advanced;
    TruncateMonotone((fs + [last])[0].now, last.now);
    WalkCounts(chain, m, fs, start);
    JourneyRemembers(chain, start, fs);
    JourneyLeadsToEpitaph(chain, start, fs, last, POISONED);
    JourneyLeadsToEpitaph(chain, start, fs, last, RETRY_EXHAUSTED);
    var p := Walk(chain, m, fs).value;
    PoisonHop(chain, p, last);
    if |fs| == Tiers(chain) {
      RetryHop(chain, p, |fs|, Journey(chain, start, fs), last);
    }
  }

  /** Once known, an event id never changes. */
  lemma {:induction false} IdNeverChanges(id: string, fs: seq<Failure>, gs: seq<Failure>)
    requires SettledId(id, fs) != ""
    ensures SettledId(id, fs + gs) == SettledId(id, fs)
    decreases |gs|
  {
    if gs == [] {
      assert fs + gs == fs;
    } else {
      var last := |gs| - 1;
      IdNeverChanges(id, fs, gs[..last]);
      assert (fs + gs)[..|fs + gs| - 1] == fs + gs[..last];
    }
  }

  /** A record that says whose it is. */
  predicate Says(m: Message, id: string) {
    id != "" && Lookup(m.headers, EVENT_ID) == Some(id)
  }

  /** One more hop of a record that says whose it is, from any topic and under any other
      headers: if it goes on, it says the same, and its round still reads. */
  lemma HopKeepsId(chain: seq<string>, m: Message, o: P.Outcome, f: Failure, id: string)
    requires 0 < |chain| <= MAX_INT64 && Says(m, id) && Round(m.headers).Ok?
    requires Forwarded(chain, m, o, f).Ok?
    ensures var p := Forwarded(chain, m, o, f).value; Says(p, id) && Round(p.headers).Ok?
  {
    hide Applied, ParseTime, Atoi, Itoa, ValidCode, FormatTime;
    var marks := Route(chain, m, o, f).value.1;
    assert marks.eventId == id && marks.round >= 0;
    AppliedWrites(marks, m.headers, EVENT_ID);
    AppliedWrites(marks, m.headers, ROUND);
    AtoiReadsItoa(marks.round);
    NamesDiffer();
  }

  /** Over any walk, from any topic and whatever a record's other headers, the id it
      began with is the id it has. */
  lemma {:induction false} WalkKeepsId(chain: seq<string>, m: Message, fs: seq<Failure>, id: string)
    requires 0 < |chain| <= MAX_INT64 && Says(m, id) && Round(m.headers).Ok? && Walk(chain, m, fs).Ok?
    ensures Says(Walk(chain, m, fs).value, id) && Round(Walk(chain, m, fs).value.headers).Ok?
  {
    hide Forwarded, Says, Round;
    if fs != [] {
      var last := |fs| - 1;
      WalkKeepsId(chain, m, fs[..last], id);
      HopKeepsId(chain, Walk(chain, m, fs[..last]).value, P.Retry, fs[last], id);
    }
  }

  /** A record whose round does not read is parked by a Retry, and all it says of whose
      it is then is what its body says. */
  lemma UnreadableRoundForgets(chain: seq<string>, m: Message, f: Failure)
    requires 0 < |chain| <= MAX_INT64 && m.topic in chain && Round(m.headers).Err?
    ensures var p := Forwarded(chain, m, P.Retry, f);
      && p.Ok? && p.value.topic == PARKED
      && Lookup(p.value.headers, EVENT_ID) == (if f.bodyId != "" then Some(f.bodyId) else None)
  {
    hide Applied, ParseTime, Atoi, ValidCode, FormatTime;
    AppliedWrites(Route(chain, m, P.Retry, f).value.1, m.headers, EVENT_ID);
    NamesDiffer();
  }

  // --------------------------------------------------------- stuck records

  /** The forwarder refuses on the code exactly when the code is outside the
      vocabulary, for a record whose marks it can read. */
  lemma RefusesOnCodeIff(chain: seq<string>, m: Message, o: P.Outcome, f: Failure)
    requires Ladder(chain) && |chain| <= MAX_INT64 && Read(m).Ok?
    requires o.Poison? || (o.Retry? && m.topic in chain)
    ensures Forwarded(chain, m, o, f) == Err(Refused(InvalidFailureCode)) <==> !(f.code == "" || ValidCode(f.code))
  {
    hide ValidCode, Applied, Read;
    UnknownIsValid();
  }

  /** A poison record whose round, whatever its text, is not a number from zero up is
      refused from everywhere, every time it comes back: its partition goes no
      further. */
  lemma PoisonStuck(chain: seq<string>, m: Message, f: Failure)
    requires 0 < |chain| <= MAX_INT64 && Lookup(m.headers, ROUND).Some?
    requires var n := Atoi(Lookup(m.headers, ROUND).value); n.None? || n.value < 0
    ensures Forwarded(chain, m, P.Poison, f) == Err(Refused(UnreadableRound))
  {
    hide ValidCode, Applied, Atoi;
  }

  /** A record whose round reads and whose first-failed time, whatever its text, is no
      time is refused from every rung, as a Retry and as Poison. */
  lemma RetryStuck(chain: seq<string>, m: Message, o: P.Outcome, f: Failure)
    requires 0 < |chain| <= MAX_INT64 && (o.Poison? || (o.Retry? && m.topic in chain))
    requires Round(m.headers).Ok? && Lookup(m.headers, FIRST_FAILED_AT).Some?
    requires ParseTime(Lookup(m.headers, FIRST_FAILED_AT).value).None?
    ensures Forwarded(chain, m, o, f) == Err(Refused(UnreadableTime))
  {
    hide ValidCode, Applied, ParseTime;
  }

  /** A text that is neither. */
  lemma NoNumberNoTime()
    ensures Atoi("x").None? && ParseTime("x").None?
  {
    assert "x"[0] == 'x' && !AllDigits("x") && |"x"| < 20;
  }
}
