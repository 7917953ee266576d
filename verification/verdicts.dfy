/** What becomes of one record of a fetch, given what the world does while the consumer
    is at it: the handler's answer, the failure's name, and whether the record is
    accounted for. */
module Verdicts {
  import opened Decimal
  import opened Calendar
  import opened Chain
  import opened Marks
  import opened Network
  import opened Loop
  import C = Classification
  import F = Forwarder
  import H = Handler
  import P = Pipeline
  import S = Store

  /** The world's part in one record: the clock it is looked at under; the partitions of
      events, whether the insert's connection holds, and what it breaks with if not; the
      id the body parses to, the forwarder's clock, the partition and the timestamp a
      copy gets, and whether the produce is acknowledged. */
  datatype Luck = Luck(
    now: Instant, weeks: set<Instant>, insert: S.Fault, cause: C.ErrorChain,
    bodyId: string, clock: Instant, part: nat, at: Instant, produce: S.Fault)

  /** Where a consumer stands: its chain, its decoder, the partitions there are, its rung
      and whether it has a sink. */
  datatype Site = Site(chain: seq<string>, decode: Decoder, slots: set<Slot>, level: nat, hasSink: bool)

  /** The handler's outcome for an event, and its error. */
  function Handled(e: S.AgentRun, luck: Luck): (P.Outcome, C.ErrorChain) {
    if !luck.insert.Fine? then
      var err := H.BrokeWith(luck.cause, true);
      (C.Classify(err), err)
    else if S.HasPartition(luck.weeks, e.occurredAt) then (P.Done, [])
    else (P.Retry, C.Server(C.PgError("23514", "")))
  }

  /** Decode, then handle. What does not decode is poison. */
  function Verdict(decode: Decoder, body: Message, luck: Luck): (P.Outcome, C.ErrorChain) {
    match decode(body.key, body.value)
    case Err(why) => (P.Poison, C.DecodeError(why))
    case Ok(e) => Handled(e, luck)
  }

  /** The failure a forwarder is told of. */
  function Failing(cause: C.ErrorChain, luck: Luck): F.Failure {
    F.Failure(C.FailureCode(cause), luck.bodyId, luck.clock)
  }

  /** There is a partition for the copy. */
  predicate Lands(site: Site, topic: string, part: nat) {
    topic == PARKED || topic == DLQ || Slot(site.level + 1, part) in site.slots
  }

  /** Done; or forwarded with an acknowledgement, by a consumer that has a sink, of a
      record that can be forwarded. */
  predicate Accounts(site: Site, body: Message, luck: Luck) {
    var (o, cause) := Verdict(site.decode, body, luck);
    var f := Failing(cause, luck);
    o.Done? ||
    (site.hasSink && luck.produce.Fine? && 0 < |site.chain| <= MAX_INT64
     && !F.Unforwardable(site.chain, body, o, f)
     && (F.RefusedIff(site.chain, body, o, f);
         Lands(site, F.Forwarded(site.chain, body, o, f).value.topic, luck.part)))
  }

  /** What the loop sees of each record of a fetch. */
  function Looks(site: Site, f: seq<Fetched>, lucks: nat -> Luck): (looks: seq<Look>)
    ensures |looks| == |f|
  {
    seq(|f|, i requires 0 <= i < |f| => Look(lucks(i).now, Accounts(site, f[i].record.body, lucks(i))))
  }
}
