/** internal/store/handler.go: one insert and one classification, which is what the
    consumer's Done rests on. */
module Handler {
  import opened Wrappers
  import opened Calendar
  import opened Classification
  import opened Store
  import P = Pipeline

  /** What the insert's answer is to the classifier. A statement that broke may have
      broken with anything but the insert's own sentinel. */
  predicate Says(a: Answer, err: ErrorChain) {
    match a
    case Written => err == []
    case AlreadyRecorded => err == AlreadyThere()
    case NoPartition => err == Server(PgError("23514", ""))
    case Broken => err != [] && !Is(err, NotInserted)
  }

  function AlreadyThere(): ErrorChain {
    [Link("already recorded", NotInserted, None, false, false, None)]
  }

  function TimedOut(): ErrorChain {
    [Link("context deadline exceeded", DeadlineExceeded, None, true, false, None)]
  }

  /** Another unique index than the key's refused the row, and nothing timed out. */
  predicate OtherIndex(err: ErrorChain) {
    !Timeout(err) && FirstPg(err).Some? && FirstPg(err).value.code == "23505"
  }

  /** Done is the answer exactly when the insert said the row is there, or when another
      unique index refused it. A row with no partition is retried under the server's
      code for it. */
  lemma SaidIsClassified(a: Answer, err: ErrorChain)
    requires Says(a, err)
    ensures Classify(err) == P.Done <==> a == Written || a == AlreadyRecorded || OtherIndex(err)
    ensures a == NoPartition ==> Classify(err) == P.Retry && FailureCode(err) == "23514"
    ensures Classify(err) != P.Poison && Classify(err) != P.Unknown
  {
    if a == AlreadyRecorded {
      assert err[0] in err;
    }
  }

  /** What a broken statement broke with: this, unless it is nothing Insert returns, and
      then a timeout. In a table whose only unique index is its key no other refuses. */
  function BrokeWith(cause: ErrorChain, onlyKey: bool): (err: ErrorChain)
    ensures Says(Broken, err) && (onlyKey ==> !OtherIndex(err))
    ensures Says(Broken, cause) && !(onlyKey && OtherIndex(cause)) ==> err == cause
  {
    if cause == [] || Is(cause, NotInserted) || (onlyKey && OtherIndex(cause)) then
      assert TimedOut()[0].sentinel == DeadlineExceeded;
      TimedOut()
    else cause
  }

  /** Handle: in a table whose only unique index is its key the event is in the table
      before Done is answered, so the offset committed after Done never passes an event
      that is nowhere. With another such index Done may come with a cause, and then
      that index has refused the row. What the statement said, when it did not break,
      fixes the answer; when it broke, what it broke with does. */
  method Handle(s: Events, e: AgentRun, onlyKey: bool, fault: Fault, cause: ErrorChain)
      returns (o: P.Outcome, err: ErrorChain)
    modifies s
    ensures s.rows == if fault.LostBefore? then old(s.rows) else Inserted(s.weeks, old(s.rows), e)
    ensures fault.Fine? && (exists w | w in s.weeks && IsMonday(w) :: w <= e.occurredAt < w + WEEK) ==>
      o == P.Done && err == []
    ensures fault.Fine? && !(exists w | w in s.weeks && IsMonday(w) :: w <= e.occurredAt < w + WEEK) ==>
      s.rows == old(s.rows) && o == P.Retry && err == Server(PgError("23514", "")) && FailureCode(err) == "23514"
    ensures !fault.Fine? ==> err == BrokeWith(cause, onlyKey) && o == Classify(err)
    ensures o == P.Done && err == [] ==> exists r | r in s.rows ::
      r.tenant == e.tenant && r.eventId == e.eventId && r.occurredAt == e.occurredAt
    ensures o == P.Done && err != [] ==> OtherIndex(err) && !onlyKey
    ensures o != P.Poison && o != P.Unknown
    ensures old(UniqueKeys(s.rows)) ==> UniqueKeys(s.rows)
  {
    var a := s.Insert(e, fault);
    err := match a
      case Written => []
      case AlreadyRecorded => AlreadyThere()
      case NoPartition => Server(PgError("23514", ""))
      case Broken => BrokeWith(cause, onlyKey);
    SaidIsClassified(a, err);
    o := Classify(err);
    WrittenIsThere(old(s.rows), e);
    if Is(err, NotInserted) {
      err := [];
    }
  }

  lemma WrittenIsThere(rows: seq<AgentRun>, e: AgentRun)
    ensures e in rows + [e]
  {
  }
}
