/** internal/store/classify.go: what an error of the insert or of the decoder means to
    the pipeline, and what it is called in a header. Two readings of one error. */
module Classification {
  import opened Wrappers
  import opened Decimal
  import opened Calendar
  import opened Chain
  import opened Marks
  import F = Forwarder
  import P = Pipeline

  /** The errors a caller compares against by identity. */
  datatype Sentinel = Anonymous | DeadlineExceeded | Canceled | NotInserted | UnknownValue

  /** What PostgreSQL answered. */
  datatype PgError = PgError(code: string, constraint: string)

  /** One error of a chain: its text, and what it answers to errors.Is and errors.As.
      Safe is there when the error says whether a retry is safe. */
  datatype Link = Link(
    text: string, sentinel: Sentinel, pg: Option<PgError>, net: bool, connect: bool, safe: Option<bool>)

  /** An error and everything it wraps, outermost first, in the order they are
      searched. The empty chain is nil. */
  type ErrorChain = seq<Link>

  predicate Is(err: ErrorChain, s: Sentinel) {
    exists l | l in err :: l.sentinel == s
  }

  predicate Timeout(err: ErrorChain) {
    Is(err, DeadlineExceeded) || Is(err, Canceled)
  }

  /** errors.As takes the first that fits. */
  function FirstPg(err: ErrorChain): Option<PgError> {
    if err == [] then None else if err[0].pg.Some? then err[0].pg else FirstPg(err[1..])
  }

  function FirstSafe(err: ErrorChain): Option<bool> {
    if err == [] then None else if err[0].safe.Some? then err[0].safe else FirstSafe(err[1..])
  }

  predicate AnyNet(err: ErrorChain) {
    exists l | l in err :: l.net
  }

  predicate AnyConnect(err: ErrorChain) {
    exists l | l in err :: l.connect
  }

  predicate SafeToRetry(err: ErrorChain) {
    FirstSafe(err) == Some(true)
  }

  // ------------------------------------------------------------ the first reading

  function ClassifyPg(e: PgError): P.Outcome {
    if e.code == "23505" then P.Done
    else if e.code == "40001" || e.code == "57P01" then P.Retry
    else if e.code == "23514" then (if e.constraint == "" then P.Retry else P.Fatal)
    else if |e.code| >= 2 && e.code[..2] == "08" then P.Retry
    else P.Fatal
  }

  function Classify(err: ErrorChain): P.Outcome {
    if err == [] || Is(err, NotInserted) then P.Done
    else if Timeout(err) then P.Retry
    else if FirstPg(err).Some? then ClassifyPg(FirstPg(err).value)
    else if AnyNet(err) || SafeToRetry(err) then P.Retry
    else if AnyConnect(err) then P.Retry
    else P.Fatal
  }

  // ----------------------------------------------------------- the second reading

  predicate IsDecodeFailure(err: ErrorChain) {
    err != [] && "decode" <= err[0].text
  }

  function FailureCode(err: ErrorChain): string {
    if err == [] then UNKNOWN
    else if Timeout(err) then "timeout"
    else if Is(err, UnknownValue) then "schema"
    else if FirstPg(err).Some? && FirstPg(err).value.code != "" then FirstPg(err).value.code
    else if AnyNet(err) || AnyConnect(err) || SafeToRetry(err) then "unreachable"
    else if IsDecodeFailure(err) then "decode"
    else UNKNOWN
  }

  /** No failure goes without a name. */
  lemma CodeIsNeverEmpty(err: ErrorChain)
    ensures FailureCode(err) != ""
  {
    hide Is, FirstPg, AnyNet, AnyConnect, SafeToRetry;
  }

  // ------------------------------------------------------------------ vocabulary

  /** The name of the failure is the server's own code. */
  predicate NamedByServer(err: ErrorChain) {
    && err != [] && !Timeout(err) && !Is(err, UnknownValue)
    && FirstPg(err).Some? && FirstPg(err).value.code != ""
  }

  /** The name may travel in a header unless it is a code of the server's that is
      neither five digits and capitals nor a word of the vocabulary. */
  lemma CodeIsValidIff(err: ErrorChain)
    ensures ValidCode(FailureCode(err)) <==> (NamedByServer(err) ==> ValidCode(FirstPg(err).value.code))
  {
    F.UnknownIsValid();
    hide SqlState;
  }

  /** Every code the server sends is an SQLSTATE. */
  predicate WellFormed(err: ErrorChain) {
    forall l | l in err && l.pg.Some? :: SqlState(l.pg.value.code)
  }

  /** It is the first of the chain's server answers, and there is one if any link is one. */
  lemma {:induction false} FirstPgIn(err: ErrorChain)
    ensures FirstPg(err).None? ==> forall l | l in err :: l.pg.None?
    ensures FirstPg(err).Some? ==>
      exists i :: 0 <= i < |err| && err[i].pg == FirstPg(err) && forall k | 0 <= k < i :: err[k].pg.None?
  {
    if err != [] {
      var rest := err[1..];
      FirstPgIn(rest);
      assert forall l | l in err :: l == err[0] || l in rest;
      if err[0].pg.None? && FirstPg(rest).Some? {
        var i :| 0 <= i < |rest| && rest[i].pg == FirstPg(rest) && forall k | 0 <= k < i :: rest[k].pg.None?;
        assert err[i + 1] == rest[i] && forall k | 0 < k < i + 1 :: err[k] == rest[k - 1];
      }
    }
  }

  lemma {:induction false} FirstSafeIn(err: ErrorChain)
    ensures FirstSafe(err).None? ==> forall l | l in err :: l.safe.None?
    ensures FirstSafe(err).Some? ==>
      exists i :: 0 <= i < |err| && err[i].safe == FirstSafe(err) && forall k | 0 <= k < i :: err[k].safe.None?
  {
    if err != [] {
      var rest := err[1..];
      FirstSafeIn(rest);
      assert forall l | l in err :: l == err[0] || l in rest;
      if err[0].safe.None? && FirstSafe(rest).Some? {
        var i :| 0 <= i < |rest| && rest[i].safe == FirstSafe(rest) && forall k | 0 <= k < i :: rest[k].safe.None?;
        assert err[i + 1] == rest[i] && forall k | 0 < k < i + 1 :: err[k] == rest[k - 1];
      }
    }
  }

  /** Somewhere in the chain is an error of this kind. */
  predicate TimesOut(err: ErrorChain) {
    exists l | l in err :: l.sentinel == DeadlineExceeded || l.sentinel == Canceled
  }

  predicate IsEnumValue(err: ErrorChain) {
    exists l | l in err :: l.sentinel == UnknownValue
  }

  predicate NeverReached(err: ErrorChain) {
    (exists l | l in err :: l.net || l.connect) || FirstSafe(err) == Some(true)
  }

  /** What each name of the vocabulary is the name of, a server's own code aside: of
      exactly the errors that time out, of those around an unknown enum value, of those
      in which the server was not reached, of those the decoder answers, and of the rest. */
  lemma NamesMean(err: ErrorChain)
    ensures NamedByServer(err) ==> FailureCode(err) == FirstPg(err).value.code
    ensures !NamedByServer(err) ==>
      && (FailureCode(err) == "timeout" <==> TimesOut(err))
      && (FailureCode(err) == "schema" <==> !TimesOut(err) && IsEnumValue(err))
      && (FailureCode(err) == "unreachable" <==> !TimesOut(err) && !IsEnumValue(err) && NeverReached(err))
      && (FailureCode(err) == "decode" <==>
            !TimesOut(err) && !IsEnumValue(err) && !NeverReached(err) && err != [] && "decode" <= err[0].text)
      && FailureCode(err) in {"timeout", "schema", "unreachable", "decode", UNKNOWN}
  {
    assert err == [] ==> !NeverReached(err);
    hide FirstPg, FirstSafe, SqlState;
    assert Timeout(err) <==> TimesOut(err);
    assert Is(err, UnknownValue) <==> IsEnumValue(err);
    assert AnyNet(err) || AnyConnect(err) || SafeToRetry(err) <==> NeverReached(err);
    NamesDiffer();
    hide TimesOut, IsEnumValue, NeverReached, Timeout, Is, AnyNet, AnyConnect, SafeToRetry;
  }

  /** The vocabulary beside the server's codes is what an error can be called, and the one
      name parking gives. */
  lemma VocabularyIsUsed(s: string)
    ensures s in CODE_CLASSES <==>
      s == UNREADABLE_ROUND || exists err: ErrorChain :: !NamedByServer(err) && FailureCode(err) == s
  {
    NameOfOne("", DeadlineExceeded, false);
    NameOfOne("", UnknownValue, false);
    NameOfOne("", Anonymous, true);
    NameOfOne("decode", Anonymous, false);
    NamesMean([]);
    forall err: ErrorChain | !NamedByServer(err) ensures FailureCode(err) in CODE_CLASSES {
      NamesMean(err);
    }
    hide NamedByServer, FailureCode;
  }

  /** The name of an error that wraps nothing and is no server's answer. */
  lemma NameOfOne(text: string, s: Sentinel, net: bool)
    ensures var err := [Link(text, s, None, net, false, None)];
      && !NamedByServer(err)
      && (s == DeadlineExceeded ==> FailureCode(err) == "timeout")
      && (s == UnknownValue ==> FailureCode(err) == "schema")
      && (s == Anonymous && net ==> FailureCode(err) == "unreachable")
      && (s == Anonymous && !net && "decode" <= text ==> FailureCode(err) == "decode")
  {
    var err := [Link(text, s, None, net, false, None)];
    assert err[0] in err && err[1..] == [];
    assert FirstPg(err) == None && FirstSafe(err) == None;
    hide FirstPg, FirstSafe, FailureCode;
    NamesMean(err);
  }

  lemma NamesDiffer()
    ensures var names := ["timeout", "schema", "unreachable", "decode", UNKNOWN];
      forall i, k | 0 <= i < k < 5 :: names[i] != names[k]
  {
    assert |"timeout"| == 7 == |UNKNOWN| && "timeout"[0] == 't' && UNKNOWN[0] == 'u';
    assert |"schema"| == 6 == |"decode"| && "schema"[0] == 's' && "decode"[0] == 'd' && |"unreachable"| == 11;
  }

  /** An insert is never poison: it is done, retried or fatal, and done exactly when it
      says so itself or another unique index refused the row in time. */
  lemma DoneIff(err: ErrorChain)
    ensures Classify(err).Done? || Classify(err).Retry? || Classify(err).Fatal?
    ensures Classify(err).Done? <==>
      || err == [] || (exists l | l in err :: l.sentinel == NotInserted)
      || (!TimesOut(err) && FirstPg(err).Some? && FirstPg(err).value.code == "23505")
  {
    hide FirstPg, FirstSafe;
    assert "23505"[..2] == "23" && "23"[0] == '2' && "08"[0] == '0';
  }

  /** A record goes to a retry, or to the dead letter topic, under the name its error
      has: the forwarder refuses no code an error of a real server is named by. */
  lemma ForwarderTakesTheCode(
      chain: seq<string>, m: Message, o: P.Outcome, err: ErrorChain, bodyId: string, now: Instant)
    requires Ladder(chain) && |chain| <= MAX_INT64 && Read(m).Ok?
    requires o.Poison? || (o.Retry? && m.topic in chain)
    requires WellFormed(err)
    ensures ValidCode(FailureCode(err))
    ensures F.Forwarded(chain, m, o, F.Failure(FailureCode(err), bodyId, now)) != Err(F.Refused(InvalidFailureCode))
  {
    FirstPgIn(err);
    CodeIsValidIff(err);
    F.RefusesOnCodeIff(chain, m, o, F.Failure(FailureCode(err), bodyId, now));
  }

  // --------------------------------------------------- where the readings agree

  /** Codes of the server's that say the failure will pass. */
  predicate PassingCode(code: string) {
    code == "40001" || code == "57P01" || code == "23514" || (|code| >= 2 && code[..2] == "08")
  }

  predicate PassingName(name: string) {
    name == "timeout" || name == "unreachable" || PassingCode(name)
  }

  predicate Unreachable(err: ErrorChain) {
    AnyNet(err) || AnyConnect(err) || SafeToRetry(err)
  }

  /** The errors on which the name and the outcome part ways: the insert's own answer
      around a failure that passes; an enum value inside one; a server error with no
      code around a network one; and a named check constraint, whose code is the one
      of a missing partition. */
  predicate PartWays(err: ErrorChain) {
    err != [] &&
    var pg := FirstPg(err);
    if Is(err, NotInserted) then
      Timeout(err) ||
      (!Is(err, UnknownValue) &&
       if pg.Some? && pg.value.code != "" then PassingName(pg.value.code) else Unreachable(err))
    else if Timeout(err) then false
    else if Is(err, UnknownValue) then
      if pg.Some? then PassingCode(pg.value.code) && (pg.value.code == "23514" ==> pg.value.constraint == "")
      else Unreachable(err)
    else if pg.None? then false
    else if pg.value.code == "" then Unreachable(err)
    else pg.value.code in {"timeout", "unreachable"} || (pg.value.code == "23514" && pg.value.constraint != "")
  }

  /** The pipeline retries exactly the failures whose name says they pass, except on
      exactly these. */
  lemma ReadingsAgreeIff(err: ErrorChain)
    ensures (Classify(err) == P.Retry <==> PassingName(FailureCode(err))) <==> !PartWays(err)
  {
    hide Is, FirstPg, AnyNet, AnyConnect, SafeToRetry;
    NamesThatDoNotPass();
    if err != [] && FirstPg(err).Some? {
      CodesThatPass(FirstPg(err).value);
    }
    hide ClassifyPg, PassingCode;
  }

  /** For what the insert answers over a server whose codes are SQLSTATEs, they part
      ways exactly on a named check constraint. */
  lemma InsertPartsWaysIff(err: ErrorChain)
    requires WellFormed(err) && !Is(err, NotInserted) && !Is(err, UnknownValue)
    ensures PartWays(err) <==>
      !Timeout(err) && FirstPg(err).Some? && FirstPg(err).value.code == "23514" && FirstPg(err).value.constraint != ""
  {
    FirstPgIn(err);
    if FirstPg(err).Some? {
      var l :| l in err && l.pg == FirstPg(err);
      assert SqlState(l.pg.value.code);
    }
    hide Is, AnyNet, AnyConnect, SafeToRetry, FirstPg;
  }

  lemma CodesThatPass(e: PgError)
    ensures ClassifyPg(e) == P.Retry <==> PassingCode(e.code) && (e.code == "23514" ==> e.constraint == "")
    ensures !PassingCode("") && !PassingCode("timeout") && !PassingCode("unreachable")
  {
    assert "timeout"[..2] == "ti" && "unreachable"[..2] == "un" && "23505"[..2] == "23";
    assert "40001"[..2] == "40" && "57P01"[..2] == "57" && "23514"[..2] == "23";
    assert |"08"| == 2 && "08"[0] == '0' && "ti"[0] == 't' && "un"[0] == 'u' && "23"[0] == '2';
  }

  lemma NamesThatDoNotPass()
    ensures !PassingName(UNKNOWN) && !PassingName("schema") && !PassingName("decode")
  {
    assert UNKNOWN[0] == 'u' && UNKNOWN[1] == 'n' && "schema"[0] == 's' && "decode"[0] == 'd';
    assert |UNKNOWN| == 7 && |"unreachable"| == 11;
    assert "unknown"[..2][0] == 'u' && "schema"[..2][0] == 's' && "decode"[..2][0] == 'd' && "08"[0] == '0';
  }

  /** A row a named check refuses is fatal, and its name is the one of a row whose
      partition is missing, which is retried. */
  lemma SameNameTwoOutcomes(check: string)
    requires check != ""
    ensures var refused, homeless := Server(PgError("23514", check)), Server(PgError("23514", ""));
      && FailureCode(refused) == FailureCode(homeless) == "23514"
      && Classify(refused) == P.Fatal && Classify(homeless) == P.Retry
  {
    var refused, homeless := Server(PgError("23514", check)), Server(PgError("23514", ""));
    assert refused[0] in refused && homeless[0] in homeless;
  }

  /** An error that is a server's answer and nothing else. */
  function Server(e: PgError): ErrorChain {
    [Link(e.code, Anonymous, Some(e), false, false, None)]
  }

  // ------------------------------------------------------------------ the decoder

  /** What Decode fails with. A cause is whatever the JSON, time or hex package said. */
  datatype DecodeFailure =
    | BadJson(cause: ErrorChain)
    | NoKey
    | NoEventId
    | BadTime(cause: ErrorChain)
    | BadEnum(field: string, text: string)
    | BadHash(field: string, cause: ErrorChain)

  function Text(err: ErrorChain): string {
    if err == [] then "" else err[0].text
  }

  /** fmt.Errorf with %w. */
  function Wrapped(prefix: string, cause: ErrorChain): ErrorChain {
    [Link(prefix + Text(cause), Anonymous, None, false, false, None)] + cause
  }

  function DecodeError(f: DecodeFailure): ErrorChain {
    match f
    case BadJson(cause) => Wrapped("decode: ", cause)
    case NoKey => Wrapped("decode: " + "record has no key, and the key is the tenant", [])
    case NoEventId => Wrapped("decode: " + "event_id missing", [])
    case BadTime(cause) => Wrapped("decode occurred_at: ", cause)
    case BadEnum(field, text) =>
      Wrapped("decode " + field + ": ", [Link(text, UnknownValue, None, false, false, None)])
    case BadHash(field, cause) => Wrapped("decode " + field + ": ", cause)
  }

  /** A parser's own error: no timeout, no server, no network. */
  predicate Plain(cause: ErrorChain) {
    forall l | l in cause :: l.sentinel == Anonymous && l.pg.None? && !l.net && !l.connect && l.safe.None?
  }

  predicate PlainCause(f: DecodeFailure) {
    (f.BadJson? ==> Plain(f.cause)) && (f.BadTime? ==> Plain(f.cause)) && (f.BadHash? ==> Plain(f.cause))
  }

  lemma {:induction false} PlainHasNone(cause: ErrorChain)
    requires Plain(cause)
    ensures FirstPg(cause).None? && FirstSafe(cause).None?
  {
    if cause != [] {
      assert cause[0] in cause && forall l | l in cause[1..] :: l in cause;
      PlainHasNone(cause[1..]);
    }
  }

  lemma WrappedIsPlain(prefix: string, cause: ErrorChain)
    requires Plain(cause)
    ensures Plain(Wrapped(prefix, cause))
  {
  }

  lemma PlainIsNamed(err: ErrorChain)
    requires Plain(err) && err != [] && "decode" <= err[0].text
    ensures FailureCode(err) == "decode"
  {
    PlainHasNone(err);
  }

  lemma PrefixIsKept(prefix: string, cause: ErrorChain)
    requires "decode" <= prefix
    ensures "decode" <= Wrapped(prefix, cause)[0].text
  {
  }

  lemma FieldPrefix(field: string)
    ensures "decode" <= "decode " + field + ": "
  {
    assert "decode " + field + ": " == "decode " + (field + ": ");
  }

  /** Every error Decode builds is named inside the vocabulary: a value outside an
      enum is a schema this consumer does not know, and everything else a payload
      that does not decode. */
  lemma DecodeIsNamed(f: DecodeFailure)
    requires PlainCause(f)
    ensures FailureCode(DecodeError(f)) == (if f.BadEnum? then "schema" else "decode")
    ensures ValidCode(FailureCode(DecodeError(f)))
  {
    hide FailureCode, Plain, Wrapped;
    match f
    case BadJson(cause) => DecodeCause("decode: ", cause);
    case NoKey => SaidIsNamed("record has no key, and the key is the tenant");
    case NoEventId => SaidIsNamed("event_id missing");
    case BadTime(cause) => DecodeCause("decode occurred_at: ", cause);
    case BadEnum(field, text) => EnumIsNamed("decode " + field + ": ", text);
    case BadHash(field, cause) =>
      FieldPrefix(field);
      DecodeCause("decode " + field + ": ", cause);
  }

  lemma SaidIsNamed(what: string)
    ensures FailureCode(Wrapped("decode: " + what, [])) == "decode"
  {
    DecodeCause("decode: " + what, []);
  }

  lemma DecodeCause(prefix: string, cause: ErrorChain)
    requires "decode" <= prefix && Plain(cause)
    ensures FailureCode(Wrapped(prefix, cause)) == "decode"
  {
    WrappedIsPlain(prefix, cause);
    PrefixIsKept(prefix, cause);
    PlainIsNamed(Wrapped(prefix, cause));
  }

  lemma EnumIsNamed(prefix: string, text: string)
    ensures FailureCode(Wrapped(prefix, [Link(text, UnknownValue, None, false, false, None)])) == "schema"
  {
    var cause := [Link(text, UnknownValue, None, false, false, None)];
    assert Wrapped(prefix, cause)[1] == cause[0];
    assert forall l | l in Wrapped(prefix, cause) :: l == cause[0] || l.sentinel == Anonymous;
  }
}
