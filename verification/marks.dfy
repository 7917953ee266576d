/** internal/retry/marks.go: the seven headers a record carries along the chain.
    A byte slice is a string, one character a byte. */
module Marks {
  import opened Wrappers
  import opened Decimal
  import opened Calendar
  import opened Rfc3339

  const EVENT_ID := "nine-event-id"
  const ROUND := "nine-retry-round"
  const OUTCOME := "nine-outcome"
  const FAILURE_CODE := "nine-failure-code"
  const SOURCE_TOPIC := "nine-source-topic"
  const FIRST_FAILED_AT := "nine-first-failed-at"
  const PARKED_AT := "nine-parked-at"

  const RETRY_EXHAUSTED := "retry-exhausted"
  const POISONED := "poison"
  const UNKNOWN := "unknown"
  const UNREADABLE_ROUND := "unreadable-round"

  const CODE_CLASSES: set<string> := {UNKNOWN, UNREADABLE_ROUND, "timeout", "unreachable", "decode", "schema"}

  /** Five characters, digits and capitals. */
  predicate SqlState(s: string) {
    |s| == 5 && forall i | 0 <= i < 5 :: IsDigit(s[i]) || 'A' <= s[i] <= 'Z'
  }

  predicate ValidCode(s: string) {
    s in CODE_CLASSES || SqlState(s)
  }

  datatype Header = Header(key: string, value: string)

  datatype Message = Message(topic: string, key: string, value: string, headers: seq<Header>)

  /** What a record carries. An instant of 0 is the zero time, "not set". */
  datatype MarkSet = MarkSet(
    eventId: string, round: int64, outcome: string, failureCode: string, sourceTopic: string,
    firstFailedAt: Instant, parkedAt: Instant)

  datatype MarkError = UnreadableRound | UnreadableTime | InvalidFailureCode

  // ----------------------------------------------------------------- reading

  /** The first header of that name. */
  function Lookup(hs: seq<Header>, key: string): Option<string> {
    if hs == [] then None
    else if hs[0].key == key then Some(hs[0].value)
    else Lookup(hs[1..], key)
  }

  function Round(hs: seq<Header>): Result<int64, MarkError> {
    match Lookup(hs, ROUND)
    case None => Ok(0)
    case Some(raw) =>
      match Atoi(raw)
      case None => Err(UnreadableRound)
      case Some(n) => if n < 0 then Err(UnreadableRound) else Ok(n)
  }

  /** Every tier spent, and an unreadable round counts as spent. */
  predicate Spent(hs: seq<Header>, tiers: int) {
    match Round(hs)
    case Err(_) => true
    case Ok(n) => n >= tiers
  }

  function ReadTime(hs: seq<Header>, key: string): Result<Instant, MarkError> {
    match Lookup(hs, key)
    case None => Ok(0)
    case Some(raw) =>
      match ParseTime(raw)
      case None => Err(UnreadableTime)
      case Some(t) => Ok(t)
  }

  function Text(hs: seq<Header>, key: string, otherwise: string): string {
    match Lookup(hs, key)
    case None => otherwise
    case Some(v) => v
  }

  function Read(m: Message): Result<MarkSet, MarkError> {
    match Round(m.headers)
    case Err(e) => Err(e)
    case Ok(round) =>
      match ReadTime(m.headers, FIRST_FAILED_AT)
      case Err(e) => Err(e)
      case Ok(first) =>
        match ReadTime(m.headers, PARKED_AT)
        case Err(e) => Err(e)
        case Ok(parked) =>
          Ok(MarkSet(Text(m.headers, EVENT_ID, ""), round, Text(m.headers, OUTCOME, ""),
                     Text(m.headers, FAILURE_CODE, ""), Text(m.headers, SOURCE_TOPIC, m.topic), first, parked))
  }

  // ---------------------------------------------------------------- deciding

  function Build(m: Message, eventId: string, code: string, outcome: string, spend: bool, now: Instant)
      : Result<MarkSet, MarkError>
  {
    match Read(m)
    case Err(e) => Err(e)
    case Ok(prev) =>
      var at := Truncate(now, SECOND);
      var named := if code == "" then UNKNOWN else code;
      if !ValidCode(named) then Err(InvalidFailureCode)
      else
        Ok(MarkSet(
          if eventId == "" then prev.eventId else eventId,
          if spend then Wrap64(prev.round + 1) else prev.round,
          outcome, named, m.topic,
          if prev.firstFailedAt == 0 then at else prev.firstFailedAt,
          if outcome != "" then at else 0))
  }

  function Retry(m: Message, eventId: string, code: string, now: Instant): Result<MarkSet, MarkError> {
    Build(m, eventId, code, "", true, now)
  }

  function Park(m: Message, eventId: string, code: string, tiers: int64, now: Instant): Result<MarkSet, MarkError> {
    match Build(m, eventId, code, RETRY_EXHAUSTED, false, now)
    case Err(UnreadableRound) =>
      var at := Truncate(now, SECOND);
      Ok(MarkSet(eventId, tiers, RETRY_EXHAUSTED, UNREADABLE_ROUND, m.topic, at, at))
    case other => other
  }

  function Poison(m: Message, eventId: string, code: string, now: Instant): Result<MarkSet, MarkError> {
    Build(m, eventId, code, POISONED, false, now)
  }

  /** A record without marks reads as one that has failed nowhere, on its own topic. */
  lemma UnmarkedReads(m: Message)
    requires forall h | h in m.headers :: !IsNine(h.key)
    ensures Read(m) == Ok(MarkSet("", 0, "", "", m.topic, 0, 0))
  {
    NotThere(m.headers, EVENT_ID);
    NotThere(m.headers, ROUND);
    NotThere(m.headers, OUTCOME);
    NotThere(m.headers, FAILURE_CODE);
    NotThere(m.headers, SOURCE_TOPIC);
    NotThere(m.headers, FIRST_FAILED_AT);
    NotThere(m.headers, PARKED_AT);
    hide IsNine;
  }

  lemma {:induction false} NotThere(hs: seq<Header>, key: string)
    requires IsNine(key) && forall h | h in hs :: !IsNine(h.key)
    ensures Lookup(hs, key) == None
  {
    hide IsNine;
    if hs != [] {
      assert hs[0] in hs && forall h | h in hs[1..] :: h in hs;
      NotThere(hs[1..], key);
    }
  }

  /** Whatever becomes of a record, it leaves with the id it is given, or with the one it
      carries if it is given none. */
  lemma GivenOrKept(m: Message, eventId: string, code: string, outcome: string, spend: bool, now: Instant)
    requires Build(m, eventId, code, outcome, spend, now).Ok?
    ensures Build(m, eventId, code, outcome, spend, now).value.eventId
      == if eventId != "" then eventId else Text(m.headers, EVENT_ID, "")
  {
    hide Round, ReadTime, ValidCode;
  }

  // ----------------------------------------------------------------- writing

  function Optional(present: bool, key: string, value: string): seq<Header> {
    if present then [Header(key, value)] else []
  }

  /** The marks every record carries. */
  function Middle(m: MarkSet): seq<Header> {
    [Header(ROUND, Itoa(m.round)), Header(FAILURE_CODE, m.failureCode), Header(SOURCE_TOPIC, m.sourceTopic)]
  }

  /** In the decision record's order; an empty value is left out. */
  function Headers(m: MarkSet): seq<Header> {
    Optional(m.eventId != "", EVENT_ID, m.eventId)
    + Middle(m)
    + Optional(m.outcome != "", OUTCOME, m.outcome)
    + Optional(m.firstFailedAt != 0, FIRST_FAILED_AT, FormatTime(m.firstFailedAt))
    + Optional(m.parkedAt != 0, PARKED_AT, FormatTime(m.parkedAt))
  }

  predicate IsNine(key: string) {
    key == EVENT_ID || key == ROUND || key == OUTCOME || key == FAILURE_CODE
    || key == SOURCE_TOPIC || key == FIRST_FAILED_AT || key == PARKED_AT
  }

  /** The headers that are not marks, in their order. */
  function Foreign(hs: seq<Header>): seq<Header> {
    if hs == [] then []
    else (if IsNine(hs[0].key) then [] else [hs[0]]) + Foreign(hs[1..])
  }

  /** What Apply leaves on a record: its own headers, then the marks. */
  function Applied(m: MarkSet, hs: seq<Header>): seq<Header> {
    Foreign(hs) + Headers(m)
  }

  function Occurrences(hs: seq<Header>, key: string): nat {
    if hs == [] then 0 else (if hs[0].key == key then 1 else 0) + Occurrences(hs[1..], key)
  }

  /** Marks that text can carry: a round no Itoa makes negative, and times of whole
      seconds in four-digit years. */
  predicate Writable(m: MarkSet) {
    && m.round >= 0
    && (m.firstFailedAt == 0 || Printable(m.firstFailedAt))
    && (m.parkedAt == 0 || Printable(m.parkedAt))
  }

  // ------------------------------------------------------------------ proofs

  lemma {:induction false} LookupConcat(a: seq<Header>, b: seq<Header>, key: string)
    ensures Lookup(a + b, key) == (if Lookup(a, key).Some? then Lookup(a, key) else Lookup(b, key))
    ensures Occurrences(a + b, key) == Occurrences(a, key) + Occurrences(b, key)
  {
    if a == [] {
      assert a + b == b;
    } else {
      LookupConcat(a[1..], b, key);
      assert (a + b)[1..] == a[1..] + b;
    }
  }

  lemma {:induction false} ForeignHasNoMarks(hs: seq<Header>, key: string)
    requires IsNine(key)
    ensures Lookup(Foreign(hs), key) == None && Occurrences(Foreign(hs), key) == 0
  {
    if hs != [] {
      ForeignHasNoMarks(hs[1..], key);
      LookupConcat(if IsNine(hs[0].key) then [] else [hs[0]], Foreign(hs[1..]), key);
    }
  }

  lemma ForeignStep(hs: seq<Header>, i: nat)
    requires i < |hs|
    ensures Foreign(hs[i..]) == (if IsNine(hs[i].key) then [] else [hs[i]]) + Foreign(hs[i + 1..])
  {
    hide IsNine;
    assert hs[i..][1..] == hs[i + 1..];
  }

  lemma {:induction false} ForeignConcat(a: seq<Header>, b: seq<Header>)
    ensures Foreign(a + b) == Foreign(a) + Foreign(b)
  {
    hide IsNine;
    if a == [] {
      assert a + b == b;
    } else {
      var head := if IsNine(a[0].key) then [] else [a[0]];
      ForeignConcat(a[1..], b);
      assert (a + b)[1..] == a[1..] + b && (a + b)[0] == a[0];
      ghost var rest, more := Foreign(a[1..]), Foreign(b);
      assert Foreign(a + b) == head + (rest + more) && Foreign(a) == head + rest;
      assert head + (rest + more) == head + rest + more;
    }
  }

  lemma {:induction false} ForeignIdempotent(hs: seq<Header>)
    ensures Foreign(Foreign(hs)) == Foreign(hs)
  {
    if hs != [] {
      ForeignIdempotent(hs[1..]);
      ForeignConcat(if IsNine(hs[0].key) then [] else [hs[0]], Foreign(hs[1..]));
      assert Foreign([hs[0]]) == (if IsNine(hs[0].key) then [] else [hs[0]]) + Foreign([]);
    }
  }

  /** What Headers writes under a name: the value, or nothing where it is empty. */
  function Written(m: MarkSet, key: string): Option<string>
    requires IsNine(key)
  {
    if key == EVENT_ID then (if m.eventId != "" then Some(m.eventId) else None)
    else if key == ROUND then Some(Itoa(m.round))
    else if key == FAILURE_CODE then Some(m.failureCode)
    else if key == SOURCE_TOPIC then Some(m.sourceTopic)
    else if key == OUTCOME then (if m.outcome != "" then Some(m.outcome) else None)
    else if key == FIRST_FAILED_AT then (if m.firstFailedAt != 0 then Some(FormatTime(m.firstFailedAt)) else None)
    else (if m.parkedAt != 0 then Some(FormatTime(m.parkedAt)) else None)
  }

  lemma OneHeader(present: bool, name: string, value: string, key: string)
    ensures Lookup(Optional(present, name, value), key) == (if present && name == key then Some(value) else None)
    ensures Occurrences(Optional(present, name, value), key) == (if present && name == key then 1 else 0)
  {
    assert [Header(name, value)][1..] == [];
  }

  lemma MiddleHeaders(m: MarkSet, key: string)
    requires IsNine(key)
    ensures var mid, ours := Middle(m), key == ROUND || key == FAILURE_CODE || key == SOURCE_TOPIC;
      && Lookup(mid, key) == (if ours then Written(m, key) else None)
      && Occurrences(mid, key) == (if Lookup(mid, key).Some? then 1 else 0)
  {
    NamesDiffer();
    var a, b := [Header(ROUND, Itoa(m.round))], [Header(FAILURE_CODE, m.failureCode)];
    var c := [Header(SOURCE_TOPIC, m.sourceTopic)];
    assert a == Optional(true, ROUND, Itoa(m.round)) && b == Optional(true, FAILURE_CODE, m.failureCode)
        && c == Optional(true, SOURCE_TOPIC, m.sourceTopic);
    OneHeader(true, ROUND, Itoa(m.round), key);
    OneHeader(true, FAILURE_CODE, m.failureCode, key);
    OneHeader(true, SOURCE_TOPIC, m.sourceTopic, key);
    LookupConcat(a, b, key);
    LookupConcat(a + b, c, key);
    assert a + b + c == Middle(m);
  }

  /** Each mark is written at most once, under its own name. */
  lemma HeadersWrite(m: MarkSet, key: string)
    requires IsNine(key)
    ensures Lookup(Headers(m), key) == Written(m, key)
    ensures Occurrences(Headers(m), key) == (if Written(m, key).Some? then 1 else 0)
  {
    hide FormatTime, Itoa;
    NamesDiffer();
    var a := Optional(m.eventId != "", EVENT_ID, m.eventId);
    var b := Middle(m);
    var c := Optional(m.outcome != "", OUTCOME, m.outcome);
    var d := Optional(m.firstFailedAt != 0, FIRST_FAILED_AT, FormatTime(m.firstFailedAt));
    var e := Optional(m.parkedAt != 0, PARKED_AT, FormatTime(m.parkedAt));
    OneHeader(m.eventId != "", EVENT_ID, m.eventId, key);
    MiddleHeaders(m, key);
    OneHeader(m.outcome != "", OUTCOME, m.outcome, key);
    OneHeader(m.firstFailedAt != 0, FIRST_FAILED_AT, FormatTime(m.firstFailedAt), key);
    OneHeader(m.parkedAt != 0, PARKED_AT, FormatTime(m.parkedAt), key);
    LookupConcat(a, b, key);
    LookupConcat(a + b, c, key);
    LookupConcat(a + b + c, d, key);
    LookupConcat(a + b + c + d, e, key);
  }

  lemma AppliedWrites(m: MarkSet, hs: seq<Header>, key: string)
    requires IsNine(key)
    ensures Lookup(Applied(m, hs), key) == Written(m, key)
    ensures Occurrences(Applied(m, hs), key) == (if Written(m, key).Some? then 1 else 0)
  {
    HeadersWrite(m, key);
    ForeignHasNoMarks(hs, key);
    LookupConcat(Foreign(hs), Headers(m), key);
  }

  /** Reading a record after Apply gives back the marks that were applied, whatever
      the record carried before and whatever topic it is read from. */
  lemma MarksReadBack(m: MarkSet, topic: string, key: string, value: string, hs: seq<Header>)
    requires Writable(m)
    ensures Read(Message(topic, key, value, Applied(m, hs))) == Ok(m)
  {
    hide FormatTime, ParseTime, Itoa, Atoi, Applied, Printable;
    NamesDiffer();
    AppliedWrites(m, hs, EVENT_ID);
    AppliedWrites(m, hs, ROUND);
    AppliedWrites(m, hs, OUTCOME);
    AppliedWrites(m, hs, FAILURE_CODE);
    AppliedWrites(m, hs, SOURCE_TOPIC);
    AppliedWrites(m, hs, FIRST_FAILED_AT);
    AppliedWrites(m, hs, PARKED_AT);
    AtoiReadsItoa(m.round);
    if m.firstFailedAt != 0 { TimeReadsBack(m.firstFailedAt); }
    if m.parkedAt != 0 { TimeReadsBack(m.parkedAt); }
  }

  lemma {:induction false} HeadersAreMarks(hs: seq<Header>)
    requires forall h | h in hs :: IsNine(h.key)
    ensures Foreign(hs) == []
  {
    if hs != [] {
      HeadersAreMarks(hs[1..]);
    }
  }

  lemma HeadersAreNine(m: MarkSet)
    ensures Headers(m) != [] && forall h | h in Headers(m) :: IsNine(h.key)
  {
    hide FormatTime, Itoa;
  }

  /** Apply leaves the other headers as they were and in order, replaces every mark
      it finds, and applying again replaces again. */
  lemma ApplyReplaces(m: MarkSet, again: MarkSet, hs: seq<Header>)
    ensures Foreign(Applied(m, hs)) == Foreign(hs)
    ensures Applied(again, Applied(m, hs)) == Applied(again, hs)
    ensures Applied(m, Applied(m, hs)) == Applied(m, hs)
  {
    hide FormatTime, Itoa;
    ForeignConcat(Foreign(hs), Headers(m));
    ForeignIdempotent(hs);
    HeadersAreNine(m);
    HeadersAreMarks(Headers(m));
  }

  /** The place of a mark in the decision record's list. */
  function Place(key: string): int {
    if key == EVENT_ID then 0
    else if key == ROUND then 1
    else if key == FAILURE_CODE then 2
    else if key == SOURCE_TOPIC then 3
    else if key == OUTCOME then 4
    else if key == FIRST_FAILED_AT then 5
    else 6
  }

  ghost predicate InPlaces(hs: seq<Header>, from: int, upto: int) {
    && (forall h | h in hs :: from <= Place(h.key) < upto)
    && forall i, j | 0 <= i < j < |hs| :: Place(hs[i].key) < Place(hs[j].key)
  }

  lemma InPlacesConcat(a: seq<Header>, b: seq<Header>, from: int, mid: int, upto: int)
    requires InPlaces(a, from, mid) && InPlaces(b, mid, upto) && from <= mid <= upto
    ensures InPlaces(a + b, from, upto)
  {
    hide Place;
    forall i, j | 0 <= i < j < |a + b| ensures Place((a + b)[i].key) < Place((a + b)[j].key) {
      if i < |a| <= j {
        assert a[i] in a && b[j - |a|] in b;
      }
    }
  }

  lemma OptionalInPlace(present: bool, key: string, value: string)
    ensures InPlaces(Optional(present, key, value), Place(key), Place(key) + 1)
  {
    hide Place;
  }

  lemma Places()
    ensures Place(EVENT_ID) == 0 && Place(ROUND) == 1 && Place(FAILURE_CODE) == 2 && Place(SOURCE_TOPIC) == 3
    ensures Place(OUTCOME) == 4 && Place(FIRST_FAILED_AT) == 5 && Place(PARKED_AT) == 6
  {
    NamesDiffer();
  }

  lemma MiddleInPlace(m: MarkSet)
    ensures InPlaces(Middle(m), 1, 4)
  {
    Places();
    hide Place, Itoa;
  }

  /** Headers writes its marks in the decision record's order. */
  lemma HeadersInOrder(m: MarkSet)
    ensures InPlaces(Headers(m), 0, 7)
  {
    hide FormatTime, Itoa, Place, InPlaces, Optional, Middle;
    Places();
    var a := Optional(m.eventId != "", EVENT_ID, m.eventId);
    var c := Optional(m.outcome != "", OUTCOME, m.outcome);
    var d := Optional(m.firstFailedAt != 0, FIRST_FAILED_AT, FormatTime(m.firstFailedAt));
    var e := Optional(m.parkedAt != 0, PARKED_AT, FormatTime(m.parkedAt));
    OptionalInPlace(m.eventId != "", EVENT_ID, m.eventId);
    OptionalInPlace(m.outcome != "", OUTCOME, m.outcome);
    OptionalInPlace(m.firstFailedAt != 0, FIRST_FAILED_AT, FormatTime(m.firstFailedAt));
    OptionalInPlace(m.parkedAt != 0, PARKED_AT, FormatTime(m.parkedAt));
    MiddleInPlace(m);
    InPlacesConcat(a, Middle(m), 0, 1, 4);
    InPlacesConcat(a + Middle(m), c, 0, 4, 5);
    InPlacesConcat(a + Middle(m) + c, d, 0, 5, 6);
    InPlacesConcat(a + Middle(m) + c + d, e, 0, 6, 7);
  }

  lemma NamesDiffer()
    ensures |{EVENT_ID, ROUND, OUTCOME, FAILURE_CODE, SOURCE_TOPIC, FIRST_FAILED_AT, PARKED_AT}| == 7
    ensures EVENT_ID !in [ROUND, OUTCOME, FAILURE_CODE, SOURCE_TOPIC, FIRST_FAILED_AT, PARKED_AT]
    ensures ROUND !in [OUTCOME, FAILURE_CODE, SOURCE_TOPIC, FIRST_FAILED_AT, PARKED_AT]
    ensures OUTCOME !in [FAILURE_CODE, SOURCE_TOPIC, FIRST_FAILED_AT, PARKED_AT]
    ensures FAILURE_CODE !in [SOURCE_TOPIC, FIRST_FAILED_AT, PARKED_AT]
    ensures SOURCE_TOPIC !in [FIRST_FAILED_AT, PARKED_AT]
    ensures FIRST_FAILED_AT != PARKED_AT
  {
    assert FAILURE_CODE[5] != SOURCE_TOPIC[5];
  }
}
