/** The audit event: the typed record, its observation envelope, the SQLite row that stores it
    and the record identities that the local and the central ledger compare. */
module Events {
  import opened Wrappers

  type EventId = string
  type StreamId = string

  /** `day` is the rank of the shard file `events-<day>.ndjson` in the sorted shard directory. */
  datatype Timestamp = Timestamp(day: nat, clock: string)

  datatype RecordClass = Observation | Decision

  datatype Context = Context(
    repoId: string, repoRoot: string, artifactsRoot: string, publishedFrom: string,
    resolutionSource: string, streamClass: Option<string>)

  /** The fields that identify one requested analysis. */
  datatype Intent = Intent(
    generation: int, caseId: string, analysisKind: string, producerModel: Option<string>,
    profile: string, recipeDigest: string, basisRef: string, basisDigest: string,
    workRef: string, workRevision: int)

  datatype SemanticResult = SemanticResult(
    intent: Intent, key: Sha256<Intent>, statement: string, extractedAt: Timestamp,
    supersedes: Option<EventId>, usage: string)

  /** Publisher metadata: the members the envelope or the semantic rules look at, and the
      canonical text of everything else. */
  datatype Metadata = Metadata(
    runtimeSession: Option<string>, basisRevision: Option<string>, correlation: Option<string>,
    causation: Option<string>, semantic: Option<SemanticResult>,
    resultDigest: Option<Sha256<SemanticResult>>, other: string)

  datatype Payload = Payload(
    summary: string, detail: Option<string>, refs: seq<string>, source: string, metadata: Metadata)

  datatype Envelope = Envelope(
    eventId: EventId, schemaVersion: int, recordClass: RecordClass, stream: StreamId, seqNo: int,
    mappedType: string, runtimeSession: Option<string>, occurredAt: Timestamp,
    basisRevision: Option<string>, correlation: Option<string>, causation: Option<string>,
    payload: Payload, payloadDigest: Sha256<Payload>)

  /** One shard record. `recordDigest` and `idempotencyKey` are additional members that only the
      source preflight reads; the local ledger does not store them. */
  datatype Event = Event(
    id: EventId, ts: Timestamp, eventType: string, actor: string, summary: string,
    detail: Option<string>, refs: seq<string>, source: string, metadata: Metadata,
    createdAt: string, context: Option<Context>, envelope: Option<Envelope>,
    recordDigest: Option<RecordHash>, idempotencyKey: Option<string>)
  {
    predicate Enveloped() { envelope.Some? }

    function Stream(): StreamId
      requires Enveloped()
    { envelope.value.stream }

    function SeqNo(): int
      requires Enveloped()
    { envelope.value.seqNo }
  }

  const SEMANTIC_EVENT_TYPE := "semantic.observation"
  const SEMANTIC_SOURCE := "semantic-consumer"
  const SEMANTIC_ACTOR := "auditctl-semantic-consumer"

  function ObservationPayload(e: Event): Payload {
    Payload(e.summary, e.detail, e.refs, e.source, e.metadata)
  }

  /** Adds the producer envelope to a record. */
  function WithEnvelope(e: Event, stream: StreamId, seqNo: int): Event {
    e.(envelope := Some(Envelope(
      e.id, 1, Observation, stream, seqNo, e.eventType, e.metadata.runtimeSession, e.ts,
      e.metadata.basisRevision, e.metadata.correlation, e.metadata.causation,
      ObservationPayload(e), Sha256(ObservationPayload(e)))))
  }

  /** The redundant envelope members agree with the record they wrap. */
  predicate Consistent(e: Event) {
    e.Enveloped() ==>
      var v := e.envelope.value;
      && v.eventId == e.id
      && v.mappedType == e.eventType
      && v.occurredAt == e.ts
      && v.payload == ObservationPayload(e)
  }

  const DIGITS := "0123456789"

  function Digits(n: nat): string {
    if n < 10 then [DIGITS[n]] else Digits(n / 10) + [DIGITS[n % 10]]
  }

  function Decimal(s: string): int {
    if s == "" then 0 else 10 * Decimal(s[..|s| - 1]) + (s[|s| - 1] as int - '0' as int)
  }

  /** The decimal numeral of a number: digits only, without a leading zero, and read back to it. */
  lemma {:induction false} DigitsRead(n: nat)
    ensures Digits(n) != "" && (forall c :: c in Digits(n) ==> '0' <= c <= '9') && Decimal(Digits(n)) == n
    ensures Digits(n)[0] == '0' <==> n == 0
  {
    if n >= 10 {
      DigitsRead(n / 10);
      NumeralGrows(Digits(n / 10), DIGITS[n % 10]);
      assert DIGITS[n % 10] as int - '0' as int == n % 10;
    }
  }

  lemma NumeralGrows(s: string, c: char)
    requires s != ""
    ensures Decimal(s + [c]) == 10 * Decimal(s) + (c as int - '0' as int) && (s + [c])[0] == s[0]
  {
    assert (s + [c])[..|s|] == s;
  }

  /** `str(int)` */
  function Revision(n: int): string {
    if n < 0 then "-" + Digits(-n) else Digits(n)
  }

  /** A sign for negative numbers only, and the numeral of the absolute value. */
  lemma RevisionReads(n: int)
    ensures n >= 0 ==> Decimal(Revision(n)) == n && Revision(n)[0] != '-'
    ensures n < 0 ==> Revision(n)[0] == '-' && Decimal(Revision(n)[1..]) == -n
  {
    DigitsRead(if n < 0 then -n else n);
    if n < 0 {
      assert Revision(n)[1..] == Digits(-n);
    } else {
      assert Digits(n)[0] in Digits(n);
    }
  }

  /** A later generation names the observation it replaces, and only a later one. */
  predicate ValidResult(r: SemanticResult) {
    && r.intent.generation >= 1
    && r.intent.workRevision >= 1
    && (r.intent.generation == 1 <==> r.supersedes.None?)
    && r.key == Sha256(r.intent)
  }

  predicate ClaimsSemantic(e: Event) {
    e.eventType == SEMANTIC_EVENT_TYPE || e.source == SEMANTIC_SOURCE
  }

  predicate IsSemantic(e: Event) {
    && e.eventType == SEMANTIC_EVENT_TYPE
    && e.source == SEMANTIC_SOURCE
    && e.metadata.semantic.Some?
  }

  predicate ValidSemantic(e: Event) {
    && IsSemantic(e)
    && e.actor == SEMANTIC_ACTOR
    && e.detail.None?
    && ValidResult(e.metadata.semantic.value)
    && e.metadata.resultDigest == Some(Sha256(e.metadata.semantic.value))
    && e.summary == e.metadata.semantic.value.statement
    && e.ts == e.metadata.semantic.value.extractedAt
    && e.refs == [e.metadata.semantic.value.intent.workRef]
    && e.metadata.runtimeSession.None? && e.metadata.causation.None? && e.metadata.other == ""
    && e.metadata.basisRevision == Some(Revision(e.metadata.semantic.value.intent.workRevision))
    && e.metadata.correlation == Some(e.metadata.semantic.value.intent.caseId)
    && (e.Enveloped() ==> e.envelope.value.recordClass == Observation)
  }

  /** The part of `validate_event_object` that the rest of the model relies on. */
  predicate ValidEvent(e: Event) {
    && (ClaimsSemantic(e) ==> ValidSemantic(e))
    && Consistent(e)
    && (e.Enveloped() ==>
          && e.envelope.value.schemaVersion == 1
          && e.envelope.value.seqNo >= 1
          && e.envelope.value.payloadDigest == Sha256(ObservationPayload(e)))
  }

  /** What a valid semantic event says besides its result, its id and when and where it was made. */
  predicate IsProjection(e: Event, r: SemanticResult) {
    && e.eventType == "semantic.observation" && e.source == "semantic-consumer"
    && e.actor == "auditctl-semantic-consumer"
    && e.summary == r.statement && e.ts == r.extractedAt && e.detail == None && e.refs == [r.intent.workRef]
    && e.metadata == Metadata(
         None, Some(Revision(r.intent.workRevision)), Some(r.intent.caseId), None, Some(r), Some(Sha256(r)), "")
  }

  /** A result is well formed: a first generation supersedes nothing, a later one something, and its
      key is the digest of its intent. */
  predicate IsWellFormed(r: SemanticResult) {
    && r.intent.workRevision >= 1 && r.key == Sha256(r.intent)
    && (if r.supersedes.None? then r.intent.generation == 1 else r.intent.generation >= 2)
  }

  /** The envelope repeats the record, is of version 1, and carries a number and the payload's digest. */
  predicate IsEnvelopeOf(v: Envelope, e: Event) {
    && v.eventId == e.id && v.schemaVersion == 1 && v.seqNo >= 1 && v.mappedType == e.eventType
    && v.occurredAt == e.ts && v.payload == Payload(e.summary, e.detail, e.refs, e.source, e.metadata)
    && v.payloadDigest == Sha256(v.payload)
  }

  /** Exactly the valid events: a record that claims to be semantic is the projection of a well-formed
      result, filed as an observation, and an envelope is that of its record. */
  lemma ValidEvents(e: Event)
    ensures ValidEvent(e) <==>
      && (e.eventType == "semantic.observation" || e.source == "semantic-consumer" ==>
            && e.metadata.semantic.Some? && IsProjection(e, e.metadata.semantic.value)
            && IsWellFormed(e.metadata.semantic.value)
            && (e.Enveloped() ==> e.envelope.value.recordClass == Observation))
      && (e.Enveloped() ==> IsEnvelopeOf(e.envelope.value, e))
  {
  }

  /** One row of the table `audit_event`. */
  datatype Row = Row(
    id: EventId, ts: Timestamp, eventType: string, actor: string, summary: string,
    detail: Option<string>, refs: seq<string>, source: string, metadata: Metadata,
    createdAt: string, stream: Option<StreamId>, seqNo: Option<int>, schemaVersion: Option<int>,
    recordClass: Option<RecordClass>, runtimeSession: Option<string>,
    basisRevision: Option<string>, correlation: Option<string>, causation: Option<string>,
    payloadDigest: Option<Sha256<Payload>>, context: Option<Context>, streamClass: Option<string>)

  /** The nullable envelope columns are filled or empty together. */
  predicate RowWf(r: Row) {
    r.stream.Some? ==>
      r.seqNo.Some? && r.schemaVersion.Some? && r.recordClass.Some? && r.payloadDigest.Some?
  }

  function ToRow(e: Event): (r: Row)
    ensures RowWf(r)
  {
    Row(e.id, e.ts, e.eventType, e.actor, e.summary, e.detail, e.refs, e.source, e.metadata,
        e.createdAt,
        if e.Enveloped() then Some(e.Stream()) else None,
        if e.Enveloped() then Some(e.SeqNo()) else None,
        if e.Enveloped() then Some(e.envelope.value.schemaVersion) else None,
        if e.Enveloped() then Some(e.envelope.value.recordClass) else None,
        if e.Enveloped() then e.envelope.value.runtimeSession else None,
        if e.Enveloped() then e.envelope.value.basisRevision else None,
        if e.Enveloped() then e.envelope.value.correlation else None,
        if e.Enveloped() then e.envelope.value.causation else None,
        if e.Enveloped() then Some(e.envelope.value.payloadDigest) else None,
        e.context,
        if e.context.Some? then e.context.value.streamClass else None)
  }

  /** Every column of the row holds the member it is named for. */
  lemma RowColumns(e: Event)
    ensures var r := ToRow(e);
      && r.id == e.id && r.ts == e.ts && r.eventType == e.eventType && r.actor == e.actor && r.summary == e.summary
      && r.detail == e.detail && r.refs == e.refs && r.source == e.source && r.metadata == e.metadata
      && r.createdAt == e.createdAt && r.context == e.context
      && (r.streamClass.Some? <==> e.context.Some? && e.context.value.streamClass.Some?)
      && (r.streamClass.Some? ==> r.streamClass == e.context.value.streamClass)
      && (r.stream.Some? <==> e.Enveloped())
      && (e.Enveloped() ==>
            var v := e.envelope.value;
            && r.stream == Some(v.stream) && r.seqNo == Some(v.seqNo) && r.schemaVersion == Some(v.schemaVersion)
            && r.recordClass == Some(v.recordClass) && r.runtimeSession == v.runtimeSession
            && r.basisRevision == v.basisRevision && r.correlation == v.correlation && r.causation == v.causation
            && r.payloadDigest == Some(v.payloadDigest))
      && (!e.Enveloped() ==>
            && r.seqNo.None? && r.schemaVersion.None? && r.recordClass.None? && r.runtimeSession.None?
            && r.basisRevision.None? && r.correlation.None? && r.causation.None? && r.payloadDigest.None?)
  {
  }

  /** Reads an event back from its row; the redundant envelope members are rebuilt. */
  function FromRow(r: Row): Event
    requires RowWf(r)
  {
    var envelope :=
      if r.stream.None? then None
      else Some(Envelope(
        r.id, r.schemaVersion.value, r.recordClass.value, r.stream.value, r.seqNo.value,
        r.eventType, r.runtimeSession, r.ts, r.basisRevision, r.correlation, r.causation,
        Payload(r.summary, r.detail, r.refs, r.source, r.metadata), r.payloadDigest.value));
    Event(r.id, r.ts, r.eventType, r.actor, r.summary, r.detail, r.refs, r.source, r.metadata,
          r.createdAt, r.context, envelope, None, None)
  }

  /** A row as the insert statement fills it: well formed, with the derived column in step. */
  predicate StoredRow(r: Row) {
    RowWf(r) && ToRow(FromRow(r)) == r
  }

  lemma InsertedRowIsStored(e: Event)
    ensures StoredRow(ToRow(e))
  {
  }

  /** The record that the local ledger persists, as compared by import. */
  function ImportRecord(e: Event): Event {
    e.(recordDigest := None, idempotencyKey := None)
  }

  /** A record survives the trip through its row exactly when its redundant members agree. */
  lemma RowRoundTrip(e: Event)
    ensures ImportRecord(FromRow(ToRow(e))) == ImportRecord(e) <==> Consistent(e)
  {
  }

  /** For valid events the row is exactly as discriminating as the canonical import record. */
  lemma RowIdentity(a: Event, b: Event)
    requires ValidEvent(a) && ValidEvent(b)
    ensures ToRow(a) == ToRow(b) <==> ImportRecord(a) == ImportRecord(b)
  {
    RowRoundTrip(a);
    RowRoundTrip(b);
  }

  /** A stored row and an event compare equal as import records only if the row is the event's. */
  lemma StoredRecord(r: Row, e: Event)
    requires StoredRow(r)
    ensures ImportRecord(FromRow(r)) == ImportRecord(e) <==> r == ToRow(e) && Consistent(e)
  {
    RowRoundTrip(e);
    assert ToRow(ImportRecord(FromRow(r))) == r;
    assert ToRow(ImportRecord(e)) == ToRow(e);
  }

  /** The fields hashed into the central record identity. */
  datatype CentralRecord = CentralRecord(
    stream: StreamId, seqNo: int, eventId: EventId, schemaVersion: int, recordClass: RecordClass,
    eventType: string, actor: string, runtimeSession: Option<string>, occurredAt: Timestamp,
    basisRevision: Option<string>, correlation: Option<string>, causation: Option<string>,
    payload: Payload, payloadDigest: Sha256<Payload>, producerCreatedAt: string)

  /** SHA-256 over a central record, injective like every digest of the model. */
  datatype RecordHash = RecordHash(preimage: CentralRecord)

  function RecordDigest(r: CentralRecord): RecordHash { RecordHash(r) }

  /** What `str.strip` removes. */
  predicate IsSpace(c: char) {
    var n := c as int;
    9 <= n <= 13 || 28 <= n <= 32 || n == 0x85 || n == 0xA0 || n == 0x1680 ||
    0x2000 <= n <= 0x200A || n == 0x2028 || n == 0x2029 || n == 0x202F || n == 0x205F || n == 0x3000
  }

  lemma SpaceCodes(c: char)
    ensures IsSpace(c) <==> c as int in {
      0x09, 0x0A, 0x0B, 0x0C, 0x0D, 0x1C, 0x1D, 0x1E, 0x1F, 0x20, 0x85, 0xA0, 0x1680,
      0x2000, 0x2001, 0x2002, 0x2003, 0x2004, 0x2005, 0x2006, 0x2007, 0x2008, 0x2009, 0x200A,
      0x2028, 0x2029, 0x202F, 0x205F, 0x3000}
  {
  }

  predicate HasText(s: string) {
    exists i :: 0 <= i < |s| && !IsSpace(s[i])
  }

  predicate BlankFree(s: Option<string>) {
    s.Some? ==> HasText(s.value)
  }

  /** Stricter than the local validator: central text fields may not be blank. */
  function Prepare(e: Event): Option<CentralRecord> {
    if !ValidEvent(e) || !e.Enveloped() then None
    else
      var v := e.envelope.value;
      if || !HasText(v.eventId) || !HasText(v.mappedType) || !HasText(e.actor)
         || !BlankFree(v.runtimeSession) || !BlankFree(v.basisRevision)
         || !BlankFree(v.correlation) || !BlankFree(v.causation)
         || !HasText(e.createdAt)
      then None
      else
        Some(CentralRecord(
          v.stream, v.seqNo, v.eventId, 1, v.recordClass, v.mappedType, e.actor, v.runtimeSession,
          v.occurredAt, v.basisRevision, v.correlation, v.causation, v.payload, v.payloadDigest,
          e.createdAt))
  }

  /** The central record says what the event and its envelope say, member by member. */
  predicate CopiesMembers(r: CentralRecord, e: Event)
    requires e.Enveloped()
  {
    var v := e.envelope.value;
    && r.stream == v.stream && r.seqNo == v.seqNo && r.eventId == v.eventId
    && r.schemaVersion == v.schemaVersion && r.recordClass == v.recordClass && r.eventType == v.mappedType
    && r.actor == e.actor && r.runtimeSession == v.runtimeSession && r.occurredAt == v.occurredAt
    && r.basisRevision == v.basisRevision && r.correlation == v.correlation && r.causation == v.causation
    && r.payload == v.payload && r.payloadDigest == v.payloadDigest && r.producerCreatedAt == e.createdAt
  }

  /** The record that does. */
  function CopyOf(e: Event): (r: CentralRecord)
    requires e.Enveloped()
    ensures CopiesMembers(r, e)
    ensures forall q :: CopiesMembers(q, e) ==> q == r
  {
    var v := e.envelope.value;
    CentralRecord(
      stream := v.stream, seqNo := v.seqNo, eventId := v.eventId, schemaVersion := v.schemaVersion,
      recordClass := v.recordClass, eventType := v.mappedType, actor := e.actor, runtimeSession := v.runtimeSession,
      occurredAt := v.occurredAt, basisRevision := v.basisRevision, correlation := v.correlation,
      causation := v.causation, payload := v.payload, payloadDigest := v.payloadDigest,
      producerCreatedAt := e.createdAt)
  }

  /** A text that is nothing but what `str.strip` removes. */
  ghost predicate IsBlank(s: string) {
    forall c :: c in s ==> IsSpace(c)
  }

  ghost predicate IsBlankMember(s: Option<string>) {
    s.Some? && IsBlank(s.value)
  }

  lemma BlankHasNoText(s: string)
    ensures IsBlank(s) <==> !HasText(s)
  {
    if !IsBlank(s) {
      var c :| c in s && !IsSpace(c);
      var i :| 0 <= i < |s| && s[i] == c;
    }
  }

  /** Preparation copies every member, and refuses a valid envelope exactly when one of the texts it
      names is blank. */
  lemma Preparation(e: Event)
    ensures Prepare(e).Some? ==> ValidEvent(e) && e.Enveloped() && Prepare(e).value == CopyOf(e)
    ensures Prepare(e).None? <==> !ValidEvent(e) || !e.Enveloped() || HasBlankMember(e)
  {
    if e.Enveloped() {
      var v := e.envelope.value;
      BlankHasNoText(v.eventId);
      BlankHasNoText(v.mappedType);
      BlankHasNoText(e.actor);
      BlankHasNoText(e.createdAt);
      OptionalBlank(v.runtimeSession);
      OptionalBlank(v.basisRevision);
      OptionalBlank(v.correlation);
      OptionalBlank(v.causation);
    }
  }

  lemma OptionalBlank(s: Option<string>)
    ensures IsBlankMember(s) <==> !BlankFree(s)
  {
    if s.Some? { BlankHasNoText(s.value); }
  }

  ghost predicate HasBlankMember(e: Event)
    requires e.Enveloped()
  {
    var v := e.envelope.value;
    || IsBlank(v.eventId) || IsBlank(v.mappedType) || IsBlank(e.actor) || IsBlank(e.createdAt)
    || IsBlankMember(v.runtimeSession) || IsBlankMember(v.basisRevision)
    || IsBlankMember(v.correlation) || IsBlankMember(v.causation)
  }

  /** The central identity ignores exactly the members that are not central: where the write was
      resolved and the two additional members. */
  lemma CentralIdentity(a: Event, b: Event)
    requires Prepare(a).Some? && Prepare(b).Some?
    ensures RecordDigest(Prepare(a).value) == RecordDigest(Prepare(b).value)
       <==> ImportRecord(a).(context := None) == ImportRecord(b).(context := None)
  {
    RowRoundTrip(a);
    RowRoundTrip(b);
  }
}
