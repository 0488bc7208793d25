/** The local dual write: reconcile, semantic gate, allocation, row, shard line, commit. The
    process may die, or a store may fail, at every point. */
module LocalWriter {
  import opened Wrappers
  import opened Events
  import opened LocalLedger
  import opened ShardDir

  /** What survives a crash: the committed index and the shards. */
  datatype State = State(index: Index, files: Shards)

  /** `auditctl add` or `auditctl semantic-replay`. */
  datatype Request =
    | Add(ts: Timestamp, eventType: string, actor: string, summary: string, detail: Option<string>,
          refs: seq<string>, source: string, metadata: Metadata)
    | Replay(result: SemanticResult)

  /** Values drawn from the clock, the random source and the resolver. */
  datatype Draw = Draw(id: EventId, createdAt: string, context: Context, stream: StreamId)

  /** Where an attempt ends. `AppendFails` writes nothing; `SyncFails` is the append that writes the
      whole line and then fails to flush it; `CommitFails` is the commit that raises. */
  datatype Fault =
    | Reliable
    | DiesBeforeReconcile
    | DiesAfterReconcile
    | AppendFails
    | SyncFails
    | DiesBeforeCommit
    | CommitFails
  {
    /** The line lands and the commit is lost. */
    predicate LosesCommit() { SyncFails? || DiesBeforeCommit? || CommitFails? }

    /** The line lands and the attempt still reports a failure. */
    predicate FailsAfterLanding() { SyncFails? || CommitFails? }
  }

  datatype Failure =
    | InvalidEvent
    | ReconcileFailed(error: StoreError)
    | SupersedesConflict
    | KeyConflict
    | StoreFailed(error: StoreError)
    | AppendFailed
    | CommitFailed

  datatype Outcome = Added(event: Event) | Existing(row: Row) | Failed(failure: Failure) | Died

  /** The event input of a semantic result. */
  function BuildEvent(r: SemanticResult, draw: Draw): Event {
    Event(draw.id, r.extractedAt, SEMANTIC_EVENT_TYPE, SEMANTIC_ACTOR, r.statement, None,
          [r.intent.workRef], SEMANTIC_SOURCE,
          Metadata(None, Some(Revision(r.intent.workRevision)), Some(r.intent.caseId), None, Some(r),
                   Some(Sha256(r)), ""),
          draw.createdAt, Some(draw.context), None, None, None)
  }

  /** The record before allocation; `add` refuses the semantic publisher's type and source and
      `semantic-replay` refuses an invalid result. */
  function Draft(request: Request, draw: Draw): Option<Event> {
    match request
    case Add(ts, eventType, actor, summary, detail, refs, source, metadata) =>
      if eventType == SEMANTIC_EVENT_TYPE || source == SEMANTIC_SOURCE then None
      else Some(Event(draw.id, ts, eventType, actor, summary, detail, refs, source, metadata,
                      draw.createdAt, Some(draw.context), None, None, None))
    case Replay(result) =>
      if ValidResult(result) then Some(BuildEvent(result, draw)) else None
  }

  lemma DraftIsValid(request: Request, draw: Draw)
    requires Draft(request, draw).Some?
    ensures ValidEvent(Draft(request, draw).value) && !Draft(request, draw).value.Enveloped()
    ensures request.Replay? <==> IsSemantic(Draft(request, draw).value)
  {
  }

  predicate IsSemanticRow(r: Row) {
    r.eventType == SEMANTIC_EVENT_TYPE && r.source == SEMANTIC_SOURCE && r.metadata.semantic.Some?
  }

  /** The observation `prior` may be superseded by `r`. */
  predicate MaySupersede(prior: SemanticResult, r: SemanticResult) {
    && prior.intent.caseId == r.intent.caseId
    && prior.intent.workRef == r.intent.workRef
    && prior.intent.generation < r.intent.generation
  }

  predicate SupersedesOk(rows: map<EventId, Row>, r: SemanticResult) {
    r.supersedes.Some? ==>
      && r.supersedes.value in rows
      && IsSemanticRow(rows[r.supersedes.value])
      && MaySupersede(rows[r.supersedes.value].metadata.semantic.value, r)
  }

  /** The ids of the stored observations with this interpretation key. */
  function KeyMatches(rows: map<EventId, Row>, key: Sha256<Intent>): set<EventId> {
    set id | id in rows && IsSemanticRow(rows[id]) && rows[id].metadata.semantic.value.key == key
  }

  function RowPayload(r: Row): Payload {
    Payload(r.summary, r.detail, r.refs, r.source, r.metadata)
  }

  /** The payload of a stored record is read from its row. */
  lemma RowPayloadOf(e: Event)
    ensures RowPayload(ToRow(e)) == Payload(e.summary, e.detail, e.refs, e.source, e.metadata)
  {
  }

  datatype Gate = Proceed | Refuse(failure: Failure) | Duplicate(id: EventId)

  /** The semantic checks of the event transaction, in their order. */
  ghost function SemanticGate(rows: map<EventId, Row>, request: Request, draft: Event): (gate: Gate)
    ensures gate.Duplicate? ==> gate.id in rows
  {
    if !request.Replay? then Proceed
    else if !SupersedesOk(rows, request.result) then Refuse(SupersedesConflict)
    else
      var matches := KeyMatches(rows, request.result.key);
      if matches == {} then Proceed
      else if |matches| != 1 then Refuse(KeyConflict)
      else
        var id :| id in matches;
        if Sha256(RowPayload(rows[id])) != Sha256(ObservationPayload(draft)) then Refuse(KeyConflict)
        else Duplicate(id)
  }

  lemma OnlyElement<T>(s: set<T>, x: T)
    requires x in s && |s| == 1
    ensures s == {x}
  {
    assert |s - {x}| == 0;
  }

  /** A replay may answer with this stored observation: it is the only one under the key, and it
      says what the replay says. */
  predicate Answers(rows: map<EventId, Row>, result: SemanticResult, draft: Event, id: EventId) {
    && KeyMatches(rows, result.key) == {id}
    && id in rows && RowPayload(rows[id]) == ObservationPayload(draft)
  }

  /** The verdict of the gate, whatever the order of the checks: a plain add passes; a replay whose
      supersedes reference does not hold is refused; with a sound reference it passes when its key
      is unused, is answered by the observation that answers it, and is refused otherwise. */
  ghost predicate IsVerdict(rows: map<EventId, Row>, request: Request, draft: Event, gate: Gate) {
    && (gate.Proceed? <==> (request.Replay? ==>
          SupersedesOk(rows, request.result) && KeyMatches(rows, request.result.key) == {}))
    && (forall id :: gate == Duplicate(id) <==>
          request.Replay? && SupersedesOk(rows, request.result) && Answers(rows, request.result, draft, id))
    && (gate.Refuse? ==>
          && request.Replay?
          && gate.failure == (if SupersedesOk(rows, request.result) then KeyConflict else SupersedesConflict))
  }

  /** There is one verdict. */
  lemma VerdictIsGate(rows: map<EventId, Row>, request: Request, draft: Event, gate: Gate)
    ensures IsVerdict(rows, request, draft, gate) <==> gate == SemanticGate(rows, request, draft)
  {
    var chosen := SemanticGate(rows, request, draft);
    ChosenIsVerdict(rows, request, draft);
    if IsVerdict(rows, request, draft, gate) {
      assert gate.Duplicate? ==> chosen == Duplicate(gate.id);
      assert chosen.Duplicate? ==> gate == Duplicate(chosen.id);
    }
  }

  lemma ChosenIsVerdict(rows: map<EventId, Row>, request: Request, draft: Event)
    ensures IsVerdict(rows, request, draft, SemanticGate(rows, request, draft))
  {
    var chosen := SemanticGate(rows, request, draft);
    if request.Replay? {
      var matches := KeyMatches(rows, request.result.key);
      if |matches| == 1 {
        var id :| id in matches;
        OnlyElement(matches, id);
      }
      assert forall id :: matches == {id} ==> |matches| == 1;
    }
  }

  /** What an attempt reports whose line landed and whose commit was lost. */
  function LossReport(fault: Fault): Outcome {
    match fault
    case SyncFails => Failed(AppendFailed)
    case CommitFails => Failed(CommitFailed)
    case _ => Died
  }

  /** The event that the current cursor allocates. */
  function Allocated(cursor: Option<Cursor>, draft: Event, minted: StreamId): Event {
    var origin := NextOrigin(cursor, minted);
    WithEnvelope(draft, origin.stream, origin.next)
  }

  /** The event transaction on a reconciled state. */
  ghost function EventTransaction(s: State, request: Request, draft: Event, draw: Draw, fault: Fault):
    (State, Outcome)
  {
    match SemanticGate(s.index.rows, request, draft)
    case Refuse(failure) => (s, Failed(failure))
    case Duplicate(id) => (s, Existing(s.index.rows[id]))
    case Proceed =>
      var e := Allocated(s.index.cursor, draft, draw.stream);
      if !ValidEvent(e) then (s, Failed(InvalidEvent))
      else
        match Inserted(s.index.rows, e)
        case Err(error) => (s, Failed(StoreFailed(error)))
        case Ok(rows) =>
          var files := AppendLine(s.files, e);
          if fault == AppendFails then (s, Failed(AppendFailed))
          else if fault.LosesCommit() then (State(s.index, files), LossReport(fault))
          else (State(Index(rows, Some(Cursor(e.Stream(), e.SeqNo() + 1))), files), Added(e))
  }

  /** One attempt to record an event. */
  ghost function Recorded(s: State, request: Request, draw: Draw, fault: Fault): (State, Outcome) {
    var draft := Draft(request, draw);
    if draft.None? then (s, Failed(InvalidEvent))
    else if fault == DiesBeforeReconcile then (s, Died)
    else
      match Reconciled(s.index, ReadAll(s.files))
      case Err(error) => (s, Failed(ReconcileFailed(error)))
      case Ok(index) =>
        if fault == DiesAfterReconcile then (State(index, s.files), Died)
        else EventTransaction(State(index, s.files), request, draft.value, draw, fault)
  }

  /** One machine: the database and the shard directory. */
  class LocalAudit {
    const ledger: Ledger
    var files: Shards

    ghost function View(): State
      reads this, ledger
    {
      State(ledger.View(), files)
    }

    constructor ()
      ensures View() == State(EMPTY_INDEX, [])
      ensures fresh(ledger)
    {
      ledger := new Ledger();
      files := [];
    }

    /** The semantic checks, reading the rows of the open transaction. */
    method CheckGate(request: Request, draft: Event) returns (gate: Gate)
      ensures IsVerdict(ledger.rows, request, draft, gate)
    {
      if !request.Replay? {
        return Proceed;
      }
      if !SupersedesOk(ledger.rows, request.result) {
        return Refuse(SupersedesConflict);
      }
      var matches := KeyMatches(ledger.rows, request.result.key);
      if matches == {} {
        return Proceed;
      }
      if |matches| != 1 {
        return Refuse(KeyConflict);
      }
      var id :| id in matches;
      OnlyElement(matches, id);
      if Sha256(RowPayload(ledger.rows[id])) != Sha256(ObservationPayload(draft)) {
        return Refuse(KeyConflict);
      }
      gate := Duplicate(id);
    }

    /** The event transaction; every way out but the last puts the saved index back. */
    method RunEventTransaction(request: Request, draft: Event, draw: Draw, fault: Fault)
      returns (outcome: Outcome)
      modifies this, ledger
      ensures (View(), outcome) == EventTransaction(old(View()), request, draft, draw, fault)
    {
      var gate := CheckGate(request, draft);
      VerdictIsGate(View().index.rows, request, draft, gate);
      match gate {
        case Refuse(failure) => return Failed(failure);
        case Duplicate(id) => return Existing(ledger.rows[id]);
        case Proceed =>
      }
      var savedRows, savedCursor := ledger.rows, ledger.cursor;
      var stream, seqNo := ledger.AllocateOrigin(draw.stream);
      var e := WithEnvelope(draft, stream, seqNo);
      if !ValidEvent(e) {
        ledger.rows, ledger.cursor := savedRows, savedCursor;
        return Failed(InvalidEvent);
      }
      var error := ledger.InsertEvent(e);
      if error.Some? || fault == AppendFails {
        ledger.rows, ledger.cursor := savedRows, savedCursor;
        return Failed(if error.Some? then StoreFailed(error.value) else AppendFailed);
      }
      files := AppendLine(files, e);
      if fault.LosesCommit() {
        ledger.rows, ledger.cursor := savedRows, savedCursor;
        return LossReport(fault);
      }
      outcome := Added(e);
    }

    method RecordEvent(request: Request, draw: Draw, fault: Fault) returns (outcome: Outcome)
      modifies this, ledger
      ensures (View(), outcome) == Recorded(old(View()), request, draw, fault)
    {
      var draft := Draft(request, draw);
      if draft.None? {
        return Failed(InvalidEvent);
      }
      if fault == DiesBeforeReconcile {
        return Died;
      }
      var error := ledger.ReconcileShards(ReadAll(files));
      if error.Some? {
        return Failed(ReconcileFailed(error.value));
      }
      if fault == DiesAfterReconcile {
        return Died;
      }
      outcome := RunEventTransaction(request, draft.value, draw, fault);
    }
  }
}
