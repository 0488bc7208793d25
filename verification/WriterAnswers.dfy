/** What an undisturbed attempt of the local writer answers after any run, told from the lines in the
    shards and the fields of the request. */
module WriterAnswers {
  import opened Wrappers
  import opened Events
  import opened LocalLedger
  import opened ImportBatch
  import opened ShardDir
  import opened LocalWriter
  import opened WriterRuns
  import opened WriterTheorems

  ghost predicate HasLine(lines: seq<Event>, id: EventId) {
    exists e :: e in lines && e.id == id
  }

  predicate IsObservation(e: Event) {
    && e.eventType == "semantic.observation" && e.source == "semantic-consumer" && e.metadata.semantic.Some?
  }

  /** The observation that a result supersedes is among the lines, for the same case and work item,
      and of any lower generation. */
  ghost predicate Supersedable(lines: seq<Event>, r: SemanticResult) {
    r.supersedes.None? || exists e :: e in lines && IsSuperseded(e, r)
  }

  predicate IsSuperseded(e: Event, r: SemanticResult) {
    && Some(e.id) == r.supersedes && IsObservation(e)
    && e.metadata.semantic.value.intent.caseId == r.intent.caseId
    && e.metadata.semantic.value.intent.workRef == r.intent.workRef
    && e.metadata.semantic.value.intent.generation < r.intent.generation
  }

  /** The line was written for the same intent. */
  predicate SameIntent(e: Event, r: SemanticResult) {
    IsObservation(e) && e.metadata.semantic.value.intent == r.intent
  }

  /** The envelope of the next line: the stream of the lines, or the minted one, and their count. */
  function NextEnvelope(lines: seq<Event>, minted: StreamId, id: EventId, ts: Timestamp, eventType: string,
                        payload: Payload): Envelope
  {
    Envelope(
      id, 1, Observation,
      if lines != [] && lines[0].Enveloped() then lines[0].Stream() else minted, |lines| + 1,
      eventType, payload.metadata.runtimeSession, ts, payload.metadata.basisRevision, payload.metadata.correlation,
      payload.metadata.causation, payload, Sha256(payload))
  }

  // ----- lines and rows -----

  lemma RowIsLine(files: Shards, log: seq<Event>, id: EventId)
    requires WriterLog(log) && FilesOf(files, log)
    ensures id in RowsOf(log) <==> HasLine(ReadAll(files), id)
    ensures forall e :: e in ReadAll(files) ==> e.id in RowsOf(log) && RowsOf(log)[e.id] == ToRow(e)
  {
    ReadIsPermutation(files, log);
    if id in RowsOf(log) {
      var i := RowOwner(log, id);
      assert log[i] in ReadAll(files);
    }
    forall e | e in ReadAll(files) ensures e.id in RowsOf(log) && RowsOf(log)[e.id] == ToRow(e) {
      LineFacts(log, e);
    }
  }

  lemma LineOfRow(files: Shards, log: seq<Event>, id: EventId) returns (e: Event)
    requires WriterLog(log) && FilesOf(files, log) && id in RowsOf(log)
    ensures e in ReadAll(files) && e in log && e.id == id && RowsOf(log)[id] == ToRow(e)
  {
    RowIsLine(files, log, id);
    ReadIsPermutation(files, log);
    e :| e in ReadAll(files) && e.id == id;
  }

  /** The first line tells the stream, whatever the order of the days. */
  lemma FirstLine(files: Shards, log: seq<Event>)
    requires WriterLog(log) && FilesOf(files, log)
    ensures |ReadAll(files)| == |log|
    ensures log != [] ==> ReadAll(files)[0].Enveloped() && ReadAll(files)[0].Stream() == log[0].Stream()
  {
    ReadIsPermutation(files, log);
    if log != [] {
      assert ReadAll(files)[0] in ReadAll(files);
      LineFacts(log, ReadAll(files)[0]);
    }
  }

  lemma AllocatedNext(files: Shards, log: seq<Event>, draft: Event, minted: StreamId)
    requires WriterLog(log) && FilesOf(files, log)
    ensures var e := Allocated(IndexOf(log).cursor, draft, minted);
      e == draft.(envelope := Some(
        NextEnvelope(ReadAll(files), minted, draft.id, draft.ts, draft.eventType,
                     Payload(draft.summary, draft.detail, draft.refs, draft.source, draft.metadata))))
  {
    FirstLine(files, log);
  }

  // ----- add -----

  /** The line of an add: the fields of the request, what was drawn, and the next envelope. */
  function AddLine(lines: seq<Event>, ts: Timestamp, eventType: string, actor: string, summary: string,
                   detail: Option<string>, refs: seq<string>, source: string, metadata: Metadata, draw: Draw): Event
  {
    Event(draw.id, ts, eventType, actor, summary, detail, refs, source, metadata, draw.createdAt, Some(draw.context),
          Some(NextEnvelope(lines, draw.stream, draw.id, ts, eventType,
                            Payload(summary, detail, refs, source, metadata))),
          None, None)
  }

  /** What a plain add does on a log. */
  lemma DraftAnswer(s: State, log: seq<Event>, r: nat, request: Request, draft: Event, draw: Draw)
    requires Rep(s, log, r) && SemanticOk(log) && request.Add? && Draft(request, draw) == Some(draft)
    ensures var (now, outcome) := Recorded(s, request, draw, Reliable);
      if HasLine(ReadAll(s.files), draw.id) then outcome == Failed(StoreFailed(DuplicateId)) && now.files == s.files
      else
        && outcome == Added(Allocated(IndexOf(log).cursor, draft, draw.stream))
        && now.files == AppendLine(s.files, outcome.event)
  {
    RowIsLine(s.files, log, draw.id);
    AddOnLog(s, log, r, request, draw);
    AfterReconcile(s, log, r, request, draft, draw, Reliable);
    TransactionForms(State(IndexOf(log), s.files), request, draft, draw, Reliable);
  }

  /** An add after any run: refused when it claims to be an observation, or when its id is on a line;
      otherwise exactly one line with every field where it belongs. */
  lemma AddAnswer(commands: seq<Command>, ts: Timestamp, eventType: string, actor: string, summary: string,
                  detail: Option<string>, refs: seq<string>, source: string, metadata: Metadata, draw: Draw)
    ensures var s := Run(INITIAL, commands); var lines := ReadAll(s.files);
      var (now, outcome) :=
        Recorded(s, Add(ts, eventType, actor, summary, detail, refs, source, metadata), draw, Reliable);
      if eventType == "semantic.observation" || source == "semantic-consumer" then
        outcome == Failed(InvalidEvent) && now == s
      else if HasLine(lines, draw.id) then outcome == Failed(StoreFailed(DuplicateId)) && now.files == s.files
      else
        && outcome == Added(AddLine(lines, ts, eventType, actor, summary, detail, refs, source, metadata, draw))
        && now.files == AppendLine(s.files, outcome.event)
  {
    InitialRep();
    var s := Run(INITIAL, commands);
    var log, r := RunKeeps(INITIAL, [], 0, commands);
    var request := Add(ts, eventType, actor, summary, detail, refs, source, metadata);
    if Draft(request, draw).Some? {
      var draft := Draft(request, draw).value;
      DraftAnswer(s, log, r, request, draft, draw);
      AllocatedNext(s.files, log, draft, draw.stream);
    }
  }

  // ----- replay -----

  lemma SupersedesIsLine(files: Shards, log: seq<Event>, r: SemanticResult)
    requires WriterLog(log) && FilesOf(files, log)
    ensures SupersedesOk(RowsOf(log), r) <==> Supersedable(ReadAll(files), r)
  {
    if r.supersedes.Some? {
      RowIsLine(files, log, r.supersedes.value);
      if SupersedesOk(RowsOf(log), r) {
        var e := LineOfRow(files, log, r.supersedes.value);
        assert IsSuperseded(e, r);
      }
    }
  }

  lemma KeyIsIntent(e: Event, r: SemanticResult)
    requires ValidEvent(e) && r.key == Sha256(r.intent) && IsSemantic(e)
    ensures ResultOf(e).key == r.key <==> SameIntent(e, r)
  {
  }

  lemma KeyIsUnused(files: Shards, log: seq<Event>, r: SemanticResult)
    requires WriterLog(log) && AllValid(log) && FilesOf(files, log) && r.key == Sha256(r.intent)
    requires forall e :: e in ReadAll(files) ==> !SameIntent(e, r)
    ensures KeyMatches(RowsOf(log), r.key) == {}
  {
    forall id | id in RowsOf(log) && IsSemanticRow(RowsOf(log)[id])
      ensures RowsOf(log)[id].metadata.semantic.value.key != r.key
    {
      var e := LineOfRow(files, log, id);
      KeyIsIntent(e, r);
    }
  }

  lemma KeyIsUsed(files: Shards, log: seq<Event>, r: SemanticResult, e: Event)
    requires WriterLog(log) && AllValid(log) && SemanticOk(log) && FilesOf(files, log) && r.key == Sha256(r.intent)
    requires e in ReadAll(files) && SameIntent(e, r)
    ensures KeyMatches(RowsOf(log), r.key) == {e.id} && e.id in RowsOf(log) && RowsOf(log)[e.id] == ToRow(e)
  {
    ReadIsPermutation(files, log);
    var i := Position(log, e);
    KeyIsIntent(e, r);
    GateMatches(log, i);
    RowAt(log, i);
  }

  /** The payload of an observation is that of a replay exactly when it records the same result. */
  lemma PayloadIsResult(e: Event, r: SemanticResult, draw: Draw)
    requires ValidEvent(e) && IsSemantic(e)
    ensures RowPayload(ToRow(e)) == ObservationPayload(BuildEvent(r, draw)) <==> ResultOf(e) == r
  {
    ResultDeterminesPayload(e, draw);
    assert BuildEvent(r, draw).metadata.semantic == Some(r);
  }

  /** The verdict on a valid replay, in the same terms. */
  ghost predicate Verdict(lines: seq<Event>, r: SemanticResult, gate: Gate) {
    if !Supersedable(lines, r) then gate == Refuse(SupersedesConflict)
    else
      && ((forall e :: e in lines ==> !SameIntent(e, r)) ==> gate == Proceed)
      && (forall e :: e in lines && SameIntent(e, r) ==>
            gate == if e.metadata.semantic.value == r then Duplicate(e.id) else Refuse(KeyConflict))
  }

  lemma GateUsed(rows: map<EventId, Row>, r: SemanticResult, draft: Event, id: EventId)
    requires SupersedesOk(rows, r) && KeyMatches(rows, r.key) == {id} && id in rows
    ensures SemanticGate(rows, Replay(r), draft) ==
      if RowPayload(rows[id]) == ObservationPayload(draft) then Duplicate(id) else Refuse(KeyConflict)
  {
  }

  lemma GateVerdict(files: Shards, log: seq<Event>, r: SemanticResult, draw: Draw)
    requires WriterLog(log) && AllValid(log) && SemanticOk(log) && FilesOf(files, log) && ValidResult(r)
    ensures Verdict(ReadAll(files), r, SemanticGate(RowsOf(log), Replay(r), BuildEvent(r, draw)))
  {
    SupersedesIsLine(files, log, r);
    if Supersedable(ReadAll(files), r) {
      if forall e :: e in ReadAll(files) ==> !SameIntent(e, r) {
        KeyIsUnused(files, log, r);
      }
      forall e | e in ReadAll(files) && SameIntent(e, r)
        ensures SemanticGate(RowsOf(log), Replay(r), BuildEvent(r, draw)) ==
          if e.metadata.semantic.value == r then Duplicate(e.id) else Refuse(KeyConflict)
      {
        LineGate(files, log, r, draw, e);
      }
    }
  }

  lemma LineGate(files: Shards, log: seq<Event>, r: SemanticResult, draw: Draw, e: Event)
    requires WriterLog(log) && AllValid(log) && SemanticOk(log) && FilesOf(files, log) && ValidResult(r)
    requires SupersedesOk(RowsOf(log), r) && e in ReadAll(files) && SameIntent(e, r)
    ensures SemanticGate(RowsOf(log), Replay(r), BuildEvent(r, draw)) ==
      if e.metadata.semantic.value == r then Duplicate(e.id) else Refuse(KeyConflict)
  {
    KeyIsUsed(files, log, r, e);
    ReadIsPermutation(files, log);
    assert e in log;
    PayloadIsResult(e, r, draw);
    GateUsed(RowsOf(log), r, BuildEvent(r, draw), e.id);
  }

  /** The line of a replay: the projection of its result, what was drawn, and the next envelope. */
  function ReplayLine(lines: seq<Event>, r: SemanticResult, draw: Draw): Event {
    var metadata := Metadata(
      None, Some(Revision(r.intent.workRevision)), Some(r.intent.caseId), None, Some(r), Some(Sha256(r)), "");
    Event(draw.id, r.extractedAt, "semantic.observation", "auditctl-semantic-consumer", r.statement, None,
          [r.intent.workRef], "semantic-consumer", metadata, draw.createdAt, Some(draw.context),
          Some(NextEnvelope(lines, draw.stream, draw.id, r.extractedAt, "semantic.observation",
                            Payload(r.statement, None, [r.intent.workRef], "semantic-consumer", metadata))),
          None, None)
  }

  /** The answer to a replay whose result is well formed. */
  ghost predicate ReplayAnswered(s: State, r: SemanticResult, draw: Draw, now: State, outcome: Outcome) {
    var lines := ReadAll(s.files);
    if !Supersedable(lines, r) then outcome == Failed(SupersedesConflict) && now.files == s.files
    else if exists e :: e in lines && SameIntent(e, r) then
      && now.files == s.files
      && forall e :: e in lines && SameIntent(e, r) ==>
           outcome == if e.metadata.semantic.value == r then Existing(ToRow(e)) else Failed(KeyConflict)
    else if HasLine(lines, draw.id) then outcome == Failed(StoreFailed(DuplicateId)) && now.files == s.files
    else
      && outcome == Added(ReplayLine(lines, r, draw))
      && now.files == AppendLine(s.files, outcome.event)
  }

  lemma TakenId(s: State, request: Request, draft: Event, draw: Draw)
    requires SemanticGate(s.index.rows, request, draft).Proceed? && draft.id in s.index.rows
    requires ValidEvent(Allocated(s.index.cursor, draft, draw.stream))
    ensures EventTransaction(s, request, draft, draw, Reliable) == (s, Failed(StoreFailed(DuplicateId)))
  {
  }

  lemma FreeId(s: State, request: Request, draft: Event, draw: Draw)
    requires SemanticGate(s.index.rows, request, draft).Proceed? && draft.id !in s.index.rows
    requires ValidEvent(Allocated(s.index.cursor, draft, draw.stream))
    requires !HoldsOrigin(s.index.rows, Allocated(s.index.cursor, draft, draw.stream))
    ensures Appends(s.index, request, draft, draw, Reliable)
  {
  }

  lemma NewObservation(files: Shards, log: seq<Event>, r: SemanticResult, draw: Draw)
    requires WriterLog(log) && FilesOf(files, log) && ValidResult(r)
    requires SemanticGate(RowsOf(log), Replay(r), BuildEvent(r, draw)).Proceed?
    ensures var (now, outcome) :=
        EventTransaction(State(IndexOf(log), files), Replay(r), BuildEvent(r, draw), draw, Reliable);
      if draw.id in RowsOf(log) then outcome == Failed(StoreFailed(DuplicateId)) && now.files == files
      else
        && outcome == Added(ReplayLine(ReadAll(files), r, draw))
        && now.files == AppendLine(files, outcome.event)
  {
    var draft, s := BuildEvent(r, draw), State(IndexOf(log), files);
    DraftIsValid(Replay(r), draw);
    AllocatedContinues(log, draft, draw.stream);
    if draw.id in RowsOf(log) {
      TakenId(s, Replay(r), draft, draw);
    } else {
      FreeId(s, Replay(r), draft, draw);
      TransactionForms(s, Replay(r), draft, draw, Reliable);
      AllocatedNext(files, log, draft, draw.stream);
    }
  }

  /** An event transaction that the gate ends. */
  lemma GateEnds(s: State, request: Request, draft: Event, draw: Draw)
    requires !SemanticGate(s.index.rows, request, draft).Proceed?
    ensures var gate := SemanticGate(s.index.rows, request, draft);
      EventTransaction(s, request, draft, draw, Reliable) ==
        (s, if gate.Refuse? then Failed(gate.failure) else Existing(s.index.rows[gate.id]))
  {
  }

  lemma EndIsAnswer(s: State, rows: map<EventId, Row>, r: SemanticResult, draw: Draw, now: State, gate: Gate)
    requires Verdict(ReadAll(s.files), r, gate) && !gate.Proceed? && now.files == s.files
    requires gate.Duplicate? ==> gate.id in rows
    requires forall e :: e in ReadAll(s.files) ==> e.id in rows && rows[e.id] == ToRow(e)
    ensures ReplayAnswered(s, r, draw, now, if gate.Refuse? then Failed(gate.failure) else Existing(rows[gate.id]))
  {
  }

  lemma NewIsAnswer(s: State, r: SemanticResult, draw: Draw, now: State, outcome: Outcome)
    requires Verdict(ReadAll(s.files), r, Proceed)
    requires if HasLine(ReadAll(s.files), draw.id) then
        outcome == Failed(StoreFailed(DuplicateId)) && now.files == s.files
      else
        && outcome == Added(ReplayLine(ReadAll(s.files), r, draw))
        && now.files == AppendLine(s.files, outcome.event)
    ensures ReplayAnswered(s, r, draw, now, outcome)
  {
  }

  lemma ReplayOnRun(s: State, log: seq<Event>, k: nat, r: SemanticResult, draw: Draw)
    requires Rep(s, log, k) && SemanticOk(log) && ValidResult(r)
    ensures var (now, outcome) := Recorded(s, Replay(r), draw, Reliable);
      ReplayAnswered(s, r, draw, now, outcome)
  {
    var (now, outcome) := Recorded(s, Replay(r), draw, Reliable);
    var gate := SemanticGate(RowsOf(log), Replay(r), BuildEvent(r, draw));
    AfterReconcile(s, log, k, Replay(r), BuildEvent(r, draw), draw, Reliable);
    GateVerdict(s.files, log, r, draw);
    RowIsLine(s.files, log, draw.id);
    if gate.Proceed? {
      NewObservation(s.files, log, r, draw);
      NewIsAnswer(s, r, draw, now, outcome);
    } else {
      GateEnds(State(IndexOf(log), s.files), Replay(r), BuildEvent(r, draw), draw);
      EndIsAnswer(s, RowsOf(log), r, draw, now, gate);
    }
  }

  /** A replay after any run: refused when its result is malformed; a conflict when what it supersedes
      is not a line of the same case and work item with a lower generation; answered with the line of
      its intent, or a conflict if that line records another result; otherwise one new line. */
  lemma ReplayAnswer(commands: seq<Command>, r: SemanticResult, draw: Draw)
    ensures var s := Run(INITIAL, commands);
      var (now, outcome) := Recorded(s, Replay(r), draw, Reliable);
      if r.intent.generation < 1 || r.intent.workRevision < 1 || r.key != Sha256(r.intent) ||
         (r.intent.generation == 1 && r.supersedes.Some?) || (r.intent.generation > 1 && r.supersedes.None?)
      then outcome == Failed(InvalidEvent) && now == s
      else ReplayAnswered(s, r, draw, now, outcome)
  {
    InitialRep();
    var s := Run(INITIAL, commands);
    var log, k := RunKeeps(INITIAL, [], 0, commands);
    if ValidResult(r) {
      ReplayOnRun(s, log, k, r, draw);
    }
  }

  // ----- the same attempt under a fault -----

  /** What becomes of an attempt that would have written the line `e`, by its fault: the files before or
      with the line, the index as it was, reconciled or with the row, and the report. */
  ghost predicate FaultAnswered(s: State, e: Event, fault: Fault, now: State, outcome: Outcome) {
    var reconciled := Reconciled(s.index, ReadAll(s.files)) == Ok(now.index);
    match fault
    case DiesBeforeReconcile => now == s && outcome == Died
    case DiesAfterReconcile => now.files == s.files && reconciled && outcome == Died
    case AppendFails => now.files == s.files && reconciled && outcome == Failed(AppendFailed)
    case SyncFails => now.files == AppendLine(s.files, e) && reconciled && outcome == Failed(AppendFailed)
    case DiesBeforeCommit => now.files == AppendLine(s.files, e) && reconciled && outcome == Died
    case CommitFails => now.files == AppendLine(s.files, e) && reconciled && outcome == Failed(CommitFailed)
    case Reliable =>
      && now.files == AppendLine(s.files, e) && outcome == Added(e)
      && e.id in now.index.rows && now.index.rows[e.id] == ToRow(e)
      && e.Enveloped() && now.index.cursor == Some(Cursor(e.Stream(), e.SeqNo() + 1))
  }

  lemma FaultForms(s: State, request: Request, draft: Event, draw: Draw, fault: Fault, index: Index)
    requires Draft(request, draw) == Some(draft) && Reconciled(s.index, ReadAll(s.files)) == Ok(index)
    requires Appends(index, request, draft, draw, Reliable)
    ensures var (now, outcome) := Recorded(s, request, draw, fault);
      FaultAnswered(s, Allocated(index.cursor, draft, draw.stream), fault, now, outcome)
  {
  }

  /** After any run, an attempt that would add its line does this under each fault. */
  lemma FaultAnswer(commands: seq<Command>, request: Request, draw: Draw, fault: Fault)
    ensures var s := Run(INITIAL, commands);
      var outcome := Recorded(s, request, draw, Reliable).1;
      var (now, answer) := Recorded(s, request, draw, fault);
      outcome.Added? ==> FaultAnswered(s, outcome.event, fault, now, answer)
  {
    InitialRep();
    var s := Run(INITIAL, commands);
    var log, r := RunKeeps(INITIAL, [], 0, commands);
    if Recorded(s, request, draw, Reliable).1.Added? {
      Recovers(s, log, r);
      var draft := Draft(request, draw).value;
      RecordedFrom(s, request, draw, draft, IndexOf(log), Reliable);
      TransactionForms(State(IndexOf(log), s.files), request, draft, draw, Reliable);
      FaultForms(s, request, draft, draw, fault, IndexOf(log));
    }
  }

  /** An attempt that would not add a line answers the same under every fault that lets it get so far. */
  lemma OtherAnswer(commands: seq<Command>, request: Request, draw: Draw, fault: Fault)
    requires fault != DiesBeforeReconcile && fault != DiesAfterReconcile
    ensures var s := Run(INITIAL, commands);
      !Recorded(s, request, draw, Reliable).1.Added? ==>
        Recorded(s, request, draw, fault) == Recorded(s, request, draw, Reliable)
  {
    InitialRep();
    var s := Run(INITIAL, commands);
    var log, r := RunKeeps(INITIAL, [], 0, commands);
    Recovers(s, log, r);
    if Draft(request, draw).Some? {
      var draft := Draft(request, draw).value;
      RecordedFrom(s, request, draw, draft, IndexOf(log), Reliable);
      RecordedFrom(s, request, draw, draft, IndexOf(log), fault);
      TransactionForms(State(IndexOf(log), s.files), request, draft, draw, Reliable);
      StoppedEarly(State(IndexOf(log), s.files), request, draft, draw, fault);
    }
  }

  lemma StoppedEarly(s: State, request: Request, draft: Event, draw: Draw, fault: Fault)
    ensures !Appends(s.index, request, draft, draw, Reliable) ==>
      EventTransaction(s, request, draft, draw, fault) == EventTransaction(s, request, draft, draw, Reliable)
  {
  }
}
