/** Whole runs of the central ledger: what is conserved over any sequence of calls, and what the
    calls of one producer leave behind under duplication, reordering and loss. */
module CentralRuns {
  import opened Wrappers
  import opened Events
  import opened CentralLedger

  /** The ledger and its identity sequence. */
  datatype State = State(db: Central, next: nat)

  datatype Call = Call(record: CentralRecord, receiptId: nat, now: nat)

  const INITIAL := State(EMPTY_CENTRAL, 1)

  function StampOf(s: State, c: Call): Stamp { Stamp(s.next, c.receiptId, c.now) }

  function Step(s: State, c: Call): State {
    State(Ingested(s.db, c.record, StampOf(s, c)).0,
          s.next + if Decide(s.db, c.record).Admit? then 1 else 0)
  }

  function Reply(s: State, c: Call): Result<Answer, IngestError> {
    Ingested(s.db, c.record, StampOf(s, c)).1
  }

  /** The state after all the calls. */
  function Run(calls: seq<Call>): State {
    if calls == [] then INITIAL else Step(Run(calls[..|calls| - 1]), calls[|calls| - 1])
  }

  function ReplyAt(calls: seq<Call>, i: nat): Result<Answer, IngestError>
    requires i < |calls|
  {
    Reply(Run(calls[..i]), calls[i])
  }

  ghost predicate StateOk(s: State) {
    CentralOk(s.db) && OffsetsBelow(s.db, s.next)
  }

  lemma {:induction false} RunsStayOk(calls: seq<Call>)
    ensures StateOk(Run(calls))
  {
    if calls != [] {
      var before, c := Run(calls[..|calls| - 1]), calls[|calls| - 1];
      RunsStayOk(calls[..|calls| - 1]);
      IngestValid(before.db, c.record, StampOf(before, c));
    }
  }

  lemma RunStep(calls: seq<Call>, i: nat)
    requires i < |calls|
    ensures Run(calls[..i + 1]) == Step(Run(calls[..i]), calls[i])
  {
    assert calls[..i + 1][..i] == calls[..i];
  }

  // ----- conservation -----

  /** The calls that the receipts of a stream account for, up to a number. */
  function Accounted(db: Central, stream: StreamId, upTo: nat): nat {
    if upTo == 0 then 0
    else
      Accounted(db, stream, upTo - 1) +
      if (stream, upTo) in db.receipts then 1 + db.receipts[(stream, upTo)].duplicateCount else 0
  }

  /** The calls on a stream that were answered with a receipt. */
  function Answered(calls: seq<Call>, stream: StreamId): nat {
    if calls == [] then 0
    else
      var last := |calls| - 1;
      Answered(calls[..last], stream) +
      if calls[last].record.stream == stream && ReplyAt(calls, last).Ok? then 1 else 0
  }

  lemma {:induction false} AccountedFrame(a: Central, b: Central, stream: StreamId, upTo: nat)
    requires forall q :: 1 <= q <= upTo ==>
      (((stream, q) in a.receipts <==> (stream, q) in b.receipts) &&
      ((stream, q) in a.receipts ==>
        a.receipts[(stream, q)].duplicateCount == b.receipts[(stream, q)].duplicateCount))
    ensures Accounted(a, stream, upTo) == Accounted(b, stream, upTo)
  {
    if upTo > 0 {
      AccountedFrame(a, b, stream, upTo - 1);
    }
  }

  lemma {:induction false} AccountedRepeat(a: Central, b: Central, origin: Origin, now: nat, upTo: nat)
    requires origin in a.receipts && 1 <= origin.1 <= upTo
    requires b.receipts == a.receipts[origin := Seen(a.receipts[origin], now)]
    ensures Accounted(b, origin.0, upTo) == Accounted(a, origin.0, upTo) + 1
  {
    if origin.1 == upTo {
      AccountedFrame(a, b, origin.0, upTo - 1);
    } else {
      AccountedRepeat(a, b, origin, now, upTo - 1);
    }
  }

  function Total(db: Central, stream: StreamId): nat {
    Accounted(db, stream, Highest(db, stream))
  }

  lemma RepeatAccounts(db: Central, r: CentralRecord, stamp: Stamp, stream: StreamId)
    requires CentralOk(db) && Decide(db, r).Repeat?
    ensures Total(Ingested(db, r, stamp).0, stream)
         == Total(db, stream) + if r.stream == stream then 1 else 0
  {
    var after := Ingested(db, r, stamp).0;
    KnownStream(db, r);
    assert OriginOf(r) in db.observations;
    if r.stream == stream {
      AccountedRepeat(db, after, OriginOf(r), stamp.now, Highest(db, stream));
    } else {
      AccountedFrame(db, after, stream, Highest(db, stream));
    }
  }

  lemma AdmitAccounts(db: Central, r: CentralRecord, stamp: Stamp, stream: StreamId)
    requires Decide(db, r).Admit?
    ensures Total(Admitted(db, r, stamp), stream)
         == Total(db, stream) + if r.stream == stream then 1 else 0
  {
    AccountedFrame(db, Admitted(db, r, stamp), stream, Highest(db, stream));
  }

  /** Nothing is lost and nothing counted twice: over any calls at all, each receipt of a stream
      stands for one admitted call and its duplicates, and together they are all the calls on the
      stream that were answered with a receipt. */
  lemma {:induction false} ReceiptsAccountForCalls(calls: seq<Call>, stream: StreamId)
    ensures Total(Run(calls).db, stream) == Answered(calls, stream)
  {
    if calls != [] {
      var last := |calls| - 1;
      var before, c := Run(calls[..last]), calls[last];
      ReceiptsAccountForCalls(calls[..last], stream);
      RunsStayOk(calls[..last]);
      match Decide(before.db, c.record)
      case Repeat => RepeatAccounts(before.db, c.record, StampOf(before, c), stream);
      case Admit => AdmitAccounts(before.db, c.record, StampOf(before, c), stream);
      case Refuse(_) =>
    }
  }

  // ----- receipts never change -----

  /** The part of a receipt that a retry may not change. */
  predicate SameReceipt(a: Receipt, b: Receipt) {
    && a.receiptId == b.receiptId && a.offset == b.offset && a.eventId == b.eventId
    && a.digest == b.digest && a.firstReceivedAt == b.firstReceivedAt
  }

  predicate Kept(db: Central, after: Central, origin: Origin) {
    origin in db.receipts ==>
      origin in after.receipts && SameReceipt(db.receipts[origin], after.receipts[origin])
  }

  lemma StepKeepsReceipt(s: State, c: Call, origin: Origin)
    ensures Kept(s.db, Step(s, c).db, origin)
  {
  }

  lemma {:induction false} RunKeepsReceipt(calls: seq<Call>, i: nat, j: nat, origin: Origin)
    requires i <= j <= |calls|
    ensures Kept(Run(calls[..i]).db, Run(calls[..j]).db, origin)
  {
    if i < j {
      RunKeepsReceipt(calls, i, j - 1, origin);
      RunStep(calls, j - 1);
      StepKeepsReceipt(Run(calls[..j - 1]), calls[j - 1], origin);
    }
  }

  lemma AnsweredIsKept(s: State, c: Call)
    requires Reply(s, c).Ok?
    ensures var o := OriginOf(c.record);
      o in Step(s, c).db.receipts && Step(s, c).db.receipts[o] == Reply(s, c).value.receipt
  {
  }

  lemma AnsweredDigest(s: State, c: Call)
    requires Reply(s, c).Ok?
    ensures Reply(s, c).value.receipt.digest == RecordDigest(c.record)
  {
  }

  /** Once a record has its receipt, every later submission of the same record returns that
      receipt as a duplicate, and every different record under its origin tuple is a conflict:
      whatever other calls come in between. */
  lemma RetriesReturnTheReceipt(calls: seq<Call>, i: nat, j: nat)
    requires i < j < |calls| && ReplyAt(calls, i).Ok?
    requires OriginOf(calls[i].record) == OriginOf(calls[j].record)
    ensures calls[i].record == calls[j].record ==>
      && ReplyAt(calls, j).Ok? && ReplyAt(calls, j).value.duplicate
      && SameReceipt(ReplyAt(calls, i).value.receipt, ReplyAt(calls, j).value.receipt)
    ensures calls[i].record != calls[j].record ==> ReplyAt(calls, j) == Err(Conflict)
  {
    var o := OriginOf(calls[i].record);
    AnsweredIsKept(Run(calls[..i]), calls[i]);
    AnsweredDigest(Run(calls[..i]), calls[i]);
    RunStep(calls, i);
    RunKeepsReceipt(calls, i + 1, j, o);
  }

  // ----- one producer -----

  /** What a producer has under each of its numbers, from 1 on: a record, or an event that it holds
      but cannot submit. */
  type ProducerLog = seq<Option<CentralRecord>>

  /** The records carry their stream and number, and their event ids are distinct. */
  ghost predicate IsLog(log: ProducerLog, stream: StreamId) {
    && (forall i :: 0 <= i < |log| && log[i].Some? ==> OriginOf(log[i].value) == (stream, i + 1))
    && forall i, j | 0 <= i < j < |log| && log[i].Some? && log[j].Some? ::
         log[i].value.eventId != log[j].value.eventId
  }

  ghost predicate UsesId(log: ProducerLog, id: EventId) {
    exists i :: 0 <= i < |log| && log[i].Some? && log[i].value.eventId == id
  }

  /** Calls on the stream come from its log; no other call uses an id of the log. */
  ghost predicate Honours(log: ProducerLog, stream: StreamId, r: CentralRecord) {
    if r.stream == stream then Some(r) in log else !UsesId(log, r.eventId)
  }

  ghost predicate AllHonour(log: ProducerLog, stream: StreamId, calls: seq<Call>) {
    forall i :: 0 <= i < |calls| ==> Honours(log, stream, calls[i].record)
  }

  /** The stored stream is the prefix of the log as long as its cursor. */
  ghost predicate StoredPrefix(db: Central, stream: StreamId, log: ProducerLog) {
    && Highest(db, stream) <= |log|
    && forall q :: 1 <= q <= Highest(db, stream) ==>
         (stream, q) in db.observations && Some(db.observations[(stream, q)].record) == log[q - 1]
  }

  ghost predicate OthersAvoid(db: Central, stream: StreamId, log: ProducerLog) {
    forall o :: o in db.observations && o.0 != stream ==> !UsesId(log, db.observations[o].record.eventId)
  }

  lemma IdIsFree(db: Central, stream: StreamId, log: ProducerLog, k: nat)
    requires IsLog(log, stream) && CentralOk(db)
    requires StoredPrefix(db, stream, log) && OthersAvoid(db, stream, log)
    requires Highest(db, stream) <= k < |log| && log[k].Some?
    ensures !EventIdTaken(db, log[k].value.eventId)
  {
    forall o | o in db.observations
      ensures db.observations[o].record.eventId != log[k].value.eventId
    {
      if o.0 == stream {
        assert o == (stream, o.1) && Some(db.observations[o].record) == log[o.1 - 1];
      } else {
        assert UsesId(log, log[k].value.eventId);
      }
    }
  }

  lemma StoredDigest(db: Central, stream: StreamId, log: ProducerLog, k: nat)
    requires CentralOk(db) && StoredPrefix(db, stream, log) && k < Highest(db, stream)
    ensures log[k].Some? && (stream, k + 1) in db.receipts
    ensures db.receipts[(stream, k + 1)].digest == RecordDigest(log[k].value)
  {
    assert (stream, k + 1) in db.observations;
  }

  /** The decision about the record at a place of the log depends on the cursor alone. */
  lemma DecideFromLog(db: Central, stream: StreamId, log: ProducerLog, k: nat)
    requires IsLog(log, stream) && CentralOk(db)
    requires StoredPrefix(db, stream, log) && OthersAvoid(db, stream, log) && k < |log| && log[k].Some?
    ensures var h := Highest(db, stream);
      Decide(db, log[k].value) ==
        if k < h then Repeat
        else if k == h then Admit
        else Refuse(Gap(stream, h + 1, k + 1))
  {
    if k < Highest(db, stream) {
      StoredDigest(db, stream, log, k);
    } else {
      IdIsFree(db, stream, log, k);
      assert (stream, k + 1) !in db.observations;
    }
  }

  lemma AdmitExtendsPrefix(db: Central, r: CentralRecord, stamp: Stamp, stream: StreamId, log: ProducerLog)
    requires StoredPrefix(db, stream, log)
    requires r.stream == stream ==>
      Highest(db, stream) < |log| && Some(r) == log[Highest(db, stream)] && r.seqNo == Highest(db, stream) + 1
    ensures StoredPrefix(Admitted(db, r, stamp), stream, log)
  {
  }

  lemma RefusalKeepsPrefix(db: Central, r: CentralRecord, stamp: Stamp, stream: StreamId, log: ProducerLog)
    requires StoredPrefix(db, stream, log) && !Decide(db, r).Admit?
    ensures StoredPrefix(Ingested(db, r, stamp).0, stream, log)
  {
  }

  lemma IngestKeepsPrefix(db: Central, r: CentralRecord, stamp: Stamp, stream: StreamId, log: ProducerLog)
    requires CentralOk(db) && IsLog(log, stream) && Honours(log, stream, r)
    requires StoredPrefix(db, stream, log) && OthersAvoid(db, stream, log)
    ensures StoredPrefix(Ingested(db, r, stamp).0, stream, log)
  {
    if !Decide(db, r).Admit? {
      RefusalKeepsPrefix(db, r, stamp, stream, log);
    } else {
      if r.stream == stream {
        var k :| 0 <= k < |log| && log[k] == Some(r);
        DecideFromLog(db, stream, log, k);
      }
      AdmitExtendsPrefix(db, r, stamp, stream, log);
    }
  }

  lemma IngestKeepsOthers(db: Central, r: CentralRecord, stamp: Stamp, stream: StreamId, log: ProducerLog)
    requires Honours(log, stream, r) && OthersAvoid(db, stream, log)
    ensures OthersAvoid(Ingested(db, r, stamp).0, stream, log)
  {
  }

  lemma {:induction false} RunKeepsPrefix(calls: seq<Call>, stream: StreamId, log: ProducerLog)
    requires IsLog(log, stream) && AllHonour(log, stream, calls)
    ensures StoredPrefix(Run(calls).db, stream, log) && OthersAvoid(Run(calls).db, stream, log)
  {
    if calls != [] {
      var last := |calls| - 1;
      RunKeepsPrefix(calls[..last], stream, log);
      RunsStayOk(calls[..last]);
      var s, c := Run(calls[..last]), calls[last];
      IngestKeepsPrefix(s.db, c.record, StampOf(s, c), stream, log);
      IngestKeepsOthers(s.db, c.record, StampOf(s, c), stream, log);
    }
  }

  /** The answer owed to a record that is at or below, next to, or beyond the cursor. */
  ghost predicate OwedAnswer(db: Central, r: CentralRecord, reply: Result<Answer, IngestError>) {
    var h := Highest(db, r.stream);
    if r.seqNo <= h then
      && reply.Ok? && reply.value.duplicate
      && OriginOf(r) in db.receipts && SameReceipt(reply.value.receipt, db.receipts[OriginOf(r)])
    else if r.seqNo == h + 1 then reply.Ok? && !reply.value.duplicate
    else reply == Err(Gap(r.stream, h + 1, r.seqNo))
  }

  lemma AnsweredFromLog(s: State, c: Call, stream: StreamId, log: ProducerLog, k: nat)
    requires StateOk(s) && IsLog(log, stream) && k < |log| && log[k] == Some(c.record)
    requires StoredPrefix(s.db, stream, log) && OthersAvoid(s.db, stream, log)
    ensures OwedAnswer(s.db, c.record, Reply(s, c))
    ensures Highest(Step(s, c).db, stream)
         == Highest(s.db, stream) + if c.record.seqNo == Highest(s.db, stream) + 1 then 1 else 0
  {
    assert OriginOf(log[k].value) == (stream, k + 1);
    DecideFromLog(s.db, stream, log, k);
    DecisionOwes(s, c);
  }

  /** What each decision answers and does to the cursor. */
  lemma DecisionOwes(s: State, c: Call)
    requires var h := Highest(s.db, c.record.stream);
      Decide(s.db, c.record) ==
        if c.record.seqNo <= h then Repeat
        else if c.record.seqNo == h + 1 then Admit
        else Refuse(Gap(c.record.stream, h + 1, c.record.seqNo))
    ensures OwedAnswer(s.db, c.record, Reply(s, c))
    ensures Highest(Step(s, c).db, c.record.stream)
         == Highest(s.db, c.record.stream) +
            if c.record.seqNo == Highest(s.db, c.record.stream) + 1 then 1 else 0
  {
  }

  /** One producer, any network: however its records are duplicated, reordered and lost, and
      whatever others submit meanwhile, the stored stream is a prefix of its log, every call is
      answered from the cursor alone, and there is never a conflict. */
  lemma ProducerIsStoredAsPrefix(calls: seq<Call>, stream: StreamId, log: ProducerLog, i: nat)
    requires IsLog(log, stream) && AllHonour(log, stream, calls)
    requires i < |calls| && calls[i].record.stream == stream
    ensures StoredPrefix(Run(calls[..i]).db, stream, log)
    ensures OwedAnswer(Run(calls[..i]).db, calls[i].record, ReplyAt(calls, i))
    ensures Highest(Run(calls[..i + 1]).db, stream)
         == Highest(Run(calls[..i]).db, stream) +
            if calls[i].record.seqNo == Highest(Run(calls[..i]).db, stream) + 1 then 1 else 0
  {
    RunsStayOk(calls[..i]);
    RunKeepsPrefix(calls[..i], stream, log);
    assert Honours(log, stream, calls[i].record);
    var k :| 0 <= k < |log| && log[k] == Some(calls[i].record);
    RunStep(calls, i);
    AnsweredFromLog(Run(calls[..i]), calls[i], stream, log, k);
  }

  lemma StoredIsPresent(db: Central, stream: StreamId, log: ProducerLog, k: nat)
    requires StoredPrefix(db, stream, log)
    ensures k < Highest(db, stream) ==> log[k].Some?
  {
    if k < Highest(db, stream) {
      assert (stream, k + 1) in db.observations;
    }
  }

  /** The stored stream never gets past a number without a record: it stops before the first of
      them, and every record beyond it is answered with a gap. */
  lemma StopsBeforeMissing(calls: seq<Call>, stream: StreamId, log: ProducerLog, missing: nat, i: nat)
    requires IsLog(log, stream) && AllHonour(log, stream, calls)
    requires missing < |log| && log[missing].None? && i <= |calls|
    ensures Highest(Run(calls[..i]).db, stream) <= missing
    ensures i < |calls| && calls[i].record.stream == stream && calls[i].record.seqNo > missing + 1 ==>
      ReplyAt(calls, i) == Err(Gap(stream, Highest(Run(calls[..i]).db, stream) + 1, calls[i].record.seqNo))
  {
    RunKeepsPrefix(calls[..i], stream, log);
    StoredIsPresent(Run(calls[..i]).db, stream, log, missing);
    if i < |calls| && calls[i].record.stream == stream {
      ProducerIsStoredAsPrefix(calls, stream, log, i);
    }
  }
}
