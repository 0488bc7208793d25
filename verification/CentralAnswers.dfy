/** The answers of the central ledger told from the calls before them and their answers alone: no
    table, no decision and no cursor appears in what a caller is owed. */
module CentralAnswers {
  import opened Wrappers
  import opened Events
  import opened CentralLedger
  import CentralRuns
  import CentralConcurrency

  /** A record that was submitted, what the server drew for it, and the answer. */
  datatype Exchange = Exchange(record: CentralRecord, stamp: Stamp, answer: Result<Answer, IngestError>)

  type Log = seq<Exchange>

  predicate SameTuple(a: CentralRecord, b: CentralRecord) {
    a.stream == b.stream && a.seqNo == b.seqNo
  }

  /** The call was answered with the receipt of a new observation. */
  predicate IsFirst(x: Exchange) { x.answer.Ok? && !x.answer.value.duplicate }

  /** The new observations of a stream. */
  function Admissions(log: Log, stream: StreamId): nat {
    if log == [] then 0
    else
      var x := log[|log| - 1];
      Admissions(log[..|log| - 1], stream) + if IsFirst(x) && x.record.stream == stream then 1 else 0
  }

  /** The calls for a record that were answered with its receipt. */
  function Copies(log: Log, r: CentralRecord): nat {
    if log == [] then 0
    else
      var x := log[|log| - 1];
      Copies(log[..|log| - 1], r) + if x.answer.Ok? && x.record == r then 1 else 0
  }

  /** When the last of them was made. */
  function LastSeen(log: Log, r: CentralRecord): nat {
    if log == [] then 0
    else
      var x := log[|log| - 1];
      if x.answer.Ok? && x.record == r then x.stamp.now else LastSeen(log[..|log| - 1], r)
  }

  /** The record got its first receipt in the call `i`. */
  predicate AdmittedAt(log: Log, i: nat, r: CentralRecord) {
    i < |log| && IsFirst(log[i]) && log[i].record == r
  }

  ghost predicate Known(log: Log, r: CentralRecord) {
    exists i: nat :: AdmittedAt(log, i, r)
  }

  /** Some answered call used the tuple or the event id of the record. */
  ghost predicate Used(log: Log, r: CentralRecord) {
    exists i: nat :: i < |log| && Uses(log[i], r)
  }

  predicate Uses(x: Exchange, r: CentralRecord) {
    x.answer.Ok? && (SameTuple(x.record, r) || x.record.eventId == r.eventId)
  }

  /** The receipt of a record admitted in the call `i`, after the calls of the log. */
  function ReceiptFor(log: Log, i: nat, r: CentralRecord): Receipt
    requires i < |log|
  {
    Receipt(log[i].stamp.receiptId, log[i].stamp.offset, r.eventId, RecordHash(r), log[i].stamp.now,
            LastSeen(log, r), if Copies(log, r) >= 1 then Copies(log, r) - 1 else 0)
  }

  /** What a call is owed after the calls of the log: a known record the receipt of its admission,
      seen once more and now; otherwise a used tuple or id a conflict; otherwise the next number of
      its stream admission, and any other number a gap. */
  ghost predicate Owed(log: Log, x: Exchange) {
    var r, next := x.record, Admissions(log, x.record.stream) + 1;
    if Known(log, r) then
      && x.answer.Ok? && x.answer.value.duplicate
      && (forall i: nat :: AdmittedAt(log, i, r) ==>
            x.answer.value.receipt == Receipt(
              log[i].stamp.receiptId, log[i].stamp.offset, r.eventId, RecordHash(r), log[i].stamp.now,
              x.stamp.now, Copies(log, r)))
    else if Used(log, r) then x.answer == Err(Conflict)
    else if r.seqNo != next then x.answer == Err(Gap(r.stream, next, r.seqNo))
    else
      x.answer == Ok(Answer(
        Receipt(x.stamp.receiptId, x.stamp.offset, r.eventId, RecordHash(r), x.stamp.now, x.stamp.now, 0), false))
  }

  // ----- the ledger behind a log -----

  function LedgerOf(log: Log): Central {
    if log == [] then EMPTY_CENTRAL
    else
      var x := log[|log| - 1];
      Ingested(LedgerOf(log[..|log| - 1]), x.record, x.stamp).0
  }

  /** The answers are those of the transaction, from states that keep the invariant. */
  ghost predicate Served(log: Log) {
    forall k | 0 <= k < |log| :: ServedAt(log, k)
  }

  ghost predicate ServedAt(log: Log, k: nat)
    requires k < |log|
  {
    && CentralOk(LedgerOf(log[..k]))
    && log[k].answer == Ingested(LedgerOf(log[..k]), log[k].record, log[k].stamp).1
  }

  /** Every answered record is stored under its tuple. */
  ghost predicate Stores(db: Central, log: Log) {
    forall i | 0 <= i < |log| && log[i].answer.Ok? :: StoresAt(db, log[i])
  }

  ghost predicate StoresAt(db: Central, x: Exchange) {
    var o := (x.record.stream, x.record.seqNo);
    o in db.observations && db.observations[o].record == x.record
  }

  /** Every stored record was admitted in some call, and its row and receipt tell of that call. */
  ghost predicate Stems(db: Central, log: Log) {
    forall o | o in db.observations :: exists i: nat :: StemsFrom(db, log, o, i)
  }

  ghost predicate StemsFrom(db: Central, log: Log, o: Origin, i: nat)
    requires o in db.observations
  {
    var r := db.observations[o].record;
    && AdmittedAt(log, i, r) && Copies(log, r) >= 1
    && (r.stream, r.seqNo) == o && db.observations[o].offset == log[i].stamp.offset
    && o in db.receipts && db.receipts[o] == ReceiptFor(log, i, r)
  }

  ghost predicate Counts(db: Central, log: Log) {
    forall stream :: Highest(db, stream) == Admissions(log, stream)
  }

  /** A record has one admission. */
  ghost predicate AdmittedOnce(log: Log) {
    forall i, j | 0 <= i < |log| && 0 <= j < |log| && IsFirst(log[i]) && IsFirst(log[j]) &&
      SameTuple(log[i].record, log[j].record) :: i == j
  }

  ghost predicate Tells(db: Central, log: Log) {
    Stores(db, log) && Stems(db, log) && Counts(db, log) && AdmittedOnce(log)
  }

  // ----- one more call -----

  lemma More(log: Log, x: Exchange, stream: StreamId, r: CentralRecord)
    ensures Admissions(log + [x], stream)
         == Admissions(log, stream) + if IsFirst(x) && x.record.stream == stream then 1 else 0
    ensures Copies(log + [x], r) == Copies(log, r) + if x.answer.Ok? && x.record == r then 1 else 0
    ensures LastSeen(log + [x], r) == if x.answer.Ok? && x.record == r then x.stamp.now else LastSeen(log, r)
  {
    assert (log + [x])[..|log|] == log;
  }

  lemma AdmittedStays(log: Log, x: Exchange, i: nat, r: CentralRecord)
    requires AdmittedAt(log, i, r)
    ensures AdmittedAt(log + [x], i, r)
  {
  }

  /** A record is known from the log exactly when it is the one stored under its tuple. */
  lemma KnownIsStored(db: Central, log: Log, r: CentralRecord)
    requires Stores(db, log) && Stems(db, log)
    ensures Known(log, r) <==> OriginOf(r) in db.observations && db.observations[OriginOf(r)].record == r
  {
    if Known(log, r) {
      var i: nat :| AdmittedAt(log, i, r);
      assert StoresAt(db, log[i]);
    }
    if OriginOf(r) in db.observations && db.observations[OriginOf(r)].record == r {
      var i: nat :| StemsFrom(db, log, OriginOf(r), i);
      assert AdmittedAt(log, i, r);
    }
  }

  lemma TakenIsUsed(db: Central, log: Log, r: CentralRecord, o: Origin)
    requires Stems(db, log) && o in db.observations
    requires o == OriginOf(r) || db.observations[o].record.eventId == r.eventId
    ensures Used(log, r)
  {
    var i: nat :| StemsFrom(db, log, o, i);
    assert Uses(log[i], r);
  }

  lemma UseIsTaken(db: Central, log: Log, r: CentralRecord)
    requires Stores(db, log) && Used(log, r)
    ensures OriginOf(r) in db.observations || EventIdTaken(db, r.eventId)
  {
    var i: nat :| i < |log| && Uses(log[i], r);
    assert StoresAt(db, log[i]);
  }

  /** Its tuple or id is used exactly when a stored record has one of them. */
  lemma UsedIsTaken(db: Central, log: Log, r: CentralRecord)
    requires Stores(db, log) && Stems(db, log)
    ensures Used(log, r) <==> OriginOf(r) in db.observations || EventIdTaken(db, r.eventId)
  {
    if Used(log, r) {
      UseIsTaken(db, log, r);
    }
    if OriginOf(r) in db.observations {
      TakenIsUsed(db, log, r, OriginOf(r));
    }
    if EventIdTaken(db, r.eventId) {
      var o :| o in db.observations && db.observations[o].record.eventId == r.eventId;
      TakenIsUsed(db, log, r, o);
    }
  }

  lemma ReceiptTells(db: Central, log: Log, r: CentralRecord, i: nat)
    requires Tells(db, log) && AdmittedAt(log, i, r)
    ensures OriginOf(r) in db.receipts && db.receipts[OriginOf(r)] == ReceiptFor(log, i, r) && Copies(log, r) >= 1
  {
    assert StoresAt(db, log[i]);
    var j: nat :| StemsFrom(db, log, OriginOf(r), j);
  }

  lemma OwedRepeat(db: Central, log: Log, x: Exchange)
    requires CentralOk(db) && Tells(db, log) && Known(log, x.record)
    requires x.answer == Ingested(db, x.record, x.stamp).1
    ensures Decide(db, x.record).Repeat? && Owed(log, x)
  {
    KnownIsStored(db, log, x.record);
    forall i: nat | AdmittedAt(log, i, x.record)
      ensures x.answer.value.receipt == Receipt(
        log[i].stamp.receiptId, log[i].stamp.offset, x.record.eventId, RecordHash(x.record), log[i].stamp.now,
        x.stamp.now, Copies(log, x.record))
    {
      ReceiptTells(db, log, x.record, i);
    }
  }

  lemma StoredDigest(db: Central, r: CentralRecord)
    requires CentralOk(db)
    ensures OriginOf(r) in db.receipts <==> OriginOf(r) in db.observations
    ensures OriginOf(r) in db.receipts ==>
      (db.receipts[OriginOf(r)].digest == RecordDigest(r) <==> db.observations[OriginOf(r)].record == r)
  {
  }

  lemma OwedOther(db: Central, log: Log, x: Exchange)
    requires CentralOk(db) && Tells(db, log) && !Known(log, x.record)
    requires x.answer == Ingested(db, x.record, x.stamp).1
    ensures Owed(log, x)
  {
    KnownIsStored(db, log, x.record);
    UsedIsTaken(db, log, x.record);
    StoredDigest(db, x.record);
  }

  lemma OneIsOwed(db: Central, log: Log, x: Exchange)
    requires CentralOk(db) && Tells(db, log)
    requires x.answer == Ingested(db, x.record, x.stamp).1
    ensures Owed(log, x)
  {
    if Known(log, x.record) { OwedRepeat(db, log, x); } else { OwedOther(db, log, x); }
  }

  // ----- the log goes on telling of the ledger -----

  lemma StoresMore(db: Central, after: Central, log: Log, x: Exchange)
    requires Stores(db, log) && (x.answer.Ok? ==> StoresAt(after, x))
    requires forall o :: o in db.observations ==> o in after.observations && after.observations[o] == db.observations[o]
    ensures Stores(after, log + [x])
  {
    forall i | 0 <= i < |log + [x]| && (log + [x])[i].answer.Ok? ensures StoresAt(after, (log + [x])[i]) {
      if i < |log| { assert StoresAt(db, log[i]); }
    }
  }

  /** A row whose record the call was not answered for. */
  lemma StemStays(db: Central, after: Central, log: Log, x: Exchange, o: Origin)
    requires Stems(db, log) && o in db.observations && o in after.observations
    requires after.observations[o] == db.observations[o]
    requires o in db.receipts ==> o in after.receipts && after.receipts[o] == db.receipts[o]
    requires x.answer.Ok? ==> x.record != db.observations[o].record
    ensures exists i: nat :: StemsFrom(after, log + [x], o, i)
  {
    var i: nat :| StemsFrom(db, log, o, i);
    AdmittedStays(log, x, i, db.observations[o].record);
    More(log, x, "", db.observations[o].record);
    assert StemsFrom(after, log + [x], o, i);
  }

  lemma RefusedTells(db: Central, log: Log, x: Exchange)
    requires Tells(db, log) && x.answer.Err?
    ensures Tells(db, log + [x])
  {
    StoresMore(db, db, log, x);
    forall o | o in db.observations ensures exists i: nat :: StemsFrom(db, log + [x], o, i) {
      StemStays(db, db, log, x, o);
    }
    forall stream ensures Highest(db, stream) == Admissions(log + [x], stream) {
      More(log, x, stream, x.record);
    }
  }

  lemma SeenStem(db: Central, log: Log, x: Exchange)
    requires CentralOk(db) && Tells(db, log) && Decide(db, x.record).Repeat?
    requires x.answer == Ingested(db, x.record, x.stamp).1
    ensures var o, after := OriginOf(x.record), Ingested(db, x.record, x.stamp).0;
      o in after.observations && exists i: nat :: StemsFrom(after, log + [x], o, i)
  {
    var r, o, after := x.record, OriginOf(x.record), Ingested(db, x.record, x.stamp).0;
    StoredDigest(db, r);
    var i: nat :| StemsFrom(db, log, o, i);
    AdmittedStays(log, x, i, r);
    More(log, x, "", r);
    assert StemsFrom(after, log + [x], o, i);
  }

  lemma RepeatStems(db: Central, log: Log, x: Exchange)
    requires CentralOk(db) && Tells(db, log) && Decide(db, x.record).Repeat?
    requires x.answer == Ingested(db, x.record, x.stamp).1
    ensures Stems(Ingested(db, x.record, x.stamp).0, log + [x])
  {
    forall o | o in db.observations
      ensures exists i: nat :: StemsFrom(Ingested(db, x.record, x.stamp).0, log + [x], o, i)
    {
      if o == OriginOf(x.record) { SeenStem(db, log, x); } else { OtherStem(db, log, x, o); }
    }
  }

  lemma RepeatTells(db: Central, log: Log, x: Exchange)
    requires CentralOk(db) && Tells(db, log) && Decide(db, x.record).Repeat?
    requires x.answer == Ingested(db, x.record, x.stamp).1
    ensures Tells(Ingested(db, x.record, x.stamp).0, log + [x])
  {
    var after := Ingested(db, x.record, x.stamp).0;
    StoredDigest(db, x.record);
    KnownStream(db, x.record);
    StoresMore(db, after, log, x);
    RepeatStems(db, log, x);
    forall stream ensures Highest(after, stream) == Admissions(log + [x], stream) {
      More(log, x, stream, x.record);
    }
  }

  lemma OtherStem(db: Central, log: Log, x: Exchange, o: Origin)
    requires CentralOk(db) && Tells(db, log) && !Decide(db, x.record).Refuse?
    requires o in db.observations && o != OriginOf(x.record)
    ensures exists i: nat :: StemsFrom(Ingested(db, x.record, x.stamp).0, log + [x], o, i)
  {
    assert OriginOf(db.observations[o].record) == o;
    StemStays(db, Ingested(db, x.record, x.stamp).0, log, x, o);
  }

  lemma NewStem(db: Central, log: Log, x: Exchange)
    requires CentralOk(db) && Tells(db, log) && Decide(db, x.record).Admit?
    requires x.answer == Ingested(db, x.record, x.stamp).1
    ensures var o, after := OriginOf(x.record), Ingested(db, x.record, x.stamp).0;
      o in after.observations && exists i: nat :: StemsFrom(after, log + [x], o, i)
  {
    StoredDigest(db, x.record);
    NeverCopied(db, log, x.record);
    More(log, x, "", x.record);
    assert AdmittedAt(log + [x], |log|, x.record);
    assert StemsFrom(Ingested(db, x.record, x.stamp).0, log + [x], OriginOf(x.record), |log|);
  }

  /** No call before was answered for a record whose tuple is free. */
  lemma NotAnswered(db: Central, log: Log, r: CentralRecord, i: nat)
    requires Stores(db, log) && OriginOf(r) !in db.observations && i < |log| && log[i].answer.Ok?
    ensures !SameTuple(log[i].record, r)
  {
    assert StoresAt(db, log[i]);
  }

  lemma {:induction false} NoCopies(log: Log, r: CentralRecord)
    requires forall i | 0 <= i < |log| && log[i].answer.Ok? :: log[i].record != r
    ensures Copies(log, r) == 0
  {
    if log != [] {
      NoCopies(log[..|log| - 1], r);
    }
  }

  lemma NeverCopied(db: Central, log: Log, r: CentralRecord)
    requires Stores(db, log) && OriginOf(r) !in db.observations
    ensures Copies(log, r) == 0
  {
    forall i | 0 <= i < |log| && log[i].answer.Ok? ensures log[i].record != r {
      NotAnswered(db, log, r, i);
    }
    NoCopies(log, r);
  }

  lemma AdmitStems(db: Central, log: Log, x: Exchange)
    requires CentralOk(db) && Tells(db, log) && Decide(db, x.record).Admit?
    requires x.answer == Ingested(db, x.record, x.stamp).1
    ensures Stems(Ingested(db, x.record, x.stamp).0, log + [x])
  {
    var after := Ingested(db, x.record, x.stamp).0;
    forall o | o in after.observations ensures exists i: nat :: StemsFrom(after, log + [x], o, i) {
      if o == OriginOf(x.record) { NewStem(db, log, x); } else { OtherStem(db, log, x, o); }
    }
  }

  lemma AdmitCounts(db: Central, log: Log, x: Exchange)
    requires Counts(db, log) && Decide(db, x.record).Admit?
    requires x.answer == Ingested(db, x.record, x.stamp).1
    ensures Counts(Ingested(db, x.record, x.stamp).0, log + [x])
  {
    var after := Ingested(db, x.record, x.stamp).0;
    forall stream ensures Highest(after, stream) == Admissions(log + [x], stream) {
      More(log, x, stream, x.record);
    }
  }

  lemma AdmitTells(db: Central, log: Log, x: Exchange)
    requires CentralOk(db) && Tells(db, log) && Decide(db, x.record).Admit?
    requires x.answer == Ingested(db, x.record, x.stamp).1
    ensures Tells(Ingested(db, x.record, x.stamp).0, log + [x])
  {
    StoredDigest(db, x.record);
    StoresMore(db, Ingested(db, x.record, x.stamp).0, log, x);
    AdmitStems(db, log, x);
    AdmitCounts(db, log, x);
    OnceMore(db, log, x);
  }

  lemma OnceMore(db: Central, log: Log, x: Exchange)
    requires Tells(db, log) && OriginOf(x.record) !in db.observations
    ensures AdmittedOnce(log + [x])
  {
    forall i: nat | i < |log| && log[i].answer.Ok? ensures !SameTuple(log[i].record, x.record) {
      NotAnswered(db, log, x.record, i);
    }
  }

  lemma OneMoreTells(db: Central, log: Log, x: Exchange)
    requires CentralOk(db) && Tells(db, log)
    requires x.answer == Ingested(db, x.record, x.stamp).1
    ensures Tells(Ingested(db, x.record, x.stamp).0, log + [x])
  {
    match Decide(db, x.record)
    case Refuse(_) => RefusedTells(db, log, x);
    case Repeat => RepeatTells(db, log, x);
    case Admit => AdmitTells(db, log, x);
  }

  lemma {:induction false} LogTells(log: Log)
    requires Served(log)
    ensures Tells(LedgerOf(log), log)
  {
    if log != [] {
      var n := |log| - 1;
      ServedFront(log, n);
      LogTells(log[..n]);
      assert ServedAt(log, n) && log == log[..n] + [log[n]];
      OneMoreTells(LedgerOf(log[..n]), log[..n], log[n]);
    }
  }

  lemma ServedFront(log: Log, n: nat)
    requires Served(log) && n <= |log|
    ensures Served(log[..n])
  {
    forall k | 0 <= k < n ensures ServedAt(log[..n], k) {
      assert ServedAt(log, k) && log[..n][..k] == log[..k];
    }
  }

  /** Every answer is the one owed. */
  lemma AnswerIsOwed(log: Log, k: nat)
    requires Served(log) && k < |log|
    ensures Owed(log[..k], log[k])
  {
    ServedFront(log, k);
    LogTells(log[..k]);
    assert ServedAt(log, k);
    OneIsOwed(LedgerOf(log[..k]), log[..k], log[k]);
  }

  // ----- one call after the other -----

  function CallExchange(calls: seq<CentralRuns.Call>, i: nat): Exchange
    requires i < |calls|
  {
    Exchange(calls[i].record, CentralRuns.StampOf(CentralRuns.Run(calls[..i]), calls[i]), CentralRuns.ReplyAt(calls, i))
  }

  function CallLog(calls: seq<CentralRuns.Call>): Log {
    seq(|calls|, i requires 0 <= i < |calls| => CallExchange(calls, i))
  }

  lemma CallLogFront(calls: seq<CentralRuns.Call>, n: nat)
    requires n <= |calls|
    ensures CallLog(calls)[..n] == CallLog(calls[..n])
  {
    forall i: nat | i < n ensures CallLog(calls)[i] == CallLog(calls[..n])[i] {
      assert calls[..n][..i] == calls[..i];
    }
  }

  lemma {:induction false} LedgerOfCalls(calls: seq<CentralRuns.Call>)
    ensures LedgerOf(CallLog(calls)) == CentralRuns.Run(calls).db
  {
    if calls != [] {
      var n := |calls| - 1;
      LedgerOfCalls(calls[..n]);
      CallLogFront(calls, n);
    }
  }

  lemma CallsAreServed(calls: seq<CentralRuns.Call>)
    ensures Served(CallLog(calls))
  {
    forall k: nat | k < |calls| ensures ServedAt(CallLog(calls), k) {
      CallLogFront(calls, k);
      LedgerOfCalls(calls[..k]);
      CentralRuns.RunsStayOk(calls[..k]);
    }
  }

  /** In every sequence of calls each is answered as the calls and answers before it say. */
  lemma CallIsOwed(calls: seq<CentralRuns.Call>, k: nat)
    requires k < |calls|
    ensures Owed(CallLog(calls)[..k], CallExchange(calls, k))
  {
    CallsAreServed(calls);
    AnswerIsOwed(CallLog(calls), k);
  }

  /** An event id that was answered with a receipt is a conflict under every other tuple, whatever
      was called in between. */
  lemma ReusedIdConflicts(calls: seq<CentralRuns.Call>, i: nat, j: nat)
    requires i < j < |calls| && CentralRuns.ReplyAt(calls, i).Ok?
    requires calls[i].record.eventId == calls[j].record.eventId
    requires calls[i].record.stream != calls[j].record.stream || calls[i].record.seqNo != calls[j].record.seqNo
    ensures CentralRuns.ReplyAt(calls, j) == Err(Conflict)
  {
    CallsAreServed(calls);
    ReusedInLog(CallLog(calls), i, j);
  }

  lemma ReusedInLog(log: Log, i: nat, j: nat)
    requires Served(log) && i < j < |log| && log[i].answer.Ok?
    requires log[i].record.eventId == log[j].record.eventId && !SameTuple(log[i].record, log[j].record)
    ensures log[j].answer == Err(Conflict)
  {
    AnswerIsOwed(log, j);
    assert log[..j][i] == log[i] && Uses(log[..j][i], log[j].record);
    if Known(log[..j], log[j].record) {
      var k: nat :| AdmittedAt(log[..j], k, log[j].record);
      OneRecordPerId(log, i, k);
      assert false;
    }
  }

  /** Two calls that were both answered with a receipt and share an event id carry one record. */
  lemma OneRecordPerId(log: Log, i: nat, j: nat)
    requires Served(log) && i < |log| && j < |log| && log[i].answer.Ok? && log[j].answer.Ok?
    requires log[i].record.eventId == log[j].record.eventId
    ensures log[i].record == log[j].record
  {
    LogTells(log);
    LogOk(log);
    assert StoresAt(LedgerOf(log), log[i]) && StoresAt(LedgerOf(log), log[j]);
  }

  lemma LogOk(log: Log)
    requires Served(log)
    ensures UniqueEventIds(LedgerOf(log))
  {
    if log != [] {
      var n := |log| - 1;
      assert ServedAt(log, n);
      IdsStayUnique(LedgerOf(log[..n]), log[n].record, log[n].stamp);
    }
  }

  lemma IdsStayUnique(db: Central, r: CentralRecord, stamp: Stamp)
    requires UniqueEventIds(db)
    ensures UniqueEventIds(Ingested(db, r, stamp).0)
  {
    if Decide(db, r).Admit? {
      assert forall o :: o in db.observations ==> db.observations[o].record.eventId != r.eventId;
    }
  }

  /** A record whose tuple and id no answered call has used: it is admitted when its number is the
      next one after the stream's admissions, and otherwise told the gap. */
  lemma UnusedIsNextOrGap(calls: seq<CentralRuns.Call>, j: nat)
    requires j < |calls|
    requires forall i: nat | i < j && CentralRuns.ReplyAt(calls, i).Ok? ::
      calls[i].record.eventId != calls[j].record.eventId &&
      (calls[i].record.stream != calls[j].record.stream || calls[i].record.seqNo != calls[j].record.seqNo)
    ensures var r := calls[j].record; var next := Admissions(CallLog(calls)[..j], r.stream) + 1;
      && (r.seqNo != next <==> CentralRuns.ReplyAt(calls, j) == Err(Gap(r.stream, next, r.seqNo)))
      && (r.seqNo == next <==> CentralRuns.ReplyAt(calls, j).Ok?)
  {
    CallIsOwed(calls, j);
    var log, r := CallLog(calls)[..j], calls[j].record;
    forall i: nat | i < |log| ensures !Uses(log[i], r) {
      assert log[i] == CallExchange(calls, i);
    }
    UnusedIsUnknown(log, r);
  }

  lemma UnusedIsUnknown(log: Log, r: CentralRecord)
    requires forall i: nat | i < |log| :: !Uses(log[i], r)
    ensures !Used(log, r) && !Known(log, r)
  {
    assert forall i: nat | i < |log| && log[i].answer.Ok? :: log[i].record != r;
  }

  // ----- interleaved transactions -----

  function EntryExchange(e: CentralConcurrency.Entry): Exchange {
    Exchange(e.record, e.stamp, e.outcome)
  }

  /** The decided transactions in the order of their decisions. */
  function HistoryLog(history: seq<CentralConcurrency.Entry>): Log {
    seq(|history|, i requires 0 <= i < |history| => EntryExchange(history[i]))
  }

  lemma {:induction false} LedgerOfHistory(history: seq<CentralConcurrency.Entry>)
    ensures LedgerOf(HistoryLog(history)) == CentralConcurrency.Serial(history)
  {
    if history != [] {
      var n := |history| - 1;
      LedgerOfHistory(history[..n]);
      assert HistoryLog(history)[..n] == HistoryLog(history[..n]);
    }
  }

  lemma HistoryIsServed(history: seq<CentralConcurrency.Entry>)
    requires CentralConcurrency.IsSerial(history)
    ensures Served(HistoryLog(history))
  {
    forall k: nat | k < |history| ensures ServedAt(HistoryLog(history), k) {
      assert CentralConcurrency.SerialOutcome(history, k);
      assert HistoryLog(history)[..k] == HistoryLog(history[..k]);
      LedgerOfHistory(history[..k]);
    }
  }

  /** In every interleaving each decided transaction is answered as the decisions before it say. */
  lemma TransactionIsOwed(s: CentralConcurrency.System, key: CentralConcurrency.LockKey,
                          moves: seq<CentralConcurrency.Move>, k: nat)
    requires CentralConcurrency.Initial(s) && k < |CentralConcurrency.After(s, key, moves).history|
    ensures var history := CentralConcurrency.After(s, key, moves).history;
      Owed(HistoryLog(history)[..k], EntryExchange(history[k]))
  {
    CentralConcurrency.EveryInterleavingIsSerial(s, key, moves);
    var history := CentralConcurrency.After(s, key, moves).history;
    HistoryIsServed(history);
    AnswerIsOwed(HistoryLog(history), k);
  }

  /** Of the decided transactions with one event id and different tuples, each after the first that
      was answered with a receipt is a conflict. */
  lemma ReusedIdConflictsInHistory(s: CentralConcurrency.System, key: CentralConcurrency.LockKey,
                                   moves: seq<CentralConcurrency.Move>, i: nat, j: nat)
    requires CentralConcurrency.Initial(s)
    requires var history := CentralConcurrency.After(s, key, moves).history;
      && i < j < |history| && history[i].outcome.Ok?
      && history[i].record.eventId == history[j].record.eventId
      && (history[i].record.stream != history[j].record.stream || history[i].record.seqNo != history[j].record.seqNo)
    ensures CentralConcurrency.After(s, key, moves).history[j].outcome == Err(Conflict)
  {
    CentralConcurrency.EveryInterleavingIsSerial(s, key, moves);
    var history := CentralConcurrency.After(s, key, moves).history;
    HistoryIsServed(history);
    ReusedInLog(HistoryLog(history), i, j);
  }
}
