/** The central ledger: three tables and the transaction that admits one observation. */
module CentralLedger {
  import opened Wrappers
  import opened Events

  /** An origin tuple; both tables are unique on it. */
  type Origin = (StreamId, int)

  /** `offset` is the server-assigned identity of the row. */
  datatype Stored = Stored(offset: nat, record: CentralRecord, digest: RecordHash)

  datatype Receipt = Receipt(
    receiptId: nat, offset: nat, eventId: EventId, digest: RecordHash,
    firstReceivedAt: nat, lastSeenAt: nat, duplicateCount: nat)

  /** `ingest_stream`, `ingest_observation` and `ingest_receipt`. */
  datatype Central = Central(
    streams: map<StreamId, nat>, observations: map<Origin, Stored>, receipts: map<Origin, Receipt>)

  const EMPTY_CENTRAL := Central(map[], map[], map[])

  datatype IngestError = Invalid | Conflict | Gap(stream: StreamId, expected: int, received: int)

  datatype Answer = Answer(receipt: Receipt, duplicate: bool)

  /** Values drawn by the server for one transaction. */
  datatype Stamp = Stamp(offset: nat, receiptId: nat, now: nat)

  function OriginOf(r: CentralRecord): Origin { (r.stream, r.seqNo) }

  function Highest(db: Central, stream: StreamId): nat {
    if stream in db.streams then db.streams[stream] else 0
  }

  predicate EventIdTaken(db: Central, id: EventId) {
    exists o :: o in db.observations && db.observations[o].record.eventId == id
  }

  function Admitted(db: Central, r: CentralRecord, stamp: Stamp): Central {
    Central(
      db.streams[r.stream := if r.seqNo < 0 then 0 else r.seqNo],
      db.observations[OriginOf(r) := Stored(stamp.offset, r, RecordDigest(r))],
      db.receipts[OriginOf(r) :=
        Receipt(stamp.receiptId, stamp.offset, r.eventId, RecordDigest(r), stamp.now, stamp.now, 0)])
  }

  function Seen(receipt: Receipt, now: nat): Receipt {
    receipt.(duplicateCount := receipt.duplicateCount + 1, lastSeenAt := now)
  }

  /** The stream row that the transaction inserts before it has decided anything. */
  function WithRow(db: Central, stream: StreamId): Central {
    if stream in db.streams then db else db.(streams := db.streams[stream := 0])
  }

  datatype Decision = Repeat | Refuse(error: IngestError) | Admit

  /** The checks of the transaction, in their order. */
  function Decide(db: Central, r: CentralRecord): Decision {
    if OriginOf(r) in db.receipts then
      if db.receipts[OriginOf(r)].digest != RecordDigest(r) then Refuse(Conflict) else Repeat
    else if EventIdTaken(db, r.eventId) then Refuse(Conflict)
    else if r.seqNo != Highest(db, r.stream) + 1 then
      Refuse(Gap(r.stream, Highest(db, r.stream) + 1, r.seqNo))
    else Admit
  }

  /** The whole transaction as one step. */
  function Ingested(db: Central, r: CentralRecord, stamp: Stamp): (Central, Result<Answer, IngestError>) {
    match Decide(db, r)
    case Refuse(error) => (db, Err(error))
    case Repeat =>
      if OriginOf(r) !in db.receipts then (db, Err(Conflict))
      else
        var receipt := Seen(db.receipts[OriginOf(r)], stamp.now);
        (WithRow(db, r.stream).(receipts := db.receipts[OriginOf(r) := receipt]), Ok(Answer(receipt, true)))
    case Admit =>
      var after := Admitted(db, r, stamp);
      (after, Ok(Answer(after.receipts[OriginOf(r)], false)))
  }

  // ----- invariant -----

  /** The stored numbers of every stream row are exactly 1 to its cursor. */
  ghost predicate Contiguous(db: Central) {
    && (forall o :: o in db.observations ==> o.0 in db.streams && 1 <= o.1 <= db.streams[o.0])
    && (forall st, q :: st in db.streams && 1 <= q <= db.streams[st] ==> (st, q) in db.observations)
    && (forall st :: st in db.streams ==> db.streams[st] >= 1)
  }

  /** Each observation sits at its own origin, with its own digest. */
  ghost predicate WellKeyed(db: Central) {
    forall o :: o in db.observations ==>
      OriginOf(db.observations[o].record) == o &&
      db.observations[o].digest == RecordDigest(db.observations[o].record)
  }

  ghost predicate UniqueEventIds(db: Central) {
    forall a, b | a in db.observations && b in db.observations &&
      db.observations[a].record.eventId == db.observations[b].record.eventId :: a == b
  }

  ghost predicate UniqueOffsets(db: Central) {
    forall a, b | a in db.observations && b in db.observations &&
      db.observations[a].offset == db.observations[b].offset :: a == b
  }

  /** One receipt for every observation, with its identity, digest and offset. */
  ghost predicate Receipted(db: Central) {
    && db.receipts.Keys == db.observations.Keys
    && forall o :: o in db.observations ==>
         && db.receipts[o].eventId == db.observations[o].record.eventId
         && db.receipts[o].digest == db.observations[o].digest
         && db.receipts[o].offset == db.observations[o].offset
  }

  ghost predicate CentralOk(db: Central) {
    Contiguous(db) && WellKeyed(db) && UniqueEventIds(db) && UniqueOffsets(db) && Receipted(db)
  }

  /** The identity sequence has not handed out this offset to a stored row. */
  ghost predicate FreshOffset(db: Central, offset: nat) {
    forall o :: o in db.observations ==> db.observations[o].offset != offset
  }

  lemma AdmitContiguous(db: Central, r: CentralRecord, stamp: Stamp)
    requires Contiguous(db) && r.seqNo == Highest(db, r.stream) + 1
    ensures Contiguous(Admitted(db, r, stamp))
  {
  }

  lemma AdmitUnique(db: Central, r: CentralRecord, stamp: Stamp)
    requires UniqueEventIds(db) && UniqueOffsets(db) && !EventIdTaken(db, r.eventId)
    requires FreshOffset(db, stamp.offset)
    ensures UniqueEventIds(Admitted(db, r, stamp)) && UniqueOffsets(Admitted(db, r, stamp))
  {
    assert forall o :: o in db.observations ==> db.observations[o].record.eventId != r.eventId;
  }

  lemma AdmitReceipted(db: Central, r: CentralRecord, stamp: Stamp)
    requires WellKeyed(db) && Receipted(db)
    ensures WellKeyed(Admitted(db, r, stamp)) && Receipted(Admitted(db, r, stamp))
  {
  }

  lemma AdmitKeeps(db: Central, r: CentralRecord, stamp: Stamp)
    requires CentralOk(db) && FreshOffset(db, stamp.offset) && Decide(db, r).Admit?
    ensures CentralOk(Admitted(db, r, stamp))
  {
    AdmitContiguous(db, r, stamp);
    AdmitUnique(db, r, stamp);
    AdmitReceipted(db, r, stamp);
  }

  lemma RepeatReceipted(db: Central, origin: Origin, now: nat)
    requires Receipted(db) && origin in db.receipts
    ensures Receipted(db.(receipts := db.receipts[origin := Seen(db.receipts[origin], now)]))
  {
    assert origin in db.observations;
  }

  /** Only the receipt table is touched by a repeat. */
  lemma OtherTables(db: Central, receipts: map<Origin, Receipt>)
    requires Contiguous(db) && WellKeyed(db) && UniqueEventIds(db) && UniqueOffsets(db)
    ensures var after := db.(receipts := receipts);
      Contiguous(after) && WellKeyed(after) && UniqueEventIds(after) && UniqueOffsets(after)
  {
  }

  lemma RepeatKeeps(db: Central, origin: Origin, now: nat)
    requires CentralOk(db) && origin in db.receipts
    ensures CentralOk(db.(receipts := db.receipts[origin := Seen(db.receipts[origin], now)]))
  {
    RepeatReceipted(db, origin, now);
    OtherTables(db, db.receipts[origin := Seen(db.receipts[origin], now)]);
  }

  lemma KnownStream(db: Central, r: CentralRecord)
    requires CentralOk(db) && OriginOf(r) in db.receipts
    ensures r.stream in db.streams
  {
    assert OriginOf(r) in db.observations;
  }

  /** Every transaction keeps the invariant, and a rejected one leaves no trace. */
  lemma IngestKeeps(db: Central, r: CentralRecord, stamp: Stamp)
    requires CentralOk(db) && FreshOffset(db, stamp.offset)
    ensures CentralOk(Ingested(db, r, stamp).0)
    ensures Ingested(db, r, stamp).1.Err? ==> Ingested(db, r, stamp).0 == db
  {
    match Decide(db, r)
    case Admit => AdmitKeeps(db, r, stamp);
    case Repeat =>
      KnownStream(db, r);
      RepeatKeeps(db, OriginOf(r), stamp.now);
    case Refuse(_) =>
  }

  /** A record that is answered with a receipt is the one stored under its tuple. */
  lemma AnsweredIsStored(db: Central, r: CentralRecord, stamp: Stamp)
    requires CentralOk(db)
    ensures Ingested(db, r, stamp).1 != Err(Invalid)
    ensures Ingested(db, r, stamp).1.Ok? ==>
      OriginOf(r) in Ingested(db, r, stamp).0.observations &&
      Ingested(db, r, stamp).0.observations[OriginOf(r)].record == r
  {
  }

  /** Every stored row took its offset from the identity sequence. */
  ghost predicate OffsetsBelow(db: Central, next: nat) {
    forall o :: o in db.observations ==> db.observations[o].offset < next
  }

  /** The state a service is left in, with its identity sequence. */
  lemma IngestValid(db: Central, r: CentralRecord, stamp: Stamp)
    requires CentralOk(db) && OffsetsBelow(db, stamp.offset)
    ensures var next := stamp.offset + if Decide(db, r).Admit? then 1 else 0;
      CentralOk(Ingested(db, r, stamp).0) && OffsetsBelow(Ingested(db, r, stamp).0, next)
  {
    IngestKeeps(db, r, stamp);
  }

  lemma AdmitOverRow(db: Central, r: CentralRecord, stamp: Stamp)
    ensures Admitted(WithRow(db, r.stream), r, stamp) == Admitted(db, r, stamp)
  {
    assert WithRow(db, r.stream).streams[r.stream := 0] == db.streams[r.stream := 0];
    var top := if r.seqNo < 0 then 0 else r.seqNo;
    assert WithRow(db, r.stream).streams[r.stream := top] == db.streams[r.stream := top];
  }

  /** The service behind one database connection. */
  class Service {
    var streams: map<StreamId, nat>
    var observations: map<Origin, Stored>
    var receipts: map<Origin, Receipt>
    var nextOffset: nat

    ghost function View(): Central
      reads this
    {
      Central(streams, observations, receipts)
    }

    ghost predicate Valid()
      reads this
    {
      CentralOk(View()) && OffsetsBelow(View(), nextOffset)
    }

    constructor ()
      ensures Valid() && View() == EMPTY_CENTRAL
    {
      streams, observations, receipts, nextOffset := map[], map[], map[], 1;
    }

    /** The insert of a new observation, its receipt and the cursor. */
    method Admit(r: CentralRecord, receiptId: nat, now: nat) returns (receipt: Receipt)
      requires r.seqNo >= 0
      modifies this
      ensures View() == Admitted(old(View()), r, Stamp(old(nextOffset), receiptId, now))
      ensures receipt == View().receipts[OriginOf(r)] && nextOffset == old(nextOffset) + 1
    {
      var origin, offset := OriginOf(r), nextOffset;
      nextOffset := nextOffset + 1;
      observations := observations[origin := Stored(offset, r, RecordDigest(r))];
      receipt := Receipt(receiptId, offset, r.eventId, RecordDigest(r), now, now, 0);
      receipts := receipts[origin := receipt];
      streams := streams[r.stream := r.seqNo];
    }

    /** Creates the stream row if there is none, locks it, and runs the checks. */
    method Check(r: CentralRecord) returns (decision: Decision)
      modifies this`streams
      ensures decision == Decide(old(View()), r)
      ensures View() == WithRow(old(View()), r.stream)
    {
      if r.stream !in streams {
        streams := streams[r.stream := 0];
      }
      var highest, origin := streams[r.stream], OriginOf(r);
      if origin in receipts {
        return if receipts[origin].digest != RecordDigest(r) then Refuse(Conflict) else Repeat;
      }
      if exists o :: o in observations && observations[o].record.eventId == r.eventId {
        return Refuse(Conflict);
      }
      if r.seqNo != highest + 1 {
        return Refuse(Gap(r.stream, highest + 1, r.seqNo));
      }
      return Decision.Admit;
    }

    /** The transaction; a rejection rolls the stream row back with everything else. */
    method Transact(r: CentralRecord, receiptId: nat, now: nat) returns (result: Result<Answer, IngestError>)
      modifies this
      ensures (View(), result) == Ingested(old(View()), r, Stamp(old(nextOffset), receiptId, now))
      ensures nextOffset == old(nextOffset) + if Decide(old(View()), r).Admit? then 1 else 0
    {
      AdmitOverRow(View(), r, Stamp(nextOffset, receiptId, now));
      var savedStreams := streams;
      var decision := Check(r);
      match decision {
        case Refuse(error) =>
          streams := savedStreams;
          return Err(error);
        case Repeat =>
          var origin := OriginOf(r);
          receipts := receipts[origin := Seen(receipts[origin], now)];
          return Ok(Answer(receipts[origin], true));
        case Admit =>
          var receipt := Admit(r, receiptId, now);
          return Ok(Answer(receipt, false));
      }
    }

    method Ingest(r: CentralRecord, receiptId: nat, now: nat) returns (result: Result<Answer, IngestError>)
      requires Valid()
      modifies this
      ensures Valid()
      ensures (View(), result) == Ingested(old(View()), r, Stamp(old(nextOffset), receiptId, now))
      ensures nextOffset == old(nextOffset) + if Decide(old(View()), r).Admit? then 1 else 0
    {
      IngestValid(View(), r, Stamp(nextOffset, receiptId, now));
      result := Transact(r, receiptId, now);
    }

    /** Events are validated and hashed before the transaction opens. */
    method IngestEvent(e: Event, receiptId: nat, now: nat) returns (result: Result<Answer, IngestError>)
      requires Valid()
      modifies this
      ensures Valid()
      ensures match Prepare(e)
        case None => result == Err(Invalid) && View() == old(View()) && nextOffset == old(nextOffset)
        case Some(r) => (View(), result) == Ingested(old(View()), r, Stamp(old(nextOffset), receiptId, now))
      ensures result == Err(Invalid) <==> !ValidEvent(e) || !e.Enveloped() || HasBlankMember(e)
      ensures result.Ok? ==>
        e.Enveloped() && (e.Stream(), e.SeqNo()) in observations &&
        CopiesMembers(observations[(e.Stream(), e.SeqNo())].record, e)
    {
      var prepared := Prepare(e);
      Preparation(e);
      if prepared.None? {
        return Err(Invalid);
      }
      ghost var before := View();
      result := Ingest(prepared.value, receiptId, now);
      AnsweredIsStored(before, prepared.value, Stamp(old(nextOffset), receiptId, now));
    }

    /** The contiguous cursor of a stream and the next number it admits. */
    method StreamStatus(stream: StreamId) returns (highest: nat, next: nat)
      requires Valid()
      ensures highest == Highest(View(), stream) && next == highest + 1
      ensures forall q :: 1 <= q ==> ((stream, q) in observations <==> q < next)
    {
      highest := if stream in streams then streams[stream] else 0;
      next := highest + 1;
    }

    /** Receipt lookup by event id: at most one row can match. */
    method ReceiptOfEvent(id: EventId) returns (receipt: Option<Receipt>)
      requires Valid()
      ensures receipt.None? <==> !EventIdTaken(View(), id)
      ensures receipt.Some? ==> exists o ::
        o in observations && observations[o].record.eventId == id && receipts[o] == receipt.value
    {
      if o :| o in receipts && receipts[o].eventId == id {
        receipt := Some(receipts[o]);
        assert o in observations;
      } else {
        receipt := None;
        assert forall o :: o in observations ==> o in receipts;
      }
    }
  }
}
