/** Concurrent ingest: every transaction takes the advisory lock of its event id, then its stream
    row, then reads, decides, writes and commits, and holds both locks until it ends. Any number of
    transactions take their steps in any order, and any of them may die at any point. */
module CentralConcurrency {
  import opened Wrappers
  import opened Events
  import opened CentralLedger

  type Outcome = Result<Answer, IngestError>

  /** How far a transaction has come and what it has read and written so far. Nothing it has
      written is visible to others before the commit. */
  datatype Phase =
    | Start
    | EventHeld
    | RowSeen
    | RowMade
    | Locked(highest: nat)
    | Unseen(highest: nat)
    | Cleared(highest: nat)
    | Touched(receipt: Receipt)
    | Written(offset: nat)
    | Done(outcome: Option<Outcome>)

  datatype Tx = Tx(record: CentralRecord, receiptId: nat, now: nat, phase: Phase)
  {
    function Stream(): StreamId { record.stream }

    predicate Ended() { phase.Done? }

    predicate HoldsEvent() { !phase.Start? && !phase.Done? }

    predicate HoldsStream() {
      !phase.Start? && !phase.EventHeld? && !phase.RowSeen? && !phase.Done?
    }
  }

  /** One decided transaction. */
  datatype Entry = Entry(tx: nat, record: CentralRecord, stamp: Stamp, outcome: Outcome)

  /** `next` is the identity sequence of `ingest_offset`; a rollback does not return its value.
      `history` lists the decided transactions in the order of their decisions. */
  datatype System = System(db: Central, next: nat, txs: seq<Tx>, history: seq<Entry>)

  /** The advisory lock is taken on a hash of the event id, so distinct ids may share a lock. */
  type LockKey = EventId -> int

  predicate EventBlocks(txs: seq<Tx>, key: LockKey, i: nat, j: nat)
    requires i < |txs| && j < |txs|
  {
    j != i && txs[j].HoldsEvent() && key(txs[j].record.eventId) == key(txs[i].record.eventId)
  }

  predicate StreamBlocks(txs: seq<Tx>, i: nat, j: nat)
    requires i < |txs| && j < |txs|
  {
    j != i && txs[j].HoldsStream() && txs[j].Stream() == txs[i].Stream()
  }

  predicate EventFree(txs: seq<Tx>, key: LockKey, i: nat)
    requires i < |txs|
  {
    forall j :: 0 <= j < |txs| ==> !EventBlocks(txs, key, i, j)
  }

  predicate StreamFree(txs: seq<Tx>, i: nat)
    requires i < |txs|
  {
    forall j :: 0 <= j < |txs| ==> !StreamBlocks(txs, i, j)
  }

  function Put(s: System, i: nat, phase: Phase): System
    requires i < |s.txs|
  {
    s.(txs := s.txs[i := s.txs[i].(phase := phase)])
  }

  function Finish(s: System, i: nat, db: Central, stamp: Stamp, outcome: Outcome): System
    requires i < |s.txs|
  {
    Put(s, i, Done(Some(outcome))).(
      db := db, history := s.history + [Entry(i, s.txs[i].record, stamp, outcome)])
  }

  function Reject(s: System, i: nat, error: IngestError): System
    requires i < |s.txs|
  {
    Finish(s, i, s.db, Stamp(s.next, s.txs[i].receiptId, s.txs[i].now), Err(error))
  }

  function CommitTouched(s: System, i: nat, receipt: Receipt): System
    requires i < |s.txs|
  {
    var t := s.txs[i];
    Finish(s, i, WithRow(s.db, t.Stream()).(receipts := s.db.receipts[OriginOf(t.record) := receipt]),
           Stamp(s.next, t.receiptId, t.now), Ok(Answer(receipt, true)))
  }

  function CommitWritten(s: System, i: nat, offset: nat): System
    requires i < |s.txs|
  {
    var t := s.txs[i];
    var stamp := Stamp(offset, t.receiptId, t.now);
    var after := Admitted(s.db, t.record, stamp);
    Finish(s, i, after, stamp, Ok(Answer(after.receipts[OriginOf(t.record)], false)))
  }

  /** The next statement of a transaction; a blocked statement leaves the system as it is. */
  function Advance(s: System, key: LockKey, i: nat): System
    requires i < |s.txs|
  {
    var t := s.txs[i];
    match t.phase
    case Start => if EventFree(s.txs, key, i) then Put(s, i, EventHeld) else s
    case EventHeld =>
      if t.Stream() in s.db.streams then Put(s, i, RowSeen)
      else if StreamFree(s.txs, i) then Put(s, i, RowMade) else s
    case RowSeen => if StreamFree(s.txs, i) then Put(s, i, Locked(Highest(s.db, t.Stream()))) else s
    case RowMade => Put(s, i, Locked(0))
    case Locked(highest) =>
      if OriginOf(t.record) !in s.db.receipts then Put(s, i, Unseen(highest))
      else if s.db.receipts[OriginOf(t.record)].digest != RecordDigest(t.record) then Reject(s, i, Conflict)
      else Put(s, i, Touched(Seen(s.db.receipts[OriginOf(t.record)], t.now)))
    case Unseen(highest) =>
      if EventIdTaken(s.db, t.record.eventId) then Reject(s, i, Conflict) else Put(s, i, Cleared(highest))
    case Cleared(highest) =>
      if t.record.seqNo != highest + 1 then Reject(s, i, Gap(t.Stream(), highest + 1, t.record.seqNo))
      else Put(s, i, Written(s.next)).(next := s.next + 1)
    case Touched(receipt) => CommitTouched(s, i, receipt)
    case Written(offset) => CommitWritten(s, i, offset)
    case Done(_) => s
  }

  /** The connection is lost: everything uncommitted is rolled back and the locks are released. */
  function Die(s: System, i: nat): System
    requires i < |s.txs|
  {
    if s.txs[i].Ended() then s else Put(s, i, Done(None))
  }

  /** A death ends its transaction, frees both of its locks, and touches nothing else. */
  lemma DeathFrees(s: System, key: LockKey, i: nat)
    requires i < |s.txs|
    ensures var after := Die(s, i);
      && after.txs[i].Ended() && |after.txs| == |s.txs|
      && after.db == s.db && after.next == s.next && after.history == s.history
      && (forall j :: 0 <= j < |s.txs| && j != i ==> after.txs[j] == s.txs[j])
      && (forall j: nat :: j < |s.txs| ==> !EventBlocks(after.txs, key, j, i) && !StreamBlocks(after.txs, j, i))
  {
  }

  datatype Move = Move(tx: nat, dies: bool)

  function Next(s: System, key: LockKey, m: Move): System {
    if m.tx >= |s.txs| then s else if m.dies then Die(s, m.tx) else Advance(s, key, m.tx)
  }

  function After(s: System, key: LockKey, moves: seq<Move>): System {
    if moves == [] then s else Next(After(s, key, moves[..|moves| - 1]), key, moves[|moves| - 1])
  }

  /** An empty ledger and any transactions that are about to start. */
  predicate Initial(s: System) {
    s.db == EMPTY_CENTRAL && s.history == [] && forall i :: 0 <= i < |s.txs| ==> s.txs[i].phase == Start
  }

  // ----- serial specification -----

  function Serial(history: seq<Entry>): Central {
    if history == [] then EMPTY_CENTRAL
    else
      var e := history[|history| - 1];
      Ingested(Serial(history[..|history| - 1]), e.record, e.stamp).0
  }

  /** The answer of an entry is the one the serial run gives, from a state that keeps the invariant. */
  ghost predicate SerialOutcome(history: seq<Entry>, k: nat)
    requires k < |history|
  {
    CentralOk(Serial(history[..k])) &&
    history[k].outcome == Ingested(Serial(history[..k]), history[k].record, history[k].stamp).1
  }

  ghost predicate IsSerial(history: seq<Entry>) {
    forall k :: 0 <= k < |history| ==> SerialOutcome(history, k)
  }

  lemma SerialExtends(history: seq<Entry>, e: Entry)
    requires IsSerial(history) && CentralOk(Serial(history))
    requires e.outcome == Ingested(Serial(history), e.record, e.stamp).1
    ensures IsSerial(history + [e])
    ensures Serial(history + [e]) == Ingested(Serial(history), e.record, e.stamp).0
  {
    var longer := history + [e];
    assert longer[..|history|] == history;
    forall k | 0 <= k < |longer|
      ensures SerialOutcome(longer, k)
    {
      if k < |history| {
        assert longer[..k] == history[..k] && SerialOutcome(history, k);
      }
    }
  }

  // ----- invariant -----

  ghost predicate EventsExclusive(txs: seq<Tx>, key: LockKey) {
    forall i, j | 0 <= i < |txs| && 0 <= j < |txs| && txs[i].HoldsEvent() :: !EventBlocks(txs, key, i, j)
  }

  ghost predicate StreamsExclusive(txs: seq<Tx>) {
    forall i, j | 0 <= i < |txs| && 0 <= j < |txs| && txs[i].HoldsStream() :: !StreamBlocks(txs, i, j)
  }

  /** What a transaction has read is still what is committed. */
  predicate ReadsHold(db: Central, t: Tx) {
    match t.phase
    case RowMade => t.Stream() !in db.streams
    case Locked(h) => h == Highest(db, t.Stream())
    case Unseen(h) => h == Highest(db, t.Stream()) && OriginOf(t.record) !in db.receipts
    case Cleared(h) =>
      && h == Highest(db, t.Stream()) && OriginOf(t.record) !in db.receipts
      && !EventIdTaken(db, t.record.eventId)
    case Touched(receipt) =>
      && Decide(db, t.record) == Repeat
      && OriginOf(t.record) in db.receipts
      && receipt == Seen(db.receipts[OriginOf(t.record)], t.now)
    case Written(_) => Decide(db, t.record) == Admit
    case _ => true
  }

  ghost predicate AllReadsHold(db: Central, txs: seq<Tx>) {
    forall i :: 0 <= i < |txs| ==> ReadsHold(db, txs[i])
  }

  /** Offsets come from one sequence: no two rows, stored or about to be, share one. */
  ghost predicate OffsetsDiffer(txs: seq<Tx>) {
    forall i, j | 0 <= i < j < |txs| && txs[i].phase.Written? && txs[j].phase.Written? ::
      txs[i].phase.offset != txs[j].phase.offset
  }

  ghost predicate OffsetDrawn(db: Central, next: nat, t: Tx) {
    t.phase.Written? ==> t.phase.offset < next && FreshOffset(db, t.phase.offset)
  }

  ghost predicate OffsetsOk(db: Central, next: nat, txs: seq<Tx>) {
    && OffsetsBelow(db, next) && OffsetsDiffer(txs)
    && forall i :: 0 <= i < |txs| ==> OffsetDrawn(db, next, txs[i])
  }

  /** The committed state is what the decided transactions leave when run one after another. */
  ghost predicate Linear(db: Central, history: seq<Entry>) {
    db == Serial(history) && IsSerial(history)
  }

  ghost predicate IsEntryOf(e: Entry, txs: seq<Tx>) {
    e.tx < |txs| && e.record == txs[e.tx].record && txs[e.tx].phase == Done(Some(e.outcome))
  }

  ghost predicate HasEntry(history: seq<Entry>, i: nat) {
    exists k :: 0 <= k < |history| && history[k].tx == i
  }

  predicate Answered(t: Tx) { t.phase.Done? && t.phase.outcome.Some? }

  /** The entries of the history are the answered transactions, once each. */
  ghost predicate Recorded(txs: seq<Tx>, history: seq<Entry>) {
    && (forall k :: 0 <= k < |history| ==> IsEntryOf(history[k], txs))
    && (forall k, l :: 0 <= k < l < |history| ==> history[k].tx != history[l].tx)
    && (forall i :: 0 <= i < |txs| && Answered(txs[i]) ==> HasEntry(history, i))
  }

  ghost predicate LocksOk(txs: seq<Tx>, key: LockKey) {
    EventsExclusive(txs, key) && StreamsExclusive(txs)
  }

  ghost predicate Inv(s: System, key: LockKey) {
    && LocksOk(s.txs, key) && AllReadsHold(s.db, s.txs) && OffsetsOk(s.db, s.next, s.txs)
    && Linear(s.db, s.history) && CentralOk(s.db) && Recorded(s.txs, s.history)
  }

  // ----- steps inside a transaction -----

  /** A phase may take a lock only when it is free or already held. */
  predicate MayHold(txs: seq<Tx>, key: LockKey, i: nat, phase: Phase)
    requires i < |txs|
  {
    var t := txs[i].(phase := phase);
    && (t.HoldsEvent() ==> txs[i].HoldsEvent() || EventFree(txs, key, i))
    && (t.HoldsStream() ==> txs[i].HoldsStream() || StreamFree(txs, i))
  }

  lemma PutKeepsEvents(txs: seq<Tx>, key: LockKey, i: nat, phase: Phase)
    requires i < |txs| && EventsExclusive(txs, key) && MayHold(txs, key, i, phase)
    ensures EventsExclusive(txs[i := txs[i].(phase := phase)], key)
  {
    var after := txs[i := txs[i].(phase := phase)];
    forall a, b | 0 <= a < |after| && 0 <= b < |after| && after[a].HoldsEvent()
      ensures !EventBlocks(after, key, a, b)
    {
      if after[b].HoldsEvent() {
        assert !EventBlocks(txs, key, if b == i then b else a, if b == i then a else b);
      }
    }
  }

  lemma PutKeepsStreams(txs: seq<Tx>, key: LockKey, i: nat, phase: Phase)
    requires i < |txs| && StreamsExclusive(txs) && MayHold(txs, key, i, phase)
    ensures StreamsExclusive(txs[i := txs[i].(phase := phase)])
  {
    var after := txs[i := txs[i].(phase := phase)];
    forall a, b | 0 <= a < |after| && 0 <= b < |after| && after[a].HoldsStream()
      ensures !StreamBlocks(after, a, b)
    {
      if after[b].HoldsStream() {
        assert !StreamBlocks(txs, if b == i then b else a, if b == i then a else b);
      }
    }
  }

  lemma PutKeepsRecorded(txs: seq<Tx>, history: seq<Entry>, i: nat, phase: Phase)
    requires i < |txs| && Recorded(txs, history) && !txs[i].Ended()
    requires phase.Done? ==> phase.outcome.None?
    ensures Recorded(txs[i := txs[i].(phase := phase)], history)
  {
    var after := txs[i := txs[i].(phase := phase)];
    forall k | 0 <= k < |history|
      ensures IsEntryOf(history[k], after)
    {
      assert IsEntryOf(history[k], txs);
    }
  }

  /** A step that commits nothing keeps the invariant. */
  lemma PutKeeps(s: System, key: LockKey, i: nat, phase: Phase)
    requires Inv(s, key) && i < |s.txs| && !s.txs[i].Ended()
    requires MayHold(s.txs, key, i, phase) && ReadsHold(s.db, s.txs[i].(phase := phase))
    requires !phase.Written? && (phase.Done? ==> phase.outcome.None?)
    ensures Inv(Put(s, i, phase), key)
  {
    PutKeepsEvents(s.txs, key, i, phase);
    PutKeepsStreams(s.txs, key, i, phase);
    PutKeepsRecorded(s.txs, s.history, i, phase);
  }

  lemma DrawKeeps(s: System, key: LockKey, i: nat)
    requires Inv(s, key) && i < |s.txs| && s.txs[i].phase.Cleared?
    requires Decide(s.db, s.txs[i].record) == Admit
    ensures Inv(Put(s, i, Written(s.next)).(next := s.next + 1), key)
  {
    PutKeepsEvents(s.txs, key, i, Written(s.next));
    PutKeepsStreams(s.txs, key, i, Written(s.next));
    PutKeepsRecorded(s.txs, s.history, i, Written(s.next));
  }

  lemma DieKeeps(s: System, key: LockKey, i: nat)
    requires Inv(s, key) && i < |s.txs|
    ensures Inv(Die(s, i), key)
  {
    if !s.txs[i].Ended() {
      PutKeeps(s, key, i, Done(None));
    }
  }

  // ----- the end of a transaction -----

  lemma CommitKeepsReads(db: Central, r: CentralRecord, stamp: Stamp, t: Tx)
    requires ReadsHold(db, t)
    requires t.HoldsStream() ==> t.Stream() != r.stream && t.record.eventId != r.eventId
    ensures ReadsHold(Ingested(db, r, stamp).0, t)
  {
    assert t.HoldsStream() && !EventIdTaken(db, t.record.eventId) ==>
      !EventIdTaken(Ingested(db, r, stamp).0, t.record.eventId);
  }

  lemma CommitKeepsAllReads(db: Central, txs: seq<Tx>, key: LockKey, i: nat, stamp: Stamp, phase: Phase)
    requires i < |txs| && txs[i].HoldsStream() && phase.Done?
    requires LocksOk(txs, key) && AllReadsHold(db, txs)
    ensures AllReadsHold(Ingested(db, txs[i].record, stamp).0, txs[i := txs[i].(phase := phase)])
  {
    var after := txs[i := txs[i].(phase := phase)];
    forall j | 0 <= j < |after|
      ensures ReadsHold(Ingested(db, txs[i].record, stamp).0, after[j])
    {
      if j != i {
        assert !EventBlocks(txs, key, i, j) && !StreamBlocks(txs, i, j);
        CommitKeepsReads(db, txs[i].record, stamp, txs[j]);
      }
    }
  }

  /** An offset that may be stored now: drawn, not stored, and not promised to another. */
  ghost predicate Storable(s: System, i: nat, offset: nat)
    requires i < |s.txs|
  {
    && offset < s.next && FreshOffset(s.db, offset)
    && forall j | 0 <= j < |s.txs| && j != i && s.txs[j].phase.Written? :: s.txs[j].phase.offset != offset
  }

  lemma CommitKeepsOffsets(s: System, i: nat, stamp: Stamp, phase: Phase)
    requires i < |s.txs| && OffsetsOk(s.db, s.next, s.txs) && phase.Done?
    requires Decide(s.db, s.txs[i].record).Admit? ==> Storable(s, i, stamp.offset)
    ensures OffsetsOk(Ingested(s.db, s.txs[i].record, stamp).0, s.next, s.txs[i := s.txs[i].(phase := phase)])
  {
  }

  lemma FinishKeepsRecorded(txs: seq<Tx>, history: seq<Entry>, i: nat, stamp: Stamp, outcome: Outcome)
    requires i < |txs| && Recorded(txs, history) && !txs[i].Ended()
    ensures Recorded(txs[i := txs[i].(phase := Done(Some(outcome)))],
                     history + [Entry(i, txs[i].record, stamp, outcome)])
  {
    var after := txs[i := txs[i].(phase := Done(Some(outcome)))];
    var longer := history + [Entry(i, txs[i].record, stamp, outcome)];
    forall k | 0 <= k < |longer|
      ensures IsEntryOf(longer[k], after) && (k < |history| ==> longer[k].tx != i)
    {
      assert k < |history| ==> IsEntryOf(history[k], txs);
    }
    forall j | 0 <= j < |after| && Answered(after[j])
      ensures HasEntry(longer, j)
    {
      if j == i {
        assert longer[|history|].tx == i;
      } else {
        var k :| 0 <= k < |history| && history[k].tx == j;
        assert longer[k].tx == j;
      }
    }
  }

  /** Ending a transaction with the serial result of its record keeps the invariant. */
  lemma FinishKeeps(s: System, key: LockKey, i: nat, stamp: Stamp)
    requires Inv(s, key) && i < |s.txs| && s.txs[i].HoldsStream() && FreshOffset(s.db, stamp.offset)
    requires Decide(s.db, s.txs[i].record).Admit? ==> Storable(s, i, stamp.offset)
    ensures var end := Ingested(s.db, s.txs[i].record, stamp); Inv(Finish(s, i, end.0, stamp, end.1), key)
  {
    var end := Ingested(s.db, s.txs[i].record, stamp);
    PutKeepsEvents(s.txs, key, i, Done(Some(end.1)));
    PutKeepsStreams(s.txs, key, i, Done(Some(end.1)));
    CommitKeepsAllReads(s.db, s.txs, key, i, stamp, Done(Some(end.1)));
    CommitKeepsOffsets(s, i, stamp, Done(Some(end.1)));
    SerialExtends(s.history, Entry(i, s.txs[i].record, stamp, end.1));
    IngestKeeps(s.db, s.txs[i].record, stamp);
    FinishKeepsRecorded(s.txs, s.history, i, stamp, end.1);
  }

  lemma RejectKeeps(s: System, key: LockKey, i: nat, error: IngestError)
    requires Inv(s, key) && i < |s.txs| && s.txs[i].HoldsStream()
    requires Decide(s.db, s.txs[i].record) == Refuse(error)
    ensures Inv(Reject(s, i, error), key)
  {
    FinishKeeps(s, key, i, Stamp(s.next, s.txs[i].receiptId, s.txs[i].now));
  }

  lemma CommitTouchedKeeps(s: System, key: LockKey, i: nat, receipt: Receipt)
    requires Inv(s, key) && i < |s.txs| && s.txs[i].phase == Touched(receipt)
    ensures Inv(CommitTouched(s, i, receipt), key)
  {
    assert ReadsHold(s.db, s.txs[i]);
    FinishKeeps(s, key, i, Stamp(s.next, s.txs[i].receiptId, s.txs[i].now));
  }

  lemma ReadsAt(s: System, key: LockKey, i: nat)
    requires Inv(s, key) && i < |s.txs|
    ensures ReadsHold(s.db, s.txs[i]) && OffsetDrawn(s.db, s.next, s.txs[i])
  {
  }

  lemma WrittenIsStorable(s: System, i: nat)
    requires OffsetsOk(s.db, s.next, s.txs) && i < |s.txs| && s.txs[i].phase.Written?
    ensures Storable(s, i, s.txs[i].phase.offset)
  {
    assert OffsetDrawn(s.db, s.next, s.txs[i]);
  }

  lemma CommitWrittenIsSerial(s: System, i: nat, stamp: Stamp)
    requires i < |s.txs| && Decide(s.db, s.txs[i].record) == Admit
    requires stamp == Stamp(stamp.offset, s.txs[i].receiptId, s.txs[i].now)
    ensures var end := Ingested(s.db, s.txs[i].record, stamp);
      CommitWritten(s, i, stamp.offset) == Finish(s, i, end.0, stamp, end.1)
  {
  }

  lemma CommitWrittenKeeps(s: System, key: LockKey, i: nat)
    requires Inv(s, key) && i < |s.txs| && s.txs[i].phase.Written?
    ensures Inv(CommitWritten(s, i, s.txs[i].phase.offset), key)
  {
    var stamp := Stamp(s.txs[i].phase.offset, s.txs[i].receiptId, s.txs[i].now);
    ReadsAt(s, key, i);
    WrittenIsStorable(s, i);
    FinishKeeps(s, key, i, stamp);
    CommitWrittenIsSerial(s, i, stamp);
  }

  lemma LockingKeeps(s: System, key: LockKey, i: nat)
    requires Inv(s, key) && i < |s.txs|
    requires var p := s.txs[i].phase; p.Start? || p.EventHeld? || p.RowSeen? || p.RowMade?
    ensures Inv(Advance(s, key, i), key)
  {
    assert ReadsHold(s.db, s.txs[i]);
    var after := Advance(s, key, i);
    if after != s {
      PutKeeps(s, key, i, after.txs[i].phase);
    }
  }

  lemma LockedKeeps(s: System, key: LockKey, i: nat)
    requires Inv(s, key) && i < |s.txs| && s.txs[i].phase.Locked?
    ensures Inv(Advance(s, key, i), key)
  {
    ReadsAt(s, key, i);
    var t := s.txs[i];
    if OriginOf(t.record) !in s.db.receipts {
      PutKeeps(s, key, i, Unseen(t.phase.highest));
    } else if s.db.receipts[OriginOf(t.record)].digest != RecordDigest(t.record) {
      RejectKeeps(s, key, i, Conflict);
    } else {
      PutKeeps(s, key, i, Touched(Seen(s.db.receipts[OriginOf(t.record)], t.now)));
    }
  }

  lemma UnseenKeeps(s: System, key: LockKey, i: nat)
    requires Inv(s, key) && i < |s.txs| && s.txs[i].phase.Unseen?
    ensures Inv(Advance(s, key, i), key)
  {
    ReadsAt(s, key, i);
    if EventIdTaken(s.db, s.txs[i].record.eventId) {
      RejectKeeps(s, key, i, Conflict);
    } else {
      PutKeeps(s, key, i, Cleared(s.txs[i].phase.highest));
    }
  }

  lemma ClearedDecision(db: Central, t: Tx)
    requires t.phase.Cleared? && ReadsHold(db, t)
    ensures Decide(db, t.record) ==
      if t.record.seqNo != t.phase.highest + 1 then Refuse(Gap(t.Stream(), t.phase.highest + 1, t.record.seqNo))
      else Admit
  {
  }

  lemma ClearedAdvance(s: System, key: LockKey, i: nat)
    requires i < |s.txs| && s.txs[i].phase.Cleared?
    ensures var t := s.txs[i];
      Advance(s, key, i) ==
        if t.record.seqNo != t.phase.highest + 1
        then Reject(s, i, Gap(t.Stream(), t.phase.highest + 1, t.record.seqNo))
        else Put(s, i, Written(s.next)).(next := s.next + 1)
  {
  }

  lemma ClearedRejects(s: System, key: LockKey, i: nat)
    requires Inv(s, key) && i < |s.txs| && s.txs[i].phase.Cleared?
    requires s.txs[i].record.seqNo != s.txs[i].phase.highest + 1
    ensures Inv(Reject(s, i, Gap(s.txs[i].Stream(), s.txs[i].phase.highest + 1, s.txs[i].record.seqNo)), key)
  {
    ReadsAt(s, key, i);
    ClearedDecision(s.db, s.txs[i]);
    RejectKeeps(s, key, i, Gap(s.txs[i].Stream(), s.txs[i].phase.highest + 1, s.txs[i].record.seqNo));
  }

  lemma ClearedDraws(s: System, key: LockKey, i: nat)
    requires Inv(s, key) && i < |s.txs| && s.txs[i].phase.Cleared?
    requires s.txs[i].record.seqNo == s.txs[i].phase.highest + 1
    ensures Inv(Put(s, i, Written(s.next)).(next := s.next + 1), key)
  {
    ReadsAt(s, key, i);
    ClearedDecision(s.db, s.txs[i]);
    DrawKeeps(s, key, i);
  }

  lemma ClearedKeeps(s: System, key: LockKey, i: nat)
    requires Inv(s, key) && i < |s.txs| && s.txs[i].phase.Cleared?
    ensures Inv(Advance(s, key, i), key)
  {
    ClearedAdvance(s, key, i);
    if s.txs[i].record.seqNo != s.txs[i].phase.highest + 1 {
      ClearedRejects(s, key, i);
    } else {
      ClearedDraws(s, key, i);
    }
  }

  lemma AdvanceKeeps(s: System, key: LockKey, i: nat)
    requires Inv(s, key) && i < |s.txs|
    ensures Inv(Advance(s, key, i), key)
  {
    match s.txs[i].phase
    case Locked(_) => LockedKeeps(s, key, i);
    case Unseen(_) => UnseenKeeps(s, key, i);
    case Cleared(_) => ClearedKeeps(s, key, i);
    case Touched(receipt) => CommitTouchedKeeps(s, key, i, receipt);
    case Written(_) => CommitWrittenKeeps(s, key, i);
    case Done(_) =>
    case _ => LockingKeeps(s, key, i);
  }

  lemma NextKeeps(s: System, key: LockKey, m: Move)
    requires Inv(s, key)
    ensures Inv(Next(s, key, m), key)
  {
    if m.tx >= |s.txs| {
    } else if m.dies {
      DieKeeps(s, key, m.tx);
    } else {
      AdvanceKeeps(s, key, m.tx);
    }
  }

  lemma InitialInv(s: System, key: LockKey)
    requires Initial(s)
    ensures Inv(s, key)
  {
  }

  lemma {:induction false} AfterKeeps(s: System, key: LockKey, moves: seq<Move>)
    requires Inv(s, key)
    ensures Inv(After(s, key, moves), key)
  {
    if moves != [] {
      AfterKeeps(s, key, moves[..|moves| - 1]);
      NextKeeps(After(s, key, moves[..|moves| - 1]), key, moves[|moves| - 1]);
    }
  }

  // ----- theorems -----

  /** Every interleaving, with deaths anywhere, is the serial run of the transactions it decided:
      the committed tables are what that run leaves, every answer is the one the serial run gives,
      and dead or undecided transactions have left nothing behind. */
  lemma EveryInterleavingIsSerial(s: System, key: LockKey, moves: seq<Move>)
    requires Initial(s)
    ensures var end := After(s, key, moves);
      end.db == Serial(end.history) && IsSerial(end.history)
  {
    InitialInv(s, key);
    AfterKeeps(s, key, moves);
  }

  /** In every reachable state the stored numbers of each stream are exactly 1 to its cursor, no
      stream row is empty, event ids and offsets are unique, and each observation has one receipt. */
  lemma EveryInterleavingIsSafe(s: System, key: LockKey, moves: seq<Move>)
    requires Initial(s)
    ensures CentralOk(After(s, key, moves).db)
  {
    InitialInv(s, key);
    AfterKeeps(s, key, moves);
  }

  /** Each answered transaction is decided exactly once, with the answer it returned. */
  lemma AnsweredExactlyOnce(s: System, key: LockKey, moves: seq<Move>, i: nat)
    requires Initial(s)
    requires i < |After(s, key, moves).txs| && Answered(After(s, key, moves).txs[i])
    ensures var end := After(s, key, moves);
      exists k | 0 <= k < |end.history| :: end.history[k].tx == i &&
        end.history[k].record == end.txs[i].record &&
        Done(Some(end.history[k].outcome)) == end.txs[i].phase &&
        forall l | 0 <= l < |end.history| && end.history[l].tx == i :: l == k
  {
    InitialInv(s, key);
    AfterKeeps(s, key, moves);
    var end := After(s, key, moves);
    assert HasEntry(end.history, i);
    var k :| 0 <= k < |end.history| && end.history[k].tx == i;
    assert IsEntryOf(end.history[k], end.txs);
  }

  lemma SameOrigins(db: Central)
    requires CentralOk(db)
    ensures db.receipts.Keys == db.observations.Keys
  {
  }

  lemma AdmitIsNew(db: Central, r: CentralRecord)
    requires CentralOk(db) && Decide(db, r) == Admit
    ensures OriginOf(r) !in db.observations && !EventIdTaken(db, r.eventId)
  {
    SameOrigins(db);
  }

  lemma WrittenFacts(s: System, key: LockKey, i: nat)
    requires Inv(s, key) && i < |s.txs| && s.txs[i].phase.Written?
    ensures OriginOf(s.txs[i].record) !in s.db.observations
    ensures !EventIdTaken(s.db, s.txs[i].record.eventId) && FreshOffset(s.db, s.txs[i].phase.offset)
  {
    ReadsAt(s, key, i);
    AdmitIsNew(s.db, s.txs[i].record);
  }

  /** The insert of a new observation never runs into a unique constraint. */
  lemma InsertNeverViolates(s: System, key: LockKey, moves: seq<Move>, i: nat)
    requires Initial(s)
    requires i < |After(s, key, moves).txs| && After(s, key, moves).txs[i].phase.Written?
    ensures var end := After(s, key, moves); var t := end.txs[i];
      && OriginOf(t.record) !in end.db.observations
      && !EventIdTaken(end.db, t.record.eventId)
      && FreshOffset(end.db, t.phase.offset)
  {
    InitialInv(s, key);
    AfterKeeps(s, key, moves);
    WrittenFacts(After(s, key, moves), key, i);
  }

  // ----- no deadlock -----

  /** The next statement of transaction i needs a lock that transaction j holds. */
  predicate WaitsFor(s: System, key: LockKey, i: nat, j: nat) {
    i < |s.txs| && j < |s.txs| &&
    match s.txs[i].phase
    case Start => EventBlocks(s.txs, key, i, j)
    case EventHeld => s.txs[i].Stream() !in s.db.streams && StreamBlocks(s.txs, i, j)
    case RowSeen => StreamBlocks(s.txs, i, j)
    case _ => false
  }

  ghost predicate Blocked(s: System, key: LockKey, i: nat) {
    exists j :: WaitsFor(s, key, i, j)
  }

  ghost predicate WaitPath(s: System, key: LockKey, path: seq<nat>) {
    forall k :: 0 <= k < |path| - 1 ==> WaitsFor(s, key, path[k], path[k + 1])
  }

  function Rank(t: Tx): nat {
    if t.HoldsStream() then 2 else if t.HoldsEvent() then 1 else 0
  }

  lemma {:induction false} PathClimbs(s: System, key: LockKey, path: seq<nat>)
    requires |path| >= 2 && WaitPath(s, key, path)
    ensures path[0] < |s.txs| && path[|path| - 1] < |s.txs|
    ensures Rank(s.txs[path[0]]) < Rank(s.txs[path[|path| - 1]])
  {
    var n := |path|;
    assert WaitsFor(s, key, path[n - 2], path[n - 1]);
    if n > 2 {
      PathClimbs(s, key, path[..n - 1]);
    }
  }

  /** The wait-for graph has no cycle, in any state at all: locks are taken in a fixed order. */
  lemma WaitsNeverCycle(s: System, key: LockKey, path: seq<nat>)
    requires |path| >= 2 && WaitPath(s, key, path)
    ensures path[0] != path[|path| - 1]
  {
    PathClimbs(s, key, path);
  }

  /** Statements a transaction still has to run at most. */
  function Left(phase: Phase): nat {
    match phase
    case Start => 8
    case EventHeld => 7
    case RowSeen => 6
    case RowMade => 6
    case Locked(_) => 5
    case Unseen(_) => 4
    case Cleared(_) => 3
    case Touched(_) => 2
    case Written(_) => 2
    case Done(_) => 0
  }

  function AllLeft(txs: seq<Tx>): nat {
    if txs == [] then 0 else AllLeft(txs[..|txs| - 1]) + Left(txs[|txs| - 1].phase)
  }

  lemma {:induction false} AllLeftPut(txs: seq<Tx>, i: nat, t: Tx)
    requires i < |txs| && Left(t.phase) < Left(txs[i].phase)
    ensures AllLeft(txs[i := t]) < AllLeft(txs)
  {
    var last := |txs| - 1;
    if i == last {
      assert txs[i := t][..last] == txs[..last];
    } else {
      assert txs[i := t][..last] == txs[..last][i := t];
      AllLeftPut(txs[..last], i, t);
    }
  }

  lemma UnblockedIsFree(s: System, key: LockKey, i: nat)
    requires i < |s.txs| && !Blocked(s, key, i)
    ensures s.txs[i].phase.Start? ==> EventFree(s.txs, key, i)
    ensures s.txs[i].phase.RowSeen? || (s.txs[i].phase.EventHeld? && s.txs[i].Stream() !in s.db.streams) ==>
              StreamFree(s.txs, i)
  {
    forall j | 0 <= j < |s.txs|
      ensures s.txs[i].phase.Start? ==> !EventBlocks(s.txs, key, i, j)
      ensures s.txs[i].phase.RowSeen? || (s.txs[i].phase.EventHeld? && s.txs[i].Stream() !in s.db.streams) ==>
                !StreamBlocks(s.txs, i, j)
    {
      assert !WaitsFor(s, key, i, j);
    }
  }

  /** An unblocked statement always gets its transaction on. */
  lemma UnblockedAdvances(s: System, key: LockKey, i: nat)
    requires i < |s.txs| && !s.txs[i].Ended() && !Blocked(s, key, i)
    ensures var after := Advance(s, key, i);
      |after.txs| == |s.txs| && AllLeft(after.txs) < AllLeft(s.txs)
  {
    UnblockedIsFree(s, key, i);
    AllLeftPut(s.txs, i, Advance(s, key, i).txs[i]);
  }

  /** As long as a transaction has not ended, some transaction can go on. */
  lemma SomeoneAdvances(s: System, key: LockKey, i: nat) returns (j: nat)
    requires i < |s.txs| && !s.txs[i].Ended()
    ensures j < |s.txs| && !s.txs[j].Ended() && !Blocked(s, key, j)
    decreases 2 - Rank(s.txs[i])
  {
    if Blocked(s, key, i) {
      var k :| WaitsFor(s, key, i, k);
      j := SomeoneAdvances(s, key, k);
    } else {
      j := i;
    }
  }

  lemma {:induction false} AfterFirst(s: System, key: LockKey, m: Move, moves: seq<Move>)
    ensures After(s, key, [m] + moves) == After(Next(s, key, m), key, moves)
  {
    if moves == [] {
      assert [m] + moves == [m] && [m][..0] == [];
    } else {
      var last := |moves| - 1;
      AfterFirst(s, key, m, moves[..last]);
      var all := [m] + moves;
      assert all[..|all| - 1] == [m] + moves[..last] && all[|all| - 1] == moves[last];
    }
  }

  predicate AllEnded(s: System) {
    forall i :: 0 <= i < |s.txs| ==> s.txs[i].Ended()
  }

  /** Deadlock is impossible: from every state some schedule without deaths ends every transaction. */
  lemma {:induction false} EveryoneCanFinish(s: System, key: LockKey) returns (moves: seq<Move>)
    ensures AllEnded(After(s, key, moves))
    ensures forall m :: m in moves ==> !m.dies
    decreases AllLeft(s.txs)
  {
    moves := [];
    if i :| 0 <= i < |s.txs| && !s.txs[i].Ended() {
      var j := SomeoneAdvances(s, key, i);
      UnblockedAdvances(s, key, j);
      var rest := EveryoneCanFinish(Advance(s, key, j), key);
      moves := [Move(j, false)] + rest;
      AfterFirst(s, key, Move(j, false), rest);
    }
  }
}
