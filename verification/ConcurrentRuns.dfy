/** What one producer and one stream can count on when transactions interleave. */
module ConcurrentRuns {
  import opened Wrappers
  import opened Events
  import opened CentralLedger
  import CentralRuns
  import opened CentralConcurrency

  /** The decided transactions on a stream that were answered with a receipt. */
  function AnsweredOn(history: seq<Entry>, stream: StreamId): nat {
    if history == [] then 0
    else
      var last := |history| - 1;
      AnsweredOn(history[..last], stream) +
      if history[last].record.stream == stream && history[last].outcome.Ok? then 1 else 0
  }

  lemma SerialFront(history: seq<Entry>)
    requires IsSerial(history) && history != []
    ensures var last := |history| - 1;
      IsSerial(history[..last]) && SerialOutcome(history, last)
  {
    SerialStart(history, |history| - 1);
    assert SerialOutcome(history, |history| - 1);
  }

  lemma {:induction false} SerialAccounts(history: seq<Entry>, stream: StreamId)
    requires IsSerial(history)
    ensures CentralRuns.Total(Serial(history), stream) == AnsweredOn(history, stream)
  {
    if history != [] {
      var last := |history| - 1;
      var db, e := Serial(history[..last]), history[last];
      SerialFront(history);
      SerialAccounts(history[..last], stream);
      match Decide(db, e.record)
      case Repeat => CentralRuns.RepeatAccounts(db, e.record, e.stamp, stream);
      case Admit => CentralRuns.AdmitAccounts(db, e.record, e.stamp, stream);
      case Refuse(_) =>
    }
  }

  /** In every interleaving the receipts of a stream account for exactly its answered transactions. */
  lemma ReceiptsAccountForTransactions(s: System, key: LockKey, moves: seq<Move>, stream: StreamId)
    requires Initial(s)
    ensures var end := After(s, key, moves);
      CentralRuns.Total(end.db, stream) == AnsweredOn(end.history, stream)
  {
    EveryInterleavingIsSerial(s, key, moves);
    SerialAccounts(After(s, key, moves).history, stream);
  }

  ghost predicate AllHonour(log: CentralRuns.ProducerLog, stream: StreamId, history: seq<Entry>) {
    forall k :: 0 <= k < |history| ==> CentralRuns.Honours(log, stream, history[k].record)
  }

  lemma {:induction false} SerialPrefix(history: seq<Entry>, stream: StreamId, log: CentralRuns.ProducerLog)
    requires IsSerial(history) && CentralRuns.IsLog(log, stream) && AllHonour(log, stream, history)
    ensures CentralRuns.StoredPrefix(Serial(history), stream, log)
    ensures CentralRuns.OthersAvoid(Serial(history), stream, log)
  {
    if history != [] {
      var last := |history| - 1;
      var db, e := Serial(history[..last]), history[last];
      SerialFront(history);
      SerialPrefix(history[..last], stream, log);
      CentralRuns.IngestKeepsPrefix(db, e.record, e.stamp, stream, log);
      CentralRuns.IngestKeepsOthers(db, e.record, e.stamp, stream, log);
    }
  }

  lemma EntryOwes(db: Central, e: Entry, stream: StreamId, log: CentralRuns.ProducerLog)
    requires CentralOk(db) && CentralRuns.IsLog(log, stream) && CentralRuns.Honours(log, stream, e.record)
    requires CentralRuns.StoredPrefix(db, stream, log) && CentralRuns.OthersAvoid(db, stream, log)
    requires e.outcome == Ingested(db, e.record, e.stamp).1
    ensures e.record.stream == stream ==> CentralRuns.OwedAnswer(db, e.record, e.outcome)
  {
    if e.record.stream == stream {
      var k :| 0 <= k < |log| && log[k] == Some(e.record);
      assert OriginOf(log[k].value) == (stream, k + 1);
      CentralRuns.DecideFromLog(db, stream, log, k);
      AnswerOwed(db, e);
    }
  }

  lemma AnswerOwed(db: Central, e: Entry)
    requires e.outcome == Ingested(db, e.record, e.stamp).1
    requires var h := Highest(db, e.record.stream);
      Decide(db, e.record) ==
        if e.record.seqNo <= h then Repeat
        else if e.record.seqNo == h + 1 then Admit
        else Refuse(Gap(e.record.stream, h + 1, e.record.seqNo))
    ensures CentralRuns.OwedAnswer(db, e.record, e.outcome)
  {
  }

  lemma SerialOwes(history: seq<Entry>, k: nat, stream: StreamId, log: CentralRuns.ProducerLog)
    requires IsSerial(history) && CentralRuns.IsLog(log, stream) && AllHonour(log, stream, history)
    requires k < |history|
    ensures history[k].record.stream == stream ==>
              CentralRuns.OwedAnswer(Serial(history[..k]), history[k].record, history[k].outcome)
  {
    assert SerialOutcome(history, k);
    SerialStart(history, k);
    SerialPrefix(history[..k], stream, log);
    EntryOwes(Serial(history[..k]), history[k], stream, log);
  }

  lemma SerialStart(history: seq<Entry>, n: nat)
    requires IsSerial(history) && n <= |history|
    ensures IsSerial(history[..n])
  {
    forall k | 0 <= k < n
      ensures SerialOutcome(history[..n], k)
    {
      assert SerialOutcome(history, k) && history[..n][..k] == history[..k];
    }
  }

  lemma NextKeepsRecords(s: System, key: LockKey, m: Move, i: nat)
    ensures |Next(s, key, m).txs| == |s.txs|
    ensures i < |s.txs| ==> Next(s, key, m).txs[i].record == s.txs[i].record
  {
  }

  lemma {:induction false} RecordsStay(s: System, key: LockKey, moves: seq<Move>, i: nat)
    ensures |After(s, key, moves).txs| == |s.txs|
    ensures i < |s.txs| ==> After(s, key, moves).txs[i].record == s.txs[i].record
    decreases |moves|
  {
    if moves != [] {
      RecordsStay(s, key, moves[..|moves| - 1], i);
      NextKeepsRecords(After(s, key, moves[..|moves| - 1]), key, moves[|moves| - 1], i);
    }
  }

  lemma HistoryHonours(s: System, key: LockKey, moves: seq<Move>, stream: StreamId, log: CentralRuns.ProducerLog)
    requires Initial(s)
    requires forall i :: 0 <= i < |s.txs| ==> CentralRuns.Honours(log, stream, s.txs[i].record)
    ensures AllHonour(log, stream, After(s, key, moves).history)
  {
    InitialInv(s, key);
    AfterKeeps(s, key, moves);
    var end := After(s, key, moves);
    forall k | 0 <= k < |end.history|
      ensures CentralRuns.Honours(log, stream, end.history[k].record)
    {
      EntryOf(end, key, k);
      RecordsStay(s, key, moves, end.history[k].tx);
    }
  }

  lemma EntryOf(s: System, key: LockKey, k: nat)
    requires Inv(s, key) && k < |s.history|
    ensures s.history[k].tx < |s.txs| && s.history[k].record == s.txs[s.history[k].tx].record
  {
    assert IsEntryOf(s.history[k], s.txs);
  }

  /** Each decided transaction on the stream got the answer that its place against the cursor owes,
      at its place in the serial run: the original receipt, admission or a gap, never a conflict. */
  ghost predicate AllOwed(history: seq<Entry>, stream: StreamId) {
    forall k :: 0 <= k < |history| && history[k].record.stream == stream ==>
      CentralRuns.OwedAnswer(Serial(history[..k]), history[k].record, history[k].outcome)
  }

  /** One producer whose records are submitted by any number of concurrent transactions, in any
      order, some of which die: its stored stream is a prefix of its log and every answer is the one
      owed. */
  lemma ConcurrentProducerIsStoredAsPrefix(s: System, key: LockKey, moves: seq<Move>, stream: StreamId,
                                           log: CentralRuns.ProducerLog)
    requires Initial(s) && CentralRuns.IsLog(log, stream)
    requires forall i :: 0 <= i < |s.txs| ==> CentralRuns.Honours(log, stream, s.txs[i].record)
    ensures CentralRuns.StoredPrefix(After(s, key, moves).db, stream, log)
    ensures AllOwed(After(s, key, moves).history, stream)
  {
    EveryInterleavingIsSerial(s, key, moves);
    HistoryHonours(s, key, moves, stream, log);
    var history := After(s, key, moves).history;
    SerialPrefix(history, stream, log);
    forall k | 0 <= k < |history| && history[k].record.stream == stream
      ensures CentralRuns.OwedAnswer(Serial(history[..k]), history[k].record, history[k].outcome)
    {
      SerialOwes(history, k, stream, log);
    }
  }
}
