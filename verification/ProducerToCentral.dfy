/** From the local writer to the central ledger: the shard lines of any run of the local writer are
    a producer log, so whatever the network does, the central ledger holds a prefix of them. */
module ProducerToCentral {
  import opened Wrappers
  import opened Events
  import opened ShardDir
  import LocalWriter
  import Writer = WriterRuns
  import WriterTheorems
  import Ledger = CentralLedger
  import Central = CentralRuns

  /** What the central ledger gets of some events: a record, or nothing where preparation refuses
      a locally valid event. */
  function Records(log: seq<Event>): Central.ProducerLog {
    seq(|log|, i requires 0 <= i < |log| => Prepare(log[i]))
  }

  ghost predicate FromLines(lines: seq<Event>, r: CentralRecord) {
    exists e :: e in lines && Prepare(e) == Some(r)
  }

  lemma PreparedIdentity(e: Event)
    requires Prepare(e).Some?
    ensures e.Enveloped() && Prepare(e).value.eventId == e.id
    ensures Ledger.OriginOf(Prepare(e).value) == (e.Stream(), e.SeqNo())
  {
  }

  lemma WriterLogIsLog(log: seq<Event>)
    requires Writer.WriterLog(log) && log != []
    ensures log[0].Enveloped() && Central.IsLog(Records(log), log[0].Stream())
  {
    var records := Records(log);
    forall i | 0 <= i < |log| && records[i].Some?
      ensures Ledger.OriginOf(records[i].value) == (log[0].Stream(), i + 1) && records[i].value.eventId == log[i].id
    {
      PreparedIdentity(log[i]);
    }
  }

  /** Under each number of the producer log stands the record of the line with that number. */
  ghost predicate NumbersLines(lines: seq<Event>, stream: StreamId, records: Central.ProducerLog) {
    && |records| == |lines|
    && forall e :: e in lines ==>
         && e.Enveloped() && e.Stream() == stream
         && 1 <= e.SeqNo() <= |records| && records[e.SeqNo() - 1] == Prepare(e)
  }

  lemma LogNumbersLines(log: seq<Event>, lines: seq<Event>)
    requires Writer.WriterLog(log) && log != [] && |lines| == |log| && forall e :: e in lines <==> e in log
    ensures log[0].Enveloped() && NumbersLines(lines, log[0].Stream(), Records(log))
  {
    forall e | e in lines
      ensures e.Enveloped() && e.Stream() == log[0].Stream()
      ensures 1 <= e.SeqNo() <= |log| && Records(log)[e.SeqNo() - 1] == Prepare(e)
    {
      Writer.LineFacts(log, e);
    }
  }

  ghost function Lines(commands: seq<WriterTheorems.Command>): seq<Event> {
    ReadAll(WriterTheorems.Run(WriterTheorems.INITIAL, commands).files)
  }

  /** The lines of a run, in the order of their numbers, are one producer log. */
  lemma RunIsProducerLog(commands: seq<WriterTheorems.Command>)
    returns (stream: StreamId, records: Central.ProducerLog)
    ensures Central.IsLog(records, stream) && NumbersLines(Lines(commands), stream, records)
    ensures forall r :: Some(r) in records <==> FromLines(Lines(commands), r)
  {
    WriterTheorems.InitialRep();
    var log, _ := WriterTheorems.RunKeeps(WriterTheorems.INITIAL, [], 0, commands);
    ReadIsPermutation(WriterTheorems.Run(WriterTheorems.INITIAL, commands).files, log);
    records := Records(log);
    if log == [] {
      stream := "";
    } else {
      WriterLogIsLog(log);
      stream := log[0].Stream();
      LogNumbersLines(log, Lines(commands));
    }
    RecordsOfLines(log, Lines(commands));
  }

  lemma RecordsOfLines(log: seq<Event>, lines: seq<Event>)
    requires forall e :: e in lines <==> e in log
    ensures forall r :: Some(r) in Records(log) <==> FromLines(lines, r)
  {
    forall r
      ensures Some(r) in Records(log) <==> FromLines(lines, r)
    {
      if FromLines(lines, r) {
        var e :| e in lines && Prepare(e) == Some(r);
        var i :| 0 <= i < |log| && log[i] == e;
        assert Records(log)[i] == Some(r);
      }
      if Some(r) in Records(log) {
        var i :| 0 <= i < |log| && Records(log)[i] == Some(r);
        assert log[i] in lines;
      }
    }
  }

  /** Calls submit lines of the run, or records that share neither its stream nor its ids. */
  ghost predicate Submitted(lines: seq<Event>, calls: seq<Central.Call>) {
    forall i :: 0 <= i < |calls| ==>
      FromLines(lines, calls[i].record) || Unrelated(lines, calls[i].record)
  }

  ghost predicate Unrelated(lines: seq<Event>, r: CentralRecord) {
    forall e :: e in lines ==> e.id != r.eventId && e.Enveloped() && e.Stream() != r.stream
  }

  lemma LineHonours(lines: seq<Event>, stream: StreamId, records: Central.ProducerLog, r: CentralRecord)
    requires NumbersLines(lines, stream, records) && FromLines(lines, r)
    ensures Central.Honours(records, stream, r)
  {
    var e :| e in lines && Prepare(e) == Some(r);
    PreparedIdentity(e);
    assert records[e.SeqNo() - 1] == Some(r);
  }

  lemma UnrelatedHonours(lines: seq<Event>, stream: StreamId, records: Central.ProducerLog, r: CentralRecord)
    requires NumbersLines(lines, stream, records) && lines != [] && Unrelated(lines, r)
    requires forall r :: Some(r) in records <==> FromLines(lines, r)
    ensures Central.Honours(records, stream, r)
  {
    assert lines[0] in lines;
    forall k | 0 <= k < |records| && records[k].Some?
      ensures records[k].value.eventId != r.eventId
    {
      assert records[k] in records && Some(records[k].value) == records[k];
      var e :| e in lines && Prepare(e) == Some(records[k].value);
      PreparedIdentity(e);
    }
  }

  lemma SubmissionHonours(lines: seq<Event>, stream: StreamId, records: Central.ProducerLog, calls: seq<Central.Call>)
    requires NumbersLines(lines, stream, records) && lines != [] && Submitted(lines, calls)
    requires forall r :: Some(r) in records <==> FromLines(lines, r)
    ensures Central.AllHonour(records, stream, calls)
  {
    forall i | 0 <= i < |calls|
      ensures Central.Honours(records, stream, calls[i].record)
    {
      if FromLines(lines, calls[i].record) {
        LineHonours(lines, stream, records, calls[i].record);
      } else {
        UnrelatedHonours(lines, stream, records, calls[i].record);
      }
    }
  }

  lemma LineRecord(lines: seq<Event>, stream: StreamId, records: Central.ProducerLog, r: CentralRecord)
    requires NumbersLines(lines, stream, records) && FromLines(lines, r)
    ensures lines != [] && r.stream == stream
  {
    var e :| e in lines && Prepare(e) == Some(r);
    PreparedIdentity(e);
  }

  /** End to end: a crash-prone local writer and a network that duplicates, reorders and loses.
      Every call for a line of the run is answered from the cursor alone, never with a conflict,
      and the central stream is the lines numbered 1 to the cursor. */
  lemma PublishedRunIsPrefix(commands: seq<WriterTheorems.Command>, calls: seq<Central.Call>, i: nat)
    requires Submitted(Lines(commands), calls) && i < |calls| && FromLines(Lines(commands), calls[i].record)
    ensures Central.OwedAnswer(Central.Run(calls[..i]).db, calls[i].record, Central.ReplyAt(calls, i))
    ensures var db := Central.Run(calls[..i]).db;
      forall q :: 1 <= q <= Ledger.Highest(db, calls[i].record.stream) ==>
        (calls[i].record.stream, q) in db.observations &&
        FromLines(Lines(commands), db.observations[(calls[i].record.stream, q)].record)
  {
    var lines := Lines(commands);
    var stream, records := RunIsProducerLog(commands);
    LineRecord(lines, stream, records, calls[i].record);
    SubmissionHonours(lines, stream, records, calls);
    Central.ProducerIsStoredAsPrefix(calls, stream, records, i);
    var db := Central.Run(calls[..i]).db;
    forall q | 1 <= q <= Ledger.Highest(db, stream)
      ensures (stream, q) in db.observations && FromLines(lines, db.observations[(stream, q)].record)
    {
      assert records[q - 1] in records;
    }
  }

  lemma LineIsMissing(lines: seq<Event>, stream: StreamId, records: Central.ProducerLog, e: Event)
    requires NumbersLines(lines, stream, records) && e in lines && Prepare(e).None?
    ensures e.Enveloped() && e.Stream() == stream && 1 <= e.SeqNo() <= |records|
    ensures records[e.SeqNo() - 1].None?
  {
  }

  lemma StopsBefore(lines: seq<Event>, stream: StreamId, records: Central.ProducerLog, calls: seq<Central.Call>,
                    missing: nat, i: nat)
    requires Central.IsLog(records, stream) && NumbersLines(lines, stream, records)
    requires Central.AllHonour(records, stream, calls) && i <= |calls|
    requires missing < |records| && records[missing].None?
    ensures Ledger.Highest(Central.Run(calls[..i]).db, stream) <= missing
    ensures i < |calls| && FromLines(lines, calls[i].record) && calls[i].record.seqNo > missing + 1 ==>
      Central.ReplyAt(calls, i) == Err(Ledger.Gap(
        stream, Ledger.Highest(Central.Run(calls[..i]).db, stream) + 1, calls[i].record.seqNo))
  {
    Central.StopsBeforeMissing(calls, stream, records, missing, i);
    if i < |calls| && FromLines(lines, calls[i].record) {
      LineRecord(lines, stream, records, calls[i].record);
    }
  }

  lemma StopsAt(lines: seq<Event>, stream: StreamId, records: Central.ProducerLog, calls: seq<Central.Call>,
                e: Event, i: nat)
    requires Central.IsLog(records, stream) && NumbersLines(lines, stream, records)
    requires Central.AllHonour(records, stream, calls) && i <= |calls|
    requires e in lines && Prepare(e).None?
    ensures e.Enveloped() && Ledger.Highest(Central.Run(calls[..i]).db, e.Stream()) < e.SeqNo()
    ensures i < |calls| && FromLines(lines, calls[i].record) && calls[i].record.seqNo > e.SeqNo() ==>
      Central.ReplyAt(calls, i) == Err(Ledger.Gap(
        e.Stream(), Ledger.Highest(Central.Run(calls[..i]).db, e.Stream()) + 1, calls[i].record.seqNo))
  {
    LineIsMissing(lines, stream, records, e);
    StopsBefore(lines, stream, records, calls, e.SeqNo() - 1, i);
  }

  /** A line that the local writer accepts and central preparation refuses, a blank actor for
      instance, stops its stream: the cursor never reaches its number, and every later line is
      answered with a gap. */
  lemma UnpreparableLineStopsStream(commands: seq<WriterTheorems.Command>, calls: seq<Central.Call>, e: Event, i: nat)
    requires Submitted(Lines(commands), calls) && e in Lines(commands) && Prepare(e).None? && i <= |calls|
    ensures e.Enveloped() && Ledger.Highest(Central.Run(calls[..i]).db, e.Stream()) < e.SeqNo()
    ensures i < |calls| && FromLines(Lines(commands), calls[i].record) && calls[i].record.seqNo > e.SeqNo() ==>
      Central.ReplyAt(calls, i) == Err(Ledger.Gap(
        e.Stream(), Ledger.Highest(Central.Run(calls[..i]).db, e.Stream()) + 1, calls[i].record.seqNo))
  {
    var lines := Lines(commands);
    var stream, records := RunIsProducerLog(commands);
    SubmissionHonours(lines, stream, records, calls);
    StopsAt(lines, stream, records, calls, e, i);
  }
}
