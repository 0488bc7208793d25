/** What qualification is for: a source set that the preflight accepts can be submitted to an empty
    central ledger, and every distinct enveloped event is admitted as new. */
module PreflightAdmission {
  import opened Wrappers
  import opened Events
  import SourceLines
  import opened SourcePreflight
  import Ledger = CentralLedger
  import Runs = CentralRuns

  /** Equal lines hold equal events. */
  ghost predicate Functional(items: seq<Item>) {
    forall a, b | a in items && b in items && a.line == b.line :: a.event == b.event
  }

  ghost predicate Qualified(items: seq<Item>) {
    Accepted(items) && NoGaps(items) && Functional(items)
  }

  lemma QualifiedItems(sources: seq<SourceLines.Source>, parse: Parser)
    requires Qualifies(sources, parse)
    ensures Qualified(AllItems(sources, parse).value)
  {
    var items := AllItems(sources, parse).value;
    assert [] + items == items;
    forall a, b | a in items && b in items && a.line == b.line
      ensures a.event == b.event
    {
      ItemsAreFound(sources, parse, a);
      ItemsAreFound(sources, parse, b);
    }
  }

  lemma AgreeAt(items: seq<Item>, a: Item, b: Item)
    requires Accepted(items) && a in items && b in items
    ensures Agree(a, b) || Agree(b, a)
  {
    var i :| 0 <= i < |items| && items[i] == a;
    var j :| 0 <= j < |items| && items[j] == b;
    if i < j {
      assert Agree(items[i], items[j]);
    } else if j < i {
      assert Agree(items[j], items[i]);
    }
  }

  lemma SameIdSameEvent(items: seq<Item>, a: Item, b: Item)
    requires Accepted(items) && Functional(items) && a in items && b in items && a.event.id == b.event.id
    ensures a.event == b.event
  {
    AgreeAt(items, a, b);
  }

  lemma SameOriginSameEvent(items: seq<Item>, a: Item, b: Item)
    requires Accepted(items) && Functional(items) && a in items && b in items
    requires OriginOf(a).Some? && OriginOf(a) == OriginOf(b)
    ensures a.event == b.event
  {
    AgreeAt(items, a, b);
  }

  /** The central record of an item. */
  ghost predicate IsRecord(it: Item, r: CentralRecord) {
    it.event.Enveloped() && Prepare(it.event) == Some(r)
  }

  ghost predicate HasRecord(items: seq<Item>, r: CentralRecord) {
    exists it :: it in items && IsRecord(it, r)
  }

  lemma RecordIdentity(it: Item, r: CentralRecord)
    requires ItemOk(it) && IsRecord(it, r)
    ensures OriginOf(it) == Some((r.stream, r.seqNo)) && r.eventId == it.event.id
  {
  }

  lemma OkAt(items: seq<Item>, it: Item)
    requires Accepted(items) && it in items
    ensures ItemOk(it)
  {
  }

  /** The record of a stream under a number. */
  lemma RecordUnder(items: seq<Item>, stream: StreamId, q: int) returns (r: CentralRecord)
    requires Accepted(items) && HasOrigin(items, stream, q)
    ensures HasRecord(items, r) && r.stream == stream && r.seqNo == q
  {
    var i :| 0 <= i < |items| && OriginOf(items[i]) == Some((stream, q));
    OkAt(items, items[i]);
    r := Prepare(items[i].event).value;
    RecordIdentity(items[i], r);
    assert items[i] in items && IsRecord(items[i], r);
  }

  lemma SameIdSameRecord(items: seq<Item>, a: CentralRecord, b: CentralRecord)
    requires Qualified(items) && HasRecord(items, a) && HasRecord(items, b) && a.eventId == b.eventId
    ensures a == b
  {
    var x :| x in items && IsRecord(x, a);
    var y :| y in items && IsRecord(y, b);
    OkAt(items, x);
    OkAt(items, y);
    RecordIdentity(x, a);
    RecordIdentity(y, b);
    SameIdSameEvent(items, x, y);
  }

  lemma SameOriginSameRecord(items: seq<Item>, a: CentralRecord, b: CentralRecord)
    requires Qualified(items) && HasRecord(items, a) && HasRecord(items, b)
    requires a.stream == b.stream && a.seqNo == b.seqNo
    ensures a == b
  {
    var x :| x in items && IsRecord(x, a);
    var y :| y in items && IsRecord(y, b);
    OkAt(items, x);
    OkAt(items, y);
    RecordIdentity(x, a);
    RecordIdentity(y, b);
    SameOriginSameEvent(items, x, y);
  }

  lemma RecordHasOrigin(items: seq<Item>, r: CentralRecord)
    requires Accepted(items) && HasRecord(items, r)
    ensures HasOrigin(items, r.stream, r.seqNo)
  {
    var it :| it in items && IsRecord(it, r);
    OkAt(items, it);
    RecordIdentity(it, r);
    var i :| 0 <= i < |items| && items[i] == it;
    assert OriginOf(items[i]) == Some((r.stream, r.seqNo));
  }

  ghost predicate LogOf(items: seq<Item>, stream: StreamId, log: Runs.ProducerLog) {
    forall k :: 0 <= k < |log| ==>
      log[k].Some? && HasRecord(items, log[k].value) && log[k].value.stream == stream && log[k].value.seqNo == k + 1
  }

  /** The producer log that the lines of a stream stand for. */
  lemma {:induction false} BuildLog(items: seq<Item>, stream: StreamId, n: nat, k: nat)
    returns (log: Runs.ProducerLog)
    requires Accepted(items) && NumberedTo(items, stream, n) && k <= n
    ensures LogOf(items, stream, log) && |log| == k
  {
    if k == 0 {
      log := [];
    } else {
      log := BuildLog(items, stream, n, k - 1);
      var r := RecordUnder(items, stream, k);
      log := log + [Some(r)];
    }
  }

  lemma LogIsLog(items: seq<Item>, stream: StreamId, log: Runs.ProducerLog)
    requires Qualified(items) && LogOf(items, stream, log)
    ensures Runs.IsLog(log, stream)
  {
    forall i, j | 0 <= i < j < |log|
      ensures log[i].value.eventId != log[j].value.eventId
    {
      if log[i].value.eventId == log[j].value.eventId {
        SameIdSameRecord(items, log[i].value, log[j].value);
      }
    }
  }

  lemma RecordHonours(items: seq<Item>, stream: StreamId, n: nat, log: Runs.ProducerLog, r: CentralRecord)
    requires Qualified(items) && NumberedTo(items, stream, n)
    requires LogOf(items, stream, log) && |log| == n && HasRecord(items, r)
    ensures Runs.Honours(log, stream, r)
  {
    if r.stream == stream {
      RecordHasOrigin(items, r);
      SameOriginSameRecord(items, r, log[r.seqNo - 1].value);
    } else if Runs.UsesId(log, r.eventId) {
      var k :| 0 <= k < |log| && log[k].Some? && log[k].value.eventId == r.eventId;
      SameIdSameRecord(items, log[k].value, r);
    }
  }

  // ----- submission -----

  /** Every distinct enveloped event is submitted, each stream in ascending order; the streams may
      be interleaved in any way. */
  ghost predicate Submits(calls: seq<Runs.Call>, items: seq<Item>) {
    && (forall i :: 0 <= i < |calls| ==> HasRecord(items, calls[i].record))
    && (forall r :: HasRecord(items, r) ==> exists i :: 0 <= i < |calls| && calls[i].record == r)
    && Ascends(calls)
  }

  /** The cursor separates the calls before from the calls to come. */
  ghost predicate Separates(calls: seq<Runs.Call>, i: nat, stream: StreamId, highest: nat)
    requires i <= |calls|
  {
    forall j :: 0 <= j < |calls| && calls[j].record.stream == stream ==>
      (calls[j].record.seqNo <= highest <==> j < i)
  }

  lemma CallOf(calls: seq<Runs.Call>, items: seq<Item>, r: CentralRecord) returns (j: nat)
    requires Submits(calls, items) && HasRecord(items, r)
    ensures j < |calls| && calls[j].record == r
  {
    j :| 0 <= j < |calls| && calls[j].record == r;
  }

  ghost predicate Ascends(calls: seq<Runs.Call>) {
    forall i, j | 0 <= i < j < |calls| && calls[i].record.stream == calls[j].record.stream ::
      calls[i].record.seqNo < calls[j].record.seqNo
  }

  /** No call to come has a smaller number than the next call. */
  lemma NextIsLeast(calls: seq<Runs.Call>, i: nat, j: nat, highest: nat)
    requires Ascends(calls) && i < |calls| && j < |calls| && calls[i].record.stream == calls[j].record.stream
    requires Separates(calls, i, calls[i].record.stream, highest) && calls[j].record.seqNo > highest
    ensures calls[i].record.seqNo <= calls[j].record.seqNo
  {
  }

  lemma NextInOrder(calls: seq<Runs.Call>, items: seq<Item>, i: nat, highest: nat, n: nat)
    requires Accepted(items) && Submits(calls, items) && i < |calls|
    requires NumberedTo(items, calls[i].record.stream, n)
    requires Separates(calls, i, calls[i].record.stream, highest)
    ensures calls[i].record.seqNo == highest + 1
  {
    var r := calls[i].record;
    RecordHasOrigin(items, r);
    assert highest < r.seqNo <= n;
    var next := RecordUnder(items, r.stream, highest + 1);
    var j := CallOf(calls, items, next);
    NextIsLeast(calls, i, j, highest);
  }

  ghost predicate Ready(items: seq<Item>, calls: seq<Runs.Call>, stream: StreamId, n: nat, log: Runs.ProducerLog) {
    && Qualified(items) && Submits(calls, items) && NumberedTo(items, stream, n)
    && Runs.IsLog(log, stream) && |log| == n && Runs.AllHonour(log, stream, calls)
  }

  /** The same for the number of records that the log has. */
  ghost predicate ReadyLog(items: seq<Item>, calls: seq<Runs.Call>, stream: StreamId, log: Runs.ProducerLog) {
    exists n :: Ready(items, calls, stream, n, log)
  }

  lemma GetReady(items: seq<Item>, calls: seq<Runs.Call>, stream: StreamId) returns (n: nat, log: Runs.ProducerLog)
    requires Qualified(items) && Submits(calls, items)
    ensures Ready(items, calls, stream, n, log) && ReadyLog(items, calls, stream, log)
  {
    assert Gapless(items, stream);
    n :| NumberedTo(items, stream, n);
    log := BuildLog(items, stream, n, n);
    LogIsLog(items, stream, log);
    forall i | 0 <= i < |calls|
      ensures Runs.Honours(log, stream, calls[i].record)
    {
      RecordHonours(items, stream, n, log, calls[i].record);
    }
  }

  lemma OneMore(items: seq<Item>, calls: seq<Runs.Call>, stream: StreamId, n: nat, log: Runs.ProducerLog,
                i: nat, highest: nat)
    requires Ready(items, calls, stream, n, log) && i < |calls|
    requires Separates(calls, i, stream, highest)
    ensures Separates(calls, i + 1, stream, if calls[i].record.stream == stream then highest + 1 else highest)
    ensures calls[i].record.stream == stream ==> calls[i].record.seqNo == highest + 1
  {
    if calls[i].record.stream == stream {
      NextInOrder(calls, items, i, highest, n);
      forall j | 0 <= j < |calls| && calls[j].record.stream == stream
        ensures calls[j].record.seqNo <= highest + 1 <==> j < i + 1
      {
        if j > i {
          assert calls[i].record.seqNo < calls[j].record.seqNo;
        }
      }
    }
  }

  function CallsOn(calls: seq<Runs.Call>, stream: StreamId, i: nat): nat
    requires i <= |calls|
  {
    if i == 0 then 0 else CallsOn(calls, stream, i - 1) + if calls[i - 1].record.stream == stream then 1 else 0
  }

  lemma OtherStreams(s: Runs.State, c: Runs.Call, stream: StreamId)
    requires c.record.stream != stream
    ensures Ledger.Highest(Runs.Step(s, c).db, stream) == Ledger.Highest(s.db, stream)
  {
  }

  lemma StepHighest(items: seq<Item>, calls: seq<Runs.Call>, stream: StreamId, n: nat, log: Runs.ProducerLog,
                    i: nat)
    requires Ready(items, calls, stream, n, log) && i < |calls|
    requires calls[i].record.stream == stream ==>
      calls[i].record.seqNo == Ledger.Highest(Runs.Run(calls[..i]).db, stream) + 1
    ensures Ledger.Highest(Runs.Run(calls[..i + 1]).db, stream)
         == Ledger.Highest(Runs.Run(calls[..i]).db, stream) + if calls[i].record.stream == stream then 1 else 0
  {
    if calls[i].record.stream == stream {
      Runs.ProducerIsStoredAsPrefix(calls, stream, log, i);
    } else {
      Runs.RunStep(calls, i);
      OtherStreams(Runs.Run(calls[..i]), calls[i], stream);
    }
  }

  lemma StartsAtZero(items: seq<Item>, calls: seq<Runs.Call>, stream: StreamId, n: nat)
    requires Accepted(items) && Submits(calls, items) && NumberedTo(items, stream, n)
    ensures Separates(calls, 0, stream, 0)
  {
    forall j | 0 <= j < |calls| && calls[j].record.stream == stream
      ensures calls[j].record.seqNo > 0
    {
      RecordHasOrigin(items, calls[j].record);
    }
  }

  /** The cursor counts the calls of its stream, and stands just below the next of them. */
  ghost predicate Follows(calls: seq<Runs.Call>, stream: StreamId, i: nat)
    requires i <= |calls|
  {
    exists highest: nat :: FollowsAt(calls, stream, i, highest)
  }

  ghost predicate FollowsAt(calls: seq<Runs.Call>, stream: StreamId, i: nat, highest: nat)
    requires i <= |calls|
  {
    && highest == Ledger.Highest(Runs.Run(calls[..i]).db, stream)
    && Separates(calls, i, stream, highest) && highest == CallsOn(calls, stream, i)
  }

  lemma FollowsAtStart(items: seq<Item>, calls: seq<Runs.Call>, stream: StreamId, log: Runs.ProducerLog)
    requires ReadyLog(items, calls, stream, log)
    ensures Follows(calls, stream, 0)
  {
    var n :| Ready(items, calls, stream, n, log);
    StartsAtZero(items, calls, stream, n);
    assert calls[..0] == [];
    assert FollowsAt(calls, stream, 0, 0);
  }

  lemma FollowsNext(items: seq<Item>, calls: seq<Runs.Call>, stream: StreamId, log: Runs.ProducerLog, i: nat)
    requires ReadyLog(items, calls, stream, log) && i < |calls| && Follows(calls, stream, i)
    ensures Follows(calls, stream, i + 1)
  {
    var n :| Ready(items, calls, stream, n, log);
    var highest: nat :| FollowsAt(calls, stream, i, highest);
    OneMore(items, calls, stream, n, log, i, highest);
    StepHighest(items, calls, stream, n, log, i);
    assert FollowsAt(calls, stream, i + 1, if calls[i].record.stream == stream then highest + 1 else highest);
  }

  lemma {:induction false} CursorFollows(items: seq<Item>, calls: seq<Runs.Call>, stream: StreamId,
                                         log: Runs.ProducerLog, i: nat)
    requires ReadyLog(items, calls, stream, log) && i <= |calls|
    ensures Follows(calls, stream, i)
  {
    if i == 0 {
      FollowsAtStart(items, calls, stream, log);
    } else {
      CursorFollows(items, calls, stream, log, i - 1);
      FollowsNext(items, calls, stream, log, i - 1);
    }
  }

  /** A qualified source set, submitted to an empty central ledger, meets no conflict, no gap and no
      duplicate: every call is answered with the receipt of a newly admitted record. */
  lemma QualifiedIsAdmitted(sources: seq<SourceLines.Source>, parse: Parser, calls: seq<Runs.Call>, i: nat)
    requires Qualifies(sources, parse) && Submits(calls, AllItems(sources, parse).value) && i < |calls|
    ensures Runs.ReplyAt(calls, i).Ok? && !Runs.ReplyAt(calls, i).value.duplicate
  {
    var items := AllItems(sources, parse).value;
    var stream := calls[i].record.stream;
    QualifiedItems(sources, parse);
    var n, log := GetReady(items, calls, stream);
    CursorFollows(items, calls, stream, log, i);
    OneMore(items, calls, stream, n, log, i, Ledger.Highest(Runs.Run(calls[..i]).db, stream));
    Runs.ProducerIsStoredAsPrefix(calls, stream, log, i);
  }

  /** And every stream ends at its last number: one stored record for each of its events. */
  lemma QualifiedEndsComplete(sources: seq<SourceLines.Source>, parse: Parser, calls: seq<Runs.Call>,
                              stream: StreamId)
    requires Qualifies(sources, parse) && Submits(calls, AllItems(sources, parse).value)
    ensures var highest := Ledger.Highest(Runs.Run(calls).db, stream);
      NumberedTo(AllItems(sources, parse).value, stream, highest) && highest == CallsOn(calls, stream, |calls|)
  {
    var items := AllItems(sources, parse).value;
    QualifiedItems(sources, parse);
    var n, log := GetReady(items, calls, stream);
    CursorFollows(items, calls, stream, log, |calls|);
    assert calls[..|calls|] == calls;
    Runs.RunKeepsPrefix(calls, stream, log);
    var highest := Ledger.Highest(Runs.Run(calls).db, stream);
    if n > 0 {
      var r := RecordUnder(items, stream, n);
      var j := CallOf(calls, items, r);
      assert calls[j].record.seqNo <= highest;
    }
  }
}
