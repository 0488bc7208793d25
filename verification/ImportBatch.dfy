/** Import of a batch of shard records: deduplication, validation of the whole batch, and the
    writer that revalidates inside its transaction. */
module ImportBatch {
  import opened Wrappers
  import opened Events
  import opened LocalLedger
  import opened Reconcile

  datatype ImportError = IncompatibleDuplicateIdentity | OriginDiscontinuity

  // ----- deduplication -----

  ghost predicate HasId(events: seq<Event>, id: EventId) {
    exists e :: e in events && e.id == id
  }

  /** The first occurrence of every id, in batch order. */
  ghost function Firsts(events: seq<Event>): seq<Event> {
    if events == [] then []
    else
      var n := |events| - 1;
      if HasId(events[..n], events[n].id) then Firsts(events[..n]) else Firsts(events[..n]) + [events[n]]
  }

  /** Repeated ids repeat the whole canonical record. */
  ghost predicate ExactRetries(events: seq<Event>) {
    forall e, f :: e in events && f in events && e.id == f.id ==> ImportRecord(e) == ImportRecord(f)
  }

  ghost predicate DistinctIds(events: seq<Event>) {
    forall i, j :: 0 <= i < j < |events| ==> events[i].id != events[j].id
  }

  /** Deduplication keeps one event for every id of the batch, and only events of the batch. */
  lemma {:induction false} FirstsRepresent(events: seq<Event>)
    ensures DistinctIds(Firsts(events)) && |Firsts(events)| <= |events|
    ensures forall e :: e in Firsts(events) ==> e in events
    ensures forall e :: e in events ==> HasId(Firsts(events), e.id)
  {
    if events != [] {
      var n := |events| - 1;
      var init, last := events[..n], events[n];
      FirstsRepresent(init);
      assert events == init + [last];
      assert forall e :: e in events <==> e in init || e == last;
      forall e | e in events ensures HasId(Firsts(events), e.id) {
        if e in init {
          var f :| f in Firsts(init) && f.id == e.id;
          assert f in Firsts(events);
        } else if HasId(init, last.id) {
          var g :| g in init && g.id == last.id;
          var f :| f in Firsts(init) && f.id == g.id;
          assert f in Firsts(events);
        } else {
          assert last in Firsts(events);
        }
      }
      if !HasId(init, last.id) {
        forall f | f in Firsts(init) ensures f.id != last.id {
          assert f in init;
        }
      }
    }
  }

  /** A batch without repeated ids is its own deduplication. */
  lemma {:induction false} FirstsOfDistinct(events: seq<Event>)
    requires DistinctIds(events)
    ensures Firsts(events) == events
  {
    if events != [] {
      var n := |events| - 1;
      FirstsOfDistinct(events[..n]);
      assert !HasId(events[..n], events[n].id);
      assert events == events[..n] + [events[n]];
    }
  }

  lemma TakeAll(events: seq<Event>, n: nat)
    requires n == |events|
    ensures events[..n] == events
  {
  }

  lemma TakeNext(unique: seq<Event>, i: nat)
    requires i < |unique|
    ensures unique[..i + 1] == unique[..i] + [unique[i]]
    ensures i + 1 == |unique| ==> unique[..i + 1] == unique
  {
  }

  /** The dictionary holds the canonical record of every id so far. */
  ghost predicate Remembers(byId: map<EventId, Event>, done: seq<Event>) {
    && (forall id :: id in byId <==> HasId(done, id))
    && forall e :: e in done ==> e.id in byId && byId[e.id] == ImportRecord(e)
  }

  lemma RememberedConflict(byId: map<EventId, Event>, done: seq<Event>, e: Event)
    requires Remembers(byId, done) && e.id in byId && byId[e.id] != ImportRecord(e)
    ensures !ExactRetries(done + [e])
  {
    var f :| f in done && f.id == e.id;
    assert f in done + [e] && e in done + [e];
  }

  lemma IdsGrow(done: seq<Event>, e: Event, id: EventId)
    ensures HasId(done + [e], id) <==> HasId(done, id) || id == e.id
  {
    if HasId(done, id) {
      var f :| f in done && f.id == id;
      assert f in done + [e];
    }
    assert e in done + [e];
  }

  lemma RememberedRetry(byId: map<EventId, Event>, done: seq<Event>, e: Event)
    requires Remembers(byId, done) && ExactRetries(done)
    requires e.id in byId ==> byId[e.id] == ImportRecord(e)
    ensures ExactRetries(done + [e])
    ensures Remembers(byId[e.id := ImportRecord(e)], done + [e])
    ensures Firsts(done + [e]) == Firsts(done) + if e.id in byId then [] else [e]
  {
    assert (done + [e])[..|done|] == done;
    assert forall f :: f in done + [e] <==> f in done || f == e;
    assert HasId(done, e.id) <==> e.id in byId;
    forall id ensures HasId(done + [e], id) <==> HasId(done, id) || id == e.id {
      IdsGrow(done, e, id);
    }
  }

  lemma RetriesPrefix(events: seq<Event>, i: nat)
    requires i < |events| && !ExactRetries(events[..i] + [events[i]])
    ensures !ExactRetries(events)
  {
    var e, f :| e in events[..i] + [events[i]] && f in events[..i] + [events[i]]
                && e.id == f.id && ImportRecord(e) != ImportRecord(f);
    assert e in events && f in events;
  }

  ghost predicate Deduplicated(unique: seq<Event>, byId: map<EventId, Event>, done: seq<Event>) {
    unique == Firsts(done) && ExactRetries(done) && Remembers(byId, done)
  }

  /** One event of the batch, after the events of `done`. */
  method TakeUnique(ghost done: seq<Event>, e: Event, unique: seq<Event>, byId: map<EventId, Event>)
    returns (ok: bool, longer: seq<Event>, known: map<EventId, Event>)
    requires Deduplicated(unique, byId, done)
    ensures ok <==> ExactRetries(done + [e])
    ensures ok ==> Deduplicated(longer, known, done + [e])
  {
    var canonical := ImportRecord(e);
    if e.id in byId && byId[e.id] != canonical {
      RememberedConflict(byId, done, e);
      return false, unique, byId;
    }
    RememberedRetry(byId, done, e);
    longer := if e.id in byId then unique else unique + [e];
    return true, longer, byId[e.id := canonical];
  }

  method DeduplicateBatch(events: seq<Event>) returns (result: Result<seq<Event>, ImportError>)
    ensures result ==
      if ExactRetries(events) then Ok(Firsts(events)) else Err(IncompatibleDuplicateIdentity)
  {
    var unique: seq<Event>, byId: map<EventId, Event> := [], map[];
    var i, ok := 0, true;
    while i < |events|
      invariant 0 <= i <= |events| && Deduplicated(unique, byId, events[..i])
    {
      ok, unique, byId := TakeUnique(events[..i], events[i], unique, byId);
      if !ok {
        RetriesPrefix(events, i);
        return Err(IncompatibleDuplicateIdentity);
      }
      TakeNext(events, i);
      i := i + 1;
    }
    TakeAll(events, i);
    result := Ok(unique);
  }

  // ----- validation -----

  ghost predicate AllEnveloped(events: seq<Event>) {
    forall e :: e in events ==> e.Enveloped()
  }

  predicate IsFresh(rows: map<EventId, Row>, e: Event) {
    e.Enveloped() && e.id !in rows
  }

  /** The enveloped events of a batch that the ledger does not hold yet. */
  ghost function Fresh(rows: map<EventId, Row>, events: seq<Event>): (added: seq<Event>)
    ensures AllEnveloped(added)
  {
    if events == [] then []
    else
      var n := |events| - 1;
      Fresh(rows, events[..n]) + if IsFresh(rows, events[n]) then [events[n]] else []
  }

  /** Persisted ids are repeated with their persisted record. */
  ghost predicate MatchesStored(rows: map<EventId, Row>, events: seq<Event>)
    requires RowsStored(rows)
  {
    forall e :: e in events && e.id in rows ==> ImportRecord(FromRow(rows[e.id])) == ImportRecord(e)
  }

  /** Every enveloped event is on the ledger's stream or, in a ledger without one, on the stream
      of the fresh events before it. */
  ghost predicate StreamsAgree(ix: Index, events: seq<Event>) {
    && (forall i :: 0 <= i < |events| && events[i].Enveloped() && ix.cursor.Some? ==>
          events[i].Stream() == ix.cursor.value.stream)
    && (forall i, j | 0 <= j < i < |events| && events[i].Enveloped() && IsFresh(ix.rows, events[j]) ::
          ix.cursor.None? ==> events[i].Stream() == events[j].Stream())
  }

  function StartSeq(cursor: Option<Cursor>): int {
    if cursor.Some? then cursor.value.next else 1
  }

  /** One past the last sequence number, or `start` if there is none. */
  function FinalSeq(start: int, added: seq<Event>): int
    requires AllEnveloped(added)
  {
    if added == [] then start else added[|added| - 1].SeqNo() + 1
  }

  ghost predicate Carries(added: seq<Event>, q: int)
    requires AllEnveloped(added)
  {
    exists e :: e in added && e.SeqNo() == q
  }

  /** The sequence numbers rise strictly from at least `start`, and every number passed over up to
      the last of them is an accepted loss. */
  ghost predicate Continuous(added: seq<Event>, start: int, accepted: set<int>)
    requires AllEnveloped(added)
  {
    && (forall i, j :: 0 <= i < j < |added| ==> added[i].SeqNo() < added[j].SeqNo())
    && (forall i :: 0 <= i < |added| ==> added[i].SeqNo() >= start)
    && (forall q :: start <= q < FinalSeq(start, added) ==> Carries(added, q) || q in accepted)
  }

  lemma {:induction false} FreshElements(rows: map<EventId, Row>, events: seq<Event>)
    ensures forall e :: e in Fresh(rows, events) <==> e in events && IsFresh(rows, e)
  {
    if events != [] {
      var n := |events| - 1;
      FreshElements(rows, events[..n]);
      assert events == events[..n] + [events[n]];
    }
  }

  lemma {:induction false} FreshPrefix(rows: map<EventId, Row>, events: seq<Event>, i: nat)
    requires i <= |events|
    ensures Fresh(rows, events[..i]) <= Fresh(rows, events)
    decreases |events|
  {
    if i == |events| {
      assert events[..i] == events;
    } else {
      var n := |events| - 1;
      FreshPrefix(rows, events[..n], i);
      assert events[..n][..i] == events[..i];
    }
  }

  /** A continuous batch is continuous up to any point. */
  lemma ContinuousPrefix(added: seq<Event>, start: int, accepted: set<int>, k: nat)
    requires AllEnveloped(added) && k <= |added|
    requires Continuous(added, start, accepted)
    ensures AllEnveloped(added[..k]) && Continuous(added[..k], start, accepted)
  {
    var init := added[..k];
    forall q | start <= q < FinalSeq(start, init) ensures Carries(init, q) || q in accepted {
      if Carries(added, q) {
        var e :| e in added && e.SeqNo() == q;
        var i :| 0 <= i < |added| && added[i] == e;
        assert i < k;
        assert e == init[i];
      }
    }
  }

  lemma SkippedIsNotCarried(added: seq<Event>, e: Event, start: int, accepted: set<int>, q: int)
    requires AllEnveloped(added + [e]) && AllEnveloped(added) && Continuous(added + [e], start, accepted)
    requires FinalSeq(start, added) <= q < (added + [e])[|added|].SeqNo()
    ensures !Carries(added + [e], q)
  {
    var all := added + [e];
    forall f | f in all ensures f.SeqNo() != q {
      var k :| 0 <= k < |all| && all[k] == f;
      if k < |added| {
        assert all[k].SeqNo() <= all[|added| - 1].SeqNo();
      }
    }
  }

  /** One more fresh event is continuous exactly when every number it skips is accepted. */
  lemma ContinuousStep(added: seq<Event>, e: Event, start: int, accepted: set<int>)
    requires AllEnveloped(added) && e.Enveloped() && Continuous(added, start, accepted)
    ensures AllEnveloped(added + [e])
    ensures Continuous(added + [e], start, accepted) <==>
      && e.SeqNo() >= FinalSeq(start, added)
      && forall q :: FinalSeq(start, added) <= q < e.SeqNo() ==> q in accepted
  {
    var all := added + [e];
    assert forall f :: f in all <==> f in added || f == e;
    forall q | start <= q < FinalSeq(start, added) ensures Carries(all, q) || q in accepted {
      if Carries(added, q) {
        var f :| f in added && f.SeqNo() == q;
        assert f in all;
      }
    }
    assert Carries(all, e.SeqNo());
    if Continuous(all, start, accepted) {
      assert all[|added|] == e;
      assert added != [] ==> all[|added| - 1] == added[|added| - 1];
      forall q | FinalSeq(start, added) <= q < e.SeqNo() ensures q in accepted {
        SkippedIsNotCarried(added, e, start, accepted, q);
      }
    }
  }

  /** What the validator accepts once identities are settled. */
  ghost predicate Admissible(ix: Index, events: seq<Event>, accepted: set<int>) {
    && StreamsAgree(ix, events)
    && Continuous(Fresh(ix.rows, events), StartSeq(ix.cursor), accepted)
  }

  /** The verdict on a batch: identity clashes are found before discontinuities. */
  ghost function Verdict(ix: Index, events: seq<Event>, accepted: set<int>): Result<seq<Event>, ImportError>
    requires RowsStored(ix.rows)
  {
    var unique := Firsts(events);
    if !ExactRetries(events) || !MatchesStored(ix.rows, unique) then Err(IncompatibleDuplicateIdentity)
    else if !Admissible(ix, unique, accepted) then Err(OriginDiscontinuity)
    else Ok(unique)
  }

  /** The skipping loop: from `expected` towards `seqNo` over accepted losses only. */
  method SkipAccepted(expected: int, seqNo: int, accepted: set<int>) returns (next: int)
    ensures expected <= next && (expected <= seqNo ==> next <= seqNo)
    ensures next == seqNo <==>
      expected <= seqNo && forall q :: expected <= q < seqNo ==> q in accepted
  {
    next := expected;
    while next in accepted && next < seqNo
      invariant expected <= next && (expected <= seqNo ==> next <= seqNo)
      invariant forall q :: expected <= q < next ==> q in accepted
      decreases seqNo - next
    {
      next := next + 1;
    }
  }

  method CheckStored(ix: Index, unique: seq<Event>) returns (ok: bool)
    requires RowsStored(ix.rows)
    ensures ok <==> MatchesStored(ix.rows, unique)
  {
    var i := 0;
    while i < |unique|
      invariant 0 <= i <= |unique|
      invariant MatchesStored(ix.rows, unique[..i])
    {
      assert forall f :: f in unique[..i + 1] <==> f in unique[..i] || f == unique[i];
      var e := unique[i];
      if e.id in ix.rows && ImportRecord(FromRow(ix.rows[e.id])) != ImportRecord(e) {
        assert e in unique;
        return false;
      }
      i := i + 1;
    }
    TakeAll(unique, i);
    ok := true;
  }

  /** The stream that the continuity check has settled on after the events of `done`. */
  ghost predicate Settled(ix: Index, done: seq<Event>, stream: Option<StreamId>) {
    && StreamsAgree(ix, done)
    && (ix.cursor.Some? ==> stream == Some(ix.cursor.value.stream))
    && (ix.cursor.None? && stream.Some? ==>
          exists j :: 0 <= j < |done| && IsFresh(ix.rows, done[j]) && done[j].Stream() == stream.value)
    && (ix.cursor.None? ==>
          forall j :: 0 <= j < |done| && IsFresh(ix.rows, done[j]) ==> stream == Some(done[j].Stream()))
  }

  lemma StreamsStep(ix: Index, done: seq<Event>, e: Event, stream: Option<StreamId>)
    requires Settled(ix, done, stream)
    ensures StreamsAgree(ix, done + [e]) <==>
      (e.Enveloped() && stream.Some? ==> e.Stream() == stream.value)
    ensures StreamsAgree(ix, done + [e]) ==>
      Settled(ix, done + [e], if IsFresh(ix.rows, e) then Some(e.Stream()) else stream)
  {
    var all := done + [e];
    assert all[|done|] == e;
    assert forall k :: 0 <= k < |done| ==> all[k] == done[k];
  }

  lemma StreamsPrefix(ix: Index, events: seq<Event>, i: nat)
    requires i <= |events| && StreamsAgree(ix, events)
    ensures StreamsAgree(ix, events[..i])
  {
  }

  lemma FreshStep(rows: map<EventId, Row>, done: seq<Event>, e: Event)
    ensures Fresh(rows, done + [e]) == Fresh(rows, done) + if IsFresh(rows, e) then [e] else []
  {
    assert (done + [e])[..|done|] == done;
  }

  /** A batch that is continuous is continuous up to any point. */
  lemma FreshContinuousPrefix(rows: map<EventId, Row>, events: seq<Event>, start: int,
                              accepted: set<int>, i: nat)
    requires i <= |events| && Continuous(Fresh(rows, events), start, accepted)
    ensures Continuous(Fresh(rows, events[..i]), start, accepted)
  {
    FreshPrefix(rows, events, i);
    var part := Fresh(rows, events[..i]);
    assert part == Fresh(rows, events)[..|part|];
    ContinuousPrefix(Fresh(rows, events), start, accepted, |part|);
  }

  lemma AdmissiblePrefix(ix: Index, events: seq<Event>, accepted: set<int>, i: nat)
    requires i <= |events| && Admissible(ix, events, accepted)
    ensures Admissible(ix, events[..i], accepted)
  {
    StreamsPrefix(ix, events, i);
    FreshContinuousPrefix(ix.rows, events, StartSeq(ix.cursor), accepted, i);
  }

  /** The state carried by the continuity check. */
  ghost predicate Scanned(ix: Index, done: seq<Event>, accepted: set<int>,
                          stream: Option<StreamId>, expected: int)
  {
    && Settled(ix, done, stream)
    && Continuous(Fresh(ix.rows, done), StartSeq(ix.cursor), accepted)
    && expected == FinalSeq(StartSeq(ix.cursor), Fresh(ix.rows, done))
  }

  /** One event of the batch, after the events of `done`. */
  method AdmitNext(ix: Index, ghost done: seq<Event>, e: Event, accepted: set<int>,
                   stream: Option<StreamId>, expected: int)
    returns (ok: bool, settled: Option<StreamId>, next: int)
    requires Scanned(ix, done, accepted, stream, expected)
    ensures ok <==> Admissible(ix, done + [e], accepted)
    ensures ok ==> Scanned(ix, done + [e], accepted, settled, next)
  {
    StreamsStep(ix, done, e, stream);
    FreshStep(ix.rows, done, e);
    ok, settled, next := true, stream, expected;
    if e.Enveloped() {
      if stream.Some? && e.Stream() != stream.value {
        return false, stream, expected;
      }
      if e.id !in ix.rows {
        ContinuousStep(Fresh(ix.rows, done), e, StartSeq(ix.cursor), accepted);
        if e.SeqNo() != expected {
          next := SkipAccepted(expected, e.SeqNo(), accepted);
        }
        ok := e.SeqNo() == next;
        settled, next := Some(e.Stream()), next + 1;
      }
    }
  }

  /** What stops the check at one event condemns the whole batch. */
  lemma StopsAt(ix: Index, unique: seq<Event>, accepted: set<int>, i: nat)
    requires i < |unique| && !Admissible(ix, unique[..i] + [unique[i]], accepted)
    ensures !Admissible(ix, unique, accepted)
  {
    assert unique[..i + 1] == unique[..i] + [unique[i]];
    if Admissible(ix, unique, accepted) {
      AdmissiblePrefix(ix, unique, accepted, i + 1);
    }
  }

  lemma ScanStarts(ix: Index, unique: seq<Event>, accepted: set<int>)
    ensures var stream := if ix.cursor.Some? then Some(ix.cursor.value.stream) else None;
      Scanned(ix, unique[..0], accepted, stream, StartSeq(ix.cursor))
  {
  }

  method CheckContinuity(ix: Index, unique: seq<Event>, accepted: set<int>) returns (ok: bool)
    ensures ok <==> Admissible(ix, unique, accepted)
  {
    var stream: Option<StreamId> := if ix.cursor.Some? then Some(ix.cursor.value.stream) else None;
    var expected := StartSeq(ix.cursor);
    var i := 0;
    ScanStarts(ix, unique, accepted);
    while i < |unique|
      invariant 0 <= i <= |unique|
      invariant Scanned(ix, unique[..i], accepted, stream, expected)
    {
      ok, stream, expected := AdmitNext(ix, unique[..i], unique[i], accepted, stream, expected);
      if !ok {
        StopsAt(ix, unique, accepted, i);
        return;
      }
      TakeNext(unique, i);
      i := i + 1;
    }
    assert unique[..i] == unique;
    ok := true;
  }

  method ValidateImportBatch(ix: Index, events: seq<Event>, accepted: set<int>)
    returns (result: Result<seq<Event>, ImportError>)
    requires RowsStored(ix.rows)
    ensures result == Verdict(ix, events, accepted)
  {
    result := DeduplicateBatch(events);
    if result.Ok? {
      var matches := CheckStored(ix, result.value);
      if !matches {
        return Err(IncompatibleDuplicateIdentity);
      }
      var continuous := CheckContinuity(ix, result.value, accepted);
      if !continuous {
        return Err(OriginDiscontinuity);
      }
    }
  }

  // ----- import -----

  /** The cursor after an import: one past the last fresh event, unchanged without one. */
  ghost function FinalCursor(ix: Index, unique: seq<Event>): Option<Cursor> {
    var added := Fresh(ix.rows, unique);
    if added == [] then ix.cursor
    else Some(Cursor(added[0].Stream(), FinalSeq(StartSeq(ix.cursor), added)))
  }

  lemma StoredAgree(ix: Index, unique: seq<Event>, e: Event)
    requires LedgerOk(ix) && MatchesStored(ix.rows, unique) && e in unique
    ensures Agrees(ix.rows, e)
    ensures e.id in ix.rows && e.Enveloped() ==> BelowCursor(ix.cursor, ToRow(e))
  {
    if e.id in ix.rows {
      StoredRecord(ix.rows[e.id], e);
    }
  }

  lemma FreshAbove(ix: Index, unique: seq<Event>, accepted: set<int>, e: Event)
    requires LedgerOk(ix) && Admissible(ix, unique, accepted)
    requires e in unique && IsFresh(ix.rows, e)
    ensures e.SeqNo() >= StartSeq(ix.cursor) >= 1
    ensures e.SeqNo() < FinalSeq(StartSeq(ix.cursor), Fresh(ix.rows, unique))
  {
    FreshElements(ix.rows, unique);
    assert e in Fresh(ix.rows, unique);
  }

  lemma FreshStreams(ix: Index, unique: seq<Event>, e: Event, f: Event)
    requires StreamsAgree(ix, unique)
    requires e in unique && f in unique && e.Enveloped() && f.Enveloped()
    requires ix.cursor.None? ==> IsFresh(ix.rows, e) && IsFresh(ix.rows, f)
    ensures e.Stream() == f.Stream()
  {
    var i :| 0 <= i < |unique| && unique[i] == e;
    var j :| 0 <= j < |unique| && unique[j] == f;
    assert i == j || i < j || j < i;
  }

  lemma FreshOrigins(ix: Index, unique: seq<Event>, accepted: set<int>, e: Event, f: Event)
    requires Continuous(Fresh(ix.rows, unique), StartSeq(ix.cursor), accepted)
    requires e in unique && f in unique && IsFresh(ix.rows, e) && IsFresh(ix.rows, f)
    requires e.SeqNo() == f.SeqNo()
    ensures e == f
  {
    FreshElements(ix.rows, unique);
    var added := Fresh(ix.rows, unique);
    assert e in added && f in added;
    var i :| 0 <= i < |added| && added[i] == e;
    var j :| 0 <= j < |added| && added[j] == f;
  }

  /** The obligations of the writer after validation, before the events of `rest`. */
  ghost predicate Pending(ix: Index, rest: seq<Event>) {
    && LedgerOk(ix) && PositiveSeqs(rest) && OneRecordPerId(ix.rows, rest)
    && DistinctIds(rest)
    && Reconciled(ix, rest).Ok?
  }

  lemma ValidatedRecords(ix: Index, unique: seq<Event>, accepted: set<int>)
    requires LedgerOk(ix) && DistinctIds(unique)
    requires MatchesStored(ix.rows, unique) && Admissible(ix, unique, accepted)
    ensures OneRecordPerId(ix.rows, unique) && PositiveSeqs(unique)
  {
    forall e | e in unique
      ensures Agrees(ix.rows, e)
      ensures e.Enveloped() ==> e.SeqNo() >= 1
    {
      StoredAgree(ix, unique, e);
      if IsFresh(ix.rows, e) { FreshAbove(ix, unique, accepted, e); }
    }
  }

  lemma ValidatedStream(ix: Index, unique: seq<Event>)
    requires LedgerOk(ix) && MatchesStored(ix.rows, unique) && StreamsAgree(ix, unique)
    ensures OneStream(ix.cursor, unique)
  {
    forall e, f | e in unique && f in unique && e.Enveloped() && f.Enveloped() ensures e.Stream() == f.Stream() {
      StoredAgree(ix, unique, e);
      StoredAgree(ix, unique, f);
      FreshStreams(ix, unique, e, f);
    }
    forall e | e in unique ensures OnStream(ix.cursor, e) {
      var i :| 0 <= i < |unique| && unique[i] == e;
    }
  }

  lemma ValidatedFits(ix: Index, unique: seq<Event>, accepted: set<int>, e: Event)
    requires LedgerOk(ix) && MatchesStored(ix.rows, unique) && Admissible(ix, unique, accepted)
    requires e in unique
    ensures Fits(ix.rows, e)
  {
    StoredAgree(ix, unique, e);
    forall id | id in ix.rows && SameOrigin(ix.rows[id], e) ensures id == e.id {
      assert BelowCursor(ix.cursor, ix.rows[id]);
      if IsFresh(ix.rows, e) {
        FreshAbove(ix, unique, accepted, e);
      } else {
        assert SharedOrigin(ix.rows[id], ix.rows[e.id]);
      }
    }
  }

  lemma ValidatedOrigins(ix: Index, unique: seq<Event>, accepted: set<int>)
    requires LedgerOk(ix) && MatchesStored(ix.rows, unique) && Admissible(ix, unique, accepted)
    ensures OneIdPerOrigin(ix.rows, unique)
  {
    forall e | e in unique ensures Fits(ix.rows, e) {
      ValidatedFits(ix, unique, accepted, e);
    }
    forall e, f | e in unique && f in unique && SharesOrigin(e, f) ensures e.id == f.id {
      StoredAgree(ix, unique, e);
      StoredAgree(ix, unique, f);
      if IsFresh(ix.rows, e) && IsFresh(ix.rows, f) {
        FreshOrigins(ix, unique, accepted, e, f);
      } else if e.id in ix.rows {
        assert SameOrigin(ix.rows[e.id], f);
      } else {
        assert SameOrigin(ix.rows[f.id], e);
      }
    }
  }

  /** A validated batch goes in without hitting the unique origin index or a foreign stream. */
  lemma ValidatedPending(ix: Index, events: seq<Event>, accepted: set<int>)
    requires LedgerOk(ix) && Verdict(ix, events, accepted).Ok?
    ensures Pending(ix, Firsts(events))
  {
    var unique := Firsts(events);
    FirstsRepresent(events);
    ValidatedRecords(ix, unique, accepted);
    ValidatedStream(ix, unique);
    ValidatedOrigins(ix, unique, accepted);
    CoherentLinesMerge(ix, unique);
  }

  lemma EnvelopedBound(ix: Index, unique: seq<Event>, accepted: set<int>, e: Event)
    requires LedgerOk(ix) && MatchesStored(ix.rows, unique) && Admissible(ix, unique, accepted)
    requires e in unique && e.Enveloped()
    ensures e.SeqNo() < FinalSeq(StartSeq(ix.cursor), Fresh(ix.rows, unique))
    ensures Fresh(ix.rows, unique) == [] ==> ix.cursor.Some?
  {
    StoredAgree(ix, unique, e);
    if IsFresh(ix.rows, e) {
      FreshAbove(ix, unique, accepted, e);
      FreshElements(ix.rows, unique);
      assert e in Fresh(ix.rows, unique);
    } else if Fresh(ix.rows, unique) != [] {
      var added := Fresh(ix.rows, unique);
      assert added[|added| - 1].SeqNo() >= StartSeq(ix.cursor);
    }
  }

  lemma CursorTop(cursor: Option<Cursor>, unique: seq<Event>, added: seq<Event>, out: Option<Cursor>)
    requires AllEnveloped(added) && CursorMerged(cursor, unique, out)
    requires forall e :: e in unique && e.Enveloped() ==> e.SeqNo() < FinalSeq(StartSeq(cursor), added)
    requires added == [] ==> forall e :: e in unique && e.Enveloped() ==> cursor.Some?
    requires added != [] ==>
      added[0] in unique && added[|added| - 1] in unique && added[|added| - 1].SeqNo() >= StartSeq(cursor)
    ensures out == if added == [] then cursor
                   else Some(Cursor(added[0].Stream(), FinalSeq(StartSeq(cursor), added)))
  {
  }

  lemma MergedCursor(ix: Index, unique: seq<Event>, accepted: set<int>, out: Option<Cursor>)
    requires LedgerOk(ix) && MatchesStored(ix.rows, unique) && Admissible(ix, unique, accepted)
    requires CursorMerged(ix.cursor, unique, out)
    ensures out == FinalCursor(ix, unique)
  {
    var added := Fresh(ix.rows, unique);
    FreshElements(ix.rows, unique);
    if added != [] {
      var first, last := added[0], added[|added| - 1];
      assert first in added && last in added;
      FreshAbove(ix, unique, accepted, last);
    }
    forall e | e in unique && e.Enveloped()
      ensures e.SeqNo() < FinalSeq(StartSeq(ix.cursor), added)
      ensures added == [] ==> ix.cursor.Some?
    {
      EnvelopedBound(ix, unique, accepted, e);
    }
    CursorTop(ix.cursor, unique, added, out);
  }

  /** The cursor, advanced row by row, ends where the validator's expectation ended. */
  lemma ImportCursor(ix: Index, events: seq<Event>, accepted: set<int>)
    requires LedgerOk(ix) && Verdict(ix, events, accepted).Ok?
    ensures Reconciled(ix, Firsts(events)).Ok?
    ensures Reconciled(ix, Firsts(events)).value.cursor == FinalCursor(ix, Firsts(events))
    ensures LedgerOk(Reconciled(ix, Firsts(events)).value)
  {
    ValidatedPending(ix, events, accepted);
    CoherentLinesMerge(ix, Firsts(events));
    MergedCursor(ix, Firsts(events), accepted, Reconciled(ix, Firsts(events)).value.cursor);
  }

  lemma PendingStep(ix: Index, rest: seq<Event>)
    requires rest != [] && Pending(ix, rest)
    ensures Absorbed(ix, rest[0]).Ok? && Pending(Absorbed(ix, rest[0]).value, rest[1..])
    ensures rest[0].id in ix.rows ==> Absorbed(ix, rest[0]).value == ix
  {
    var e := rest[0];
    assert rest == [e] + rest[1..];
    assert e in rest && Agrees(ix.rows, e);
    AbsorbStep(ix, e);
    AbsorbKeeps(ix, e);
    SplitRecords(ix.rows, e, rest[1..], Absorbed(ix, e).value.rows);
    if e.id in ix.rows { assert BelowCursor(ix.cursor, ix.rows[e.id]); }
  }

  datatype Counts = Counts(imported: int, skipped: int)

  /** The ledger after the writer, and what it reports. */
  ghost predicate ImportResult(was: Index, events: seq<Event>, accepted: set<int>, now: Index,
                               result: Result<Counts, ImportError>)
    requires RowsStored(was.rows)
  {
    match Verdict(was, events, accepted)
    case Err(error) => result == Err(error) && now == was
    case Ok(unique) =>
      && result.Ok?
      && Reconciled(was, unique) == Ok(now)
      && now.cursor == FinalCursor(was, unique)
      && LedgerOk(now)
      && result.value.imported == |now.rows| - |was.rows|
      && result.value.imported + result.value.skipped == |events|
  }

  /** One validated event that the ledger does not hold yet. Neither the unique origin index nor
      a lost identity race nor a foreign stream can stop it. */
  method WriteEvent(ledger: Ledger, e: Event, ghost rest: seq<Event>)
    requires Pending(ledger.View(), [e] + rest) && e.id !in ledger.rows
    modifies ledger
    ensures Absorbed(old(ledger.View()), e) == Ok(ledger.View())
  {
    PendingStep(ledger.View(), [e] + rest);
    var inserted := ledger.InsertEventIgnore(e);
    if inserted != Ok(true) {
      assert false;
    }
    var observed := ledger.ObserveOrigin(e);
    if observed.Some? {
      assert false;
    }
  }

  ghost predicate ExistingKnown(ix: Index, rest: seq<Event>, existing: set<EventId>) {
    forall e :: e in rest ==> (e.id in existing <==> e.id in ix.rows)
  }

  lemma DistinctHead(e: Event, rest: seq<Event>)
    requires DistinctIds([e] + rest)
    ensures forall f :: f in rest ==> f.id != e.id
  {
    forall f | f in rest ensures f.id != e.id {
      var i :| 0 <= i < |rest| && rest[i] == f;
      assert ([e] + rest)[0] == e && ([e] + rest)[i + 1] == f;
    }
  }

  lemma AbsorbedRows(ix: Index, e: Event)
    requires Absorbed(ix, e).Ok?
    ensures Absorbed(ix, e).value.rows == if e.id in ix.rows then ix.rows else ix.rows[e.id := ToRow(e)]
    ensures |Absorbed(ix, e).value.rows| == |ix.rows| + if e.id in ix.rows then 0 else 1
  {
  }

  lemma BatchStep(ix: Index, e: Event, rest: seq<Event>, existing: set<EventId>)
    requires Pending(ix, [e] + rest) && ExistingKnown(ix, [e] + rest, existing)
    ensures Absorbed(ix, e).Ok?
    ensures var mid := Absorbed(ix, e).value;
      && Pending(mid, rest) && ExistingKnown(mid, rest, existing)
      && Reconciled(ix, [e] + rest) == Reconciled(mid, rest)
      && (if e.id in existing then mid == ix else e.id !in ix.rows && |mid.rows| == |ix.rows| + 1)
  {
    var all := [e] + rest;
    assert all[0] == e && all[1..] == rest;
    PendingStep(ix, all);
    assert e in all && forall f :: f in rest ==> f in all;
    DistinctHead(e, rest);
    AbsorbedRows(ix, e);
  }

  /** One event of a validated batch: skipped if the ledger has it, written otherwise. */
  method WriteNext(ledger: Ledger, e: Event, ghost rest: seq<Event>, existing: set<EventId>) returns (written: bool)
    requires Pending(ledger.View(), [e] + rest) && ExistingKnown(ledger.View(), [e] + rest, existing)
    modifies ledger
    ensures Pending(ledger.View(), rest) && ExistingKnown(ledger.View(), rest, existing)
    ensures Reconciled(old(ledger.View()), [e] + rest) == Reconciled(ledger.View(), rest)
    ensures |ledger.rows| == |old(ledger.rows)| + if written then 1 else 0
  {
    BatchStep(ledger.View(), e, rest, existing);
    written := e.id !in existing;
    if written {
      WriteEvent(ledger, e, rest);
    }
  }

  lemma DropNext(unique: seq<Event>, i: nat)
    requires i < |unique|
    ensures unique[i..] == [unique[i]] + unique[i + 1..]
  {
  }

  /** The writer's loop over a validated batch. */
  method WriteBatch(ledger: Ledger, unique: seq<Event>, existing: set<EventId>) returns (counts: Counts)
    requires Pending(ledger.View(), unique) && ExistingKnown(ledger.View(), unique, existing)
    modifies ledger
    ensures Reconciled(old(ledger.View()), unique) == Ok(ledger.View())
    ensures counts.imported == |ledger.rows| - |old(ledger.rows)|
    ensures counts.imported + counts.skipped == |unique|
  {
    counts := Counts(0, 0);
    var i := 0;
    while i < |unique|
      invariant 0 <= i <= |unique|
      invariant Pending(ledger.View(), unique[i..])
      invariant ExistingKnown(ledger.View(), unique[i..], existing)
      invariant Reconciled(ledger.View(), unique[i..]) == Reconciled(old(ledger.View()), unique)
      invariant counts.imported == |ledger.rows| - |old(ledger.rows)|
      invariant counts.imported + counts.skipped == i
    {
      DropNext(unique, i);
      var written := WriteNext(ledger, unique[i], unique[i + 1..], existing);
      counts := if written then counts.(imported := counts.imported + 1) else counts.(skipped := counts.skipped + 1);
      i := i + 1;
    }
  }

  /** Imports the batch in one transaction, or changes nothing. */
  method ImportEvents(ledger: Ledger, events: seq<Event>, accepted: set<int>)
    returns (result: Result<Counts, ImportError>)
    requires LedgerOk(ledger.View())
    modifies ledger
    ensures ImportResult(old(ledger.View()), events, accepted, ledger.View(), result)
  {
    var deduplicated := DeduplicateBatch(events);
    if deduplicated.Err? {
      return Err(deduplicated.error);
    }
    var retries := |events| - |deduplicated.value|;
    var validated := ValidateImportBatch(Index(ledger.rows, ledger.cursor), events, accepted);
    if validated.Err? {
      return Err(validated.error);
    }
    var unique := validated.value;
    var existing := set e | e in unique && e.id in ledger.rows :: e.id;
    ValidatedPending(ledger.View(), events, accepted);
    ImportCursor(ledger.View(), events, accepted);
    var counts := WriteBatch(ledger, unique, existing);
    result := Ok(counts.(skipped := counts.skipped + retries));
  }

  // ----- repeated imports -----

  /** The ledger holds every record of the batch, on its own stream. */
  ghost predicate Holds(ix: Index, events: seq<Event>)
    requires RowsStored(ix.rows)
  {
    && ExactRetries(events)
    && MatchesStored(ix.rows, events)
    && (forall e :: e in events ==> e.id in ix.rows)
  }

  /** An accepted batch is held from then on. */
  lemma ImportedIsHeld(ix: Index, events: seq<Event>, accepted: set<int>)
    requires LedgerOk(ix) && Verdict(ix, events, accepted).Ok?
    requires forall e :: e in events ==> ValidEvent(e)
    ensures Reconciled(ix, Firsts(events)).Ok?
    ensures LedgerOk(Reconciled(ix, Firsts(events)).value)
    ensures Holds(Reconciled(ix, Firsts(events)).value, events)
  {
    var unique := Firsts(events);
    FirstsRepresent(events);
    ValidatedPending(ix, events, accepted);
    CoherentLinesMerge(ix, unique);
    var out := Reconciled(ix, unique).value;
    forall e | e in events
      ensures e.id in out.rows && ImportRecord(FromRow(out.rows[e.id])) == ImportRecord(e)
    {
      var f :| f in unique && f.id == e.id;
      assert f in events && out.rows[f.id] == ToRow(f);
      StoredRecord(out.rows[f.id], f);
    }
  }

  /** Later accepted imports keep it held. */
  lemma ImportKeepsHeld(ix: Index, held: seq<Event>, events: seq<Event>, accepted: set<int>)
    requires LedgerOk(ix) && Holds(ix, held) && Verdict(ix, events, accepted).Ok?
    ensures Reconciled(ix, Firsts(events)).Ok?
    ensures LedgerOk(Reconciled(ix, Firsts(events)).value)
    ensures Holds(Reconciled(ix, Firsts(events)).value, held)
  {
    ValidatedPending(ix, events, accepted);
    CoherentLinesMerge(ix, Firsts(events));
  }

  lemma {:induction false} NothingFresh(rows: map<EventId, Row>, events: seq<Event>)
    requires forall e :: e in events ==> e.id in rows
    ensures Fresh(rows, events) == []
  {
    if events != [] {
      NothingFresh(rows, events[..|events| - 1]);
    }
  }

  lemma HeldOnStream(ix: Index, events: seq<Event>, e: Event)
    requires LedgerOk(ix) && Holds(ix, events) && e in events && e.Enveloped()
    ensures ix.cursor.Some? && ix.cursor.value.stream == e.Stream() && ix.cursor.value.next > e.SeqNo()
  {
    StoredAgree(ix, events, e);
  }

  lemma HeldStreamsAgree(ix: Index, events: seq<Event>, unique: seq<Event>)
    requires LedgerOk(ix) && Holds(ix, events)
    requires forall e :: e in unique ==> e in events
    ensures StreamsAgree(ix, unique)
  {
    forall i | 0 <= i < |unique| ensures unique[i] in events && !IsFresh(ix.rows, unique[i]) {
      assert unique[i] in unique;
    }
    forall i | 0 <= i < |unique| && unique[i].Enveloped()
      ensures ix.cursor.Some? ==> unique[i].Stream() == ix.cursor.value.stream
    {
      HeldOnStream(ix, events, unique[i]);
    }
  }

  lemma HeldVerdict(ix: Index, events: seq<Event>, accepted: set<int>)
    requires LedgerOk(ix) && Holds(ix, events)
    ensures Verdict(ix, events, accepted) == Ok(Firsts(events))
  {
    FirstsRepresent(events);
    NothingFresh(ix.rows, Firsts(events));
    HeldStreamsAgree(ix, events, Firsts(events));
  }

  /** A held batch is accepted again, has nothing to add and leaves the ledger as it is. */
  lemma HeldBatchIsNoop(ix: Index, events: seq<Event>, accepted: set<int>)
    requires LedgerOk(ix) && Holds(ix, events)
    ensures Verdict(ix, events, accepted) == Ok(Firsts(events))
    ensures Reconciled(ix, Firsts(events)) == Ok(ix)
  {
    HeldVerdict(ix, events, accepted);
    FirstsRepresent(events);
    forall e | e in Firsts(events) && e.Enveloped()
      ensures ix.cursor.Some? && ix.cursor.value.stream == e.Stream() && ix.cursor.value.next > e.SeqNo()
    {
      HeldOnStream(ix, events, e);
    }
    ReconcileAbsorbed(ix, Firsts(events));
  }

  /** Importing a batch that the ledger holds reports every event as skipped. */
  lemma ReimportSkipsAll(ix: Index, events: seq<Event>, accepted: set<int>, now: Index,
                         result: Result<Counts, ImportError>)
    requires LedgerOk(ix) && Holds(ix, events)
    requires ImportResult(ix, events, accepted, now, result)
    ensures now == ix && result == Ok(Counts(0, |events|))
  {
    HeldBatchIsNoop(ix, events, accepted);
    AcceptedImport(ix, events, accepted, now, result);
  }

  /** An accepted import, without the case of a rejected one. */
  lemma AcceptedImport(was: Index, events: seq<Event>, accepted: set<int>, now: Index,
                       result: Result<Counts, ImportError>)
    requires RowsStored(was.rows) && ImportResult(was, events, accepted, now, result)
    requires Verdict(was, events, accepted).Ok?
    ensures result.Ok? && Reconciled(was, Verdict(was, events, accepted).value) == Ok(now)
    ensures result.value.imported == |now.rows| - |was.rows|
    ensures result.value.imported + result.value.skipped == |events|
  {
  }
}
