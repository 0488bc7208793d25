/** What a rebuild answers and leaves, told from the database before it, the batch and the flags. */
module RebuildAnswers {
  import opened Wrappers
  import opened Events
  import opened LocalLedger
  import opened Reconcile
  import opened ImportBatch
  import opened Rebuild

  // ----- the rows that a batch does not carry -----

  /** The number is that of a row whose id the batch does not carry, and the flag is set. */
  ghost predicate MayMiss(db: Option<Index>, events: seq<Event>, allow: bool, q: int) {
    && allow
    && db.Some?
    && exists id :: id in db.value.rows && db.value.rows[id].seqNo == Some(q) && IsLost(db, events, id)
  }

  ghost predicate IsLost(db: Option<Index>, events: seq<Event>, id: EventId) {
    db.Some? && id in db.value.rows && forall e :: e in events ==> e.id != id
  }

  ghost predicate LosesRows(db: Option<Index>, events: seq<Event>) {
    exists id :: IsLost(db, events, id)
  }

  // ----- what the result says -----

  /** A refusal and a dry run leave the database and the backup alone; the backup is otherwise the old
      database under `--replace` and what it was without. */
  lemma OnlyRebuiltWrites(was: Option<Index>, saved: Option<Index>, events: seq<Event>, options: Options,
                          now: Option<Index>, backup: Option<Index>, result: Result<Report, RebuildError>)
    requires DbOk(was) && RebuildResult(was, saved, events, options, now, backup, result)
    ensures result.Err? || options.dryRun ==> now == was && backup == saved
    ensures options.dryRun && result.Ok? ==> result.value.Validated?
    ensures !options.dryRun && result.Ok? ==>
      result.value.Rebuilt? && now.Some? && backup == if options.replace && was.Some? then was else saved
  {
  }

  /** Rows that the batch does not carry stop a batch that is otherwise accepted, exactly when their loss
      is not allowed; and they are counted. */
  lemma LossStops(was: Option<Index>, saved: Option<Index>, events: seq<Event>, options: Options,
                  now: Option<Index>, backup: Option<Index>, result: Result<Report, RebuildError>)
    requires DbOk(was) && RebuildResult(was, saved, events, options, now, backup, result)
    ensures result == Err(IndexOnlyEvents) ==> LosesRows(was, events) && !options.allowIndexOnly
    ensures result.Ok? ==> (LosesRows(was, events) ==> options.allowIndexOnly)
    ensures result.Ok? && was.Some? ==> result.value.lost == |set id | id in was.value.rows && IsLost(was, events, id)|
    ensures result.Ok? && was.None? ==> result.value.lost == 0
  {
    forall id ensures id in IndexOnly(was, events) <==> IsLost(was, events, id) {
      LostIsIndexOnly(was, events, id);
    }
    if was.Some? {
      assert IndexOnly(was, events) == set id | id in was.value.rows && IsLost(was, events, id);
    }
  }

  lemma LostIsIndexOnly(was: Option<Index>, events: seq<Event>, id: EventId)
    ensures id in IndexOnly(was, events) <==> IsLost(was, events, id)
  {
    if was.Some? && id in was.value.rows && !IsLost(was, events, id) {
      var e :| e in events && e.id == id;
      assert HasId(events, id);
    }
  }

  /** A dry run says what the run without it would: the same refusal, or as many lost rows. */
  lemma DryRunForetells(was: Option<Index>, saved: Option<Index>, events: seq<Event>, replace: bool, allow: bool,
                        now: Option<Index>, backup: Option<Index>, dry: Result<Report, RebuildError>,
                        later: Option<Index>, kept: Option<Index>, wet: Result<Report, RebuildError>)
    requires DbOk(was)
    requires RebuildResult(was, saved, events, Options(replace, true, allow), now, backup, dry)
    requires RebuildResult(was, saved, events, Options(replace, false, allow), later, kept, wet)
    ensures dry.Err? ==> wet == dry
    ensures dry.Ok? ==> wet.Ok? && wet.value.lost == dry.value.lost
  {
  }

  /** The numbers that the validator may skip are those of lost rows, under the flag. */
  lemma LossesMayBeMissing(was: Option<Index>, events: seq<Event>, allow: bool, q: int)
    ensures q in AcceptedLoss(was, events, allow) <==> MayMiss(was, events, allow, q)
  {
    if MayMiss(was, events, allow, q) {
      var id :| id in was.value.rows && was.value.rows[id].seqNo == Some(q) && IsLost(was, events, id);
      LostIsIndexOnly(was, events, id);
    }
    if q in AcceptedLoss(was, events, allow) {
      var id :| id in IndexOnly(was, events) && was.value.rows[id].seqNo == Some(q);
      LostIsIndexOnly(was, events, id);
    }
  }

  // ----- which batches a ledger admits -----

  /** Two records with one id differ in more than the two members that are not stored. */
  ghost predicate ClashesWithin(events: seq<Event>) {
    exists e, f :: e in events && f in events && IsClash(e, f)
  }

  predicate IsClash(e: Event, f: Event) {
    e.id == f.id && e.(recordDigest := None, idempotencyKey := None) != f.(recordDigest := None, idempotencyKey := None)
  }

  /** A record has the id of a row and is not the record of that row. */
  ghost predicate ClashesWith(rows: map<EventId, Row>, events: seq<Event>) {
    exists e :: e in events && e.id in rows && (rows[e.id] != ToRow(e) || !Consistent(e))
  }

  /** The places of the batch at which an id comes for the first time. */
  ghost function Places(events: seq<Event>): seq<nat> {
    if events == [] then []
    else
      var n := |events| - 1;
      Places(events[..n]) + if IsFirstAt(events, n) then [n] else []
  }

  ghost predicate IsFirstAt(events: seq<Event>, i: nat) {
    i < |events| && forall j :: 0 <= j < i ==> events[j].id != events[i].id
  }

  /** `kept` are the first records of all ids, in order, and `places` where they are. */
  ghost predicate KeptAre(events: seq<Event>, kept: seq<Event>, places: seq<nat>) {
    && |kept| == |places|
    && (forall k :: 0 <= k < |places| ==> IsFirstAt(events, places[k]) && kept[k] == events[places[k]])
    && (forall k, l :: 0 <= k < l < |places| ==> places[k] < places[l])
    && (forall i: nat :: IsFirstAt(events, i) ==> i in places)
  }

  /** What deduplication keeps: the records at those places, in their order. */
  lemma {:induction false} KeptPlaces(events: seq<Event>)
    ensures KeptAre(events, Firsts(events), Places(events))
  {
    if events != [] {
      KeptPlaces(events[..|events| - 1]);
      NewPlace(events);
      KeptStep(events, Firsts(events[..|events| - 1]), Places(events[..|events| - 1]));
    }
  }

  lemma KeptStep(events: seq<Event>, kept: seq<Event>, places: seq<nat>)
    requires events != [] && KeptAre(events[..|events| - 1], kept, places)
    ensures !IsFirstAt(events, |events| - 1) ==> KeptAre(events, kept, places)
    ensures IsFirstAt(events, |events| - 1) ==>
      KeptAre(events, kept + [events[|events| - 1]], places + [|events| - 1])
  {
    OldPlaces(events, kept, places);
    var n := |events| - 1;
    assert forall i: nat :: i in places ==> i in places + [n];
    assert (places + [n])[|places|] == n;
  }

  lemma OldPlaces(events: seq<Event>, kept: seq<Event>, places: seq<nat>)
    requires events != [] && KeptAre(events[..|events| - 1], kept, places)
    ensures forall k :: 0 <= k < |places| ==>
      IsFirstAt(events, places[k]) && places[k] < |events| - 1 && events[places[k]] == kept[k]
    ensures forall i: nat :: i < |events| - 1 && IsFirstAt(events, i) ==> i in places
  {
    forall k | 0 <= k < |places| ensures IsFirstAt(events, places[k]) && events[places[k]] == kept[k] {
      PlaceStays(events, places[k]);
    }
    forall i: nat | i < |events| - 1 && IsFirstAt(events, i) ensures i in places {
      PlaceStays(events, i);
    }
  }

  lemma PlaceStays(events: seq<Event>, i: nat)
    requires events != [] && i < |events| - 1
    ensures IsFirstAt(events, i) <==> IsFirstAt(events[..|events| - 1], i)
  {
    var front := events[..|events| - 1];
    assert forall j :: 0 <= j <= i ==> front[j] == events[j];
  }

  lemma NewPlace(events: seq<Event>)
    requires events != []
    ensures var n := |events| - 1; IsFirstAt(events, n) <==> !HasId(events[..n], events[n].id)
  {
    var n := |events| - 1;
    if HasId(events[..n], events[n].id) {
      var e :| e in events[..n] && e.id == events[n].id;
      var j :| 0 <= j < n && events[..n][j] == e;
      assert events[j].id == events[n].id;
    }
    if !IsFirstAt(events, n) {
      var j :| 0 <= j < n && events[j].id == events[n].id;
      assert events[..n][j] in events[..n];
    }
  }

  // ----- numbers -----

  /** A record that the ledger numbers: enveloped, under an id that no row has. */
  predicate IsNew(rows: map<EventId, Row>, e: Event) { e.Enveloped() && e.id !in rows }

  /** The new records carry rising numbers from the ledger's next one on, and every number that they
      pass over may be missing. */
  ghost predicate Continues(ix: Index, unique: seq<Event>, accepted: set<int>) {
    && (forall i, j :: 0 <= i < j < |unique| && IsNew(ix.rows, unique[i]) && IsNew(ix.rows, unique[j]) ==>
          unique[i].SeqNo() < unique[j].SeqNo())
    && (forall i :: 0 <= i < |unique| && IsNew(ix.rows, unique[i]) ==> unique[i].SeqNo() >= NextNumber(ix))
    && (forall q, i :: 0 <= i < |unique| && IsNew(ix.rows, unique[i]) && NextNumber(ix) <= q < unique[i].SeqNo() ==>
          q in accepted || IsNumberOf(ix, unique, q))
  }

  function NextNumber(ix: Index): int {
    match ix.cursor
    case None => 1
    case Some(cursor) => cursor.next
  }

  ghost predicate IsNumberOf(ix: Index, unique: seq<Event>, q: int) {
    exists e :: e in unique && IsNew(ix.rows, e) && e.SeqNo() == q
  }

  /** The enveloped records are on the ledger's stream; a ledger without one takes that of the first new
      record, and every enveloped record after it is on it. */
  ghost predicate OnOneStream(ix: Index, unique: seq<Event>) {
    forall i :: 0 <= i < |unique| && unique[i].Enveloped() ==>
      if ix.cursor.Some? then unique[i].Stream() == ix.cursor.value.stream
      else forall j :: 0 <= j < i && IsNew(ix.rows, unique[j]) ==> unique[j].Stream() == unique[i].Stream()
  }

  /** The places of the new records. */
  ghost function NewPlaces(rows: map<EventId, Row>, unique: seq<Event>): seq<nat> {
    if unique == [] then []
    else
      var n := |unique| - 1;
      NewPlaces(rows, unique[..n]) + if IsNew(rows, unique[n]) then [n] else []
  }

  /** `added` are the new records of the batch, in order, and `places` where they are. */
  ghost predicate PlacesAre(rows: map<EventId, Row>, unique: seq<Event>, added: seq<Event>, places: seq<nat>) {
    && |added| == |places|
    && (forall k :: 0 <= k < |places| ==>
          places[k] < |unique| && IsNew(rows, unique[places[k]]) && added[k] == unique[places[k]])
    && (forall k, l :: 0 <= k < l < |places| ==> places[k] < places[l])
    && (forall i: nat :: i < |unique| && IsNew(rows, unique[i]) ==> i in places)
  }

  lemma PlacesSkip(rows: map<EventId, Row>, front: seq<Event>, last: Event, added: seq<Event>, places: seq<nat>)
    requires PlacesAre(rows, front, added, places) && !IsNew(rows, last)
    ensures PlacesAre(rows, front + [last], added, places)
  {
  }

  lemma PlacesAdd(rows: map<EventId, Row>, front: seq<Event>, last: Event, added: seq<Event>, places: seq<nat>)
    requires PlacesAre(rows, front, added, places) && IsNew(rows, last)
    ensures PlacesAre(rows, front + [last], added + [last], places + [|front|])
  {
    forall i: nat | i < |front + [last]| && IsNew(rows, (front + [last])[i]) ensures i in places + [|front|] {
      if i < |front| {
        assert (front + [last])[i] == front[i];
      } else {
        assert (places + [|front|])[|places|] == i;
      }
    }
  }

  lemma {:induction false} FreshPlaces(rows: map<EventId, Row>, unique: seq<Event>)
    ensures PlacesAre(rows, unique, Fresh(rows, unique), NewPlaces(rows, unique))
  {
    if unique != [] {
      var n := |unique| - 1;
      FreshPlaces(rows, unique[..n]);
      FreshPlacesStep(rows, unique);
    }
  }

  lemma FreshPlacesStep(rows: map<EventId, Row>, unique: seq<Event>)
    requires unique != []
    requires var front := unique[..|unique| - 1]; PlacesAre(rows, front, Fresh(rows, front), NewPlaces(rows, front))
    ensures PlacesAre(rows, unique, Fresh(rows, unique), NewPlaces(rows, unique))
  {
    var front, last := unique[..|unique| - 1], unique[|unique| - 1];
    assert unique == front + [last];
    if IsNew(rows, last) {
      PlacesAdd(rows, front, last, Fresh(rows, front), NewPlaces(rows, front));
    } else {
      assert Fresh(rows, front) + [] == Fresh(rows, front) && NewPlaces(rows, front) + [] == NewPlaces(rows, front);
      PlacesSkip(rows, front, last, Fresh(rows, front), NewPlaces(rows, front));
    }
  }

  lemma PlaceOf(rows: map<EventId, Row>, unique: seq<Event>, i: nat) returns (k: nat)
    requires i < |unique| && IsNew(rows, unique[i])
    ensures k < |Fresh(rows, unique)| && k < |NewPlaces(rows, unique)|
    ensures NewPlaces(rows, unique)[k] == i && Fresh(rows, unique)[k] == unique[i]
  {
    FreshPlaces(rows, unique);
    k :| 0 <= k < |NewPlaces(rows, unique)| && NewPlaces(rows, unique)[k] == i;
  }

  /** The new records rise, in terms of the batch. */
  ghost predicate Rises(rows: map<EventId, Row>, unique: seq<Event>) {
    forall i, j :: 0 <= i < j < |unique| && IsNew(rows, unique[i]) && IsNew(rows, unique[j]) ==>
      unique[i].SeqNo() < unique[j].SeqNo()
  }

  lemma PlacesOrder(places: seq<nat>, k: nat, l: nat)
    requires forall a, b :: 0 <= a < b < |places| ==> places[a] < places[b]
    requires k < |places| && l < |places| && places[k] < places[l]
    ensures k < l
  {
  }

  lemma FreshRises(rows: map<EventId, Row>, unique: seq<Event>)
    requires forall a, b :: 0 <= a < b < |Fresh(rows, unique)| ==>
      Fresh(rows, unique)[a].SeqNo() < Fresh(rows, unique)[b].SeqNo()
    ensures Rises(rows, unique)
  {
    FreshPlaces(rows, unique);
    forall i, j | 0 <= i < j < |unique| && IsNew(rows, unique[i]) && IsNew(rows, unique[j])
      ensures unique[i].SeqNo() < unique[j].SeqNo()
    {
      var k := PlaceOf(rows, unique, i);
      var l := PlaceOf(rows, unique, j);
      PlacesOrder(NewPlaces(rows, unique), k, l);
    }
  }

  lemma RisesFresh(rows: map<EventId, Row>, unique: seq<Event>)
    requires Rises(rows, unique)
    ensures forall a, b :: 0 <= a < b < |Fresh(rows, unique)| ==>
      Fresh(rows, unique)[a].SeqNo() < Fresh(rows, unique)[b].SeqNo()
  {
    FreshPlaces(rows, unique);
  }

  lemma NumberIsCarried(ix: Index, unique: seq<Event>, q: int)
    ensures IsNumberOf(ix, unique, q) <==> Carries(Fresh(ix.rows, unique), q)
  {
    FreshElements(ix.rows, unique);
    if IsNumberOf(ix, unique, q) {
      var e :| e in unique && IsNew(ix.rows, e) && e.SeqNo() == q;
      assert e in Fresh(ix.rows, unique);
    }
  }

  lemma PassedOver(added: seq<Event>, start: int, accepted: set<int>, e: Event, q: int)
    requires AllEnveloped(added) && Continuous(added, start, accepted) && e in added && start <= q < e.SeqNo()
    ensures q in accepted || Carries(added, q)
  {
    var k :| 0 <= k < |added| && added[k] == e;
    assert k < |added| - 1 ==> added[k].SeqNo() < added[|added| - 1].SeqNo();
  }

  lemma ContinuousMeans(ix: Index, unique: seq<Event>, accepted: set<int>)
    requires Continuous(Fresh(ix.rows, unique), StartSeq(ix.cursor), accepted)
    ensures Continues(ix, unique, accepted)
  {
    var added := Fresh(ix.rows, unique);
    FreshElements(ix.rows, unique);
    FreshRises(ix.rows, unique);
    forall q, i | 0 <= i < |unique| && IsNew(ix.rows, unique[i]) && NextNumber(ix) <= q < unique[i].SeqNo()
      ensures q in accepted || IsNumberOf(ix, unique, q)
    {
      assert unique[i] in unique && unique[i] in added;
      PassedOver(added, StartSeq(ix.cursor), accepted, unique[i], q);
      NumberIsCarried(ix, unique, q);
    }
    forall i | 0 <= i < |unique| && IsNew(ix.rows, unique[i]) ensures unique[i].SeqNo() >= NextNumber(ix) {
      assert unique[i] in unique && unique[i] in added;
    }
  }

  lemma MeansContinuous(ix: Index, unique: seq<Event>, accepted: set<int>)
    requires Continues(ix, unique, accepted)
    ensures Continuous(Fresh(ix.rows, unique), StartSeq(ix.cursor), accepted)
  {
    var added, start := Fresh(ix.rows, unique), StartSeq(ix.cursor);
    FreshPlaces(ix.rows, unique);
    RisesFresh(ix.rows, unique);
    forall q | start <= q < FinalSeq(start, added) ensures Carries(added, q) || q in accepted {
      var last := added[|added| - 1];
      if q == last.SeqNo() {
        assert last in added;
      } else {
        assert IsNew(ix.rows, unique[NewPlaces(ix.rows, unique)[|added| - 1]]);
        NumberIsCarried(ix, unique, q);
      }
    }
  }

  lemma StreamsMean(ix: Index, unique: seq<Event>)
    ensures StreamsAgree(ix, unique) <==> OnOneStream(ix, unique)
  {
  }

  lemma StoredMeans(rows: map<EventId, Row>, events: seq<Event>)
    requires RowsStored(rows) && ExactRetries(events)
    ensures MatchesStored(rows, Firsts(events)) <==> !ClashesWith(rows, events)
  {
    FirstsRepresent(events);
    forall e | e in events && e.id in rows
      ensures ImportRecord(FromRow(rows[e.id])) == ImportRecord(e) <==> rows[e.id] == ToRow(e) && Consistent(e)
    {
      StoredRecord(rows[e.id], e);
    }
    if MatchesStored(rows, Firsts(events)) {
      forall e | e in events && e.id in rows ensures rows[e.id] == ToRow(e) && Consistent(e) {
        assert HasId(Firsts(events), e.id);
        var f :| f in Firsts(events) && f.id == e.id;
        assert ImportRecord(f) == ImportRecord(e);
      }
    }
  }

  lemma RetriesMean(events: seq<Event>)
    ensures ExactRetries(events) <==> !ClashesWithin(events)
  {
    if !ExactRetries(events) {
      var e, f :| e in events && f in events && e.id == f.id && ImportRecord(e) != ImportRecord(f);
      assert IsClash(e, f);
    }
  }

  /** The verdict on a batch, whoever asks for it: an identity clash inside the batch or with a row comes
      first, then a stream or a number out of place; otherwise the first records of all ids are admitted. */
  lemma VerdictMeans(ix: Index, events: seq<Event>, accepted: set<int>)
    requires RowsStored(ix.rows)
    ensures Verdict(ix, events, accepted) ==
      if ClashesWithin(events) || ClashesWith(ix.rows, events) then Err(IncompatibleDuplicateIdentity)
      else if !OnOneStream(ix, Firsts(events)) || !Continues(ix, Firsts(events), accepted)
      then Err(OriginDiscontinuity)
      else Ok(Firsts(events))
  {
    RetriesMean(events);
    if ExactRetries(events) { StoredMeans(ix.rows, events); }
    StreamsMean(ix, Firsts(events));
    if Continues(ix, Firsts(events), accepted) { MeansContinuous(ix, Firsts(events), accepted); }
    if Continuous(Fresh(ix.rows, Firsts(events)), StartSeq(ix.cursor), accepted) {
      ContinuousMeans(ix, Firsts(events), accepted);
    }
  }

  // ----- what an accepted rebuild leaves -----

  /** The ledger that the batch goes into. */
  function Under(was: Option<Index>, replace: bool): Index {
    match was
    case Some(index) => if replace then Index(map[], None) else index
    case None => Index(map[], None)
  }

  /** A rebuild is refused exactly as the verdict against that ledger says. */
  lemma RefusedByVerdict(was: Option<Index>, saved: Option<Index>, events: seq<Event>, options: Options,
                         now: Option<Index>, backup: Option<Index>, result: Result<Report, RebuildError>)
    requires DbOk(was) && RebuildResult(was, saved, events, options, now, backup, result)
    ensures RowsStored(Under(was, options.replace).rows)
    ensures var verdict :=
        Verdict(Under(was, options.replace), events, AcceptedLoss(was, events, options.allowIndexOnly));
      && (verdict.Err? ==> result == Err(Rejected(verdict.error)))
      && (verdict.Ok? && LosesRows(was, events) && !options.allowIndexOnly ==> result == Err(IndexOnlyEvents))
      && (verdict.Ok? && (LosesRows(was, events) ==> options.allowIndexOnly) ==> result.Ok?)
  {
    assert Under(was, options.replace) == Base(was, options.replace);
    forall id ensures id in IndexOnly(was, events) <==> IsLost(was, events, id) {
      LostIsIndexOnly(was, events, id);
    }
  }

  lemma BatchIsMerged(ix: Index, events: seq<Event>, accepted: set<int>)
    requires LedgerOk(ix) && Verdict(ix, events, accepted).Ok?
    ensures Reconciled(ix, Firsts(events)).Ok?
    ensures RowsMerged(ix.rows, Firsts(events), Reconciled(ix, Firsts(events)).value.rows)
    ensures CursorMerged(ix.cursor, Firsts(events), Reconciled(ix, Firsts(events)).value.cursor)
  {
    ValidatedPending(ix, events, accepted);
    CoherentLinesMerge(ix, Firsts(events));
  }

  lemma FirstRow(events: seq<Event>, e: Event)
    requires ExactRetries(events) && e in events
    ensures exists f :: f in Firsts(events) && f.id == e.id && ToRow(f) == ToRow(e)
  {
    FirstsRepresent(events);
    assert HasId(Firsts(events), e.id);
    var f :| f in Firsts(events) && f.id == e.id;
    assert ImportRecord(f) == ImportRecord(e);
    assert ToRow(ImportRecord(e)) == ToRow(e) && ToRow(ImportRecord(f)) == ToRow(f);
  }

  /** The cursor past the records of a batch: no record is at or past it, it is not behind where it was,
      and it moved only to stand right after one of them. */
  ghost predicate StandsPast(before: Option<Cursor>, events: seq<Event>, after: Option<Cursor>) {
    && (forall e :: e in events && e.Enveloped() ==>
          after.Some? && after.value.stream == e.Stream() && after.value.next > e.SeqNo())
    && (before.Some? ==>
          after.Some? && after.value.stream == before.value.stream && after.value.next >= before.value.next)
    && (after != before ==>
          exists e :: e in events && e.Enveloped() && after == Some(Cursor(e.Stream(), e.SeqNo() + 1)))
  }

  lemma FirstEnvelope(events: seq<Event>, e: Event)
    requires ExactRetries(events) && e in events
    ensures exists f :: f in Firsts(events) && f.envelope == e.envelope
  {
    FirstsRepresent(events);
    assert HasId(Firsts(events), e.id);
    var f :| f in Firsts(events) && f.id == e.id;
    assert ImportRecord(f) == ImportRecord(e) && ImportRecord(f).envelope == f.envelope;
  }

  lemma MergedStands(before: Option<Cursor>, events: seq<Event>, after: Option<Cursor>)
    requires ExactRetries(events) && CursorMerged(before, Firsts(events), after)
    ensures StandsPast(before, events, after)
  {
    FirstsRepresent(events);
    forall e | e in events && e.Enveloped()
      ensures after.Some? && after.value.stream == e.Stream() && after.value.next > e.SeqNo()
    {
      FirstEnvelope(events, e);
    }
  }

  lemma MergedRows(base: map<EventId, Row>, events: seq<Event>, rows: map<EventId, Row>)
    requires ExactRetries(events) && RowsMerged(base, Firsts(events), rows)
    ensures forall e :: e in events ==> e.id in rows && rows[e.id] == ToRow(e)
    ensures forall id :: id in base ==> id in rows && rows[id] == base[id]
    ensures forall id :: id in rows ==> id in base || HasId(events, id)
  {
    FirstsRepresent(events);
    forall e | e in events ensures e.id in rows && rows[e.id] == ToRow(e) {
      FirstRow(events, e);
    }
  }

  /** Afterwards the database holds the row of every record of the batch and the rows of the ledger that
      the batch went into, and nothing else; and every record is counted once. */
  lemma RebuiltRows(was: Option<Index>, saved: Option<Index>, events: seq<Event>, options: Options,
                    now: Option<Index>, backup: Option<Index>, result: Result<Report, RebuildError>)
    requires DbOk(was) && RebuildResult(was, saved, events, options, now, backup, result)
    requires result.Ok? && !options.dryRun
    ensures now.Some? && result.value.Rebuilt?
    ensures var rows, base := now.value.rows, Under(was, options.replace).rows;
      && (forall e :: e in events ==> e.id in rows && rows[e.id] == ToRow(e))
      && (forall id :: id in base ==> id in rows && rows[id] == base[id])
      && (forall id :: id in rows ==> id in base || HasId(events, id))
      && StandsPast(Under(was, options.replace).cursor, events, now.value.cursor)
      && result.value.counts.imported == |rows| - |base|
      && result.value.counts.imported + result.value.counts.skipped == |events|
  {
    var ix := Base(was, options.replace);
    assert Under(was, options.replace) == ix;
    BatchIsMerged(ix, events, AcceptedLoss(was, events, options.allowIndexOnly));
    MergedRows(ix.rows, events, now.value.rows);
    MergedStands(ix.cursor, events, now.value.cursor);
  }
}
