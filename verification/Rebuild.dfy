/** `auditctl rebuild`: the read-only preflight, the index-only gate and the replacement of the
    database file. */
module Rebuild {
  import opened Wrappers
  import opened Events
  import opened LocalLedger
  import opened Reconcile
  import opened ImportBatch

  datatype Options = Options(replace: bool, dryRun: bool, allowIndexOnly: bool)

  datatype RebuildError = Rejected(error: ImportError) | IndexOnlyEvents

  datatype Report = Validated(lost: nat) | Rebuilt(counts: Counts, lost: nat)

  /** Persisted ids that the batch does not carry. */
  ghost function IndexOnly(db: Option<Index>, events: seq<Event>): set<EventId> {
    if db.None? then {}
    else set id | id in db.value.rows && !HasId(events, id)
  }

  /** The sequence numbers whose loss the caller accepts. */
  ghost function AcceptedLoss(db: Option<Index>, events: seq<Event>, allow: bool): set<int> {
    if db.None? || !allow then {}
    else
      set id | id in IndexOnly(db, events) && db.value.rows[id].seqNo.Some? ::
        db.value.rows[id].seqNo.value
  }

  /** The ledger that the batch is validated against and imported into. */
  ghost function Base(db: Option<Index>, replace: bool): Index {
    if replace || db.None? then EMPTY_INDEX else db.value
  }

  ghost predicate DbOk(db: Option<Index>) {
    db.Some? ==> LedgerOk(db.value)
  }

  /** What one rebuild does to the database and its backup. */
  ghost predicate RebuildResult(was: Option<Index>, saved: Option<Index>, events: seq<Event>,
                                options: Options, now: Option<Index>, backup: Option<Index>,
                                result: Result<Report, RebuildError>)
    requires DbOk(was)
  {
    var base := Base(was, options.replace);
    match Verdict(base, events, AcceptedLoss(was, events, options.allowIndexOnly))
    case Err(error) => result == Err(Rejected(error)) && now == was && backup == saved
    case Ok(unique) =>
      if IndexOnly(was, events) != {} && !options.allowIndexOnly then
        result == Err(IndexOnlyEvents) && now == was && backup == saved
      else if options.dryRun then
        result == Ok(Validated(|IndexOnly(was, events)|)) && now == was && backup == saved
      else
        && backup == (if options.replace && was.Some? then was else saved)
        && result.Ok? && result.value.Rebuilt? && result.value.lost == |IndexOnly(was, events)|
        && Refilled(base, unique, |events|, now, result.value.counts)
  }

  /** The new database is the base with the batch, and every record is counted once. */
  ghost predicate Refilled(base: Index, unique: seq<Event>, length: nat, now: Option<Index>, counts: Counts) {
    && now.Some? && Reconciled(base, unique) == Ok(now.value) && LedgerOk(now.value)
    && now.value.cursor == FinalCursor(base, unique)
    && counts.imported == |now.value.rows| - |base.rows|
    && counts.imported + counts.skipped == length
  }

  /** The database path and the backup made by `--replace`. */
  class Store {
    var live: Ledger?
    var saved: Ledger?

    ghost function Live(): Option<Index>
      reads this, live
    {
      if live == null then None else Some(live.View())
    }

    ghost function Saved(): Option<Index>
      reads this, saved
    {
      if saved == null then None else Some(saved.View())
    }

    constructor ()
      ensures Live() == None && Saved() == None
    {
      live, saved := null, null;
    }

    method FindIndexOnly(unique: seq<Event>) returns (missing: set<EventId>)
      ensures missing == IndexOnly(Live(), unique)
    {
      missing := {};
      if live != null {
        var batch := set e | e in unique :: e.id;
        assert forall id :: id in batch <==> HasId(unique, id);
        missing := set id | id in live.rows && id !in batch;
      }
    }

    method Preflight(events: seq<Event>, options: Options, accepted: set<int>)
      returns (result: Result<seq<Event>, ImportError>)
      requires DbOk(Live())
      ensures result == Verdict(Base(Live(), options.replace), events, accepted)
    {
      if options.replace || live == null {
        result := ValidateImportBatch(EMPTY_INDEX, events, accepted);
      } else {
        result := ValidateImportBatch(Index(live.rows, live.cursor), events, accepted);
      }
    }

    /** Everything before the first write: coverage, then validity. */
    method Survey(events: seq<Event>, options: Options)
      returns (result: Result<(set<EventId>, set<int>), ImportError>)
      requires DbOk(Live())
      ensures var accepted := AcceptedLoss(Live(), events, options.allowIndexOnly);
        match Verdict(Base(Live(), options.replace), events, accepted)
        case Err(error) => result == Err(error)
        case Ok(_) => result == Ok((IndexOnly(Live(), events), accepted))
    {
      var deduplicated := DeduplicateBatch(events);
      if deduplicated.Err? {
        return Err(deduplicated.error);
      }
      var missing := FindIndexOnly(deduplicated.value);
      SameIndexOnly(Live(), events);
      var accepted: set<int> := {};
      if options.allowIndexOnly && live != null {
        accepted := set id | id in missing && live.rows[id].seqNo.Some? :: live.rows[id].seqNo.value;
      }
      var preflight := Preflight(events, options, accepted);
      result := if preflight.Err? then Err(preflight.error) else Ok((missing, accepted));
    }

    /** The writes: the old file moves aside and the batch fills its place. What the preflight
        accepted, the import accepts too. */
    method Refill(events: seq<Event>, replace: bool, accepted: set<int>) returns (counts: Counts)
      requires DbOk(Live()) && (live != null ==> live != saved)
      requires Verdict(Base(Live(), replace), events, accepted).Ok?
      modifies this, live
      ensures var base := Base(old(Live()), replace);
        && Live().Some? && LedgerOk(Live().value)
        && Reconciled(base, Verdict(base, events, accepted).value) == Ok(Live().value)
        && Live().value.cursor == FinalCursor(base, Verdict(base, events, accepted).value)
        && counts.imported == |Live().value.rows| - |base.rows|
        && counts.imported + counts.skipped == |events|
      ensures Saved() == if replace && old(Live()).Some? then old(Live()) else old(Saved())
    {
      if replace && live != null {
        saved, live := live, null;
      }
      if live == null {
        live := new Ledger();
      }
      var imported := ImportEvents(live, events, accepted);
      if imported.Err? {
        assert false;
      }
      counts := imported.value;
    }

    method Rebuild(events: seq<Event>, options: Options) returns (result: Result<Report, RebuildError>)
      requires DbOk(Live()) && (live != null ==> live != saved)
      modifies this, live
      ensures RebuildResult(old(Live()), old(Saved()), events, options, Live(), Saved(), result)
    {
      var survey := Survey(events, options);
      if survey.Err? {
        return Err(Rejected(survey.error));
      }
      var (missing, accepted) := survey.value;
      if missing != {} && !options.allowIndexOnly {
        return Err(IndexOnlyEvents);
      }
      if options.dryRun {
        return Ok(Validated(|missing|));
      }
      var counts := Refill(events, options.replace, accepted);
      result := Ok(Rebuilt(counts, |missing|));
    }
  }

  lemma SameIndexOnly(db: Option<Index>, events: seq<Event>)
    ensures IndexOnly(db, Firsts(events)) == IndexOnly(db, events)
  {
    FirstsRepresent(events);
    forall id ensures HasId(Firsts(events), id) <==> HasId(events, id) {
      if HasId(events, id) {
        var e :| e in events && e.id == id;
        assert HasId(Firsts(events), e.id);
      }
    }
  }

  // ----- accepting the loss of index-only events -----

  ghost predicate HoldsSeq(rows: map<EventId, Row>, q: int) {
    exists id :: id in rows && rows[id].seqNo == Some(q)
  }

  /** The enveloped rows carry exactly the sequence numbers 1 to `n`. */
  ghost predicate SeqsExactly(rows: map<EventId, Row>, n: nat) {
    && (forall id :: id in rows && rows[id].seqNo.Some? ==> 1 <= rows[id].seqNo.value <= n)
    && (forall q :: 1 <= q <= n ==> HoldsSeq(rows, q))
  }

  ghost predicate Ascending(events: seq<Event>) {
    forall i, j | 0 <= i < j < |events| && events[i].Enveloped() && events[j].Enveloped() ::
      events[i].SeqNo() < events[j].SeqNo()
  }

  /** The batch is part of what the index holds. */
  ghost predicate SubBatch(ix: Index, events: seq<Event>)
    requires RowsStored(ix.rows)
  {
    Holds(ix, events) && Ascending(Firsts(events))
  }

  lemma {:induction false} FreshAscending(rows: map<EventId, Row>, events: seq<Event>)
    requires Ascending(events)
    ensures forall i, j | 0 <= i < j < |Fresh(rows, events)| ::
      Fresh(rows, events)[i].SeqNo() < Fresh(rows, events)[j].SeqNo()
  {
    if events != [] {
      var n := |events| - 1;
      FreshAscending(rows, events[..n]);
      FreshElements(rows, events[..n]);
      forall e | e in Fresh(rows, events[..n]) && events[n].Enveloped() ensures e.SeqNo() < events[n].SeqNo() {
        var i :| 0 <= i < n && events[..n][i] == e;
        assert events[i] == e;
      }
    }
  }

  /** A sequence number of a held ledger is carried by the batch or accepted as lost. */
  lemma CarriedOrAccepted(ix: Index, events: seq<Event>, n: nat, q: int)
    requires LedgerOk(ix) && SeqsExactly(ix.rows, n) && Holds(ix, events) && 1 <= q <= n
    ensures Carries(Fresh(map[], Firsts(events)), q) || q in AcceptedLoss(Some(ix), events, true)
  {
    assert HoldsSeq(ix.rows, q);
    var id :| id in ix.rows && ix.rows[id].seqNo == Some(q);
    if HasId(events, id) {
      FirstsRepresent(events);
      var e :| e in events && e.id == id;
      assert HasId(Firsts(events), e.id);
      var f :| f in Firsts(events) && f.id == id;
      assert f in events;
      StoredAgree(ix, events, f);
      FreshElements(map[], Firsts(events));
      assert f in Fresh(map[], Firsts(events));
    } else {
      assert id in IndexOnly(Some(ix), events);
    }
  }

  lemma HeldSeqs(ix: Index, events: seq<Event>, n: nat)
    requires LedgerOk(ix) && SeqsExactly(ix.rows, n) && Holds(ix, events)
    ensures forall e :: e in Fresh(map[], Firsts(events)) ==> 1 <= e.SeqNo() <= n
  {
    FirstsRepresent(events);
    FreshElements(map[], Firsts(events));
    forall e | e in Fresh(map[], Firsts(events)) ensures 1 <= e.SeqNo() <= n {
      StoredAgree(ix, events, e);
    }
  }

  lemma HeldOneStream(ix: Index, events: seq<Event>, unique: seq<Event>)
    requires LedgerOk(ix) && Holds(ix, events) && forall e :: e in unique ==> e in events
    ensures StreamsAgree(EMPTY_INDEX, unique)
  {
    forall i | 0 <= i < |unique| && unique[i].Enveloped()
      ensures ix.cursor.Some? && unique[i].Stream() == ix.cursor.value.stream
    {
      assert unique[i] in unique;
      HeldOnStream(ix, events, unique[i]);
    }
  }

  /** The holes left by an accepted loss can always be skipped. */
  lemma SubBatchAdmissible(ix: Index, events: seq<Event>, n: nat)
    requires LedgerOk(ix) && SeqsExactly(ix.rows, n) && SubBatch(ix, events)
    ensures Admissible(EMPTY_INDEX, Firsts(events), AcceptedLoss(Some(ix), events, true))
  {
    var added := Fresh(map[], Firsts(events));
    var accepted := AcceptedLoss(Some(ix), events, true);
    FirstsRepresent(events);
    HeldOneStream(ix, events, Firsts(events));
    FreshAscending(map[], Firsts(events));
    HeldSeqs(ix, events, n);
    assert added != [] ==> added[|added| - 1] in added;
    forall q | 1 <= q < FinalSeq(1, added) ensures Carries(added, q) || q in accepted {
      CarriedOrAccepted(ix, events, n, q);
    }
  }

  lemma SubBatchRows(ix: Index, events: seq<Event>, out: map<EventId, Row>)
    requires LedgerOk(ix) && Holds(ix, events) && RowsMerged(map[], Firsts(events), out)
    ensures out == map id | id in ix.rows && HasId(events, id) :: ix.rows[id]
  {
    FirstsRepresent(events);
    forall id | id in out ensures id in ix.rows && HasId(events, id) && out[id] == ix.rows[id] {
      var e :| e in Firsts(events) && e.id == id;
      assert e in events;
      StoredAgree(ix, events, e);
    }
    forall id | HasId(events, id) ensures id in out {
      var e :| e in events && e.id == id;
      assert HasId(Firsts(events), e.id);
    }
  }

  lemma SubBatchStream(ix: Index, events: seq<Event>)
    requires LedgerOk(ix) && Holds(ix, events)
    ensures var added := Fresh(map[], Firsts(events));
      added != [] ==> ix.cursor.Some? && added[0].Stream() == ix.cursor.value.stream
  {
    var added := Fresh(map[], Firsts(events));
    if added != [] {
      FirstsRepresent(events);
      FreshElements(map[], Firsts(events));
      assert added[0] in added;
      HeldOnStream(ix, events, added[0]);
    }
  }

  lemma SubBatchVerdict(ix: Index, events: seq<Event>, n: nat)
    requires LedgerOk(ix) && SeqsExactly(ix.rows, n) && SubBatch(ix, events)
    ensures Verdict(EMPTY_INDEX, events, AcceptedLoss(Some(ix), events, true)) == Ok(Firsts(events))
  {
    SubBatchAdmissible(ix, events, n);
  }

  lemma SubBatchContents(ix: Index, events: seq<Event>, n: nat)
    requires LedgerOk(ix) && SeqsExactly(ix.rows, n) && SubBatch(ix, events)
    ensures Reconciled(EMPTY_INDEX, Firsts(events)).Ok?
    ensures Reconciled(EMPTY_INDEX, Firsts(events)).value.rows ==
      map id | id in ix.rows && HasId(events, id) :: ix.rows[id]
  {
    SubBatchVerdict(ix, events, n);
    ValidatedPending(EMPTY_INDEX, events, AcceptedLoss(Some(ix), events, true));
    CoherentLinesMerge(EMPTY_INDEX, Firsts(events));
    SubBatchRows(ix, events, Reconciled(EMPTY_INDEX, Firsts(events)).value.rows);
  }

  /** One past the highest number of the batch, on the stream of the ledger. */
  ghost predicate CursorPast(cursor: Option<Cursor>, ix: Index, added: seq<Event>)
    requires AllEnveloped(added)
  {
    if added == [] then cursor == None
    else ix.cursor.Some? && cursor == Some(Cursor(ix.cursor.value.stream, added[|added| - 1].SeqNo() + 1))
  }

  /** `rebuild --replace --allow-index-only` accepts any sub-batch of the index in ascending order,
      keeps exactly the rows of that sub-batch and puts the cursor one past its last number. */
  lemma AllowedLossIsRebuilt(ix: Index, saved: Option<Index>, events: seq<Event>, n: nat,
                             now: Option<Index>, backup: Option<Index>,
                             result: Result<Report, RebuildError>)
    requires LedgerOk(ix) && SeqsExactly(ix.rows, n) && SubBatch(ix, events)
    requires RebuildResult(Some(ix), saved, events, Options(true, false, true), now, backup, result)
    ensures result.Ok? && now.Some? && backup == Some(ix)
    ensures now.value.rows == map id | id in ix.rows && HasId(events, id) :: ix.rows[id]
    ensures CursorPast(now.value.cursor, ix, Fresh(map[], Firsts(events)))
  {
    SubBatchVerdict(ix, events, n);
    SubBatchContents(ix, events, n);
    SubBatchStream(ix, events);
  }
}
