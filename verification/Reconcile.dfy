/** What reconciling shards with the index computes, independently of the order of the lines. */
module Reconcile {
  import opened Wrappers
  import opened Events
  import opened LocalLedger

  /** The row stored for the id of `e`, if any, is the row of `e`. */
  ghost predicate Agrees(rows: map<EventId, Row>, e: Event) {
    e.id in rows ==> rows[e.id] == ToRow(e)
  }

  /** No other id holds the origin tuple of `e`. */
  ghost predicate Fits(rows: map<EventId, Row>, e: Event) {
    forall id :: id in rows && SameOrigin(rows[id], e) ==> id == e.id
  }

  ghost predicate OnStream(cursor: Option<Cursor>, e: Event) {
    e.Enveloped() && cursor.Some? ==> e.Stream() == cursor.value.stream
  }

  /** Lines with one id carry one record, also against the rows already stored. */
  ghost predicate OneRecordPerId(rows: map<EventId, Row>, lines: seq<Event>) {
    && (forall e, f :: e in lines && f in lines && e.id == f.id ==> ToRow(e) == ToRow(f))
    && (forall e :: e in lines ==> Agrees(rows, e))
  }

  /** Every enveloped line is on one stream, the ledger's own if it has one. */
  ghost predicate OneStream(cursor: Option<Cursor>, lines: seq<Event>) {
    && (forall e, f :: e in lines && f in lines && e.Enveloped() && f.Enveloped() ==> e.Stream() == f.Stream())
    && (forall e :: e in lines ==> OnStream(cursor, e))
  }

  ghost predicate SharesOrigin(e: Event, f: Event) {
    e.Enveloped() && f.Enveloped() && e.Stream() == f.Stream() && e.SeqNo() == f.SeqNo()
  }

  /** Distinct ids carry distinct origin tuples, also against the rows already stored. */
  ghost predicate OneIdPerOrigin(rows: map<EventId, Row>, lines: seq<Event>) {
    && (forall e, f :: e in lines && f in lines && SharesOrigin(e, f) ==> e.id == f.id)
    && (forall e :: e in lines ==> Fits(rows, e))
  }

  ghost predicate PositiveSeqs(lines: seq<Event>) {
    forall e :: e in lines && e.Enveloped() ==> e.SeqNo() >= 1
  }

  /** `out` holds the rows of `rows` and one row for every line. */
  ghost predicate RowsMerged(rows: map<EventId, Row>, lines: seq<Event>, out: map<EventId, Row>) {
    && (forall id :: id in rows ==> id in out && out[id] == rows[id])
    && (forall e :: e in lines ==> e.id in out && out[e.id] == ToRow(e))
    && (forall id :: id in out && id !in rows ==> exists e :: e in lines && e.id == id)
  }

  /** `out` is the largest of `cursor` and of the positions just past the enveloped lines. */
  ghost predicate CursorMerged(cursor: Option<Cursor>, lines: seq<Event>, out: Option<Cursor>) {
    && (cursor.Some? ==>
          out.Some? && out.value.stream == cursor.value.stream && out.value.next >= cursor.value.next)
    && (forall e :: e in lines && e.Enveloped() ==>
          out.Some? && out.value.stream == e.Stream() && out.value.next > e.SeqNo())
    && (out != cursor ==>
          exists e :: e in lines && e.Enveloped() && out == Some(Cursor(e.Stream(), e.SeqNo() + 1)))
  }

  ghost predicate IsMerge(ix: Index, lines: seq<Event>, out: Index) {
    RowsMerged(ix.rows, lines, out.rows) && CursorMerged(ix.cursor, lines, out.cursor)
  }

  /** The merge of a ledger and a set of lines is unique. */
  lemma MergeUnique(ix: Index, a: seq<Event>, b: seq<Event>, x: Index, y: Index)
    requires forall e :: e in a <==> e in b
    requires IsMerge(ix, a, x) && IsMerge(ix, b, y)
    ensures x == y
  {
    assert x.rows == y.rows by {
      RowMergeUnique(ix.rows, a, b, x.rows, y.rows);
      RowMergeUnique(ix.rows, b, a, y.rows, x.rows);
    }
    CursorMergeUnique(ix.cursor, a, b, x.cursor, y.cursor);
  }

  lemma CursorMergeUnique(cursor: Option<Cursor>, a: seq<Event>, b: seq<Event>,
                          x: Option<Cursor>, y: Option<Cursor>)
    requires forall e :: e in a <==> e in b
    requires CursorMerged(cursor, a, x) && CursorMerged(cursor, b, y)
    ensures x == y
  {
  }

  lemma RowMergeUnique(rows: map<EventId, Row>, a: seq<Event>, b: seq<Event>,
                       x: map<EventId, Row>, y: map<EventId, Row>)
    requires forall e :: e in a ==> e in b
    requires RowsMerged(rows, a, x) && RowsMerged(rows, b, y)
    ensures forall id :: id in x ==> id in y && x[id] == y[id]
  {
    forall id | id in x ensures id in y && x[id] == y[id] {
      if id !in rows {
        var e :| e in a && e.id == id;
      }
    }
  }

  /** A line is absorbed exactly when it is on the ledger's stream and its origin is free. */
  lemma AbsorbStep(ix: Index, e: Event)
    requires LedgerOk(ix) && (e.Enveloped() ==> e.SeqNo() >= 1) && Agrees(ix.rows, e)
    ensures Absorbed(ix, e).Ok? <==> OnStream(ix.cursor, e) && Fits(ix.rows, e)
    ensures Absorbed(ix, e).Ok? ==> IsMerge(ix, [e], Absorbed(ix, e).value)
  {
    assert forall f :: f in [e] <==> f == e;
    if e.id in ix.rows {
      assert ix.rows[e.id] == ToRow(e);
    }
  }

  lemma InsertKeepsRows(rows: map<EventId, Row>, e: Event)
    requires RowsStored(rows) && UniqueOrigins(rows) && e.id !in rows && !HoldsOrigin(rows, e)
    ensures RowsStored(rows[e.id := ToRow(e)]) && UniqueOrigins(rows[e.id := ToRow(e)])
  {
    InsertedRowIsStored(e);
    assert forall id :: id in rows ==> !SameOrigin(rows[id], e);
  }

  lemma ObserveKeepsBound(cursor: Option<Cursor>, e: Event, r: Row)
    requires Observed(cursor, e).Ok? && BelowCursor(cursor, r)
    ensures BelowCursor(Observed(cursor, e).value, r)
  {
  }

  lemma AbsorbKeeps(ix: Index, e: Event)
    requires LedgerOk(ix) && (e.Enveloped() ==> e.SeqNo() >= 1)
    requires Absorbed(ix, e).Ok?
    ensures LedgerOk(Absorbed(ix, e).value)
  {
    var out := Absorbed(ix, e).value;
    if e.id !in ix.rows {
      InsertKeepsRows(ix.rows, e);
    }
    forall id | id in out.rows ensures BelowCursor(out.cursor, out.rows[id]) {
      if id in ix.rows { ObserveKeepsBound(ix.cursor, e, ix.rows[id]); }
    }
  }

  lemma SplitStream(cursor: Option<Cursor>, e: Event, rest: seq<Event>, mid: Option<Cursor>)
    requires CursorMerged(cursor, [e], mid)
    ensures OneStream(cursor, [e] + rest) <==> OnStream(cursor, e) && OneStream(mid, rest)
  {
    assert e in [e];
    assert forall f :: f in [e] + rest <==> f == e || f in rest;
  }

  lemma SplitOrigins(rows: map<EventId, Row>, e: Event, rest: seq<Event>, mid: map<EventId, Row>)
    requires RowsMerged(rows, [e], mid)
    ensures OneIdPerOrigin(rows, [e] + rest) <==> Fits(rows, e) && OneIdPerOrigin(mid, rest)
  {
    var all := [e] + rest;
    assert e in [e];
    assert forall f :: f in all <==> f == e || f in rest;
    assert e.id in mid && mid[e.id] == ToRow(e);
    if OneIdPerOrigin(rows, all) {
      forall f | f in rest ensures Fits(mid, f) {
        forall id | id in mid && SameOrigin(mid[id], f) ensures id == f.id {
          if id !in rows { assert SharesOrigin(e, f); }
        }
      }
    }
    if Fits(rows, e) && OneIdPerOrigin(mid, rest) {
      forall f | f in rest ensures SharesOrigin(e, f) ==> e.id == f.id {
        assert SharesOrigin(e, f) ==> SameOrigin(mid[e.id], f);
      }
      forall f | f in rest ensures Fits(rows, f) {
        forall id | id in rows && SameOrigin(rows[id], f) ensures id == f.id {
          assert id in mid;
        }
      }
    }
  }

  lemma SplitRecords(rows: map<EventId, Row>, e: Event, rest: seq<Event>, mid: map<EventId, Row>)
    requires RowsMerged(rows, [e], mid) && OneRecordPerId(rows, [e] + rest)
    ensures OneRecordPerId(mid, rest)
  {
    var all := [e] + rest;
    assert forall f :: f in all <==> f == e || f in rest;
    assert e in [e];
    forall f | f in rest ensures Agrees(mid, f) {
      if f.id in mid && f.id !in rows {
        var g :| g in [e] && g.id == f.id;
      }
    }
  }

  lemma RowMergeSteps(rows: map<EventId, Row>, e: Event, rest: seq<Event>,
                      mid: map<EventId, Row>, out: map<EventId, Row>)
    requires RowsMerged(rows, [e], mid) && RowsMerged(mid, rest, out)
    ensures RowsMerged(rows, [e] + rest, out)
  {
    var all := [e] + rest;
    assert e in [e];
    assert forall f :: f in all <==> f == e || f in rest;
    forall id | id in out && id !in rows ensures exists f :: f in all && f.id == id {
      if id in mid {
        var f :| f in [e] && f.id == id;
      } else {
        var f :| f in rest && f.id == id;
        assert f in all;
      }
    }
  }

  lemma CursorMergeSteps(cursor: Option<Cursor>, e: Event, rest: seq<Event>,
                         mid: Option<Cursor>, out: Option<Cursor>)
    requires CursorMerged(cursor, [e], mid) && CursorMerged(mid, rest, out)
    ensures CursorMerged(cursor, [e] + rest, out)
  {
    assert e in [e];
    assert forall f :: f in [e] + rest <==> f == e || f in rest;
  }

  /** Lines that carry one record for each id reconcile exactly when they are on one stream, the
      ledger's, with one id for each origin tuple, and then to their merge. */
  lemma {:induction false} CoherentLinesMerge(ix: Index, lines: seq<Event>)
    requires LedgerOk(ix) && PositiveSeqs(lines) && OneRecordPerId(ix.rows, lines)
    ensures Reconciled(ix, lines).Ok? <==> OneStream(ix.cursor, lines) && OneIdPerOrigin(ix.rows, lines)
    ensures Reconciled(ix, lines).Ok? ==>
      LedgerOk(Reconciled(ix, lines).value) && IsMerge(ix, lines, Reconciled(ix, lines).value)
    decreases |lines|
  {
    if lines != [] {
      var e, rest := lines[0], lines[1..];
      assert lines == [e] + rest;
      assert e in lines && Agrees(ix.rows, e);
      AbsorbStep(ix, e);
      if Absorbed(ix, e).Ok? {
        var mid := Absorbed(ix, e).value;
        AbsorbKeeps(ix, e);
        SplitRecords(ix.rows, e, rest, mid.rows);
        CoherentLinesMerge(mid, rest);
        SplitStream(ix.cursor, e, rest, mid.cursor);
        SplitOrigins(ix.rows, e, rest, mid.rows);
        if Reconciled(mid, rest).Ok? {
          var out := Reconciled(mid, rest).value;
          RowMergeSteps(ix.rows, e, rest, mid.rows, out.rows);
          CursorMergeSteps(ix.cursor, e, rest, mid.cursor, out.cursor);
        }
      }
    }
  }

  // ----- the merge in general -----

  /** The line at `i` is the first of an id that the ledger does not have. */
  ghost predicate IsFirst(rows: map<EventId, Row>, lines: seq<Event>, i: nat)
    requires i < |lines|
  {
    lines[i].id !in rows && forall j :: 0 <= j < i ==> lines[j].id != lines[i].id
  }

  ghost predicate FreeAt(rows: map<EventId, Row>, lines: seq<Event>, i: nat)
    requires i < |lines|
  {
    IsFirst(rows, lines, i) ==> !HoldsOrigin(rows, lines[i])
  }

  ghost predicate ApartAt(rows: map<EventId, Row>, lines: seq<Event>, i: nat, j: nat)
    requires i < |lines| && j < |lines|
  {
    IsFirst(rows, lines, i) && IsFirst(rows, lines, j) ==> !SharesOrigin(lines[i], lines[j])
  }

  /** The origin tuples of the first lines of new ids are free and pairwise distinct. */
  ghost predicate FirstOriginsFree(rows: map<EventId, Row>, lines: seq<Event>) {
    && (forall i :: 0 <= i < |lines| ==> FreeAt(rows, lines, i))
    && (forall i, j :: 0 <= i < j < |lines| ==> ApartAt(rows, lines, i, j))
  }

  ghost predicate StoredAt(rows: map<EventId, Row>, lines: seq<Event>, out: map<EventId, Row>, i: nat)
    requires i < |lines|
  {
    IsFirst(rows, lines, i) ==> lines[i].id in out && out[lines[i].id] == ToRow(lines[i])
  }

  /** `out` holds the rows of `rows` and, for every new id, the row of its first line. */
  ghost predicate FirstsMerged(rows: map<EventId, Row>, lines: seq<Event>, out: map<EventId, Row>) {
    && (forall id :: id in rows ==> id in out && out[id] == rows[id])
    && (forall i :: 0 <= i < |lines| ==> StoredAt(rows, lines, out, i))
    && (forall id :: id in out && id !in rows ==> exists i :: 0 <= i < |lines| && lines[i].id == id)
  }

  /** Every id of the lines has a first line. */
  lemma {:induction false} FirstOf(rows: map<EventId, Row>, lines: seq<Event>, i: nat) returns (j: nat)
    requires i < |lines| && lines[i].id !in rows
    ensures j <= i && lines[j].id == lines[i].id && IsFirst(rows, lines, j)
    decreases i
  {
    if k :| 0 <= k < i && lines[k].id == lines[i].id {
      j := FirstOf(rows, lines, k);
    } else {
      j := i;
    }
  }

  lemma FirstAfter(rows: map<EventId, Row>, e: Event, rest: seq<Event>, mid: map<EventId, Row>, i: nat)
    requires i < |rest| && mid.Keys == rows.Keys + {e.id}
    ensures IsFirst(mid, rest, i) <==> IsFirst(rows, [e] + rest, i + 1)
  {
    var all := [e] + rest;
    assert all[0] == e && forall j :: 0 < j < |all| ==> all[j] == rest[j - 1];
    if IsFirst(mid, rest, i) {
      assert rest[i].id !in rows && rest[i].id != e.id;
    }
    if IsFirst(rows, all, i + 1) {
      assert all[0].id != all[i + 1].id;
      forall j | 0 <= j < i ensures rest[j].id != rest[i].id {
        assert all[j + 1].id != all[i + 1].id;
      }
    }
  }

  lemma FirstHead(rows: map<EventId, Row>, e: Event, rest: seq<Event>)
    ensures IsFirst(rows, [e] + rest, 0) <==> e.id !in rows
  {
  }

  /** The rows after one line, if its tuple is free. */
  function WithRow(rows: map<EventId, Row>, e: Event): map<EventId, Row> {
    if e.id in rows then rows else rows[e.id := ToRow(e)]
  }

  lemma HolderAfter(rows: map<EventId, Row>, e: Event, f: Event)
    ensures HoldsOrigin(WithRow(rows, e), f) <==>
              HoldsOrigin(rows, f) || (e.id !in rows && SharesOrigin(e, f))
  {
    if e.id !in rows {
      assert SameOrigin(WithRow(rows, e)[e.id], f) <==> SharesOrigin(e, f);
      assert forall id :: id in rows ==> WithRow(rows, e)[id] == rows[id];
      if HoldsOrigin(rows, f) {
        var id :| id in rows && SameOrigin(rows[id], f);
        assert SameOrigin(WithRow(rows, e)[id], f);
      }
    }
  }

  lemma FreeAfter(rows: map<EventId, Row>, e: Event, rest: seq<Event>, i: nat)
    requires i < |rest|
    ensures FreeAt(WithRow(rows, e), rest, i) <==>
              FreeAt(rows, [e] + rest, i + 1) && ApartAt(rows, [e] + rest, 0, i + 1)
  {
    FirstHead(rows, e, rest);
    FirstAfter(rows, e, rest, WithRow(rows, e), i);
    HolderAfter(rows, e, rest[i]);
  }

  lemma ApartAfter(rows: map<EventId, Row>, e: Event, rest: seq<Event>, i: nat, j: nat)
    requires i < |rest| && j < |rest|
    ensures ApartAt(WithRow(rows, e), rest, i, j) <==> ApartAt(rows, [e] + rest, i + 1, j + 1)
  {
    FirstAfter(rows, e, rest, WithRow(rows, e), i);
    FirstAfter(rows, e, rest, WithRow(rows, e), j);
  }

  lemma FirstOriginsSplit(rows: map<EventId, Row>, e: Event, rest: seq<Event>)
    ensures FirstOriginsFree(rows, [e] + rest) <==>
              FreeAt(rows, [e] + rest, 0) && FirstOriginsFree(WithRow(rows, e), rest)
  {
    if FirstOriginsFree(rows, [e] + rest) {
      FreeTail(rows, e, rest);
    }
    if FreeAt(rows, [e] + rest, 0) && FirstOriginsFree(WithRow(rows, e), rest) {
      FreeWhole(rows, e, rest);
    }
  }

  lemma FreeTail(rows: map<EventId, Row>, e: Event, rest: seq<Event>)
    requires FirstOriginsFree(rows, [e] + rest)
    ensures FirstOriginsFree(WithRow(rows, e), rest)
  {
    forall i | 0 <= i < |rest| ensures FreeAt(WithRow(rows, e), rest, i) {
      FreeAfter(rows, e, rest, i);
    }
    forall i, j | 0 <= i < j < |rest| ensures ApartAt(WithRow(rows, e), rest, i, j) {
      ApartAfter(rows, e, rest, i, j);
    }
  }

  lemma FreeWhole(rows: map<EventId, Row>, e: Event, rest: seq<Event>)
    requires FreeAt(rows, [e] + rest, 0) && FirstOriginsFree(WithRow(rows, e), rest)
    ensures FirstOriginsFree(rows, [e] + rest)
  {
    forall i | 0 <= i < |rest| + 1 ensures FreeAt(rows, [e] + rest, i) {
      if i > 0 { FreeAfter(rows, e, rest, i - 1); }
    }
    forall i, j | 0 <= i < j < |rest| + 1 ensures ApartAt(rows, [e] + rest, i, j) {
      if i > 0 {
        ApartAfter(rows, e, rest, i - 1, j - 1);
      } else {
        FreeAfter(rows, e, rest, j - 1);
      }
    }
  }

  lemma StoredAfter(rows: map<EventId, Row>, e: Event, rest: seq<Event>, out: map<EventId, Row>, i: nat)
    requires i < |rest| && StoredAt(WithRow(rows, e), rest, out, i)
    ensures StoredAt(rows, [e] + rest, out, i + 1)
  {
    FirstAfter(rows, e, rest, WithRow(rows, e), i);
  }

  lemma FirstsMergeSteps(rows: map<EventId, Row>, e: Event, rest: seq<Event>, out: map<EventId, Row>)
    requires FirstsMerged(WithRow(rows, e), rest, out)
    ensures FirstsMerged(rows, [e] + rest, out)
  {
    var all, mid := [e] + rest, WithRow(rows, e);
    forall id | id in rows ensures id in out && out[id] == rows[id] {
      assert id in mid && mid[id] == rows[id];
    }
    assert e.id in mid;
    FirstHead(rows, e, rest);
    forall i | 0 <= i < |all| ensures StoredAt(rows, all, out, i) {
      if i > 0 { StoredAfter(rows, e, rest, out, i - 1); }
    }
    forall id | id in out && id !in rows ensures exists i :: 0 <= i < |all| && all[i].id == id {
      SomeLine(rows, e, rest, out, id);
    }
  }

  lemma SomeLine(rows: map<EventId, Row>, e: Event, rest: seq<Event>, out: map<EventId, Row>, id: EventId)
    requires FirstsMerged(WithRow(rows, e), rest, out) && id in out && id !in rows
    ensures exists i :: 0 <= i < |[e] + rest| && ([e] + rest)[i].id == id
  {
    if id == e.id {
      assert ([e] + rest)[0].id == id;
    } else {
      var i :| 0 <= i < |rest| && rest[i].id == id;
      assert ([e] + rest)[i + 1].id == id;
    }
  }

  /** One line: whether it is absorbed, and what it leaves. */
  lemma AbsorbCases(ix: Index, e: Event)
    ensures Absorbed(ix, e).Ok? <==> OnStream(ix.cursor, e) && (e.id !in ix.rows ==> !HoldsOrigin(ix.rows, e))
    ensures Absorbed(ix, e).Ok? ==>
      Absorbed(ix, e).value.rows == WithRow(ix.rows, e) && CursorMerged(ix.cursor, [e], Absorbed(ix, e).value.cursor)
  {
    assert forall f :: f in [e] <==> f == e;
  }

  /** Reconciliation of any lines with any ledger succeeds exactly when all enveloped lines are on
      one stream, the ledger's, and the tuples of the first lines of new ids are free and distinct.
      It then adds the first line of every new id, and the cursor is the maximum over all lines. */
  lemma {:induction false} ReconcileMerges(ix: Index, lines: seq<Event>)
    ensures Reconciled(ix, lines).Ok? <==> OneStream(ix.cursor, lines) && FirstOriginsFree(ix.rows, lines)
    ensures Reconciled(ix, lines).Ok? ==>
      FirstsMerged(ix.rows, lines, Reconciled(ix, lines).value.rows) &&
      CursorMerged(ix.cursor, lines, Reconciled(ix, lines).value.cursor)
    decreases |lines|
  {
    if lines != [] {
      var e, rest := lines[0], lines[1..];
      assert lines == [e] + rest;
      AbsorbCases(ix, e);
      FirstHead(ix.rows, e, rest);
      FirstOriginsSplit(ix.rows, e, rest);
      if Absorbed(ix, e).Ok? {
        var mid := Absorbed(ix, e).value;
        SplitStream(ix.cursor, e, rest, mid.cursor);
        ReconcileMerges(mid, rest);
        if Reconciled(mid, rest).Ok? {
          FirstsMergeSteps(ix.rows, e, rest, Reconciled(mid, rest).value.rows);
          CursorMergeSteps(ix.cursor, e, rest, mid.cursor, Reconciled(mid, rest).value.cursor);
        }
      } else {
        assert e in lines;
      }
    }
  }

  /** The line cannot be absorbed, with this error: a new id under a tuple that a row holds, else a
      stream other than the cursor's. */
  ghost predicate StopsAt(ix: Index, e: Event, error: StoreError) {
    if e.id !in ix.rows && e.Enveloped() && exists id :: id in ix.rows && SameOrigin(ix.rows[id], e)
    then error == OriginTaken
    else error == ForeignStream && e.Enveloped() && ix.cursor.Some? && ix.cursor.value.stream != e.Stream()
  }

  /** A reconcile that fails stops at the first line that cannot be absorbed, and says why. */
  lemma {:induction false} ReconcileStops(ix: Index, lines: seq<Event>) returns (n: nat)
    requires Reconciled(ix, lines).Err?
    ensures n < |lines| && Reconciled(ix, lines[..n]).Ok?
    ensures StopsAt(Reconciled(ix, lines[..n]).value, lines[n], Reconciled(ix, lines).error)
    decreases |lines|
  {
    var e, rest := lines[0], lines[1..];
    if Absorbed(ix, e).Err? {
      n := 0;
      assert lines[..0] == [];
    } else {
      var m := ReconcileStops(Absorbed(ix, e).value, rest);
      n := m + 1;
      assert lines[..n][0] == e && lines[..n][1..] == rest[..m];
    }
  }

  lemma {:induction false} ReconcileKeeps(ix: Index, lines: seq<Event>)
    requires LedgerOk(ix) && PositiveSeqs(lines) && Reconciled(ix, lines).Ok?
    ensures LedgerOk(Reconciled(ix, lines).value)
    decreases |lines|
  {
    if lines != [] {
      assert lines[0] in lines;
      AbsorbKeeps(ix, lines[0]);
      ReconcileKeeps(Absorbed(ix, lines[0]).value, lines[1..]);
    }
  }

  // ----- order -----

  /** The lines carry one record for each id that the ledger does not have. */
  ghost predicate OneRecordPerNewId(rows: map<EventId, Row>, lines: seq<Event>) {
    forall e, f :: e in lines && f in lines && e.id == f.id && e.id !in rows ==> ToRow(e) == ToRow(f)
  }

  ghost predicate SameOutcome(x: Result<Index, StoreError>, y: Result<Index, StoreError>) {
    x.Ok? == y.Ok? && (x.Ok? ==> x == y)
  }

  ghost predicate SameLines(a: seq<Event>, b: seq<Event>) {
    forall e :: e in a <==> e in b
  }

  lemma FreeAtInOtherOrder(rows: map<EventId, Row>, a: seq<Event>, b: seq<Event>, i: nat)
    requires SameLines(a, b) && OneRecordPerNewId(rows, a) && FirstOriginsFree(rows, a) && i < |b|
    ensures FreeAt(rows, b, i)
  {
    if IsFirst(rows, b, i) {
      var j := Counterpart(rows, a, b, i);
      SameRowOrigin(a[j], b[i], rows);
      assert FreeAt(rows, a, j);
    }
  }

  lemma ApartInOtherOrder(rows: map<EventId, Row>, a: seq<Event>, b: seq<Event>, i: nat, k: nat)
    requires SameLines(a, b) && OneRecordPerNewId(rows, a) && FirstOriginsFree(rows, a) && i < k < |b|
    ensures ApartAt(rows, b, i, k)
  {
    if IsFirst(rows, b, i) && IsFirst(rows, b, k) {
      var j := Counterpart(rows, a, b, i);
      var l := Counterpart(rows, a, b, k);
      assert a[j].id != a[l].id;
      SameRowShares(a[j], b[i], a[l], b[k]);
      assert if j < l then ApartAt(rows, a, j, l) else ApartAt(rows, a, l, j);
    }
  }

  lemma FreeInOtherOrder(rows: map<EventId, Row>, a: seq<Event>, b: seq<Event>)
    requires SameLines(a, b) && OneRecordPerNewId(rows, a) && FirstOriginsFree(rows, a)
    ensures FirstOriginsFree(rows, b)
  {
    forall i | 0 <= i < |b| ensures FreeAt(rows, b, i) {
      FreeAtInOtherOrder(rows, a, b, i);
    }
    forall i, k | 0 <= i < k < |b| ensures ApartAt(rows, b, i, k) {
      ApartInOtherOrder(rows, a, b, i, k);
    }
  }

  /** The first line of an id in one order has the row of the first line in the other. */
  lemma Counterpart(rows: map<EventId, Row>, a: seq<Event>, b: seq<Event>, i: nat) returns (j: nat)
    requires SameLines(a, b) && OneRecordPerNewId(rows, a) && i < |b| && b[i].id !in rows
    ensures j < |a| && IsFirst(rows, a, j) && a[j].id == b[i].id && ToRow(a[j]) == ToRow(b[i])
  {
    assert b[i] in b && b[i] in a;
    var k :| 0 <= k < |a| && a[k] == b[i];
    j := FirstOf(rows, a, k);
    assert a[j] in a;
  }

  lemma SameRowOrigin(e: Event, f: Event, rows: map<EventId, Row>)
    requires ToRow(e) == ToRow(f)
    ensures HoldsOrigin(rows, e) <==> HoldsOrigin(rows, f)
  {
    assert e.Enveloped() <==> f.Enveloped();
    assert forall id :: id in rows ==> (SameOrigin(rows[id], e) <==> SameOrigin(rows[id], f));
  }

  lemma SameRowShares(e: Event, e': Event, f: Event, f': Event)
    requires ToRow(e) == ToRow(e') && ToRow(f) == ToRow(f')
    ensures SharesOrigin(e, f) <==> SharesOrigin(e', f')
    ensures SharesOrigin(e, f) <==> SharesOrigin(f, e)
  {
    assert e.Enveloped() <==> e'.Enveloped();
    assert f.Enveloped() <==> f'.Enveloped();
  }

  lemma FirstsInOtherOrder(rows: map<EventId, Row>, a: seq<Event>, b: seq<Event>,
                           x: map<EventId, Row>, y: map<EventId, Row>)
    requires SameLines(a, b) && OneRecordPerNewId(rows, a)
    requires FirstsMerged(rows, a, x) && FirstsMerged(rows, b, y)
    ensures forall id :: id in y ==> id in x && x[id] == y[id]
  {
    forall id | id in y ensures id in x && x[id] == y[id] {
      if id !in rows {
        var k :| 0 <= k < |b| && b[k].id == id;
        var i := FirstOf(rows, b, k);
        var j := Counterpart(rows, a, b, i);
        assert StoredAt(rows, b, y, i) && StoredAt(rows, a, x, j);
      }
    }
  }

  /** Lines that carry one record for each new id: their order and their repetition do not matter. */
  lemma OrderIndependent(ix: Index, a: seq<Event>, b: seq<Event>)
    requires SameLines(a, b) && OneRecordPerNewId(ix.rows, a)
    ensures SameOutcome(Reconciled(ix, a), Reconciled(ix, b))
  {
    ReconcileMerges(ix, a);
    ReconcileMerges(ix, b);
    assert OneRecordPerNewId(ix.rows, b);
    assert OneStream(ix.cursor, a) <==> OneStream(ix.cursor, b);
    if FirstOriginsFree(ix.rows, a) { FreeInOtherOrder(ix.rows, a, b); }
    if FirstOriginsFree(ix.rows, b) { FreeInOtherOrder(ix.rows, b, a); }
    if Reconciled(ix, a).Ok? {
      var x, y := Reconciled(ix, a).value, Reconciled(ix, b).value;
      FirstsInOtherOrder(ix.rows, a, b, x.rows, y.rows);
      FirstsInOtherOrder(ix.rows, b, a, y.rows, x.rows);
      assert x.rows == y.rows;
      CursorMergeUnique(ix.cursor, a, b, x.cursor, y.cursor);
    }
  }

  /** A new id with two records: bringing the other one to the front changes the outcome. */
  lemma OrderMatters(ix: Index, a: seq<Event>, i: nat, j: nat) returns (b: seq<Event>)
    requires Reconciled(ix, a).Ok? && i < |a| && j < |a|
    requires IsFirst(ix.rows, a, i) && a[j].id == a[i].id && ToRow(a[j]) != ToRow(a[i])
    ensures multiset(b) == multiset(a) && !SameOutcome(Reconciled(ix, a), Reconciled(ix, b))
  {
    b := [a[j]] + (a[..j] + a[j + 1..]);
    assert a == a[..j] + [a[j]] + a[j + 1..];
    FirstHead(ix.rows, a[j], a[..j] + a[j + 1..]);
    ReconcileMerges(ix, a);
    ReconcileMerges(ix, b);
    if Reconciled(ix, b).Ok? {
      assert StoredAt(ix.rows, a, Reconciled(ix, a).value.rows, i);
      assert b[0] == a[j] && StoredAt(ix.rows, b, Reconciled(ix, b).value.rows, 0);
    }
  }

  ghost predicate SameInAnyOrder(ix: Index, a: seq<Event>) {
    forall b :: multiset(b) == multiset(a) ==> SameOutcome(Reconciled(ix, a), Reconciled(ix, b))
  }

  lemma SameMultiset(a: seq<Event>, b: seq<Event>)
    requires multiset(a) == multiset(b)
    ensures SameLines(a, b)
  {
    assert forall e :: e in a <==> e in multiset(a);
    assert forall e :: e in b <==> e in multiset(b);
  }

  /** Lines that reconcile at all reconcile to the same index in every order exactly when they
      carry one record for each new id. */
  lemma OrderIndependentExactly(ix: Index, a: seq<Event>)
    requires Reconciled(ix, a).Ok?
    ensures SameInAnyOrder(ix, a) <==> OneRecordPerNewId(ix.rows, a)
  {
    if OneRecordPerNewId(ix.rows, a) {
      forall b | multiset(b) == multiset(a) ensures SameOutcome(Reconciled(ix, a), Reconciled(ix, b)) {
        SameMultiset(a, b);
        OrderIndependent(ix, a, b);
      }
    } else {
      var e, f :| e in a && f in a && e.id == f.id && e.id !in ix.rows && ToRow(e) != ToRow(f);
      var k :| 0 <= k < |a| && a[k] == e;
      var l :| 0 <= l < |a| && a[l] == f;
      var i := FirstOf(ix.rows, a, k);
      var b := OrderMatters(ix, a, i, if ToRow(a[i]) == ToRow(e) then l else k);
    }
  }

  /** Lines that a ledger already contains change nothing. */
  lemma {:induction false} ReconcileAbsorbed(ix: Index, lines: seq<Event>)
    requires forall e :: e in lines ==> e.id in ix.rows
    requires forall e :: e in lines && e.Enveloped() ==>
      ix.cursor.Some? && ix.cursor.value.stream == e.Stream() && ix.cursor.value.next > e.SeqNo()
    ensures Reconciled(ix, lines) == Ok(ix)
    decreases |lines|
  {
    if lines != [] {
      assert lines[0] in lines;
      ReconcileAbsorbed(ix, lines[1..]);
    }
  }

  /** Reconciling twice is reconciling once, whatever the ledger and the lines: repeated ids with
      other records, which the insert skips while the cursor moves, included. */
  lemma ReconcileIdempotent(ix: Index, lines: seq<Event>)
    requires Reconciled(ix, lines).Ok?
    ensures Reconciled(Reconciled(ix, lines).value, lines) == Reconciled(ix, lines)
  {
    ReconcileMerges(ix, lines);
    var out := Reconciled(ix, lines).value;
    forall e | e in lines ensures e.id in out.rows {
      var i :| 0 <= i < |lines| && lines[i] == e;
      if e.id !in ix.rows {
        var j := FirstOf(ix.rows, lines, i);
        assert StoredAt(ix.rows, lines, out.rows, j);
      }
    }
    ReconcileAbsorbed(out, lines);
  }
}
