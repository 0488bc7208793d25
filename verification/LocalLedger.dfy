/** The local SQLite index: its rows, the single producer cursor and the statements that change
    them. */
module LocalLedger {
  import opened Wrappers
  import opened Events

  /** The row of `producer_stream`: the ledger's own stream and the next sequence number. */
  datatype Cursor = Cursor(stream: StreamId, next: int)

  datatype Index = Index(rows: map<EventId, Row>, cursor: Option<Cursor>)

  const EMPTY_INDEX := Index(map[], None)

  datatype StoreError = ForeignStream | OriginTaken | DuplicateId

  predicate SameOrigin(r: Row, e: Event) {
    e.Enveloped() && r.stream == Some(e.Stream()) && r.seqNo == Some(e.SeqNo())
  }

  /** The unique index over origin tuples would reject a row for `e`. */
  predicate HoldsOrigin(rows: map<EventId, Row>, e: Event) {
    exists id :: id in rows && SameOrigin(rows[id], e)
  }

  ghost predicate RowsStored(rows: map<EventId, Row>) {
    forall id :: id in rows ==> rows[id].id == id && StoredRow(rows[id])
  }

  /** The row's origin, if it has one, lies below the cursor on the cursor's stream. */
  predicate BelowCursor(cursor: Option<Cursor>, r: Row) {
    r.stream.Some? ==>
      && cursor.Some?
      && r.stream.value == cursor.value.stream
      && r.seqNo.Some?
      && 1 <= r.seqNo.value < cursor.value.next
  }

  ghost predicate UniqueOrigins(rows: map<EventId, Row>) {
    forall a, b | a in rows && b in rows && SharedOrigin(rows[a], rows[b]) :: a == b
  }

  predicate SharedOrigin(r: Row, s: Row) {
    r.stream.Some? && r.stream == s.stream && r.seqNo == s.seqNo
  }

  /** Every enveloped row lies below the cursor on the cursor's stream, and no two rows share an
      origin tuple. */
  ghost predicate LedgerOk(ix: Index) {
    && RowsStored(ix.rows)
    && (forall id :: id in ix.rows ==> BelowCursor(ix.cursor, ix.rows[id]))
    && (ix.cursor.Some? ==> ix.cursor.value.next >= 1)
    && UniqueOrigins(ix.rows)
  }

  /** The origin handed to the next event: the cursor, or number 1 of a newly minted stream. */
  function NextOrigin(cursor: Option<Cursor>, minted: StreamId): Cursor {
    if cursor.Some? then cursor.value else Cursor(minted, 1)
  }

  function Inserted(rows: map<EventId, Row>, e: Event): Result<map<EventId, Row>, StoreError> {
    if e.id in rows then Err(DuplicateId)
    else if HoldsOrigin(rows, e) then Err(OriginTaken)
    else Ok(rows[e.id := ToRow(e)])
  }

  /** `ON CONFLICT(id) DO NOTHING`: only the identity conflict is ignored. */
  function InsertedOrIgnored(rows: map<EventId, Row>, e: Event): Result<map<EventId, Row>, StoreError> {
    if e.id in rows then Ok(rows) else Inserted(rows, e)
  }

  /** Moves the cursor past an observed origin, never back, and refuses a foreign stream. */
  function Observed(cursor: Option<Cursor>, e: Event): Result<Option<Cursor>, StoreError> {
    if !e.Enveloped() then Ok(cursor)
    else if cursor.None? then Ok(Some(Cursor(e.Stream(), e.SeqNo() + 1)))
    else if cursor.value.stream != e.Stream() then Err(ForeignStream)
    else if cursor.value.next < e.SeqNo() + 1 then Ok(Some(Cursor(e.Stream(), e.SeqNo() + 1)))
    else Ok(cursor)
  }

  /** One shard line during reconciliation. */
  function Absorbed(ix: Index, e: Event): Result<Index, StoreError> {
    match InsertedOrIgnored(ix.rows, e)
    case Err(error) => Err(error)
    case Ok(rows) =>
      match Observed(ix.cursor, e)
      case Err(error) => Err(error)
      case Ok(cursor) => Ok(Index(rows, cursor))
  }

  function Reconciled(ix: Index, lines: seq<Event>): Result<Index, StoreError>
    decreases |lines|
  {
    if lines == [] then Ok(ix)
    else
      match Absorbed(ix, lines[0])
      case Err(error) => Err(error)
      case Ok(next) => Reconciled(next, lines[1..])
  }

  /** The database behind one connection. A transaction works on the fields in place; a rollback
      puts the saved values back. */
  class Ledger {
    var rows: map<EventId, Row>
    var cursor: Option<Cursor>

    ghost function View(): Index
      reads this
    {
      Index(rows, cursor)
    }

    constructor ()
      ensures View() == EMPTY_INDEX
    {
      rows := map[];
      cursor := None;
    }

    method AllocateOrigin(minted: StreamId) returns (stream: StreamId, seqNo: int)
      modifies this`cursor
      ensures NextOrigin(old(cursor), minted) == Cursor(stream, seqNo)
      ensures cursor == Some(Cursor(stream, seqNo + 1))
    {
      match cursor
      case None =>
        cursor := Some(Cursor(minted, 2));
        stream, seqNo := minted, 1;
      case Some(c) =>
        stream, seqNo := c.stream, c.next;
        cursor := Some(c.(next := seqNo + 1));
    }

    method ObserveOrigin(e: Event) returns (error: Option<StoreError>)
      modifies this`cursor
      ensures match Observed(old(cursor), e)
              case Ok(c) => error == None && cursor == c
              case Err(x) => error == Some(x) && cursor == old(cursor)
    {
      error := None;
      if e.Enveloped() {
        var next := e.SeqNo() + 1;
        match cursor
        case None =>
          cursor := Some(Cursor(e.Stream(), next));
        case Some(c) =>
          if c.stream != e.Stream() {
            error := Some(ForeignStream);
          } else if c.next < next {
            cursor := Some(c.(next := next));
          }
      }
    }

    method InsertEvent(e: Event) returns (error: Option<StoreError>)
      modifies this`rows
      ensures match Inserted(old(rows), e)
              case Ok(r) => error == None && rows == r
              case Err(x) => error == Some(x) && rows == old(rows)
    {
      if e.id in rows {
        error := Some(DuplicateId);
      } else if HoldsOrigin(rows, e) {
        error := Some(OriginTaken);
      } else {
        rows := rows[e.id := ToRow(e)];
        error := None;
      }
    }

    /** Returns whether a row was written. */
    method InsertEventIgnore(e: Event) returns (result: Result<bool, StoreError>)
      modifies this`rows
      ensures match InsertedOrIgnored(old(rows), e)
              case Ok(r) => result == Ok(e.id !in old(rows)) && rows == r
              case Err(x) => result == Err(x) && rows == old(rows)
    {
      if e.id in rows {
        result := Ok(false);
      } else {
        var error := InsertEvent(e);
        result := if error.Some? then Err(error.value) else Ok(true);
      }
    }

    /** Replays every shard line in one transaction. */
    method ReconcileShards(lines: seq<Event>) returns (error: Option<StoreError>)
      modifies this
      ensures match Reconciled(old(View()), lines)
              case Ok(ix) => error == None && View() == ix
              case Err(x) => error == Some(x) && View() == old(View())
    {
      var savedRows, savedCursor := rows, cursor;
      error := None;
      var i := 0;
      while i < |lines|
        invariant 0 <= i <= |lines|
        invariant error == None
        invariant Reconciled(View(), lines[i..]) == Reconciled(old(View()), lines)
      {
        assert lines[i..][1..] == lines[i + 1..];
        var inserted := InsertEventIgnore(lines[i]);
        if inserted.Err? {
          rows, cursor := savedRows, savedCursor;
          return Some(inserted.error);
        }
        error := ObserveOrigin(lines[i]);
        if error.Some? {
          rows, cursor := savedRows, savedCursor;
          return;
        }
        i := i + 1;
      }
    }
  }
}
