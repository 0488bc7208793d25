/** Reading the central ledger: one filtered page at a time, with the last offset of a page passed
    back as the watermark of the next. The ledger is at rest while it is read. */
module CentralPaging {
  import opened Wrappers
  import opened Events
  import opened CentralLedger
  import CentralRuns

  const MAX_READ_LIMIT := 100

  datatype Filter = Filter(eventType: Option<string>, stream: Option<StreamId>)

  datatype ReadError = BadOffset | BadLimit | BadEventType

  datatype Page = Page(rows: seq<Stored>, watermark: int)

  /** The join with the receipt and the optional conditions. */
  predicate Matches(db: Central, f: Filter, o: Origin)
    requires o in db.observations
  {
    && o in db.receipts && db.receipts[o].offset == db.observations[o].offset
    && (f.eventType.Some? ==> db.observations[o].record.eventType == f.eventType.value)
    && (f.stream.Some? ==> o.0 == f.stream.value)
  }

  /** Every matching row after an offset. */
  function Rows(db: Central, f: Filter, after: int): set<Stored> {
    set o | o in db.observations && Matches(db, f, o) && db.observations[o].offset > after :: db.observations[o]
  }

  predicate IsLeast(rows: set<Stored>, m: Stored) {
    m in rows && forall r :: r in rows ==> m.offset <= r.offset
  }

  lemma {:induction false} HasLeast(rows: set<Stored>) returns (m: Stored)
    requires rows != {}
    ensures IsLeast(rows, m)
    decreases |rows|
  {
    m :| m in rows;
    if rows != {m} {
      var rest := rows - {m};
      assert rest != {} by {
        assert rows == rest + {m};
      }
      var n := HasLeast(rest);
      if n.offset < m.offset {
        m := n;
      }
    }
  }

  /** ORDER BY ingest_offset */
  ghost function Ordered(rows: set<Stored>): seq<Stored>
    decreases |rows|
  {
    if rows == {} then []
    else
      assert exists m :: IsLeast(rows, m) by { var m := HasLeast(rows); }
      var m :| IsLeast(rows, m);
      [m] + Ordered(rows - {m})
  }

  function Least(a: int, b: int): int { if a < b then a else b }

  /** One read, with its checks in order, and the watermark its caller passes on. */
  ghost function Read(db: Central, f: Filter, after: int, limit: int): Result<Page, ReadError> {
    if after < 0 then Err(BadOffset)
    else if limit < 1 || limit > MAX_READ_LIMIT then Err(BadLimit)
    else if f.eventType.Some? && !HasText(f.eventType.value) then Err(BadEventType)
    else
      var found := Ordered(Rows(db, f, after));
      var page := found[..Least(limit, |found|)];
      Ok(Page(page, if page == [] then after else page[|page| - 1].offset))
  }

  /** Reads on and on, one page for every limit, each from the watermark of the one before. */
  ghost function ReadOn(db: Central, f: Filter, after: int, limits: seq<int>): Result<Page, ReadError>
    decreases |limits|
  {
    if limits == [] then Ok(Page([], after))
    else
      match Read(db, f, after, limits[0])
      case Err(e) => Err(e)
      case Ok(page) =>
        match ReadOn(db, f, page.watermark, limits[1..])
        case Err(e) => Err(e)
        case Ok(rest) => Ok(Page(page.rows + rest.rows, rest.watermark))
  }

  // ----- the order -----

  ghost predicate Ascending(rows: seq<Stored>) {
    forall i, j :: 0 <= i < j < |rows| ==> rows[i].offset < rows[j].offset
  }

  ghost predicate DistinctOffsets(rows: set<Stored>) {
    forall a, b | a in rows && b in rows && a.offset == b.offset :: a == b
  }

  ghost predicate Lists(s: seq<Stored>, rows: set<Stored>) {
    forall r :: r in s <==> r in rows
  }

  lemma OrderedSplits(rows: set<Stored>) returns (m: Stored)
    requires rows != {}
    ensures IsLeast(rows, m) && Ordered(rows) == [m] + Ordered(rows - {m})
  {
    assert exists m :: IsLeast(rows, m) by { var m := HasLeast(rows); }
    m := Ordered(rows)[0];
  }

  lemma LeastFirst(rows: set<Stored>, m: Stored, rest: seq<Stored>)
    requires DistinctOffsets(rows) && IsLeast(rows, m)
    requires Ascending(rest) && Lists(rest, rows - {m})
    ensures Ascending([m] + rest) && Lists([m] + rest, rows)
  {
    assert forall j :: 0 <= j < |rest| ==> rest[j] in rows - {m};
  }

  lemma {:induction false} OrderedSorts(rows: set<Stored>)
    requires DistinctOffsets(rows)
    ensures Ascending(Ordered(rows)) && Lists(Ordered(rows), rows) && |Ordered(rows)| == |rows|
    decreases |rows|
  {
    if rows != {} {
      var m := OrderedSplits(rows);
      OrderedSorts(rows - {m});
      LeastFirst(rows, m, Ordered(rows - {m}));
    }
  }

  /** Only one ascending sequence lists a set of rows. */
  lemma {:induction false} AscendingIsUnique(a: seq<Stored>, b: seq<Stored>)
    requires Ascending(a) && Ascending(b) && forall r :: r in a <==> r in b
    ensures a == b
  {
    assert b != [] ==> b[0] in b && b[0] in a;
    if a == [] {
    } else {
      assert a[0] in b && b != [] && b[0] in a;
      assert a[0] == b[0];
      forall r
        ensures r in a[1..] <==> r in b[1..]
      {
        TailOf(a, r);
        TailOf(b, r);
      }
      AscendingIsUnique(a[1..], b[1..]);
      assert a == [a[0]] + a[1..] && b == [b[0]] + b[1..];
    }
  }

  lemma TailOf(a: seq<Stored>, r: Stored)
    requires Ascending(a) && a != []
    ensures r in a[1..] <==> r in a && r != a[0]
  {
    if r in a && r != a[0] {
      var i :| 0 <= i < |a| && a[i] == r;
      assert a[1..][i - 1] == r;
    }
  }

  lemma RowsDistinct(db: Central, f: Filter, after: int)
    requires CentralOk(db)
    ensures DistinctOffsets(Rows(db, f, after))
  {
  }

  lemma CutAt(s: seq<Stored>, k: nat, r: Stored)
    requires Ascending(s) && 0 < k <= |s|
    ensures r in s[k..] <==> r in s && r.offset > s[k - 1].offset
  {
    if r in s && r.offset > s[k - 1].offset {
      var i :| 0 <= i < |s| && s[i] == r;
      assert s[k..][i - k] == r;
    }
    if r in s[k..] {
      var i :| 0 <= i < |s| - k && s[k..][i] == r;
      assert s[k + i] == r;
    }
  }

  lemma RowsAfter(db: Central, f: Filter, after: int, later: int, r: Stored)
    requires after <= later
    ensures r in Rows(db, f, later) <==> r in Rows(db, f, after) && r.offset > later
  {
  }

  /** What follows a page is the list of the rows beyond its last offset. */
  lemma RestIsList(found: seq<Stored>, k: nat, rest: seq<Stored>)
    requires Ascending(found) && Ascending(rest) && 0 < k <= |found|
    requires forall r :: r in rest <==> r in found && r.offset > found[k - 1].offset
    ensures found[k..] == rest
  {
    forall r
      ensures r in found[k..] <==> r in rest
    {
      CutAt(found, k, r);
    }
    AscendingIsUnique(found[k..], rest);
  }

  lemma OrderedRows(db: Central, f: Filter, after: int)
    requires CentralOk(db)
    ensures Ascending(Ordered(Rows(db, f, after))) && Lists(Ordered(Rows(db, f, after)), Rows(db, f, after))
    ensures |Ordered(Rows(db, f, after))| == |Rows(db, f, after)|
  {
    RowsDistinct(db, f, after);
    OrderedSorts(Rows(db, f, after));
  }

  lemma LastIsLater(db: Central, f: Filter, after: int, found: seq<Stored>, k: nat)
    requires Lists(found, Rows(db, f, after)) && 0 < k <= |found|
    ensures found[k - 1].offset > after
  {
    assert found[k - 1] in found;
  }

  lemma RestFollowsWatermark(db: Central, f: Filter, after: int, k: nat)
    requires CentralOk(db) && 0 < k <= |Ordered(Rows(db, f, after))|
    ensures var found := Ordered(Rows(db, f, after));
      found[k..] == Ordered(Rows(db, f, found[k - 1].offset))
  {
    var found := Ordered(Rows(db, f, after));
    var last := found[k - 1].offset;
    OrderedRows(db, f, after);
    OrderedRows(db, f, last);
    LastIsLater(db, f, after, found, k);
    var rest := Ordered(Rows(db, f, last));
    forall r
      ensures r in rest <==> r in found && r.offset > last
    {
      RowsAfter(db, f, after, last, r);
    }
    RestIsList(found, k, rest);
  }

  predicate Readable(f: Filter, limits: seq<int>) {
    && (f.eventType.Some? ==> HasText(f.eventType.value))
    && forall i :: 0 <= i < |limits| ==> 1 <= limits[i] <= MAX_READ_LIMIT
  }

  function Sum(limits: seq<int>): int {
    if limits == [] then 0 else limits[0] + Sum(limits[1..])
  }

  lemma {:induction false} SumCounts(f: Filter, limits: seq<int>)
    requires Readable(f, limits)
    ensures |limits| <= Sum(limits)
  {
    if limits != [] {
      SumCounts(f, limits[1..]);
    }
  }

  lemma JoinPrefixes(found: seq<Stored>, k: nat, n: nat)
    requires k <= |found|
    ensures found[..k] + found[k..][..Least(n, |found| - k)] == found[..Least(k + n, |found|)]
  {
  }

  lemma ReadForm(db: Central, f: Filter, after: int, limit: int)
    requires after >= 0 && Readable(f, [limit]) && 1 <= limit <= MAX_READ_LIMIT
    ensures var found := Ordered(Rows(db, f, after)); var k := Least(limit, |found|);
      Read(db, f, after, limit) == Ok(Page(found[..k], if k == 0 then after else found[k - 1].offset))
  {
  }

  /** The first page and where it leaves the reader. */
  lemma FirstPage(db: Central, f: Filter, after: int, limit: int)
    requires CentralOk(db) && after >= 0 && Readable(f, [limit])
    ensures Read(db, f, after, limit).Ok?
    ensures var found, page := Ordered(Rows(db, f, after)), Read(db, f, after, limit).value;
      var k := Least(limit, |found|);
      page.rows == found[..k] && page.watermark >= after
      && Ordered(Rows(db, f, page.watermark)) == found[k..]
  {
    assert [limit][0] == limit;
    ReadForm(db, f, after, limit);
    var found := Ordered(Rows(db, f, after));
    var k := Least(limit, |found|);
    if found != [] {
      OrderedRows(db, f, after);
      LastIsLater(db, f, after, found, k);
      RestFollowsWatermark(db, f, after, k);
    }
  }

  lemma ReadOnSplits(db: Central, f: Filter, after: int, limits: seq<int>, page: Page, rest: Page)
    requires limits != [] && Read(db, f, after, limits[0]) == Ok(page)
    requires ReadOn(db, f, page.watermark, limits[1..]) == Ok(rest)
    ensures ReadOn(db, f, after, limits) == Ok(Page(page.rows + rest.rows, rest.watermark))
  {
  }

  ghost predicate ReadsPrefix(db: Central, f: Filter, after: int, limits: seq<int>, found: seq<Stored>) {
    && ReadOn(db, f, after, limits).Ok? && Sum(limits) >= 0
    && ReadOn(db, f, after, limits).value.rows == found[..Least(Sum(limits), |found|)]
  }

  lemma PrefixExtends(db: Central, f: Filter, after: int, limits: seq<int>, page: Page, found: seq<Stored>)
    requires limits != [] && limits[0] >= 1 && Read(db, f, after, limits[0]) == Ok(page)
    requires page.rows == found[..Least(limits[0], |found|)]
    requires ReadsPrefix(db, f, page.watermark, limits[1..], found[Least(limits[0], |found|)..])
    ensures ReadsPrefix(db, f, after, limits, found)
  {
    var rest := ReadOn(db, f, page.watermark, limits[1..]).value;
    ReadOnSplits(db, f, after, limits, page, rest);
    JoinPrefixes(found, Least(limits[0], |found|), Sum(limits[1..]));
  }

  /** Pages put together are one prefix of the ordered matches, however the limits vary. */
  lemma {:induction false} PagesAreAPrefix(db: Central, f: Filter, after: int, limits: seq<int>)
    requires CentralOk(db) && after >= 0 && Readable(f, limits)
    ensures ReadsPrefix(db, f, after, limits, Ordered(Rows(db, f, after)))
    decreases |limits|
  {
    if limits != [] {
      FirstPage(db, f, after, limits[0]);
      var page := Read(db, f, after, limits[0]).value;
      PagesAreAPrefix(db, f, page.watermark, limits[1..]);
      PrefixExtends(db, f, after, limits, page, Ordered(Rows(db, f, after)));
    }
  }

  /** Reading a ledger at rest until as many pages are asked for as there are matches returns every
      match exactly once, in increasing offset order; from then on every page is empty. */
  lemma PagingReadsEverything(db: Central, f: Filter, after: int, limits: seq<int>)
    requires CentralOk(db) && after >= 0 && Readable(f, limits)
    requires |limits| >= |Rows(db, f, after)|
    ensures ReadOn(db, f, after, limits).Ok?
    ensures var rows := ReadOn(db, f, after, limits).value.rows;
      && Ascending(rows) && |rows| == |Rows(db, f, after)|
      && (forall r :: r in rows <==> r in Rows(db, f, after))
  {
    OrderedRows(db, f, after);
    SumCounts(f, limits);
    PagesAreAPrefix(db, f, after, limits);
    var found := Ordered(Rows(db, f, after));
    assert found[..|found|] == found;
  }

  /** A reader knows it is done exactly by an empty page, which does not move its watermark. */
  lemma EmptyPageMeansDone(db: Central, f: Filter, after: int, limit: int)
    requires CentralOk(db) && Read(db, f, after, limit).Ok?
    ensures var page := Read(db, f, after, limit).value;
      && (page.rows == [] <==> Rows(db, f, after) == {})
      && (page.rows == [] ==> page.watermark == after)
      && (page.rows != [] ==> page.watermark > after)
  {
    OrderedRows(db, f, after);
    var page := Read(db, f, after, limit).value;
    if page.rows != [] {
      assert page.rows[|page.rows| - 1] in Ordered(Rows(db, f, after));
    }
  }

  /** A read is refused exactly for a negative offset, a limit that is not from 1 to 100, or a blank
      event type, in this order. */
  lemma Refusals(db: Central, f: Filter, after: int, limit: int)
    ensures Read(db, f, after, limit) == Err(BadOffset) <==> after < 0
    ensures Read(db, f, after, limit) == Err(BadLimit) <==> after >= 0 && !(1 <= limit <= 100)
    ensures Read(db, f, after, limit) == Err(BadEventType) <==>
              after >= 0 && 1 <= limit <= 100 && f.eventType.Some? && IsBlank(f.eventType.value)
  {
    if f.eventType.Some? { BlankHasNoText(f.eventType.value); }
  }

  /** The filter asks for the stored row at this tuple. */
  predicate Wanted(db: Central, f: Filter, after: int, o: Origin)
    requires o in db.observations
  {
    && db.observations[o].offset > after
    && (f.eventType.None? || f.eventType.value == db.observations[o].record.eventType)
    && (f.stream.None? || f.stream.value == db.observations[o].record.stream)
  }

  lemma WantedRows(db: Central, f: Filter, after: int, o: Origin)
    requires CentralOk(db) && o in db.observations
    ensures db.observations[o] in Rows(db, f, after) <==> Wanted(db, f, after, o)
  {
    assert OriginOf(db.observations[o].record) == o;
    if db.observations[o] in Rows(db, f, after) {
      var p :| p in db.observations && Matches(db, f, p) && db.observations[p] == db.observations[o];
      assert OriginOf(db.observations[p].record) == p;
    }
  }

  lemma OffPage(found: seq<Stored>, k: nat, r: Stored)
    requires k <= |found| && Ascending(found) && r in found && r !in found[..k]
    ensures k < |found| && forall i :: 0 <= i < k ==> r.offset > found[i].offset
  {
    var i :| 0 <= i < |found| && found[i] == r;
    assert forall j :: 0 <= j < k ==> found[..k][j] == found[j];
  }

  /** The page holds only wanted rows. */
  ghost predicate OnlyWanted(db: Central, f: Filter, after: int, rows: seq<Stored>) {
    forall r :: r in rows ==> exists o :: o in db.observations && db.observations[o] == r && Wanted(db, f, after, o)
  }

  /** A wanted row that is not on the page comes later, and then the page is full. */
  ghost predicate MissesLater(db: Central, f: Filter, after: int, rows: seq<Stored>, limit: int) {
    forall o :: o in db.observations && Wanted(db, f, after, o) && db.observations[o] !in rows ==>
      |rows| == limit && forall i :: 0 <= i < |rows| ==> db.observations[o].offset > rows[i].offset
  }

  lemma FoundIsWanted(db: Central, f: Filter, after: int, rows: seq<Stored>)
    requires CentralOk(db) && forall r :: r in rows ==> r in Rows(db, f, after)
    ensures OnlyWanted(db, f, after, rows)
  {
    forall r | r in rows
      ensures exists o :: o in db.observations && db.observations[o] == r && Wanted(db, f, after, o)
    {
      var o :| o in db.observations && Matches(db, f, o) && db.observations[o] == r;
      WantedRows(db, f, after, o);
    }
  }

  lemma RestIsLater(db: Central, f: Filter, after: int, found: seq<Stored>, limit: int)
    requires CentralOk(db) && Ascending(found) && Lists(found, Rows(db, f, after)) && limit >= 1
    ensures MissesLater(db, f, after, found[..Least(limit, |found|)], limit)
  {
    var k := Least(limit, |found|);
    forall o | o in db.observations && Wanted(db, f, after, o) && db.observations[o] !in found[..k]
      ensures k == limit && forall i :: 0 <= i < k ==> db.observations[o].offset > found[..k][i].offset
    {
      WantedRows(db, f, after, o);
      OffPage(found, k, db.observations[o]);
    }
  }

  lemma PageIsPrefix(db: Central, f: Filter, after: int, limit: int)
    requires Read(db, f, after, limit).Ok?
    ensures limit >= 1
    ensures var found := Ordered(Rows(db, f, after));
      Read(db, f, after, limit).value.rows == found[..Least(limit, |found|)]
  {
  }

  lemma FirstRowsHold(db: Central, f: Filter, after: int, found: seq<Stored>, limit: int)
    requires CentralOk(db) && Ascending(found) && Lists(found, Rows(db, f, after)) && limit >= 1
    ensures var rows := found[..Least(limit, |found|)];
      Ascending(rows) && OnlyWanted(db, f, after, rows)
  {
    var rows := found[..Least(limit, |found|)];
    forall r | r in rows ensures r in Rows(db, f, after) {
      assert r in found;
    }
    FoundIsWanted(db, f, after, rows);
  }

  /** A page holds wanted rows in the order of their offsets, no more than the limit, and no wanted
      row is passed over. */
  lemma PageHolds(db: Central, f: Filter, after: int, limit: int)
    requires CentralOk(db) && Read(db, f, after, limit).Ok?
    ensures var rows := Read(db, f, after, limit).value.rows;
      && |rows| <= limit && Ascending(rows)
      && OnlyWanted(db, f, after, rows) && MissesLater(db, f, after, rows, limit)
  {
    OrderedRows(db, f, after);
    PageIsPrefix(db, f, after, limit);
    FirstRowsHold(db, f, after, Ordered(Rows(db, f, after)), limit);
    RestIsLater(db, f, after, Ordered(Rows(db, f, after)), limit);
  }

  // ----- a whole ledger from its beginning -----

  ghost predicate OffsetsPositive(s: CentralRuns.State) {
    s.next >= 1 && forall o :: o in s.db.observations ==> s.db.observations[o].offset >= 1
  }

  lemma {:induction false} RunOffsetsPositive(calls: seq<CentralRuns.Call>)
    ensures OffsetsPositive(CentralRuns.Run(calls))
  {
    if calls != [] {
      RunOffsetsPositive(calls[..|calls| - 1]);
    }
  }

  /** Offsets are handed out from 1, so a reader that starts at the default watermark misses
      nothing that matches its filter. */
  lemma DefaultWatermarkMissesNothing(calls: seq<CentralRuns.Call>, f: Filter, o: Origin)
    requires o in CentralRuns.Run(calls).db.observations
    ensures var db := CentralRuns.Run(calls).db;
      db.observations[o] in Rows(db, f, 0) <==>
        (f.eventType.Some? ==> db.observations[o].record.eventType == f.eventType.value) &&
        (f.stream.Some? ==> o.0 == f.stream.value)
  {
    var db := CentralRuns.Run(calls).db;
    CentralRuns.RunsStayOk(calls);
    RunOffsetsPositive(calls);
    assert o in db.receipts && db.receipts[o].offset == db.observations[o].offset;
    if db.observations[o] in Rows(db, f, 0) {
      var p :| p in db.observations && Matches(db, f, p) && db.observations[p] == db.observations[o];
      assert p == o;
    }
  }
}
