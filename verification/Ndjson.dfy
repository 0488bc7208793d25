/** The recovery shard on disk: appends that the system may cut short or fail to flush, and the
    reader. */
module Ndjson {
  import opened Wrappers
  import opened Events
  import opened SourceLines
  import JsonText

  const MAX_EVENT_LINE_BYTES := 16 * 1024

  datatype AppendOutcome = Appended | TooLong | CutShort | NotSynced

  /** How many bytes of a line get written when the write calls return these counts one after the
      other. A count that is not positive raises an error; when the counts run out the process has
      died between two calls. No call writes more than it was given. */
  function Progress(length: nat, writes: seq<int>): (n: nat)
    ensures n <= length
  {
    if length == 0 || writes == [] || writes[0] <= 0 then 0
    else if writes[0] >= length then length
    else writes[0] + Progress(length - writes[0], writes[1..])
  }

  function Sum(writes: seq<int>): int {
    if writes == [] then 0 else writes[0] + Sum(writes[1..])
  }

  /** The first `n` write calls all wrote something. */
  predicate AllWrote(writes: seq<int>, n: nat)
    requires n <= |writes|
  {
    forall i :: 0 <= i < n ==> writes[i] > 0
  }

  /** The calls before the first that returns nothing, or all of them, write as much as they sum up to
      and no more than the line; what would come after does not matter. */
  lemma {:induction false} ProgressIsSum(length: nat, writes: seq<int>, n: nat)
    requires n <= |writes| && AllWrote(writes, n) && (n < |writes| ==> writes[n] <= 0)
    ensures Progress(length, writes) == if Sum(writes[..n]) < length then Sum(writes[..n]) else length
    ensures Sum(writes[..n]) >= 0
    decreases n
  {
    if n > 0 {
      assert writes[..n][1..] == writes[1..][..n - 1] && writes[..n][0] == writes[0];
      RestWrote(writes, n);
      if writes[0] < length {
        ProgressIsSum(length - writes[0], writes[1..], n - 1);
      } else {
        ProgressIsSum(0, writes[1..], n - 1);
      }
    }
  }

  lemma RestWrote(writes: seq<int>, n: nat)
    requires 0 < n <= |writes| && AllWrote(writes, n) && (n < |writes| ==> writes[n] <= 0)
    ensures writes[0] > 0 && AllWrote(writes[1..], n - 1) && (n - 1 < |writes[1..]| ==> writes[1..][n - 1] <= 0)
  {
  }

  /** How many bytes of a line reach the file: none of one that is over the limit. */
  function Written(line: Bytes, writes: seq<int>): (n: nat)
    ensures n <= |line|
  {
    if |line| > MAX_EVENT_LINE_BYTES then 0 else Progress(|line|, writes)
  }

  /** One shard file, opened for appending under an exclusive lock. */
  class Shard {
    var data: Bytes

    constructor ()
      ensures data == []
    {
      data := [];
    }

    /** Writes what the write calls take and flushes it. A flush that fails raises, and the line is
        in the file all the same. */
    method Append(line: Bytes, writes: seq<int>, synced: bool) returns (outcome: AppendOutcome)
      modifies this
      ensures outcome == TooLong <==> |line| > 16384
      ensures data == old(data) + line[..Written(line, writes)]
      ensures outcome == Appended <==> |line| <= 16384 && Written(line, writes) == |line| && synced
      ensures outcome == NotSynced <==> |line| <= 16384 && Written(line, writes) == |line| && !synced
    {
      if |line| > MAX_EVENT_LINE_BYTES {
        assert line[..0] == [];
        return TooLong;
      }
      var offset, call := 0, 0;
      assert line[..0] == [] && writes[0..] == writes;
      while offset < |line|
        invariant 0 <= offset <= |line| && call <= |writes|
        invariant data == old(data) + line[..offset]
        invariant Progress(|line|, writes) == offset + Progress(|line| - offset, writes[call..])
        decreases |writes| - call
      {
        if call == |writes| || writes[call] <= 0 {
          return CutShort;
        }
        var written := if writes[call] >= |line| - offset then |line| - offset else writes[call];
        assert writes[call..][1..] == writes[call + 1..];
        assert line[..offset] + line[offset..offset + written] == line[..offset + written];
        data := data + line[offset..offset + written];
        offset, call := offset + written, call + 1;
      }
      assert line[..offset] == line;
      return if synced then Appended else NotSynced;
    }
  }

  // ----- reading -----

  /** What the reader makes of one line: blank, not JSON, JSON but not an event, or an event. */
  datatype Loaded = Blank | NotJson | Rejected(code: string) | Loaded(event: Event)

  datatype ReadError = CorruptShard | BadRecord(code: string) | MissingShard | UnreadableShard

  type Loader = Bytes -> Loaded

  /** The file is decoded in chunks while its lines are handed out. `raises` is how many lines come
      out before a chunk fails to decode; a file of valid UTF-8, so any file of ASCII, raises never. */
  datatype ShardFile = Missing | Unreadable | Content(data: Bytes, raises: Option<nat>)

  /** What one more line makes of the events before it. */
  function AddLine(events: seq<Event>, loaded: Loaded): Result<seq<Event>, ReadError> {
    match loaded
    case Blank => Ok(events)
    case NotJson => Err(CorruptShard)
    case Rejected(code) => Err(BadRecord(code))
    case Loaded(event) => Ok(events + [event])
  }

  function ReadLines(lines: seq<Bytes>, load: Loader): Result<seq<Event>, ReadError> {
    if lines == [] then Ok([])
    else
      match ReadLines(lines[..|lines| - 1], load)
      case Err(e) => Err(e)
      case Ok(events) => AddLine(events, load(Body(lines[|lines| - 1])))
  }

  /** Universal newlines split a text file as the byte scanner does. */
  function ReadData(data: Bytes, load: Loader): Result<seq<Event>, ReadError> {
    ReadLines(KeepEnds(data), load)
  }

  /** The lines that come out of the decoder before it raises. */
  function Delivered(data: Bytes, raises: Option<nat>): seq<Bytes> {
    var lines := KeepEnds(data);
    if raises.None? || raises.value >= |lines| then lines else lines[..raises.value]
  }

  /** A failure to decode is a corrupt shard, unless a line delivered before it is rejected first. */
  function ReadContent(data: Bytes, raises: Option<nat>, load: Loader): Result<seq<Event>, ReadError> {
    var result := ReadLines(Delivered(data, raises), load);
    if result.Ok? && raises.Some? then Err(CorruptShard) else result
  }

  function ReadFiles(files: seq<ShardFile>, load: Loader): Result<seq<Event>, ReadError> {
    if files == [] then Ok([])
    else
      match ReadFiles(files[..|files| - 1], load)
      case Err(e) => Err(e)
      case Ok(events) =>
        match files[|files| - 1]
        case Missing => Err(MissingShard)
        case Unreadable => Err(UnreadableShard)
        case Content(data, raises) =>
          match ReadContent(data, raises, load)
          case Err(e) => Err(e)
          case Ok(more) => Ok(events + more)
  }

  lemma {:induction false} ReadLinesStops(lines: seq<Bytes>, load: Loader, n: nat)
    requires n <= |lines| && ReadLines(lines[..n], load).Err?
    ensures ReadLines(lines, load) == ReadLines(lines[..n], load)
    decreases |lines|
  {
    if n == |lines| {
      assert lines[..n] == lines;
    } else {
      assert lines[..|lines| - 1][..n] == lines[..n];
      ReadLinesStops(lines[..|lines| - 1], load, n);
    }
  }

  lemma ReadNext(lines: seq<Bytes>, load: Loader, i: nat, events: seq<Event>)
    requires i < |lines| && ReadLines(lines[..i], load) == Ok(events)
    ensures ReadLines(lines[..i + 1], load) == AddLine(events, load(Body(lines[i])))
  {
    assert lines[..i + 1][..i] == lines[..i];
  }

  /** Reads the delivered lines one by one and stops at the first that is no event. */
  method ReadDelivered(lines: seq<Bytes>, load: Loader) returns (result: Result<seq<Event>, ReadError>)
    ensures result == ReadLines(lines, load)
  {
    var events: seq<Event> := [];
    var i := 0;
    while i < |lines|
      invariant i <= |lines| && ReadLines(lines[..i], load) == Ok(events)
    {
      ReadNext(lines, load, i, events);
      var next := AddLine(events, load(Body(lines[i])));
      if next.Err? {
        ReadLinesStops(lines, load, i + 1);
        return next;
      }
      events := next.value;
      i := i + 1;
    }
    assert lines[..i] == lines;
    return Ok(events);
  }

  /** Reads one shard up to its first line that is no event, or to where the decoder raises. */
  method ReadShard(data: Bytes, raises: Option<nat>, load: Loader) returns (result: Result<seq<Event>, ReadError>)
    ensures result == ReadContent(data, raises, load)
    ensures raises.None? ==> result == ReadData(data, load)
  {
    var lines := ScanLines(data);
    if raises.Some? && raises.value < |lines| {
      lines := lines[..raises.value];
    }
    result := ReadDelivered(lines, load);
    if result.Ok? && raises.Some? {
      result := Err(CorruptShard);
    }
  }

  lemma {:induction false} ReadFilesStops(files: seq<ShardFile>, load: Loader, n: nat)
    requires n <= |files| && ReadFiles(files[..n], load).Err?
    ensures ReadFiles(files, load) == ReadFiles(files[..n], load)
    decreases |files|
  {
    if n == |files| {
      assert files[..n] == files;
    } else {
      assert files[..|files| - 1][..n] == files[..n];
      ReadFilesStops(files[..|files| - 1], load, n);
    }
  }

  /** Reads the shards in their order. */
  method ReadEvents(files: seq<ShardFile>, load: Loader) returns (result: Result<seq<Event>, ReadError>)
    ensures result == ReadFiles(files, load)
  {
    var events: seq<Event> := [];
    var i := 0;
    while i < |files|
      invariant i <= |files| && ReadFiles(files[..i], load) == Ok(events)
    {
      assert files[..i + 1][..i] == files[..i];
      match files[i] {
        case Missing =>
          ReadFilesStops(files, load, i + 1);
          return Err(MissingShard);
        case Unreadable =>
          ReadFilesStops(files, load, i + 1);
          return Err(UnreadableShard);
        case Content(data, raises) =>
          var more := ReadShard(data, raises, load);
          if more.Err? {
            ReadFilesStops(files, load, i + 1);
            return Err(more.error);
          }
          events := events + more.value;
      }
      i := i + 1;
    }
    assert files[..i] == files;
    return Ok(events);
  }

  // ----- canonical lines -----

  /** Canonical JSON of a record: an object text in printable ASCII, without a line end. */
  type Encoder = Event -> Bytes

  predicate Printable(text: Bytes) {
    forall i :: 0 <= i < |text| ==> 32 <= text[i] < 127
  }

  ghost predicate CanonicalText(text: Bytes) {
    Printable(text) && JsonText.IsObjectText(text)
  }

  /** A loader accepts only JSON: what it takes from a line that starts with a brace is a JSON text
      followed by characters that stripping removes. */
  ghost predicate Strict(load: Loader, text: Bytes) {
    text != [] && text[0] == JsonText.OPEN_BRACE && load(text) != NotJson ==>
      exists k :: 0 < k <= |text| && JsonText.IsJson(text[..k]) &&
        forall i :: k <= i < |text| ==> JsonText.IsStrip(text[i])
  }

  /** The JSON reader and writer that the shard relies on. */
  ghost predicate Codec(encode: Encoder, load: Loader) {
    && (forall e :: CanonicalText(encode(e)) && (ValidEvent(e) ==> load(encode(e)) == Loaded(e)))
    && (forall text :: Strict(load, text))
    && load([]) == Blank
  }

  function LineOf(encode: Encoder, e: Event): Bytes { encode(e) + [LF] }

  function Lines(encode: Encoder, events: seq<Event>): seq<Bytes> {
    seq(|events|, i requires 0 <= i < |events| => LineOf(encode, events[i]))
  }

  // ----- how the bytes split into lines -----

  /** A line or the beginning of one: printable, perhaps up to a newline at its end. */
  predicate IsPiece(p: Bytes) {
    && p != []
    && (forall k :: 0 <= k < |p| - 1 ==> 32 <= p[k] < 127)
    && (32 <= p[|p| - 1] < 127 || p[|p| - 1] == LF)
  }

  predicate Pieces(pieces: seq<Bytes>) {
    && (forall i :: 0 <= i < |pieces| ==> IsPiece(pieces[i]))
    && forall i :: 0 <= i < |pieces| - 1 ==> pieces[i] != [] && pieces[i][|pieces[i]| - 1] == LF
  }

  lemma PiecesSplit(pieces: seq<Bytes>)
    requires Pieces(pieces)
    ensures KeepEnds(Joined(pieces)) == pieces
  {
    forall i | 0 <= i < |pieces|
      ensures pieces[i] != [] && OneLine(pieces[i]) && (i < |pieces| - 1 ==> Breaks(pieces[i], pieces[i + 1]))
    {
      assert IsPiece(pieces[i]);
      if i < |pieces| - 1 {
        assert IsPiece(pieces[i + 1]);
      }
    }
    OnlySplit(Joined(pieces), pieces);
  }

  lemma {:induction false} JoinedAppend(a: seq<Bytes>, b: seq<Bytes>)
    ensures Joined(a + b) == Joined(a) + Joined(b)
  {
    if a == [] {
      assert a + b == b;
    } else {
      JoinedAppend(a[1..], b);
      assert (a + b)[0] == a[0] && (a + b)[1..] == a[1..] + b;
      JsonText.Associate(a[0], Joined(a[1..]), Joined(b));
    }
  }

  lemma JoinedOne(p: Bytes)
    ensures Joined([p]) == p
  {
    assert Joined([p][1..]) == [];
  }

  lemma LineIsPiece(encode: Encoder, load: Loader, e: Event)
    requires Codec(encode, load)
    ensures IsPiece(LineOf(encode, e)) && encode(e) != [] && encode(e)[0] == JsonText.OPEN_BRACE
  {
    assert CanonicalText(encode(e));
    var j :| JsonText.IsObjectAs(encode(e), j);
  }

  lemma CutIsPiece(encode: Encoder, load: Loader, e: Event, n: nat)
    requires Codec(encode, load) && 0 < n <= |encode(e)|
    ensures IsPiece(LineOf(encode, e)[..n]) && LineOf(encode, e)[..n] == encode(e)[..n]
    ensures Printable(encode(e)[..n])
  {
    assert CanonicalText(encode(e));
  }

  lemma LinesArePieces(encode: Encoder, load: Loader, events: seq<Event>, last: seq<Bytes>, more: seq<Event>)
    requires Codec(encode, load) && Pieces(last)
    requires more != [] && last != [] ==> last[|last| - 1] != [] && last[|last| - 1][|last[|last| - 1]| - 1] == LF
    ensures Pieces(Lines(encode, events) + last + Lines(encode, more))
  {
    var all := Lines(encode, events) + last + Lines(encode, more);
    forall i | 0 <= i < |all|
      ensures IsPiece(all[i]) && (i < |all| - 1 ==> all[i][|all[i]| - 1] == LF)
    {
      if i < |events| {
        LineIsPiece(encode, load, events[i]);
      } else if i < |events| + |last| {
        assert all[i] == last[i - |events|];
      } else {
        LineIsPiece(encode, load, more[i - |events| - |last|]);
      }
    }
  }

  // ----- what the reader makes of them -----

  lemma PrintableBody(text: Bytes)
    requires Printable(text)
    ensures Body(text) == text && Body(text + [LF]) == text
  {
    NoEnds(text);
    assert (text + [LF])[..|text|] == text;
  }

  ghost predicate AllValid(events: seq<Event>) {
    forall i :: 0 <= i < |events| ==> ValidEvent(events[i])
  }

  lemma LinesGrow(encode: Encoder, events: seq<Event>, e: Event)
    ensures Lines(encode, events + [e]) == Lines(encode, events) + [LineOf(encode, e)]
  {
  }

  lemma LineLoads(encode: Encoder, load: Loader, e: Event)
    requires Codec(encode, load) && ValidEvent(e)
    ensures load(Body(LineOf(encode, e))) == Loaded(e)
  {
    assert CanonicalText(encode(e));
    PrintableBody(encode(e));
  }

  lemma ReadOneMore(load: Loader, lines: seq<Bytes>, p: Bytes)
    requires ReadLines(lines, load).Ok?
    ensures ReadLines(lines + [p], load) == AddLine(ReadLines(lines, load).value, load(Body(p)))
  {
    assert (lines + [p])[..|lines|] == lines;
  }

  lemma OneMoreEvent(encode: Encoder, load: Loader, front: seq<Event>, last: Event)
    requires Codec(encode, load) && ValidEvent(last)
    requires ReadLines(Lines(encode, front), load) == Ok(front)
    ensures ReadLines(Lines(encode, front + [last]), load) == Ok(front + [last])
  {
    LinesGrow(encode, front, last);
    LineLoads(encode, load, last);
    ReadOneMore(load, Lines(encode, front), LineOf(encode, last));
  }

  lemma {:induction false} WholeLinesRead(encode: Encoder, load: Loader, events: seq<Event>)
    requires Codec(encode, load) && AllValid(events)
    ensures ReadLines(Lines(encode, events), load) == Ok(events)
  {
    if events != [] {
      var front, last := events[..|events| - 1], events[|events| - 1];
      assert events == front + [last];
      WholeLinesRead(encode, load, front);
      OneMoreEvent(encode, load, front, last);
    }
  }

  /** Text that begins an object and does not close it is not JSON. */
  lemma OpenIsNotJson(load: Loader, text: Bytes)
    requires Strict(load, text) && text != [] && text[0] == JsonText.OPEN_BRACE
    requires JsonText.Scan(JsonText.START, text) != JsonText.Closed
    ensures load(text) == NotJson
  {
    if load(text) != NotJson {
      var k :| 0 < k <= |text| && JsonText.IsJson(text[..k]) &&
        forall i :: k <= i < |text| ==> JsonText.IsStrip(text[i]);
      JsonText.JsonCloses(text[..k]);
      JsonText.TrailScan(text[k..]);
      assert text == text[..k] + text[k..];
      JsonText.ScanAppend(JsonText.START, text[..k], text[k..]);
    }
  }

  lemma CutIsNotJson(encode: Encoder, load: Loader, e: Event, n: nat)
    requires Codec(encode, load) && 0 < n < |encode(e)|
    ensures load(encode(e)[..n]) == NotJson
  {
    LineIsPiece(encode, load, e);
    assert CanonicalText(encode(e)) && Strict(load, encode(e)[..n]);
    JsonText.CutIsOpen(encode(e), n);
    OpenIsNotJson(load, encode(e)[..n]);
  }

  lemma JoinedIsNotJson(encode: Encoder, load: Loader, e: Event, n: nat, f: Event)
    requires Codec(encode, load) && 0 < n <= |encode(e)|
    ensures load(encode(e)[..n] + encode(f)) == NotJson
  {
    LineIsPiece(encode, load, e);
    assert CanonicalText(encode(f)) && Strict(load, encode(e)[..n] + encode(f));
    JsonText.JoinedIsOpen(encode(e)[..n], encode(f));
    OpenIsNotJson(load, encode(e)[..n] + encode(f));
  }

  /** A whole record with the beginning of another after it. */
  lemma SecondIsNotJson(encode: Encoder, load: Loader, e: Event, f: Event, n: nat)
    requires Codec(encode, load) && 0 < n <= |encode(f)|
    ensures load(encode(e) + encode(f)[..n]) == NotJson
  {
    LineIsPiece(encode, load, e);
    LineIsPiece(encode, load, f);
    assert CanonicalText(encode(e)) && Strict(load, encode(e) + encode(f)[..n]);
    JsonText.SecondIsOpen(encode(e), encode(f)[..n]);
    OpenIsNotJson(load, encode(e) + encode(f)[..n]);
  }

  // ----- theorems -----

  /** What a file holds after some appends that ran to their end. */
  function FileOf(encode: Encoder, events: seq<Event>): Bytes { Joined(Lines(encode, events)) }

  lemma FileReads(encode: Encoder, load: Loader, events: seq<Event>)
    requires Codec(encode, load) && AllValid(events)
    ensures ReadData(FileOf(encode, events), load) == Ok(events)
  {
    LinesArePieces(encode, load, events, [], []);
    assert Lines(encode, events) + [] + Lines(encode, []) == Lines(encode, events);
    PiecesSplit(Lines(encode, events));
    WholeLinesRead(encode, load, events);
  }

  /** The file after one more completed append. */
  lemma AppendedFile(encode: Encoder, events: seq<Event>, e: Event)
    ensures FileOf(encode, events) + LineOf(encode, e) == FileOf(encode, events + [e])
  {
    LinesGrow(encode, events, e);
    JoinedAppend(Lines(encode, events), [LineOf(encode, e)]);
    JoinedOne(LineOf(encode, e));
  }

  /** One append: its event and what its write calls return. */
  datatype Attempt = Attempt(event: Event, writes: seq<int>)

  /** The file after a sequence of appends. */
  function AppendAll(encode: Encoder, attempts: seq<Attempt>): Bytes {
    if attempts == [] then []
    else
      var last := attempts[|attempts| - 1];
      var line := LineOf(encode, last.event);
      AppendAll(encode, attempts[..|attempts| - 1]) + line[..Written(line, last.writes)]
  }

  /** The events of the appends that were not refused for their length. */
  function Landed(encode: Encoder, attempts: seq<Attempt>): seq<Event> {
    if attempts == [] then []
    else
      var last := attempts[|attempts| - 1];
      var front := Landed(encode, attempts[..|attempts| - 1]);
      if |LineOf(encode, last.event)| > MAX_EVENT_LINE_BYTES then front else front + [last.event]
  }

  /** The append ran to its end, or was refused for the length of its line. */
  predicate Ended(encode: Encoder, a: Attempt) {
    Written(LineOf(encode, a.event), a.writes) == |LineOf(encode, a.event)| ||
    |LineOf(encode, a.event)| > MAX_EVENT_LINE_BYTES
  }

  /** Appends that run to their end, each in writes of any sizes, leave a file that reads back as
      their events in order. */
  lemma CompletedAppendsRead(encode: Encoder, load: Loader, attempts: seq<Attempt>)
    requires Codec(encode, load)
    requires forall a :: a in attempts ==> ValidEvent(a.event) && Ended(encode, a)
    ensures AppendAll(encode, attempts) == FileOf(encode, Landed(encode, attempts))
    ensures ReadData(AppendAll(encode, attempts), load) == Ok(Landed(encode, attempts))
  {
    LandedFile(encode, attempts);
    FileReads(encode, load, Landed(encode, attempts));
  }

  lemma {:induction false} LandedFile(encode: Encoder, attempts: seq<Attempt>)
    requires forall a :: a in attempts ==> ValidEvent(a.event) && Ended(encode, a)
    ensures AllValid(Landed(encode, attempts))
    ensures AppendAll(encode, attempts) == FileOf(encode, Landed(encode, attempts))
  {
    if attempts != [] {
      var front, last := attempts[..|attempts| - 1], attempts[|attempts| - 1];
      assert last in attempts;
      LandedFile(encode, front);
      EndedAppend(encode, AppendAll(encode, front), last);
      AppendedFile(encode, Landed(encode, front), last.event);
    }
  }

  lemma EndedAppend(encode: Encoder, data: Bytes, a: Attempt)
    requires Ended(encode, a)
    ensures var line := LineOf(encode, a.event);
      data + line[..Written(line, a.writes)] == if |line| > MAX_EVENT_LINE_BYTES then data else data + line
  {
    var line := LineOf(encode, a.event);
    assert line[..|line|] == line && data + line[..0] == data;
  }

  /** A file that ends in a piece of a line reads as its whole lines and then that piece. */
  lemma ReadWithTail(encode: Encoder, load: Loader, events: seq<Event>, p: Bytes)
    requires Codec(encode, load) && AllValid(events) && IsPiece(p) && Printable(p)
    ensures ReadData(FileOf(encode, events) + p, load) == AddLine(events, load(p))
  {
    var lines := Lines(encode, events);
    LinesArePieces(encode, load, events, [p], []);
    assert lines + [p] + Lines(encode, []) == lines + [p];
    PiecesSplit(lines + [p]);
    JoinedAppend(lines, [p]);
    JoinedOne(p);
    WholeLinesRead(encode, load, events);
    ReadOneMore(load, lines, p);
    PrintableBody(p);
  }

  /** An append that stops midway leaves a file that reads as before, or with the new event if only
      the newline is missing, or not at all: no other cut of a record is JSON. */
  lemma InterruptedAppendReads(encode: Encoder, load: Loader, events: seq<Event>, e: Event, n: nat)
    requires Codec(encode, load) && AllValid(events) && ValidEvent(e) && n < |LineOf(encode, e)|
    ensures ReadData(FileOf(encode, events) + LineOf(encode, e)[..n], load) ==
      if n == 0 then Ok(events)
      else if n == |encode(e)| then Ok(events + [e])
      else Err(CorruptShard)
  {
    var p := LineOf(encode, e)[..n];
    if n == 0 {
      assert FileOf(encode, events) + p == FileOf(encode, events);
      FileReads(encode, load, events);
    } else {
      CutIsPiece(encode, load, e, n);
      ReadWithTail(encode, load, events, p);
      if n < |encode(e)| {
        CutIsNotJson(encode, load, e, n);
      } else {
        assert p == encode(e);
      }
    }
  }

  /** The body of what an append leaves on a line that already holds a whole record. */
  lemma SecondBody(encode: Encoder, load: Loader, e: Event, f: Event, n: nat)
    requires Codec(encode, load) && 0 < n <= |LineOf(encode, f)|
    ensures var p := encode(e) + LineOf(encode, f)[..n];
      IsPiece(p) && load(Body(p)) == NotJson
  {
    var m := if n == |LineOf(encode, f)| then n - 1 else n;
    LineIsPiece(encode, load, e);
    LineIsPiece(encode, load, f);
    CutIsPiece(encode, load, e, |encode(e)|);
    assert LineOf(encode, e)[..|encode(e)|] == encode(e);
    CutIsPiece(encode, load, f, m);
    SecondIsNotJson(encode, load, e, f, m);
    var text := encode(e) + encode(f)[..m];
    PrintableBody(text);
    if n == m {
      JoinedPiece(encode(e), LineOf(encode, f)[..n]);
    } else {
      assert LineOf(encode, f)[..n] == encode(f)[..m] + [LF];
      JoinedPiece(encode(e), LineOf(encode, f));
      JsonText.Associate(encode(e), encode(f)[..m], [LF]);
    }
  }

  /** When only the newline of the last record is missing, any byte of another makes the shard
      corrupt. */
  lemma SecondPoisonsShard(encode: Encoder, load: Loader, events: seq<Event>, e: Event, f: Event, n: nat)
    requires Codec(encode, load) && AllValid(events) && 0 < n <= |LineOf(encode, f)|
    ensures ReadData(FileOf(encode, events) + (encode(e) + LineOf(encode, f)[..n]), load) == Err(CorruptShard)
  {
    var lines, p := Lines(encode, events), encode(e) + LineOf(encode, f)[..n];
    SecondBody(encode, load, e, f, n);
    LinesArePieces(encode, load, events, [p], []);
    assert lines + [p] + Lines(encode, []) == lines + [p];
    PiecesSplit(lines + [p]);
    JoinedAppend(lines, [p]);
    JoinedOne(p);
    WholeLinesRead(encode, load, events);
    ReadOneMore(load, lines, p);
  }

  /** An append that stopped midway cannot be repaired by appending: a record that follows, from
      whatever program, lands on the same line, and the shard is corrupt whatever comes after it,
      even if only the newline was missing. */
  lemma InterruptionPoisonsShard(encode: Encoder, load: Loader, events: seq<Event>, e: Event, n: nat, f: Event,
                                 more: seq<Event>)
    requires Codec(encode, load) && AllValid(events) && 0 < n < |LineOf(encode, e)|
    ensures ReadData(
              FileOf(encode, events) + (LineOf(encode, e)[..n] + LineOf(encode, f)) + FileOf(encode, more), load)
         == Err(CorruptShard)
  {
    var lines, p := Lines(encode, events), LineOf(encode, e)[..n] + LineOf(encode, f);
    var tail := Lines(encode, more);
    CutIsPiece(encode, load, e, n);
    LineIsPiece(encode, load, f);
    JoinedPiece(LineOf(encode, e)[..n], LineOf(encode, f));
    LinesArePieces(encode, load, events, [p], more);
    PiecesSplit(lines + [p] + tail);
    JoinedAppend(lines + [p], tail);
    JoinedAppend(lines, [p]);
    JoinedOne(p);
    PoisonedRead(encode, load, events, p, tail, encode(e)[..n] + encode(f), e, n, f);
  }

  lemma JoinedPiece(a: Bytes, b: Bytes)
    requires IsPiece(a) && IsPiece(b) && a[|a| - 1] != LF
    ensures IsPiece(a + b)
  {
  }

  lemma PoisonedRead(encode: Encoder, load: Loader, events: seq<Event>, p: Bytes, tail: seq<Bytes>,
                     text: Bytes, e: Event, n: nat, f: Event)
    requires Codec(encode, load) && AllValid(events) && 0 < n <= |encode(e)|
    requires text == encode(e)[..n] + encode(f) && p == text + [LF]
    ensures ReadLines(Lines(encode, events) + [p] + tail, load) == Err(CorruptShard)
  {
    var lines := Lines(encode, events);
    WholeLinesRead(encode, load, events);
    ReadOneMore(load, lines, p);
    assert CanonicalText(encode(e)) && CanonicalText(encode(f));
    PrintableBody(text);
    JoinedIsNotJson(encode, load, e, n, f);
    assert (lines + [p] + tail)[..|lines| + 1] == lines + [p];
    ReadLinesStops(lines + [p] + tail, load, |lines| + 1);
  }
}
