/** What a shard directory reads as, line by line and file by file: blank lines, the first line that is
    no event, and the first file that cannot be read. */
module ShardReading {
  import opened Wrappers
  import opened Events
  import opened SourceLines
  import opened Ndjson

  // ----- blank lines, and the first line that is no event -----

  function LoadedLine(load: Loader, line: Bytes): Loaded { load(Body(line)) }

  /** A line that is skipped or gives an event. */
  predicate IsGood(load: Loader, line: Bytes) {
    LoadedLine(load, line).Blank? || LoadedLine(load, line).Loaded?
  }

  /** The events of the lines that are not blank. */
  function EventsIn(load: Loader, lines: seq<Bytes>): seq<Event> {
    if lines == [] then []
    else
      var last := LoadedLine(load, lines[|lines| - 1]);
      EventsIn(load, lines[..|lines| - 1]) + if last.Loaded? then [last.event] else []
  }

  function WithoutBlanks(load: Loader, lines: seq<Bytes>): seq<Bytes> {
    if lines == [] then []
    else
      var last := lines[|lines| - 1];
      WithoutBlanks(load, lines[..|lines| - 1]) + if LoadedLine(load, last).Blank? then [] else [last]
  }

  /** Lines that are all good give their events in order, whatever blank lines are among them. */
  lemma {:induction false} GoodLinesRead(lines: seq<Bytes>, load: Loader)
    requires forall i :: 0 <= i < |lines| ==> IsGood(load, lines[i])
    ensures ReadLines(lines, load) == Ok(EventsIn(load, lines))
  {
    if lines != [] {
      var front := lines[..|lines| - 1];
      GoodLinesRead(front, load);
      assert EventsIn(load, front) + [] == EventsIn(load, front);
      assert IsGood(load, lines[|lines| - 1]);
    }
  }

  /** After good lines the first that is not good decides: JSON that is no event is a bad record with
      its code, and anything else that is not blank is a corrupt shard. */
  lemma FirstBadLine(lines: seq<Bytes>, load: Loader, n: nat)
    requires n < |lines| && !IsGood(load, lines[n])
    requires forall i :: 0 <= i < n ==> IsGood(load, lines[i])
    ensures ReadLines(lines, load) ==
      Err(if LoadedLine(load, lines[n]).Rejected? then BadRecord(LoadedLine(load, lines[n]).code) else CorruptShard)
  {
    GoodLinesRead(lines[..n], load);
    ReadNext(lines, load, n, EventsIn(load, lines[..n]));
    ReadLinesStops(lines, load, n + 1);
  }

  /** Reading lines is reading those of them that are not blank. */
  lemma {:induction false} BlanksAreSkipped(lines: seq<Bytes>, load: Loader)
    ensures ReadLines(lines, load) == ReadLines(WithoutBlanks(load, lines), load)
  {
    if lines != [] {
      var front, last := lines[..|lines| - 1], lines[|lines| - 1];
      BlanksAreSkipped(front, load);
      assert WithoutBlanks(load, front) + [] == WithoutBlanks(load, front);
      if !LoadedLine(load, last).Blank? {
        assert (WithoutBlanks(load, front) + [last])[..|WithoutBlanks(load, front)|] == WithoutBlanks(load, front);
      }
    }
  }

  lemma LinesEvents(encode: Encoder, load: Loader, events: seq<Event>)
    requires Codec(encode, load) && AllValid(events)
    ensures EventsIn(load, Lines(encode, events)) == events
    ensures forall i :: 0 <= i < |events| ==> IsGood(load, Lines(encode, events)[i])
  {
    forall i | 0 <= i < |events| ensures LoadedLine(load, Lines(encode, events)[i]) == Loaded(events[i]) {
      LineLoads(encode, load, events[i]);
    }
    EventsOfLines(encode, load, events, |events|);
    assert Lines(encode, events)[..|events|] == Lines(encode, events) && events[..|events|] == events;
  }

  lemma {:induction false} EventsOfLines(encode: Encoder, load: Loader, events: seq<Event>, n: nat)
    requires n <= |events|
    requires forall i :: 0 <= i < |events| ==> LoadedLine(load, Lines(encode, events)[i]) == Loaded(events[i])
    ensures EventsIn(load, Lines(encode, events)[..n]) == events[..n]
  {
    if n > 0 {
      EventsOfLines(encode, load, events, n - 1);
      assert Lines(encode, events)[..n][..n - 1] == Lines(encode, events)[..n - 1];
      assert events[..n] == events[..n - 1] + [events[n - 1]];
    }
  }

  lemma {:induction false} EventsJoin(load: Loader, a: seq<Bytes>, b: seq<Bytes>)
    ensures EventsIn(load, a + b) == EventsIn(load, a) + EventsIn(load, b)
  {
    if b == [] {
      assert a + b == a;
    } else {
      EventsJoin(load, a, b[..|b| - 1]);
      assert (a + b)[..|a + b| - 1] == a + b[..|b| - 1];
    }
  }

  lemma EmptyLineIsBlank(load: Loader)
    requires load([]) == Blank
    ensures LoadedLine(load, [LF]) == Blank && EventsIn(load, [[LF]]) == []
  {
    PrintableBody([]);
    assert [] + [LF] == [LF] && [[LF]][..0] == [];
  }

  lemma AroundSplits(encode: Encoder, load: Loader, front: seq<Event>, back: seq<Event>)
    requires Codec(encode, load)
    ensures KeepEnds(FileOf(encode, front) + [LF] + FileOf(encode, back))
         == Lines(encode, front) + [[LF]] + Lines(encode, back)
  {
    var a, b := Lines(encode, front), Lines(encode, back);
    LinesArePieces(encode, load, front, [[LF]], back);
    PiecesSplit(a + [[LF]] + b);
    JoinedAppend(a + [[LF]], b);
    JoinedAppend(a, [[LF]]);
    JoinedOne([LF]);
  }

  /** An empty line between records is skipped, and the records on both sides are read. */
  lemma EmptyLineIsSkipped(encode: Encoder, load: Loader, front: seq<Event>, back: seq<Event>)
    requires Codec(encode, load) && AllValid(front) && AllValid(back)
    ensures ReadData(FileOf(encode, front) + [LF] + FileOf(encode, back), load) == Ok(front + back)
  {
    AroundSplits(encode, load, front, back);
    LinesEvents(encode, load, front);
    LinesEvents(encode, load, back);
    EmptyLineIsBlank(load);
    AroundReads(load, Lines(encode, front), Lines(encode, back));
  }

  lemma AroundReads(load: Loader, a: seq<Bytes>, b: seq<Bytes>)
    requires (forall i :: 0 <= i < |a| ==> IsGood(load, a[i])) && forall i :: 0 <= i < |b| ==> IsGood(load, b[i])
    requires LoadedLine(load, [LF]) == Blank && EventsIn(load, [[LF]]) == []
    ensures ReadLines(a + [[LF]] + b, load) == Ok(EventsIn(load, a) + EventsIn(load, b))
  {
    EventsJoin(load, a + [[LF]], b);
    EventsJoin(load, a, [[LF]]);
    assert EventsIn(load, a) + [] == EventsIn(load, a);
    AroundIsGood(load, a, b);
    GoodLinesRead(a + [[LF]] + b, load);
  }

  lemma AroundIsGood(load: Loader, a: seq<Bytes>, b: seq<Bytes>)
    requires (forall i :: 0 <= i < |a| ==> IsGood(load, a[i])) && forall i :: 0 <= i < |b| ==> IsGood(load, b[i])
    requires LoadedLine(load, [LF]) == Blank
    ensures forall i :: 0 <= i < |a + [[LF]] + b| ==> IsGood(load, (a + [[LF]] + b)[i])
  {
  }

  // ----- the first file that cannot be read -----

  ghost predicate AllGood(load: Loader, lines: seq<Bytes>) {
    forall i :: 0 <= i < |lines| ==> IsGood(load, lines[i])
  }

  /** A file whose decoder never raises and whose lines are all good. */
  ghost predicate IsReadable(load: Loader, file: ShardFile) {
    file.Content? && file.raises.None? && AllGood(load, KeepEnds(file.data))
  }

  function EventsOfFiles(load: Loader, files: seq<ShardFile>): seq<Event> {
    if files == [] then []
    else
      var last := files[|files| - 1];
      EventsOfFiles(load, files[..|files| - 1]) + if last.Content? then EventsIn(load, KeepEnds(last.data)) else []
  }

  lemma {:induction false} ReadableFilesRead(files: seq<ShardFile>, load: Loader)
    requires forall i :: 0 <= i < |files| ==> IsReadable(load, files[i])
    ensures ReadFiles(files, load) == Ok(EventsOfFiles(load, files))
  {
    if files != [] {
      var last := files[|files| - 1];
      ReadableFilesRead(files[..|files| - 1], load);
      assert IsReadable(load, last);
      GoodLinesRead(KeepEnds(last.data), load);
    }
  }

  /** The line is the first that is neither blank nor an event, and calls for this error. */
  ghost predicate BadAt(load: Loader, lines: seq<Bytes>, n: nat, error: ReadError) {
    && n < |lines| && !IsGood(load, lines[n]) && AllGood(load, lines[..n])
    && error == if LoadedLine(load, lines[n]).Rejected? then BadRecord(LoadedLine(load, lines[n]).code)
                else CorruptShard
  }

  /** What is wrong with a file: it is not there, cannot be opened, has a bad line before the decoder
      raises, or does not decode. */
  ghost predicate IsFileError(load: Loader, file: ShardFile, error: ReadError) {
    match file
    case Missing => error == MissingShard
    case Unreadable => error == UnreadableShard
    case Content(data, raises) =>
      if AllGood(load, Delivered(data, raises)) then raises.Some? && error == CorruptShard
      else exists n: nat :: BadAt(load, Delivered(data, raises), n, error)
  }

  /** As many lines are delivered before the decoder raises as it says, and all if it does not. */
  lemma DeliveredLines(data: Bytes, raises: Option<nat>, n: nat)
    ensures n < |Delivered(data, raises)| <==> n < |KeepEnds(data)| && (raises.Some? ==> n < raises.value)
    ensures n < |Delivered(data, raises)| ==> Delivered(data, raises)[n] == KeepEnds(data)[n]
  {
  }

  lemma {:induction false} FindBad(load: Loader, lines: seq<Bytes>, k: nat) returns (n: nat)
    requires k <= |lines| && !AllGood(load, lines[..k])
    ensures n < k && !IsGood(load, lines[n]) && AllGood(load, lines[..n])
  {
    if AllGood(load, lines[..k - 1]) {
      n := k - 1;
    } else {
      n := FindBad(load, lines, k - 1);
    }
  }

  lemma BadLinesFail(lines: seq<Bytes>, load: Loader)
    requires !AllGood(load, lines)
    ensures ReadLines(lines, load).Err? && exists n: nat :: BadAt(load, lines, n, ReadLines(lines, load).error)
  {
    assert lines[..|lines|] == lines;
    var n := FindBad(load, lines, |lines|);
    assert forall i :: 0 <= i < n ==> lines[..n][i] == lines[i];
    FirstBadLine(lines, load, n);
    assert BadAt(load, lines, n, ReadLines(lines, load).error);
  }

  lemma ContentError(data: Bytes, raises: Option<nat>, load: Loader)
    requires !IsReadable(load, Content(data, raises))
    ensures ReadContent(data, raises, load).Err? &&
      IsFileError(load, Content(data, raises), ReadContent(data, raises, load).error)
  {
    if AllGood(load, Delivered(data, raises)) {
      GoodLinesRead(Delivered(data, raises), load);
    } else {
      BadLinesFail(Delivered(data, raises), load);
    }
  }

  /** The files before the first that cannot be read do not matter, nor do those after it: its error is
      the answer. */
  lemma FirstBadFile(files: seq<ShardFile>, load: Loader, n: nat)
    requires n < |files| && !IsReadable(load, files[n])
    requires forall i :: 0 <= i < n ==> IsReadable(load, files[i])
    ensures ReadFiles(files, load).Err? && IsFileError(load, files[n], ReadFiles(files, load).error)
  {
    ReadableFilesRead(files[..n], load);
    FileFails(files, load, n);
    ReadFilesStops(files, load, n + 1);
  }

  lemma FileFails(files: seq<ShardFile>, load: Loader, n: nat)
    requires n < |files| && !IsReadable(load, files[n]) && ReadFiles(files[..n], load).Ok?
    ensures ReadFiles(files[..n + 1], load).Err?
    ensures IsFileError(load, files[n], ReadFiles(files[..n + 1], load).error)
  {
    assert files[..n + 1][..n] == files[..n];
    if files[n].Content? {
      ContentError(files[n].data, files[n].raises, load);
    }
  }
}
