/** The local write protocol over shard files of bytes. Every append is a series of write calls that
    may stop anywhere; the next attempt reads back what is there. As long as the shards can be read,
    this is the protocol of `LocalWriter` over whole lines; the module says exactly when they
    cannot, and that nothing is written from then on. */
module ShardBytes {
  import opened Wrappers
  import opened Events
  import opened LocalLedger
  import opened Reconcile
  import opened SourceLines
  import opened ImportBatch
  import opened ShardDir
  import opened LocalWriter
  import opened WriterRuns
  import opened WriterTheorems
  import Ndjson

  /** The file of every day. */
  type Disk = seq<Bytes>

  /** As the reader opens them: only ASCII is ever written (`RunIsAscii`), so the decoder never
      raises. */
  function Contents(disk: Disk): seq<Ndjson.ShardFile> {
    seq(|disk|, i requires 0 <= i < |disk| => Ndjson.Content(disk[i], None))
  }

  function BytesAt(disk: Disk, day: nat): Bytes {
    if day < |disk| then disk[day] else []
  }

  function Grown(disk: Disk, day: nat, bytes: Bytes): Disk {
    if bytes == [] then disk
    else if day < |disk| then disk[day := disk[day] + bytes]
    else disk + seq(day - |disk|, _ => []) + [bytes]
  }

  datatype DiskState = DiskState(index: Index, disk: Disk)

  /** A request with its faults: those of the whole attempt, and what the write calls return. */
  datatype Attempt = Attempt(command: Command, writes: seq<int>)

  datatype Answer = Unreadable(error: Ndjson.ReadError) | Answered(outcome: Outcome)

  /** A write call raises before the line is complete; otherwise an incomplete line means death. */
  predicate Raises(length: nat, writes: seq<int>) {
    length > 0 && writes != [] &&
    (writes[0] <= 0 || (writes[0] < length && Raises(length - writes[0], writes[1..])))
  }

  /** A call raises exactly when one returns nothing before the calls before it have written the line. */
  lemma {:induction false} RaisesWhenStuck(length: nat, writes: seq<int>, n: nat)
    requires n <= |writes| && Ndjson.AllWrote(writes, n) && (n < |writes| ==> writes[n] <= 0)
    ensures Raises(length, writes) <==> n < |writes| && Ndjson.Sum(writes[..n]) < length
    decreases n
  {
    if n > 0 {
      assert writes[..n][1..] == writes[1..][..n - 1] && writes[..n][0] == writes[0];
      Ndjson.RestWrote(writes, n);
      Ndjson.ProgressIsSum(length, writes[1..], n - 1);
      if writes[0] < length {
        RaisesWhenStuck(length - writes[0], writes[1..], n - 1);
      }
    }
  }

  function CutReport(length: nat, writes: seq<int>): Outcome {
    if Raises(length, writes) then Failed(AppendFailed) else Died
  }

  /** The event transaction on a reconciled index. */
  ghost function DiskTransaction(encode: Ndjson.Encoder, s: DiskState, draft: Event, a: Attempt):
    (DiskState, Outcome)
  {
    var Command(request, draw, fault) := a.command;
    match SemanticGate(s.index.rows, request, draft)
    case Refuse(failure) => (s, Failed(failure))
    case Duplicate(id) => (s, Existing(s.index.rows[id]))
    case Proceed =>
      var e := Allocated(s.index.cursor, draft, draw.stream);
      if !ValidEvent(e) then (s, Failed(InvalidEvent))
      else
        match Inserted(s.index.rows, e)
        case Err(error) => (s, Failed(StoreFailed(error)))
        case Ok(rows) =>
          var line := Ndjson.LineOf(encode, e);
          var n := Ndjson.Written(line, a.writes);
          var disk := Grown(s.disk, e.ts.day, line[..n]);
          if fault == AppendFails || |line| > Ndjson.MAX_EVENT_LINE_BYTES then (s, Failed(AppendFailed))
          else if n < |line| then (DiskState(s.index, disk), CutReport(|line|, a.writes))
          else if fault.LosesCommit() then (DiskState(s.index, disk), LossReport(fault))
          else (DiskState(Index(rows, Some(Cursor(e.Stream(), e.SeqNo() + 1))), disk), Added(e))
  }

  /** One attempt to record an event. */
  ghost function RecordedOnDisk(encode: Ndjson.Encoder, load: Ndjson.Loader, s: DiskState, a: Attempt):
    (DiskState, Answer)
  {
    var Command(request, draw, fault) := a.command;
    var draft := Draft(request, draw);
    if draft.None? then (s, Answered(Failed(InvalidEvent)))
    else if fault == DiesBeforeReconcile then (s, Answered(Died))
    else
      match Ndjson.ReadFiles(Contents(s.disk), load)
      case Err(error) => (s, Unreadable(error))
      case Ok(lines) =>
        match Reconciled(s.index, lines)
        case Err(error) => (s, Answered(Failed(ReconcileFailed(error))))
        case Ok(index) =>
          if fault == DiesAfterReconcile then (DiskState(index, s.disk), Answered(Died))
          else
            var (now, outcome) := DiskTransaction(encode, DiskState(index, s.disk), draft.value, a);
            (now, Answered(outcome))
  }

  // ----- files that hold whole lines, but for a last newline -----

  /** The file of some events without the newline of the last. */
  function CutFile(encode: Ndjson.Encoder, events: seq<Event>): Bytes
    requires events != []
  {
    Ndjson.FileOf(encode, events[..|events| - 1]) + encode(events[|events| - 1])
  }

  predicate Open(data: Bytes) { data != [] && data[|data| - 1] != LF }

  ghost predicate DayHolds(encode: Ndjson.Encoder, data: Bytes, events: seq<Event>) {
    && Ndjson.AllValid(events)
    && (data == Ndjson.FileOf(encode, events) || (events != [] && data == CutFile(encode, events)))
  }

  ghost predicate Holds(encode: Ndjson.Encoder, disk: Disk, files: Shards) {
    && |disk| == |files|
    && forall day :: 0 <= day < |files| ==> DayHolds(encode, disk[day], files[day])
  }

  lemma NothingHeld(encode: Ndjson.Encoder)
    ensures DayHolds(encode, [], [])
  {
  }

  lemma HoldsAt(encode: Ndjson.Encoder, disk: Disk, files: Shards, day: nat)
    requires Holds(encode, disk, files)
    ensures DayHolds(encode, BytesAt(disk, day), FileAt(files, day))
  {
    NothingHeld(encode);
  }

  lemma CutFileReads(encode: Ndjson.Encoder, load: Ndjson.Loader, front: seq<Event>, last: Event)
    requires Ndjson.Codec(encode, load) && Ndjson.AllValid(front) && ValidEvent(last)
    ensures Ndjson.ReadData(Ndjson.FileOf(encode, front) + encode(last), load) == Ok(front + [last])
  {
    assert Ndjson.LineOf(encode, last)[..|encode(last)|] == encode(last);
    Ndjson.LineIsPiece(encode, load, last);
    Ndjson.InterruptedAppendReads(encode, load, front, last, |encode(last)|);
  }

  lemma DayReads(encode: Ndjson.Encoder, load: Ndjson.Loader, data: Bytes, events: seq<Event>)
    requires Ndjson.Codec(encode, load) && DayHolds(encode, data, events)
    ensures Ndjson.ReadData(data, load) == Ok(events)
  {
    if data == Ndjson.FileOf(encode, events) {
      Ndjson.FileReads(encode, load, events);
    } else {
      var front, last := events[..|events| - 1], events[|events| - 1];
      assert events == front + [last];
      CutFileReads(encode, load, front, last);
    }
  }

  lemma ReadFilesOn(contents: seq<Ndjson.ShardFile>, load: Ndjson.Loader, k: nat, events: seq<Event>)
    requires k < |contents| && contents[k].Content? && contents[k].raises.None?
    requires Ndjson.ReadFiles(contents[..k], load) == Ok(events)
    requires Ndjson.ReadData(contents[k].data, load).Ok?
    ensures Ndjson.ReadFiles(contents[..k + 1], load)
         == Ok(events + Ndjson.ReadData(contents[k].data, load).value)
  {
    assert contents[..k + 1][..k] == contents[..k];
  }

  lemma ReadAllOn(files: Shards, k: nat)
    requires k < |files|
    ensures ReadAll(files[..k + 1]) == ReadAll(files[..k]) + files[k]
  {
    assert files[..k + 1][..k] == files[..k];
  }

  lemma OneMoreRead(encode: Ndjson.Encoder, load: Ndjson.Loader, disk: Disk, files: Shards, k: nat)
    requires Ndjson.Codec(encode, load) && k < |disk| && k < |files| && DayHolds(encode, disk[k], files[k])
    requires Ndjson.ReadFiles(Contents(disk)[..k], load) == Ok(ReadAll(files[..k]))
    ensures Ndjson.ReadFiles(Contents(disk)[..k + 1], load) == Ok(ReadAll(files[..k + 1]))
  {
    DayReads(encode, load, disk[k], files[k]);
    ReadFilesOn(Contents(disk), load, k, ReadAll(files[..k]));
    ReadAllOn(files, k);
  }

  lemma {:induction false} PrefixReads(encode: Ndjson.Encoder, load: Ndjson.Loader, disk: Disk, files: Shards, k: nat)
    requires Ndjson.Codec(encode, load) && k <= |disk| && k <= |files|
    requires forall day :: 0 <= day < k ==> DayHolds(encode, disk[day], files[day])
    ensures Ndjson.ReadFiles(Contents(disk)[..k], load) == Ok(ReadAll(files[..k]))
  {
    if k > 0 {
      PrefixReads(encode, load, disk, files, k - 1);
      OneMoreRead(encode, load, disk, files, k - 1);
    }
  }

  /** Such files are read as their events. */
  lemma HeldReads(encode: Ndjson.Encoder, load: Ndjson.Loader, disk: Disk, files: Shards)
    requires Ndjson.Codec(encode, load) && Holds(encode, disk, files)
    ensures Ndjson.ReadFiles(Contents(disk), load) == Ok(ReadAll(files))
  {
    PrefixReads(encode, load, disk, files, |files|);
    assert Contents(disk)[..|disk|] == Contents(disk) && files[..|files|] == files;
  }

  ghost predicate Corrupt(load: Ndjson.Loader, disk: Disk) {
    Ndjson.ReadFiles(Contents(disk), load) == Err(Ndjson.CorruptShard)
  }

  /** One corrupt file behind held ones. */
  lemma OneCorrupt(encode: Ndjson.Encoder, load: Ndjson.Loader, disk: Disk, files: Shards, day: nat)
    requires Ndjson.Codec(encode, load) && day < |disk| && day <= |files|
    requires forall d :: 0 <= d < day ==> DayHolds(encode, disk[d], files[d])
    requires Ndjson.ReadData(disk[day], load) == Err(Ndjson.CorruptShard)
    ensures Corrupt(load, disk)
  {
    var contents := Contents(disk);
    PrefixReads(encode, load, disk, files, day);
    assert contents[..day + 1][..day] == contents[..day];
    Ndjson.ReadFilesStops(contents, load, day + 1);
  }

  // ----- one append -----

  /** Some bytes of the line land that no later append can complete: the record is cut, or they
      land on the line of an earlier record. */
  predicate Spoils(encode: Ndjson.Encoder, data: Bytes, e: Event, n: nat) {
    0 < n && (n < |encode(e)| || Open(data))
  }

  lemma {:induction false} FileEnds(encode: Ndjson.Encoder, events: seq<Event>)
    ensures !Open(Ndjson.FileOf(encode, events))
  {
    if events != [] {
      var front, last := events[..|events| - 1], events[|events| - 1];
      assert events == front + [last];
      Ndjson.AppendedFile(encode, front, last);
    }
  }

  lemma CutIsOpen(encode: Ndjson.Encoder, load: Ndjson.Loader, events: seq<Event>)
    requires Ndjson.Codec(encode, load) && events != []
    ensures Open(CutFile(encode, events))
  {
    var last := events[|events| - 1];
    Ndjson.LineIsPiece(encode, load, last);
    assert Ndjson.CanonicalText(encode(last));
  }

  lemma ValidGrows(events: seq<Event>, e: Event)
    requires Ndjson.AllValid(events) && ValidEvent(e)
    ensures Ndjson.AllValid(events + [e])
  {
  }

  lemma ClosedAppend(encode: Ndjson.Encoder, load: Ndjson.Loader, events: seq<Event>, e: Event, n: nat)
    requires Ndjson.Codec(encode, load) && Ndjson.AllValid(events) && ValidEvent(e)
    requires 0 < n <= |Ndjson.LineOf(encode, e)|
    ensures var after := Ndjson.FileOf(encode, events) + Ndjson.LineOf(encode, e)[..n];
      if n < |encode(e)| then Ndjson.ReadData(after, load) == Err(Ndjson.CorruptShard)
      else DayHolds(encode, after, events + [e])
  {
    var line := Ndjson.LineOf(encode, e);
    ValidGrows(events, e);
    if n == |line| {
      assert line[..n] == line;
      Ndjson.AppendedFile(encode, events, e);
    } else if n == |encode(e)| {
      assert line[..n] == encode(e) && (events + [e])[..|events|] == events;
    } else {
      Ndjson.InterruptedAppendReads(encode, load, events, e, n);
    }
  }

  lemma OpenAppend(encode: Ndjson.Encoder, load: Ndjson.Loader, events: seq<Event>, e: Event, n: nat)
    requires Ndjson.Codec(encode, load) && Ndjson.AllValid(events) && events != []
    requires 0 < n <= |Ndjson.LineOf(encode, e)|
    ensures Ndjson.ReadData(CutFile(encode, events) + Ndjson.LineOf(encode, e)[..n], load) == Err(Ndjson.CorruptShard)
  {
    var front, last := events[..|events| - 1], events[|events| - 1];
    Ndjson.SecondPoisonsShard(encode, load, front, last, e, n);
    assert Ndjson.FileOf(encode, front) + encode(last) + Ndjson.LineOf(encode, e)[..n]
        == Ndjson.FileOf(encode, front) + (encode(last) + Ndjson.LineOf(encode, e)[..n]);
  }

  lemma DayAppend(encode: Ndjson.Encoder, load: Ndjson.Loader, data: Bytes, events: seq<Event>, e: Event, n: nat)
    requires Ndjson.Codec(encode, load) && DayHolds(encode, data, events) && ValidEvent(e)
    requires 0 < n <= |Ndjson.LineOf(encode, e)|
    ensures var after := data + Ndjson.LineOf(encode, e)[..n];
      if Spoils(encode, data, e, n) then Ndjson.ReadData(after, load) == Err(Ndjson.CorruptShard)
      else DayHolds(encode, after, events + [e])
  {
    if data == Ndjson.FileOf(encode, events) {
      FileEnds(encode, events);
      ClosedAppend(encode, load, events, e, n);
    } else {
      CutIsOpen(encode, load, events);
      OpenAppend(encode, load, events, e, n);
    }
  }

  lemma GrownAt(disk: Disk, day: nat, bytes: Bytes, d: nat)
    requires bytes != [] && d < |Grown(disk, day, bytes)|
    ensures Grown(disk, day, bytes)[d] == if d == day then BytesAt(disk, day) + bytes else BytesAt(disk, d)
    ensures |Grown(disk, day, bytes)| == if day < |disk| then |disk| else day + 1
  {
  }

  lemma LineAt(files: Shards, e: Event, d: nat)
    requires d < |AppendLine(files, e)|
    ensures AppendLine(files, e)[d] == if d == e.ts.day then FileAt(files, d) + [e] else FileAt(files, d)
    ensures |AppendLine(files, e)| == if e.ts.day < |files| then |files| else e.ts.day + 1
  {
  }

  lemma WholeGrowth(encode: Ndjson.Encoder, disk: Disk, files: Shards, e: Event, bytes: Bytes)
    requires Holds(encode, disk, files) && bytes != []
    requires DayHolds(encode, BytesAt(disk, e.ts.day) + bytes, FileAt(files, e.ts.day) + [e])
    ensures Holds(encode, Grown(disk, e.ts.day, bytes), AppendLine(files, e))
  {
    var now, after := Grown(disk, e.ts.day, bytes), AppendLine(files, e);
    forall d | 0 <= d < |after| ensures d < |now| && DayHolds(encode, now[d], after[d]) {
      HoldsAt(encode, disk, files, d);
      LineAt(files, e, d);
      GrownAt(disk, e.ts.day, bytes, d);
    }
    assert |now| == |after|;
  }

  lemma SpoiltGrowth(encode: Ndjson.Encoder, load: Ndjson.Loader, disk: Disk, files: Shards, e: Event, bytes: Bytes)
    requires Ndjson.Codec(encode, load) && Holds(encode, disk, files) && bytes != []
    requires Ndjson.ReadData(BytesAt(disk, e.ts.day) + bytes, load) == Err(Ndjson.CorruptShard)
    ensures Corrupt(load, Grown(disk, e.ts.day, bytes))
  {
    var now, after := Grown(disk, e.ts.day, bytes), AppendLine(files, e);
    forall d | 0 <= d < e.ts.day ensures DayHolds(encode, now[d], after[d]) {
      HoldsAt(encode, disk, files, d);
      LineAt(files, e, d);
      GrownAt(disk, e.ts.day, bytes, d);
    }
    GrownAt(disk, e.ts.day, bytes, e.ts.day);
    OneCorrupt(encode, load, now, after, e.ts.day);
  }

  /** What an append of some first bytes of a line does to the shards. */
  lemma AppendOnDisk(encode: Ndjson.Encoder, load: Ndjson.Loader, disk: Disk, files: Shards, e: Event, n: nat)
    requires Ndjson.Codec(encode, load) && Holds(encode, disk, files) && ValidEvent(e)
    requires 0 < n <= |Ndjson.LineOf(encode, e)|
    ensures var now := Grown(disk, e.ts.day, Ndjson.LineOf(encode, e)[..n]);
      if Spoils(encode, BytesAt(disk, e.ts.day), e, n) then Corrupt(load, now)
      else Holds(encode, now, AppendLine(files, e))
  {
    var bytes := Ndjson.LineOf(encode, e)[..n];
    HoldsAt(encode, disk, files, e.ts.day);
    DayAppend(encode, load, BytesAt(disk, e.ts.day), FileAt(files, e.ts.day), e, n);
    if Spoils(encode, BytesAt(disk, e.ts.day), e, n) {
      SpoiltGrowth(encode, load, disk, files, e, bytes);
    } else {
      WholeGrowth(encode, disk, files, e, bytes);
    }
  }

  // ----- one attempt -----

  /** The attempt over whole lines that leaves the same: a line cut before its newline has landed and
      lost its commit, and a line of which nothing was written has not landed. */
  ghost function SeenAs(encode: Ndjson.Encoder, s: State, a: Attempt): Command {
    var Command(request, draw, fault) := a.command;
    if !ReachesShard(s, request, draw, fault) then a.command
    else
      var line := Ndjson.LineOf(encode, LineOf(s, request, draw, fault));
      Command(request, draw, SeenFault(line, a))
  }

  function SeenFault(line: Bytes, a: Attempt): Fault {
    var n := Ndjson.Written(line, a.writes);
    if |line| > Ndjson.MAX_EVENT_LINE_BYTES then AppendFails
    else if n == |line| then a.command.fault
    else if Raises(|line|, a.writes) then if n == 0 then AppendFails else SyncFails
    else if n == 0 then DiesAfterReconcile
    else DiesBeforeCommit
  }

  /** The attempt leaves bytes in a shard that no later append can complete. */
  ghost predicate SpoilsShard(encode: Ndjson.Encoder, disk: Disk, s: State, a: Attempt) {
    var Command(request, draw, fault) := a.command;
    ReachesShard(s, request, draw, fault) &&
      var e := LineOf(s, request, draw, fault);
      Spoils(encode, BytesAt(disk, e.ts.day), e, Ndjson.Written(Ndjson.LineOf(encode, e), a.writes))
  }

  /** An event transaction that does not reach the shard. */
  lemma RefusedOnDisk(encode: Ndjson.Encoder, index: Index, disk: Disk, files: Shards, draft: Event, a: Attempt)
    requires !Appends(index, a.command.request, draft, a.command.draw, a.command.fault)
    ensures var (now, outcome) := DiskTransaction(encode, DiskState(index, disk), draft, a);
      now == DiskState(index, disk) &&
      (State(index, files), outcome) ==
        EventTransaction(State(index, files), a.command.request, draft, a.command.draw, a.command.fault)
  {
  }

  /** One that does. */
  lemma LandedOnDisk(encode: Ndjson.Encoder, index: Index, disk: Disk, draft: Event, a: Attempt, e: Event)
    requires Appends(index, a.command.request, draft, a.command.draw, a.command.fault)
    requires e == Allocated(index.cursor, draft, a.command.draw.stream)
    ensures var line := Ndjson.LineOf(encode, e); var n := Ndjson.Written(line, a.writes);
      var after := Grown(disk, e.ts.day, line[..n]);
      var (now, outcome) := DiskTransaction(encode, DiskState(index, disk), draft, a);
      now.disk == after &&
      if |line| > Ndjson.MAX_EVENT_LINE_BYTES then now.index == index && outcome == Failed(AppendFailed)
      else if n < |line| then now.index == index && outcome == CutReport(|line|, a.writes)
      else if a.command.fault.LosesCommit() then now.index == index && outcome == LossReport(a.command.fault)
      else
        && now.index == Index(index.rows[e.id := ToRow(e)], Some(Cursor(e.Stream(), e.SeqNo() + 1)))
        && outcome == Added(e)
  {
  }

  /** The same over whole lines. */
  lemma SeenTransaction(index: Index, files: Shards, draft: Event, c: Command, seen: Fault)
    requires Appends(index, c.request, draft, c.draw, c.fault)
    ensures var e := Allocated(index.cursor, draft, c.draw.stream);
      var (now, outcome) := EventTransaction(State(index, files), c.request, draft, c.draw, seen);
      if seen == AppendFails then now == State(index, files) && outcome == Failed(AppendFailed)
      else if seen.LosesCommit() then now == State(index, AppendLine(files, e)) && outcome == LossReport(seen)
      else
        && now == State(Index(index.rows[e.id := ToRow(e)], Some(Cursor(e.Stream(), e.SeqNo() + 1))),
                        AppendLine(files, e))
        && outcome == Added(e)
  {
  }

  /** What an attempt is after its reconcile, on both sides. */
  lemma AfterRead(encode: Ndjson.Encoder, load: Ndjson.Loader, s: DiskState, files: Shards, a: Attempt,
                  draft: Event, index: Index)
    requires Ndjson.Codec(encode, load) && Holds(encode, s.disk, files)
    requires Draft(a.command.request, a.command.draw) == Some(draft)
    requires Reconciled(s.index, ReadAll(files)) == Ok(index)
    requires a.command.fault != DiesBeforeReconcile && a.command.fault != DiesAfterReconcile
    ensures var (now, outcome) := DiskTransaction(encode, DiskState(index, s.disk), draft, a);
      RecordedOnDisk(encode, load, s, a) == (now, Answered(outcome))
  {
    HeldReads(encode, load, s.disk, files);
  }

  /** The disk and the whole lines after an attempt. */
  ghost predicate Agree(encode: Ndjson.Encoder, load: Ndjson.Loader, now: DiskState, answer: Answer, spoilt: bool,
                        spec: State, outcome: Outcome) {
    if spoilt then Corrupt(load, now.disk)
    else now.index == spec.index && answer == Answered(outcome) && Holds(encode, now.disk, spec.files)
  }

  ghost predicate AttemptAgrees(encode: Ndjson.Encoder, load: Ndjson.Loader, s: DiskState, files: Shards,
                                a: Attempt)
  {
    var c := SeenAs(encode, State(s.index, files), a);
    var (now, answer) := RecordedOnDisk(encode, load, s, a);
    var (spec, outcome) := Recorded(State(s.index, files), c.request, c.draw, c.fault);
    Agree(encode, load, now, answer, SpoilsShard(encode, s.disk, State(s.index, files), a), spec, outcome)
  }

  lemma EarlyEnd(encode: Ndjson.Encoder, load: Ndjson.Loader, s: DiskState, files: Shards, a: Attempt)
    requires Ndjson.Codec(encode, load) && Holds(encode, s.disk, files)
    requires var Command(request, draw, fault) := a.command;
      Draft(request, draw).None? || fault == DiesBeforeReconcile || fault == DiesAfterReconcile ||
      Reconciled(s.index, ReadAll(files)).Err?
    ensures AttemptAgrees(encode, load, s, files, a)
  {
    HeldReads(encode, load, s.disk, files);
  }

  lemma NotReached(encode: Ndjson.Encoder, load: Ndjson.Loader, s: DiskState, files: Shards, a: Attempt,
                   draft: Event, index: Index)
    requires Ndjson.Codec(encode, load) && Holds(encode, s.disk, files)
    requires Draft(a.command.request, a.command.draw) == Some(draft)
    requires Reconciled(s.index, ReadAll(files)) == Ok(index)
    requires a.command.fault != DiesBeforeReconcile && a.command.fault != DiesAfterReconcile
    requires !Appends(index, a.command.request, draft, a.command.draw, a.command.fault)
    ensures AttemptAgrees(encode, load, s, files, a)
  {
    AfterRead(encode, load, s, files, a, draft, index);
    RefusedOnDisk(encode, index, s.disk, files, draft, a);
    RecordedFrom(State(s.index, files), a.command.request, a.command.draw, draft, index, a.command.fault);
  }

  /** A line of which nothing is written. */
  lemma NothingLands(encode: Ndjson.Encoder, index: Index, disk: Disk, files: Shards, draft: Event, a: Attempt,
                     e: Event)
    requires Appends(index, a.command.request, draft, a.command.draw, a.command.fault)
    requires e == Allocated(index.cursor, draft, a.command.draw.stream)
    requires Ndjson.Written(Ndjson.LineOf(encode, e), a.writes) == 0
    ensures var seen := SeenFault(Ndjson.LineOf(encode, e), a);
      var (now, outcome) := DiskTransaction(encode, DiskState(index, disk), draft, a);
      now == DiskState(index, disk) &&
      (State(index, files), outcome) ==
        if seen == DiesAfterReconcile then (State(index, files), Died)
        else EventTransaction(State(index, files), a.command.request, draft, a.command.draw, seen)
  {
    LandedOnDisk(encode, index, disk, draft, a, e);
    SeenTransaction(index, files, draft, a.command, AppendFails);
  }

  /** A line of which enough is written. */
  lemma LineLands(encode: Ndjson.Encoder, index: Index, disk: Disk, files: Shards, draft: Event, a: Attempt,
                  e: Event)
    requires Appends(index, a.command.request, draft, a.command.draw, a.command.fault)
    requires a.command.fault != DiesAfterReconcile && e == Allocated(index.cursor, draft, a.command.draw.stream)
    requires 0 < |encode(e)| <= Ndjson.Written(Ndjson.LineOf(encode, e), a.writes)
    ensures var line := Ndjson.LineOf(encode, e); var seen := SeenFault(line, a);
      var (now, outcome) := DiskTransaction(encode, DiskState(index, disk), draft, a);
      var (spec, report) := EventTransaction(State(index, files), a.command.request, draft, a.command.draw, seen);
      && seen != DiesAfterReconcile
      && now.index == spec.index && outcome == report && spec.files == AppendLine(files, e)
  {
    LandedOnDisk(encode, index, disk, draft, a, e);
    SeenTransaction(index, files, draft, a.command, SeenFault(Ndjson.LineOf(encode, e), a));
  }

  /** A line that reaches the shard, by how much of it lands. */
  lemma Reached(encode: Ndjson.Encoder, load: Ndjson.Loader, s: DiskState, files: Shards, a: Attempt,
                draft: Event, index: Index, e: Event)
    requires Ndjson.Codec(encode, load) && Holds(encode, s.disk, files)
    requires Appends(index, a.command.request, draft, a.command.draw, a.command.fault)
    requires a.command.fault != DiesAfterReconcile && e == Allocated(index.cursor, draft, a.command.draw.stream)
    ensures var line := Ndjson.LineOf(encode, e); var seen := SeenFault(line, a);
      var (now, outcome) := DiskTransaction(encode, DiskState(index, s.disk), draft, a);
      var (spec, report) :=
        if seen == DiesAfterReconcile then (State(index, files), Died)
        else EventTransaction(State(index, files), a.command.request, draft, a.command.draw, seen);
      Agree(encode, load, now, Answered(outcome),
            Spoils(encode, BytesAt(s.disk, e.ts.day), e, Ndjson.Written(line, a.writes)), spec, report)
  {
    var line := Ndjson.LineOf(encode, e);
    var n := Ndjson.Written(line, a.writes);
    if n == 0 {
      NothingLands(encode, index, s.disk, files, draft, a, e);
    } else {
      LandedOnDisk(encode, index, s.disk, draft, a, e);
      AppendOnDisk(encode, load, s.disk, files, e, n);
      if n >= |encode(e)| {
        Ndjson.LineIsPiece(encode, load, e);
        LineLands(encode, index, s.disk, files, draft, a, e);
      }
    }
  }

  /** While the files hold whole lines, but for last newlines, an attempt on the disk is the attempt
      over whole lines that it is seen as: same index, same answer, same lines. The one exception
      leaves the shards corrupt: a record cut short, or bytes after a record without its newline. */
  lemma AttemptOnDisk(encode: Ndjson.Encoder, load: Ndjson.Loader, s: DiskState, files: Shards, a: Attempt)
    requires Ndjson.Codec(encode, load) && Holds(encode, s.disk, files)
    ensures var c := SeenAs(encode, State(s.index, files), a);
      var (now, answer) := RecordedOnDisk(encode, load, s, a);
      var (spec, outcome) := Recorded(State(s.index, files), c.request, c.draw, c.fault);
      if SpoilsShard(encode, s.disk, State(s.index, files), a) then Corrupt(load, now.disk)
      else now.index == spec.index && answer == Answered(outcome) && Holds(encode, now.disk, spec.files)
  {
    assert AttemptAgrees(encode, load, s, files, a) by {
      var Command(request, draw, fault) := a.command;
      var merged := Reconciled(s.index, ReadAll(files));
      if Draft(request, draw).None? || fault == DiesBeforeReconcile || fault == DiesAfterReconcile || merged.Err? {
        EarlyEnd(encode, load, s, files, a);
      } else if !Appends(merged.value, request, Draft(request, draw).value, draw, fault) {
        NotReached(encode, load, s, files, a, Draft(request, draw).value, merged.value);
      } else {
        ReachedAgrees(encode, load, s, files, a, Draft(request, draw).value, merged.value);
      }
    }
  }

  lemma ReachedAgrees(encode: Ndjson.Encoder, load: Ndjson.Loader, s: DiskState, files: Shards, a: Attempt,
                      draft: Event, index: Index)
    requires Ndjson.Codec(encode, load) && Holds(encode, s.disk, files)
    requires Draft(a.command.request, a.command.draw) == Some(draft)
    requires Reconciled(s.index, ReadAll(files)) == Ok(index)
    requires a.command.fault != DiesBeforeReconcile && a.command.fault != DiesAfterReconcile
    requires Appends(index, a.command.request, draft, a.command.draw, a.command.fault)
    ensures AttemptAgrees(encode, load, s, files, a)
  {
    var e := Allocated(index.cursor, draft, a.command.draw.stream);
    var seen := SeenFault(Ndjson.LineOf(encode, e), a);
    AfterRead(encode, load, s, files, a, draft, index);
    RecordedFrom(State(s.index, files), a.command.request, a.command.draw, draft, index, seen);
    Reached(encode, load, s, files, a, draft, index, e);
  }

  // ----- corrupt shards -----

  /** Nothing is written any more, and no attempt succeeds. */
  lemma CorruptRefuses(encode: Ndjson.Encoder, load: Ndjson.Loader, s: DiskState, a: Attempt)
    requires Corrupt(load, s.disk)
    ensures var (now, answer) := RecordedOnDisk(encode, load, s, a);
      && now == s
      && (answer == Unreadable(Ndjson.CorruptShard) || answer == Answered(Failed(InvalidEvent)) ||
          answer == Answered(Died))
  {
  }

  // ----- runs -----

  ghost function RunOnDisk(encode: Ndjson.Encoder, load: Ndjson.Loader, s: DiskState, attempts: seq<Attempt>):
    DiskState
  {
    if attempts == [] then s
    else
      var n := |attempts| - 1;
      RecordedOnDisk(encode, load, RunOnDisk(encode, load, s, attempts[..n]), attempts[n]).0
  }

  /** A corrupt shard stays as it is whatever is attempted. */
  lemma {:induction false} CorruptStays(encode: Ndjson.Encoder, load: Ndjson.Loader, s: DiskState,
                                        attempts: seq<Attempt>)
    requires Corrupt(load, s.disk)
    ensures RunOnDisk(encode, load, s, attempts) == s
  {
    if attempts != [] {
      var n := |attempts| - 1;
      CorruptStays(encode, load, s, attempts[..n]);
      CorruptRefuses(encode, load, s, attempts[n]);
    }
  }

  const BLANK := DiskState(EMPTY_INDEX, [])

  ghost predicate Plays(encode: Ndjson.Encoder, s: DiskState, spec: State) {
    s.index == spec.index && Holds(encode, s.disk, spec.files)
  }

  ghost predicate SameRequests(played: seq<Command>, attempts: seq<Attempt>) {
    |played| <= |attempts| &&
    forall i :: 0 <= i < |played| ==>
      played[i].request == attempts[i].command.request && played[i].draw == attempts[i].command.draw
  }

  /** After `played`, the next attempt of the run leaves the shards corrupt and the rest change
      nothing; or the whole run has been played. */
  ghost predicate PlaysUntilSpoilt(encode: Ndjson.Encoder, load: Ndjson.Loader, attempts: seq<Attempt>,
                                   played: seq<Command>) {
    var k := |played|;
    && SameRequests(played, attempts)
    && Plays(encode, RunOnDisk(encode, load, BLANK, attempts[..k]), Run(INITIAL, played))
    && (k < |attempts| ==>
          var before := RunOnDisk(encode, load, BLANK, attempts[..k]);
          && SpoilsShard(encode, before.disk, Run(INITIAL, played), attempts[k])
          && RunOnDisk(encode, load, BLANK, attempts) == RecordedOnDisk(encode, load, before, attempts[k]).0
          && Corrupt(load, RunOnDisk(encode, load, BLANK, attempts).disk))
  }

  lemma PlaysOne(encode: Ndjson.Encoder, load: Ndjson.Loader, attempts: seq<Attempt>, played: seq<Command>)
    returns (more: seq<Command>)
    requires Ndjson.Codec(encode, load) && attempts != []
    requires |played| == |attempts| - 1 && PlaysUntilSpoilt(encode, load, attempts[..|attempts| - 1], played)
    ensures PlaysUntilSpoilt(encode, load, attempts, more)
  {
    var n := |attempts| - 1;
    var before, spec := RunOnDisk(encode, load, BLANK, attempts[..n]), Run(INITIAL, played);
    assert attempts[..n][..n] == attempts[..n];
    assert spec == State(before.index, spec.files);
    AttemptOnDisk(encode, load, before, spec.files, attempts[n]);
    if SpoilsShard(encode, before.disk, spec, attempts[n]) {
      more := played;
    } else {
      more := played + [SeenAs(encode, spec, attempts[n])];
      PlaysOn(encode, load, attempts, played, more);
    }
  }

  lemma PlaysOn(encode: Ndjson.Encoder, load: Ndjson.Loader, attempts: seq<Attempt>, played: seq<Command>,
                more: seq<Command>)
    requires attempts != [] && |played| == |attempts| - 1 && SameRequests(played, attempts)
    requires var a, spec := attempts[|attempts| - 1], Run(INITIAL, played);
      more == played + [SeenAs(encode, spec, a)] &&
      Plays(encode, RunOnDisk(encode, load, BLANK, attempts), After(spec, SeenAs(encode, spec, a)))
    ensures PlaysUntilSpoilt(encode, load, attempts, more)
  {
    assert attempts[..|attempts|] == attempts && more[..|played|] == played;
  }

  lemma SpoiltStays(encode: Ndjson.Encoder, load: Ndjson.Loader, attempts: seq<Attempt>, played: seq<Command>)
    requires attempts != [] && |played| < |attempts| - 1
    requires PlaysUntilSpoilt(encode, load, attempts[..|attempts| - 1], played)
    ensures PlaysUntilSpoilt(encode, load, attempts, played)
  {
    var n, k := |attempts| - 1, |played|;
    assert attempts[..n][..k] == attempts[..k] && attempts[..n][k] == attempts[k];
    CorruptRefuses(encode, load, RunOnDisk(encode, load, BLANK, attempts[..n]), attempts[n]);
  }

  /** Every run on a disk, with any faults and any short writes, is a run over whole lines up to the
      first attempt that leaves the shards corrupt, and changes nothing after it. */
  lemma {:induction false} RunsRefine(encode: Ndjson.Encoder, load: Ndjson.Loader, attempts: seq<Attempt>)
    returns (played: seq<Command>)
    requires Ndjson.Codec(encode, load)
    ensures PlaysUntilSpoilt(encode, load, attempts, played)
    decreases |attempts|
  {
    if attempts == [] {
      played := [];
    } else {
      var front := RunsRefine(encode, load, attempts[..|attempts| - 1]);
      if |front| == |attempts| - 1 {
        played := PlaysOne(encode, load, attempts, front);
      } else {
        SpoiltStays(encode, load, attempts, front);
        played := front;
      }
    }
  }

  // ----- only ASCII is written -----

  predicate Ascii(disk: Disk) {
    forall day, i :: 0 <= day < |disk| && 0 <= i < |disk[day]| ==> disk[day][i] < 128
  }

  lemma GrownAscii(encode: Ndjson.Encoder, load: Ndjson.Loader, disk: Disk, e: Event, n: nat)
    requires Ndjson.Codec(encode, load) && Ascii(disk) && n <= |Ndjson.LineOf(encode, e)|
    ensures Ascii(Grown(disk, e.ts.day, Ndjson.LineOf(encode, e)[..n]))
  {
    var bytes := Ndjson.LineOf(encode, e)[..n];
    assert Ndjson.CanonicalText(encode(e));
    assert forall i :: 0 <= i < n ==> bytes[i] < 128;
    if n > 0 {
      var now := Grown(disk, e.ts.day, bytes);
      forall day, i | 0 <= day < |now| && 0 <= i < |now[day]| ensures now[day][i] < 128 {
        GrownAt(disk, e.ts.day, bytes, day);
      }
    }
  }

  lemma TransactionWrites(encode: Ndjson.Encoder, s: DiskState, draft: Event, a: Attempt)
    ensures var now := DiskTransaction(encode, s, draft, a).0.disk;
      var e := Allocated(s.index.cursor, draft, a.command.draw.stream);
      now == s.disk ||
      now == Grown(s.disk, e.ts.day, Ndjson.LineOf(encode, e)[..Ndjson.Written(Ndjson.LineOf(encode, e), a.writes)])
  {
  }

  /** The event whose line an attempt may write. */
  lemma AttemptForm(encode: Ndjson.Encoder, load: Ndjson.Loader, s: DiskState, a: Attempt) returns (e: Event)
    ensures var now := RecordedOnDisk(encode, load, s, a).0.disk; var line := Ndjson.LineOf(encode, e);
      now == s.disk || now == Grown(s.disk, e.ts.day, line[..Ndjson.Written(line, a.writes)])
  {
    var Command(request, draw, fault) := a.command;
    var read := Ndjson.ReadFiles(Contents(s.disk), load);
    if Draft(request, draw).Some? && read.Ok? && Reconciled(s.index, read.value).Ok? {
      var index, draft := Reconciled(s.index, read.value).value, Draft(request, draw).value;
      TransactionWrites(encode, DiskState(index, s.disk), draft, a);
      e := Allocated(index.cursor, draft, draw.stream);
    } else {
      e := *;
    }
  }

  /** So the reader's decoder never raises on what any run has left. */
  lemma {:induction false} RunIsAscii(encode: Ndjson.Encoder, load: Ndjson.Loader, attempts: seq<Attempt>)
    requires Ndjson.Codec(encode, load)
    ensures Ascii(RunOnDisk(encode, load, BLANK, attempts).disk)
  {
    if attempts != [] {
      var n := |attempts| - 1;
      var before := RunOnDisk(encode, load, BLANK, attempts[..n]);
      RunIsAscii(encode, load, attempts[..n]);
      var e := AttemptForm(encode, load, before, attempts[n]);
      var line := Ndjson.LineOf(encode, e);
      GrownAscii(encode, load, before.disk, e, Ndjson.Written(line, attempts[n].writes));
    }
  }

  // ----- what a run leaves -----

  /** In every run from the empty machine, with any faults and any short writes: if the shards can be
      read they carry the numbers 1 to k of one stream and the index is at most one line behind; if
      not, they are corrupt. */
  lemma ReadableRunIsSequenced(encode: Ndjson.Encoder, load: Ndjson.Loader, attempts: seq<Attempt>)
    requires Ndjson.Codec(encode, load)
    ensures var s := RunOnDisk(encode, load, BLANK, attempts);
      match Ndjson.ReadFiles(Contents(s.disk), load)
      case Ok(lines) => Sequenced(lines) && DistinctIds(lines) && Projection(s.index, lines)
      case Err(error) => error == Ndjson.CorruptShard
  {
    var played := RunsRefine(encode, load, attempts);
    if |played| == |attempts| {
      assert attempts[..|attempts|] == attempts;
      HeldReads(encode, load, RunOnDisk(encode, load, BLANK, attempts).disk, Run(INITIAL, played).files);
      RunsStaySequenced(played);
    }
  }

  // ----- the two ways to a corrupt shard, and the way past a missing newline -----

  /** A record cut short is the end: the attempt fails, and whatever is attempted after it changes
      nothing. */
  lemma CutRecordEndsWriting(encode: Ndjson.Encoder, load: Ndjson.Loader, s: DiskState, files: Shards, a: Attempt,
                             more: seq<Attempt>)
    requires Ndjson.Codec(encode, load) && Holds(encode, s.disk, files)
    requires ReachesShard(State(s.index, files), a.command.request, a.command.draw, a.command.fault)
    requires var e := LineOf(State(s.index, files), a.command.request, a.command.draw, a.command.fault);
      0 < Ndjson.Written(Ndjson.LineOf(encode, e), a.writes) < |encode(e)|
    ensures var (now, answer) := RecordedOnDisk(encode, load, s, a);
      && (answer == Answered(Died) || answer == Answered(Failed(AppendFailed)))
      && Corrupt(load, now.disk) && RunOnDisk(encode, load, now, more) == now
  {
    AttemptOnDisk(encode, load, s, files, a);
    CorruptStays(encode, load, RecordedOnDisk(encode, load, s, a).0, more);
    ReachedAnswer(encode, load, s, files, a);
  }

  lemma ReachedAnswer(encode: Ndjson.Encoder, load: Ndjson.Loader, s: DiskState, files: Shards, a: Attempt)
    requires Ndjson.Codec(encode, load) && Holds(encode, s.disk, files)
    requires ReachesShard(State(s.index, files), a.command.request, a.command.draw, a.command.fault)
    ensures var e := LineOf(State(s.index, files), a.command.request, a.command.draw, a.command.fault);
      var line := Ndjson.LineOf(encode, e); var n := Ndjson.Written(line, a.writes);
      var (now, answer) := RecordedOnDisk(encode, load, s, a);
      && now.disk == Grown(s.disk, e.ts.day, line[..n])
      && (0 < n < |line| ==> answer == Answered(CutReport(|line|, a.writes)))
      && (0 < n == |line| && !a.command.fault.LosesCommit() ==>
            answer == Answered(Added(e)) && e.id in now.index.rows && now.index.rows[e.id] == ToRow(e))
  {
    var index := Reconciled(s.index, ReadAll(files)).value;
    var draft := Draft(a.command.request, a.command.draw).value;
    AfterRead(encode, load, s, files, a, draft, index);
    LandedOnDisk(encode, index, s.disk, draft, a, Allocated(index.cursor, draft, a.command.draw.stream));
  }

  /** A line cut just before its newline is read like a whole one, and leaves its file open. */
  lemma MissingNewlineReads(encode: Ndjson.Encoder, load: Ndjson.Loader, s: DiskState, files: Shards, a: Attempt)
    requires Ndjson.Codec(encode, load) && Holds(encode, s.disk, files)
    requires ReachesShard(State(s.index, files), a.command.request, a.command.draw, a.command.fault)
    requires var e := LineOf(State(s.index, files), a.command.request, a.command.draw, a.command.fault);
      Ndjson.Written(Ndjson.LineOf(encode, e), a.writes) == |encode(e)| && !Open(BytesAt(s.disk, e.ts.day))
    ensures var e := LineOf(State(s.index, files), a.command.request, a.command.draw, a.command.fault);
      var now := RecordedOnDisk(encode, load, s, a).0;
      && Ndjson.ReadFiles(Contents(now.disk), load) == Ok(ReadAll(AppendLine(files, e)))
      && Open(BytesAt(now.disk, e.ts.day))
  {
    var e := LineOf(State(s.index, files), a.command.request, a.command.draw, a.command.fault);
    var now := RecordedOnDisk(encode, load, s, a).0;
    Ndjson.LineIsPiece(encode, load, e);
    assert Ndjson.CanonicalText(encode(e));
    ReachedAnswer(encode, load, s, files, a);
    AppendOnDisk(encode, load, s.disk, files, e, |encode(e)|);
    HeldReads(encode, load, now.disk, AppendLine(files, e));
    GrownAt(s.disk, e.ts.day, Ndjson.LineOf(encode, e)[..|encode(e)|], e.ts.day);
  }

  /** One more add goes through on the day of a missing newline, committed row and all; the shards
      are corrupt from then on. */
  lemma OneMoreAdd(encode: Ndjson.Encoder, load: Ndjson.Loader, s: DiskState, files: Shards, a: Attempt,
                   more: seq<Attempt>)
    requires Ndjson.Codec(encode, load) && Holds(encode, s.disk, files) && a.command.fault == Reliable
    requires ReachesShard(State(s.index, files), a.command.request, a.command.draw, Reliable)
    requires var e := LineOf(State(s.index, files), a.command.request, a.command.draw, Reliable);
      var line := Ndjson.LineOf(encode, e);
      Ndjson.Written(line, a.writes) == |line| && Open(BytesAt(s.disk, e.ts.day))
    ensures var e := LineOf(State(s.index, files), a.command.request, a.command.draw, Reliable);
      var (now, answer) := RecordedOnDisk(encode, load, s, a);
      && answer == Answered(Added(e)) && e.id in now.index.rows && now.index.rows[e.id] == ToRow(e)
      && Corrupt(load, now.disk) && RunOnDisk(encode, load, now, more) == now
  {
    AttemptOnDisk(encode, load, s, files, a);
    ReachedAnswer(encode, load, s, files, a);
    CorruptStays(encode, load, RecordedOnDisk(encode, load, s, a).0, more);
  }
}
