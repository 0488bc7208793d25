/** The promises of the local write protocol over whole runs, in terms of the two stores. */
module WriterTheorems {
  import opened Wrappers
  import opened Events
  import opened LocalLedger
  import opened Reconcile
  import opened ImportBatch
  import opened ShardDir
  import opened LocalWriter
  import opened WriterRuns

  datatype Command = Command(request: Request, draw: Draw, fault: Fault)

  const INITIAL := State(EMPTY_INDEX, [])

  ghost function After(s: State, c: Command): State {
    Recorded(s, c.request, c.draw, c.fault).0
  }

  /** The state after a sequence of attempts, each with its own fault. */
  ghost function Run(s: State, commands: seq<Command>): State {
    if commands == [] then s
    else After(Run(s, commands[..|commands| - 1]), commands[|commands| - 1])
  }

  lemma {:induction false} RunKeeps(s: State, log: seq<Event>, r: nat, commands: seq<Command>)
    returns (later: seq<Event>, committed: nat)
    requires Rep(s, log, r) && SemanticOk(log)
    ensures Rep(Run(s, commands), later, committed) && SemanticOk(later) && log <= later
  {
    if commands == [] {
      return log, r;
    }
    var n := |commands| - 1;
    var mid, k := RunKeeps(s, log, r, commands[..n]);
    var c := commands[n];
    later, committed := AttemptKeeps(Run(s, commands[..n]), mid, k, c.request, c.draw, c.fault);
  }

  lemma InitialRep()
    ensures Rep(INITIAL, [], 0) && SemanticOk([])
  {
  }

  // ----- numbering -----

  /** All lines are on one stream and carry the numbers 1 to their count, each once. */
  ghost predicate Sequenced(lines: seq<Event>) {
    && (forall i :: 0 <= i < |lines| ==>
          && lines[0].Enveloped() && lines[i].Enveloped()
          && lines[i].Stream() == lines[0].Stream() && 1 <= lines[i].SeqNo() <= |lines|)
    && (forall i, j :: 0 <= i < j < |lines| ==> lines[i].SeqNo() != lines[j].SeqNo())
    && (forall q :: 1 <= q <= |lines| ==> HasNumber(lines, q))
  }

  ghost predicate HasNumber(lines: seq<Event>, q: int) {
    exists e :: e in lines && e.Enveloped() && e.SeqNo() == q
  }

  /** The index is the projection of all the lines but at most one. */
  ghost predicate Projection(index: Index, lines: seq<Event>) {
    var rows := index.rows;
    && (forall id :: id in rows ==> exists e :: e in lines && e.id == id && rows[id] == ToRow(e))
    && |rows| <= |lines| <= |rows| + 1
    && (index.cursor.None? <==> |rows| == 0)
    && (index.cursor.Some? ==>
          && index.cursor.value.next == |rows| + 1
          && (forall e :: e in lines ==> e.Enveloped() && e.Stream() == index.cursor.value.stream))
    && (forall e :: e in lines ==>
          e.Enveloped() && (e.id in rows <==> e.SeqNo() <= |rows|))
  }

  ghost predicate Projects(s: State) {
    Projection(s.index, ReadAll(s.files))
  }

  lemma CountTwice<T>(s: seq<T>, i: nat, j: nat)
    requires i < j < |s| && s[i] == s[j]
    ensures multiset(s)[s[i]] >= 2
  {
    assert s == s[..j] + s[j..];
    assert s[i] in s[..j] && s[i] in s[j..];
  }

  lemma CountOnce(log: seq<Event>, e: Event)
    requires DistinctIds(log) && e in log
    ensures multiset(log)[e] == 1
  {
    var i := Position(log, e);
    assert log == log[..i] + [log[i]] + log[i + 1..];
    assert e !in log[..i] && e !in log[i + 1..];
  }

  lemma LinesDistinct(log: seq<Event>, lines: seq<Event>)
    requires WriterLog(log) && multiset(lines) == multiset(log)
    requires forall e :: e in lines <==> e in log
    ensures forall i, j :: 0 <= i < j < |lines| ==> lines[i] != lines[j]
  {
    forall i, j | 0 <= i < j < |lines| ensures lines[i] != lines[j] {
      if lines[i] == lines[j] {
        CountTwice(lines, i, j);
        assert lines[i] in lines;
        CountOnce(log, lines[i]);
        assert false;
      }
    }
  }

  lemma LinesDistinctIds(log: seq<Event>, lines: seq<Event>)
    requires WriterLog(log) && multiset(lines) == multiset(log)
    requires forall e :: e in lines <==> e in log
    ensures DistinctIds(lines)
  {
    LinesDistinct(log, lines);
    forall i, j | 0 <= i < j < |lines| ensures lines[i].id != lines[j].id {
      assert lines[i] in lines && lines[j] in lines;
      if lines[i].id == lines[j].id { IdIsUnique(log, lines[i], lines[j]); }
    }
  }

  lemma LineAtIndex(log: seq<Event>, lines: seq<Event>, i: nat)
    requires WriterLog(log) && i < |lines| && (forall e :: e in lines <==> e in log)
    ensures log != [] && lines[i].Enveloped() && lines[i].Stream() == log[0].Stream()
    ensures 1 <= lines[i].SeqNo() <= |log| && log[lines[i].SeqNo() - 1] == lines[i]
  {
    assert lines[i] in lines;
    LineFacts(log, lines[i]);
  }

  lemma NumberHasLine(log: seq<Event>, lines: seq<Event>, q: int)
    requires WriterLog(log) && 1 <= q <= |log| && (forall e :: e in lines <==> e in log)
    ensures HasNumber(lines, q)
  {
    assert log[q - 1] in lines && log[q - 1].SeqNo() == q;
  }

  lemma LinesSequenced(log: seq<Event>, files: Shards)
    requires WriterLog(log) && FilesOf(files, log)
    ensures Sequenced(ReadAll(files))
  {
    var lines := ReadAll(files);
    ReadIsPermutation(files, log);
    LinesDistinct(log, lines);
    forall i | 0 <= i < |lines|
      ensures log != [] && lines[i].Enveloped() && lines[i].Stream() == log[0].Stream()
      ensures 1 <= lines[i].SeqNo() <= |log| && log[lines[i].SeqNo() - 1] == lines[i]
    {
      LineAtIndex(log, lines, i);
    }
    forall q | 1 <= q <= |lines| ensures HasNumber(lines, q) {
      NumberHasLine(log, lines, q);
    }
  }

  lemma RepRow(s: State, log: seq<Event>, r: nat, id: EventId)
    requires Rep(s, log, r) && id in s.index.rows
    ensures exists e :: e in ReadAll(s.files) && e.id == id && s.index.rows[id] == ToRow(e)
  {
    ReadIsPermutation(s.files, log);
    var i := RowOwner(log[..r], id);
    RowAt(log[..r], i);
    assert log[..r][i] == log[i] && log[i] in ReadAll(s.files);
  }

  lemma RepLine(s: State, log: seq<Event>, r: nat, e: Event)
    requires Rep(s, log, r) && e in ReadAll(s.files)
    ensures log != [] && e.Enveloped() && e.Stream() == log[0].Stream()
    ensures e.id in s.index.rows <==> e.SeqNo() <= r
  {
    ReadIsPermutation(s.files, log);
    LineFacts(log, e);
    if e.SeqNo() <= r {
      assert log[..r][e.SeqNo() - 1] == e;
      RowAt(log[..r], e.SeqNo() - 1);
    } else if e.id in s.index.rows {
      var i := RowOwner(log[..r], e.id);
      assert false;
    }
  }

  lemma RepProjects(s: State, log: seq<Event>, r: nat)
    requires Rep(s, log, r)
    ensures Projects(s)
  {
    ReadIsPermutation(s.files, log);
    RowCount(log[..r]);
    forall id | id in s.index.rows
      ensures exists e :: e in ReadAll(s.files) && e.id == id && s.index.rows[id] == ToRow(e)
    {
      RepRow(s, log, r, id);
    }
    forall e | e in ReadAll(s.files)
      ensures log != [] && e.Enveloped() && e.Stream() == log[0].Stream()
      ensures e.id in s.index.rows <==> e.SeqNo() <= r
    {
      RepLine(s, log, r, e);
    }
  }

  /** In every run from the empty machine, whatever dies or fails, the shards carry the numbers 1
      to k of one stream and the index is at most one line behind them. */
  lemma RunsStaySequenced(commands: seq<Command>)
    ensures Sequenced(ReadAll(Run(INITIAL, commands).files))
    ensures DistinctIds(ReadAll(Run(INITIAL, commands).files))
    ensures Projects(Run(INITIAL, commands))
  {
    InitialRep();
    var log, r := RunKeeps(INITIAL, [], 0, commands);
    var files := Run(INITIAL, commands).files;
    LinesSequenced(log, files);
    ReadIsPermutation(files, log);
    LinesDistinctIds(log, ReadAll(files));
    RepProjects(Run(INITIAL, commands), log, r);
  }

  lemma AddedIsCommitted(s: State, log: seq<Event>, e: Event)
    requires Rep(s, log + [e], |log| + 1)
    ensures e in ReadAll(s.files)
    ensures e.id in s.index.rows && s.index.rows[e.id] == ToRow(e)
    ensures |s.index.rows| == |ReadAll(s.files)|
  {
    var all := log + [e];
    ReadIsPermutation(s.files, all);
    assert all[..|all|] == all && all[|log|] == e;
    RowAt(all, |log|);
    RowCount(all);
  }

  lemma AppendShows(files: Shards, log: seq<Event>, e: Event)
    requires FilesOf(files, log) && FilesOf(AppendLine(files, e), log + [e])
    ensures AppendLine(files, e) != files
    ensures e in ReadAll(AppendLine(files, e)) && |ReadAll(AppendLine(files, e))| == |ReadAll(files)| + 1
  {
    ReadIsPermutation(files, log);
    ReadIsPermutation(AppendLine(files, e), log + [e]);
    assert (log + [e])[|log|] == e;
  }

  /** The copies an attempt leaves, by its outcome. A success has its row committed and its line in
      the shards; an answer with an existing event writes no line; a reported failure leaves the
      shards as they were exactly when it did not get its whole line into the shard before the
      flush or the commit failed. */
  ghost predicate CopiesMatch(s: State, c: Command) {
    var (now, outcome) := Recorded(s, c.request, c.draw, c.fault);
    match outcome
    case Added(e) =>
      && e in ReadAll(now.files) && |ReadAll(now.files)| == |ReadAll(s.files)| + 1
      && e.id in now.index.rows && now.index.rows[e.id] == ToRow(e)
      && |now.index.rows| == |ReadAll(now.files)|
    case Existing(_) => now.files == s.files
    case Failed(_) =>
      now.files == s.files <==> !(c.fault.FailsAfterLanding() && ReachesShard(s, c.request, c.draw, c.fault))
    case Died => true
  }

  lemma LostCopies(s: State, log: seq<Event>, r: nat, c: Command)
    requires Rep(s, log, r) && SemanticOk(log) && ReachesShard(s, c.request, c.draw, c.fault)
    requires c.fault.LosesCommit()
    ensures CopiesMatch(s, c)
  {
    ReachedKeeps(s, log, r, c.request, c.draw, c.fault);
    AppendShows(s.files, log, LineOf(s, c.request, c.draw, c.fault));
    assert Recorded(s, c.request, c.draw, c.fault).1 == LossReport(c.fault);
  }

  lemma AddedCopies(s: State, log: seq<Event>, r: nat, c: Command)
    requires Rep(s, log, r) && SemanticOk(log) && ReachesShard(s, c.request, c.draw, c.fault)
    requires !c.fault.LosesCommit()
    ensures CopiesMatch(s, c)
  {
    var e := LineOf(s, c.request, c.draw, c.fault);
    ReachedKeeps(s, log, r, c.request, c.draw, c.fault);
    AppendShows(s.files, log, e);
    AddedIsCommitted(After(s, c), log, e);
    assert Recorded(s, c.request, c.draw, c.fault).1 == Added(e);
  }

  lemma CopiesOnLog(s: State, log: seq<Event>, r: nat, c: Command)
    requires Rep(s, log, r) && SemanticOk(log)
    ensures CopiesMatch(s, c)
  {
    if ReachesShard(s, c.request, c.draw, c.fault) {
      if c.fault.LosesCommit() { LostCopies(s, log, r, c); } else { AddedCopies(s, log, r, c); }
    } else {
      var k := UnreachedKeeps(s, log, r, c.request, c.draw, c.fault);
    }
  }

  /** Over all runs the copies match what was reported, and the index is a projection of the lines. */
  lemma CopiesMatchOutcome(commands: seq<Command>, c: Command)
    ensures CopiesMatch(Run(INITIAL, commands), c)
    ensures Projects(After(Run(INITIAL, commands), c))
  {
    InitialRep();
    var s := Run(INITIAL, commands);
    var log, r := RunKeeps(INITIAL, [], 0, commands);
    CopiesOnLog(s, log, r, c);
    var later, k := AttemptKeeps(s, log, r, c.request, c.draw, c.fault);
    RepProjects(After(s, c), later, k);
  }

  // ----- failures reported after the line has landed -----

  /** A line that lands while its commit is lost. */
  lemma LandedIsAhead(s: State, log: seq<Event>, r: nat, request: Request, draw: Draw, fault: Fault)
    requires Rep(s, log, r) && SemanticOk(log)
    requires fault.LosesCommit() && ReachesShard(s, request, draw, fault)
    ensures var e := LineOf(s, request, draw, fault); var now := Recorded(s, request, draw, fault).0;
      Rep(now, log + [e], |log|) && SemanticOk(log + [e])
  {
    ReachedKeeps(s, log, r, request, draw, fault);
  }

  function SampleAdd(id: EventId): (Request, Draw) {
    (Add(Timestamp(0, "T00:00:00Z"), "decision", "tester", "summary", None, [], "manual",
         Metadata(None, None, None, None, None, None, "")),
     Draw(id, "now", Context("repo", "/repo", "/repo", "/repo", "marker", None), "stream"))
  }

  lemma PlainAddAppends(index: Index, request: Request, draft: Event, draw: Draw, fault: Fault)
    requires request.Add? && draft.id !in index.rows && fault != AppendFails
    requires var e := Allocated(index.cursor, draft, draw.stream);
      ValidEvent(e) && e.id == draft.id && !HoldsOrigin(index.rows, e)
    ensures Appends(index, request, draft, draw, fault)
  {
  }

  lemma AddReachesShard(s: State, log: seq<Event>, r: nat, request: Request, draw: Draw, fault: Fault)
    requires Rep(s, log, r) && request.Add? && Draft(request, draw).Some? && draw.id !in RowsOf(log)
    requires fault != DiesBeforeReconcile && fault != DiesAfterReconcile && fault != AppendFails
    ensures ReachesShard(s, request, draw, fault)
  {
    var draft := Draft(request, draw).value;
    Recovers(s, log, r);
    DraftIsValid(request, draw);
    AllocatedContinues(log, draft, draw.stream);
    PlainAddAppends(IndexOf(log), request, draft, draw, fault);
  }

  lemma OneLineAhead(s: State, e: Event)
    requires Rep(s, [] + [e], 0)
    ensures |ReadAll(s.files)| == 1 && s.index == EMPTY_INDEX
  {
    ReadIsPermutation(s.files, [] + [e]);
    assert ([] + [e])[..0] == [];
  }

  lemma FirstAddKeepsLine(request: Request, draw: Draw, fault: Fault)
    requires request.Add? && Draft(request, draw).Some? && fault.FailsAfterLanding()
    ensures var (now, outcome) := Recorded(INITIAL, request, draw, fault);
      && outcome == Failed(if fault == SyncFails then AppendFailed else CommitFailed)
      && |ReadAll(now.files)| == 1
      && now.index == EMPTY_INDEX
  {
    InitialRep();
    AddReachesShard(INITIAL, [], 0, request, draw, fault);
    ReachedKeeps(INITIAL, [], 0, request, draw, fault);
    OneLineAhead(Recorded(INITIAL, request, draw, fault).0, LineOf(INITIAL, request, draw, fault));
  }

  /** On an empty machine, an add whose flush or commit fails is reported as failed and its line is
      in the shard. */
  lemma ReportedFailureKeepsLine(fault: Fault)
    requires fault.FailsAfterLanding()
    ensures var (request, draw) := SampleAdd("a");
      var (now, outcome) := Recorded(INITIAL, request, draw, fault);
      outcome == Failed(if fault == SyncFails then AppendFailed else CommitFailed) && |ReadAll(now.files)| == 1
      && now.index == EMPTY_INDEX
  {
    var (request, draw) := SampleAdd("a");
    FirstAddKeepsLine(request, draw, fault);
  }

  ghost predicate IsLine(files: Shards, id: EventId) {
    exists e :: e in ReadAll(files) && e.id == id
  }

  lemma LineIds(files: Shards, log: seq<Event>, id: EventId)
    requires WriterLog(log) && FilesOf(files, log)
    ensures IsLine(files, id) <==> id in RowsOf(log)
  {
    ReadIsPermutation(files, log);
    if IsLine(files, id) {
      var e :| e in ReadAll(files) && e.id == id;
      LineFacts(log, e);
    }
    if id in RowsOf(log) {
      var i := RowOwner(log, id);
      assert log[i] in ReadAll(files);
    }
  }

  /** What a plain add does on a log, by its id. */
  lemma AddOnLog(s: State, log: seq<Event>, r: nat, request: Request, draw: Draw)
    requires Rep(s, log, r) && SemanticOk(log) && request.Add? && Draft(request, draw).Some?
    ensures var (now, outcome) := Recorded(s, request, draw, Reliable);
      if draw.id in RowsOf(log) then outcome == Failed(StoreFailed(DuplicateId)) && now.files == s.files
      else
        && outcome.Added? && outcome.event.id == draw.id
        && ObservationPayload(outcome.event) == ObservationPayload(Draft(request, draw).value)
        && now.files == AppendLine(s.files, outcome.event)
        && FilesOf(now.files, log + [outcome.event])
  {
    var draft := Draft(request, draw).value;
    AfterReconcile(s, log, r, request, draft, draw, Reliable);
    DraftIsValid(request, draw);
    AllocatedContinues(log, draft, draw.stream);
    if draw.id !in RowsOf(log) {
      AddReachesShard(s, log, r, request, draw, Reliable);
      Recovers(s, log, r);
      var later, k := AttemptKeeps(s, log, r, request, draw, Reliable);
    }
  }

  /** An add repeated after a reported failure whose line had landed is a second event: both lines
      are in the shards, under two ids, with one payload. Only an id that a line already carries is
      refused. */
  lemma RetriedAddIsStoredTwice(commands: seq<Command>, request: Request, first: Draw, fault: Fault, again: Draw)
    requires request.Add? && fault.FailsAfterLanding()
    requires ReachesShard(Run(INITIAL, commands), request, first, fault)
    ensures var s := Run(INITIAL, commands);
      var e, failed := LineOf(s, request, first, fault), Recorded(s, request, first, fault).0;
      var (now, outcome) := Recorded(failed, request, again, Reliable);
      if IsLine(failed.files, again.id) then outcome == Failed(StoreFailed(DuplicateId)) && now.files == failed.files
      else
        && outcome.Added? && outcome.event.id == again.id && again.id != e.id
        && e in ReadAll(now.files) && outcome.event in ReadAll(now.files)
        && ObservationPayload(outcome.event) == ObservationPayload(e)
  {
    InitialRep();
    var s := Run(INITIAL, commands);
    var log, r := RunKeeps(INITIAL, [], 0, commands);
    LandedIsAhead(s, log, r, request, first, fault);
    var e, failed := LineOf(s, request, first, fault), Recorded(s, request, first, fault).0;
    AddOnLog(failed, log + [e], |log|, request, again);
    LineIds(failed.files, log + [e], again.id);
    LastLine(log, e);
    var now := Recorded(failed, request, again, Reliable).0;
    if !IsLine(failed.files, again.id) {
      var f := Recorded(failed, request, again, Reliable).1.event;
      TwoLines(now.files, log, e, f);
    }
  }

  lemma LastLine(log: seq<Event>, e: Event)
    requires WriterLog(log + [e])
    ensures e.id in RowsOf(log + [e])
  {
    RowAt(log + [e], |log|);
  }

  lemma TwoLines(files: Shards, log: seq<Event>, e: Event, f: Event)
    requires FilesOf(files, log + [e] + [f])
    ensures e in ReadAll(files) && f in ReadAll(files)
  {
    ReadIsPermutation(files, log + [e] + [f]);
    assert (log + [e] + [f])[|log|] == e && (log + [e] + [f])[|log| + 1] == f;
  }

  /** A replay repeated after such a failure answers with the first event and writes nothing. */
  lemma RetriedReplayReturnsFirst(commands: seq<Command>, result: SemanticResult, first: Draw, fault: Fault,
                                  again: Draw)
    requires fault.LosesCommit() && ReachesShard(Run(INITIAL, commands), Replay(result), first, fault)
    ensures var s := Run(INITIAL, commands);
      var e, failed := LineOf(s, Replay(result), first, fault), Recorded(s, Replay(result), first, fault).0;
      var (now, outcome) := Recorded(failed, Replay(result), again, Reliable);
      outcome == Existing(ToRow(e)) && now.files == failed.files
  {
    InitialRep();
    var s := Run(INITIAL, commands);
    var log, r := RunKeeps(INITIAL, [], 0, commands);
    LandedIsAhead(s, log, r, Replay(result), first, fault);
    Recovers(s, log, r);
    AllocatedResult(log, result, Draft(Replay(result), first).value, first);
    var e, failed := LineOf(s, Replay(result), first, fault), Recorded(s, Replay(result), first, fault).0;
    assert (log + [e])[|log|] == e;
    ReplayOnLog(failed, log + [e], |log|, |log|, again);
  }

  /** A line ahead of the index is what the reconcile adds. */
  lemma AheadReconciles(s: State, log: seq<Event>, e: Event)
    requires Rep(s, log, |log|) && Continues(log, e)
    ensures var after := Index(s.index.rows[e.id := ToRow(e)], Some(Cursor(e.Stream(), e.SeqNo() + 1)));
      s.index != after && Reconciled(s.index, ReadAll(AppendLine(s.files, e))) == Ok(after)
  {
    assert log[..|log|] == log;
    ExtendsAhead(log, s.files, e);
    WriterLogGrows(log, e);
    LogGrows(log, e);
    Recovers(State(s.index, AppendLine(s.files, e)), log + [e], |log|);
  }

  lemma LostTransaction(s: State, log: seq<Event>, request: Request, draft: Event, draw: Draw, fault: Fault)
    requires Rep(s, log, |log|) && Draft(request, draw) == Some(draft) && fault.LosesCommit()
    requires Appends(s.index, request, draft, draw, Reliable)
    ensures var kept := EventTransaction(s, request, draft, draw, Reliable).0;
      var (lost, report) := EventTransaction(s, request, draft, draw, fault);
      && report == LossReport(fault) && lost.files == kept.files && lost.index != kept.index
      && Reconciled(lost.index, ReadAll(lost.files)) == Ok(kept.index)
  {
    AppendContinues(s, log, request, draft, draw, Reliable);
    TransactionForms(s, request, draft, draw, Reliable);
    TransactionForms(s, request, draft, draw, fault);
    AheadReconciles(s, log, Allocated(s.index.cursor, draft, draw.stream));
  }

  ghost predicate RecoversLost(s: State, request: Request, draw: Draw, fault: Fault) {
    var (kept, outcome) := Recorded(s, request, draw, Reliable);
    var (lost, report) := Recorded(s, request, draw, fault);
    outcome.Added? ==>
      && report == LossReport(fault) && lost.files == kept.files && lost.index != kept.index
      && Reconciled(lost.index, ReadAll(lost.files)) == Ok(kept.index)
  }

  lemma LostOnLog(s: State, log: seq<Event>, r: nat, request: Request, draft: Event, draw: Draw, fault: Fault)
    requires Rep(s, log, r) && Draft(request, draw) == Some(draft) && fault.LosesCommit()
    ensures RecoversLost(s, request, draw, fault)
  {
    var mid := State(IndexOf(log), s.files);
    Recovers(s, log, r);
    AfterReconcile(s, log, r, request, draft, draw, Reliable);
    AfterReconcile(s, log, r, request, draft, draw, fault);
    TransactionForms(mid, request, draft, draw, Reliable);
    if Appends(mid.index, request, draft, draw, Reliable) {
      LostTransaction(mid, log, request, draft, draw, fault);
    }
  }

  /** Losing the commit after the append loses nothing, whether the process died, the flush failed
      or the commit failed: reconciling the shards reproduces the state that the commit would have
      left, the first event's minted stream included. */
  lemma LostCommitIsRecovered(commands: seq<Command>, request: Request, draw: Draw, fault: Fault)
    requires fault.LosesCommit()
    ensures var s := Run(INITIAL, commands);
      var (kept, outcome) := Recorded(s, request, draw, Reliable);
      var (lost, report) := Recorded(s, request, draw, fault);
      outcome.Added? ==>
        && report == LossReport(fault) && lost.files == kept.files && lost.index != kept.index
        && Reconciled(lost.index, ReadAll(lost.files)) == Ok(kept.index)
  {
    InitialRep();
    var s := Run(INITIAL, commands);
    var log, r := RunKeeps(INITIAL, [], 0, commands);
    if Draft(request, draw).Some? {
      LostOnLog(s, log, r, request, Draft(request, draw).value, draw, fault);
    }
  }

  // ----- semantic replay -----

  predicate SameKey(r: Row, s: Row) {
    IsSemanticRow(r) && IsSemanticRow(s) && r.metadata.semantic.value.key == s.metadata.semantic.value.key
  }

  lemma LogKeys(log: seq<Event>, i: nat, j: nat)
    requires SemanticOk(log) && i < |log| && j < |log|
    requires IsSemantic(log[i]) && IsSemantic(log[j]) && ResultOf(log[i]).key == ResultOf(log[j]).key
    ensures i == j
  {
    assert i < j || j < i || i == j;
  }

  lemma RowKeys(log: seq<Event>, a: EventId, b: EventId)
    requires WriterLog(log) && SemanticOk(log)
    requires a in RowsOf(log) && b in RowsOf(log) && SameKey(RowsOf(log)[a], RowsOf(log)[b])
    ensures a == b
  {
    var i := RowOwner(log, a);
    var j := RowOwner(log, b);
    RowAt(log, i);
    RowAt(log, j);
    LogKeys(log, i, j);
  }

  /** Among the committed rows an interpretation key names one observation. */
  lemma KeysAreUnique(commands: seq<Command>, a: EventId, b: EventId)
    requires var rows := Run(INITIAL, commands).index.rows;
      a in rows && b in rows && SameKey(rows[a], rows[b])
    ensures a == b
  {
    InitialRep();
    var log, r := RunKeeps(INITIAL, [], 0, commands);
    SemanticPrefix(log, r);
    RowKeys(log[..r], a, b);
  }

  lemma GateSupersedes(log: seq<Event>, i: nat)
    requires WriterLog(log) && i < |log| && IsSemantic(log[i]) && SupersedesEarlier(log, i)
    ensures SupersedesOk(RowsOf(log), ResultOf(log[i]))
  {
    var result := ResultOf(log[i]);
    if result.supersedes.Some? {
      var j :| 0 <= j < i && Supersedes(log[j], result);
      RowAt(log, j);
    }
  }

  lemma GateMatches(log: seq<Event>, i: nat)
    requires WriterLog(log) && SemanticOk(log) && i < |log| && IsSemantic(log[i])
    ensures KeyMatches(RowsOf(log), ResultOf(log[i]).key) == {log[i].id}
  {
    RowAt(log, i);
    forall k | k in KeyMatches(RowsOf(log), ResultOf(log[i]).key) ensures k == log[i].id {
      RowKeys(log, k, log[i].id);
    }
  }

  lemma ResultDeterminesPayload(e: Event, draw: Draw)
    requires IsSemantic(e) && ValidEvent(e)
    ensures RowPayload(ToRow(e)) == ObservationPayload(BuildEvent(ResultOf(e), draw))
  {
    assert e.metadata == BuildEvent(ResultOf(e), draw).metadata;
  }

  lemma GatePayload(log: seq<Event>, i: nat, draw: Draw)
    requires WriterLog(log) && i < |log| && IsSemantic(log[i]) && ValidEvent(log[i])
    ensures log[i].id in RowsOf(log)
    ensures RowPayload(RowsOf(log)[log[i].id]) == ObservationPayload(BuildEvent(ResultOf(log[i]), draw))
  {
    RowAt(log, i);
    ResultDeterminesPayload(log[i], draw);
  }

  lemma GateSingle(rows: map<EventId, Row>, result: SemanticResult, draft: Event, id: EventId)
    requires SupersedesOk(rows, result) && KeyMatches(rows, result.key) == {id}
    requires id in rows && RowPayload(rows[id]) == ObservationPayload(draft)
    ensures SemanticGate(rows, Replay(result), draft) == Duplicate(id)
  {
  }

  /** The event recorded for a result answers every later replay of that result. */
  lemma GateFindsOriginal(log: seq<Event>, i: nat, draw: Draw)
    requires WriterLog(log) && SemanticOk(log) && i < |log| && IsSemantic(log[i]) && ValidEvent(log[i])
    ensures var result := ResultOf(log[i]);
      SemanticGate(RowsOf(log), Replay(result), BuildEvent(result, draw)) == Duplicate(log[i].id)
  {
    GateSupersedes(log, i);
    GateMatches(log, i);
    GatePayload(log, i, draw);
    GateSingle(RowsOf(log), ResultOf(log[i]), BuildEvent(ResultOf(log[i]), draw), log[i].id);
  }

  lemma ReplayDraft(e: Event, draw: Draw)
    requires IsSemantic(e) && ValidEvent(e)
    ensures Draft(Replay(ResultOf(e)), draw) == Some(BuildEvent(ResultOf(e), draw))
  {
  }

  lemma ReplayOnLog(s: State, log: seq<Event>, r: nat, i: nat, draw: Draw)
    requires Rep(s, log, r) && SemanticOk(log) && i < |log| && IsSemantic(log[i])
    ensures Recorded(s, Replay(ResultOf(log[i])), draw, Reliable) ==
      (State(IndexOf(log), s.files), Existing(ToRow(log[i])))
  {
    assert log[i] in log && ValidEvent(log[i]);
    var request := Replay(ResultOf(log[i]));
    ReplayDraft(log[i], draw);
    AfterReconcile(s, log, r, request, BuildEvent(ResultOf(log[i]), draw), draw, Reliable);
    GateFindsOriginal(log, i, draw);
    RowAt(log, i);
  }

  /** Once a result is accepted, replaying it after any further attempts, lost commits included,
      answers with the row of the original event and appends nothing. */
  lemma ReplayReturnsOriginal(before: seq<Command>, result: SemanticResult, first: Draw,
                              between: seq<Command>, again: Draw)
    ensures var (accepted, outcome) := Recorded(Run(INITIAL, before), Replay(result), first, Reliable);
      var s := Run(accepted, between);
      outcome.Added? ==>
        var (now, answer) := Recorded(s, Replay(result), again, Reliable);
        && answer == Existing(ToRow(outcome.event))
        && now.files == s.files
        && Reconciled(s.index, ReadAll(s.files)) == Ok(now.index)
  {
    InitialRep();
    var start := Run(INITIAL, before);
    var log, r := RunKeeps(INITIAL, [], 0, before);
    var (accepted, outcome) := Recorded(start, Replay(result), first, Reliable);
    if outcome.Added? {
      var grown, k := AttemptKeeps(start, log, r, Replay(result), first, Reliable);
      AddedResult(start, log, r, result, first);
      assert grown == log + [outcome.event] && grown[|log|] == outcome.event;
      var later, m := RunKeeps(accepted, grown, k, between);
      assert later[|log|] == grown[|log|];
      ReplayOnLog(Run(accepted, between), later, m, |log|, again);
      Recovers(Run(accepted, between), later, m);
    }
  }

  /** Every recorded line answers the replay of its result, whether its commit was lost or not. */
  lemma ReplayOfRecordedLine(commands: seq<Command>, e: Event, again: Draw)
    requires e in ReadAll(Run(INITIAL, commands).files) && IsSemantic(e)
    ensures var s := Run(INITIAL, commands);
      var (now, answer) := Recorded(s, Replay(ResultOf(e)), again, Reliable);
      answer == Existing(ToRow(e)) && now.files == s.files
  {
    InitialRep();
    var s := Run(INITIAL, commands);
    var log, r := RunKeeps(INITIAL, [], 0, commands);
    ReadIsPermutation(s.files, log);
    var i := Position(log, e);
    ReplayOnLog(s, log, r, i, again);
  }

  lemma AllocatedResult(log: seq<Event>, result: SemanticResult, draft: Event, draw: Draw)
    requires WriterLog(log) && Draft(Replay(result), draw) == Some(draft)
    ensures var e := Allocated(IndexOf(log).cursor, draft, draw.stream); IsSemantic(e) && ResultOf(e) == result
  {
    AllocatedContinues(log, draft, draw.stream);
    DraftIsValid(Replay(result), draw);
  }

  lemma AddedResult(s: State, log: seq<Event>, r: nat, result: SemanticResult, draw: Draw)
    requires Rep(s, log, r) && Recorded(s, Replay(result), draw, Reliable).1.Added?
    ensures var e := Recorded(s, Replay(result), draw, Reliable).1.event;
      IsSemantic(e) && ResultOf(e) == result
  {
    var draft := Draft(Replay(result), draw).value;
    AfterReconcile(s, log, r, Replay(result), draft, draw, Reliable);
    TransactionForms(State(IndexOf(log), s.files), Replay(result), draft, draw, Reliable);
    AllocatedResult(log, result, draft, draw);
  }

  // ----- the supersedes chain -----

  /** From `chain[0]` every step goes to the superseded observation, down to generation 1. */
  ghost predicate IsChain(log: seq<Event>, chain: seq<nat>) {
    && chain != []
    && (forall k :: 0 <= k < |chain| ==> chain[k] < |log| && IsSemantic(log[chain[k]]))
    && (forall k :: 0 <= k < |chain| - 1 ==> Supersedes(log[chain[k + 1]], ResultOf(log[chain[k]])))
    && ResultOf(log[chain[|chain| - 1]]).intent.generation == 1
  }

  /** Following `supersedes` strictly lowers the generation within one case and work item and ends
      at an observation of generation 1. */
  lemma {:induction false} ChainReachesFirst(log: seq<Event>, i: nat) returns (chain: seq<nat>)
    requires SemanticOk(log) && AllValid(log) && i < |log| && IsSemantic(log[i])
    ensures IsChain(log, chain) && chain[0] == i
    ensures |chain| <= ResultOf(log[i]).intent.generation
    decreases i
  {
    var r := ResultOf(log[i]);
    assert log[i] in log && ValidEvent(log[i]) && SupersedesEarlier(log, i);
    if r.intent.generation == 1 {
      chain := [i];
    } else {
      var j :| 0 <= j < i && Supersedes(log[j], r);
      var rest := ChainReachesFirst(log, j);
      chain := [i] + rest;
    }
  }

  /** Every committed observation of every run starts such a chain among the committed rows. */
  lemma CommittedChains(commands: seq<Command>, id: EventId) returns (chain: seq<EventId>)
    requires id in Run(INITIAL, commands).index.rows
    requires IsSemanticRow(Run(INITIAL, commands).index.rows[id])
    ensures IsRowChain(Run(INITIAL, commands).index.rows, chain) && chain[0] == id
  {
    InitialRep();
    var log, r := RunKeeps(INITIAL, [], 0, commands);
    var i := RowOwner(log[..r], id);
    RowAt(log[..r], i);
    SemanticPrefix(log, r);
    var path := ChainReachesFirst(log[..r], i);
    chain := RowChain(log[..r], path);
  }

  ghost predicate IsRowChain(rows: map<EventId, Row>, chain: seq<EventId>) {
    && chain != []
    && (forall k :: 0 <= k < |chain| ==> chain[k] in rows && IsSemanticRow(rows[chain[k]]))
    && (forall k :: 0 <= k < |chain| - 1 ==> RowSupersedes(rows[chain[k + 1]], rows[chain[k]]))
    && rows[chain[|chain| - 1]].metadata.semantic.value.intent.generation == 1
  }

  predicate RowSupersedes(prior: Row, next: Row)
    requires IsSemanticRow(prior) && IsSemanticRow(next)
  {
    && next.metadata.semantic.value.supersedes == Some(prior.id)
    && MaySupersede(prior.metadata.semantic.value, next.metadata.semantic.value)
  }

  lemma SemanticPrefix(log: seq<Event>, r: nat)
    requires SemanticOk(log) && AllValid(log) && r <= |log|
    ensures SemanticOk(log[..r]) && AllValid(log[..r])
  {
    forall i | 0 <= i < r && IsSemantic(log[..r][i]) ensures SupersedesEarlier(log[..r], i) {
      assert SupersedesEarlier(log, i);
      var result := ResultOf(log[i]);
      if result.supersedes.Some? {
        var j :| 0 <= j < i && Supersedes(log[j], result);
        assert log[..r][j] == log[j];
      }
    }
    forall e | e in log[..r] ensures ValidEvent(e) {
      assert e in log;
    }
  }

  lemma RowChain(log: seq<Event>, path: seq<nat>) returns (chain: seq<EventId>)
    requires WriterLog(log) && IsChain(log, path)
    ensures IsRowChain(RowsOf(log), chain) && chain[0] == log[path[0]].id
  {
    chain := seq(|path|, k requires 0 <= k < |path| => log[path[k]].id);
    forall k | 0 <= k < |chain|
      ensures chain[k] in RowsOf(log) && RowsOf(log)[chain[k]] == ToRow(log[path[k]])
    {
      RowAt(log, path[k]);
    }
  }
}
