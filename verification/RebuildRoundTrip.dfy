/** When the shards written by the local protocol rebuild the index they belong to. */
module RebuildRoundTrip {
  import opened Wrappers
  import opened Events
  import opened LocalLedger
  import opened Reconcile
  import opened ImportBatch
  import opened Rebuild
  import opened ShardDir
  import opened LocalWriter
  import opened WriterRuns
  import opened WriterTheorems

  /** No event is dated on an earlier day than an event with a smaller number. */
  ghost predicate DaysFollowSeqs(lines: seq<Event>) {
    forall e, f | e in lines && f in lines && e.Enveloped() && f.Enveloped() && e.SeqNo() < f.SeqNo() ::
      e.ts.day <= f.ts.day
  }

  lemma DaysOfLog(log: seq<Event>, lines: seq<Event>)
    requires WriterLog(log) && forall e :: e in lines <==> e in log
    ensures DaysFollowSeqs(lines) <==> DaysAscend(log)
  {
    if DaysAscend(log) {
      forall e, f | e in lines && f in lines && e.Enveloped() && f.Enveloped() && e.SeqNo() < f.SeqNo()
        ensures e.ts.day <= f.ts.day
      {
        LineFacts(log, e);
        LineFacts(log, f);
      }
    }
    if DaysFollowSeqs(lines) {
      forall i, j | 0 <= i < j < |log| ensures log[i].ts.day <= log[j].ts.day {
        assert log[i] in lines && log[j] in lines;
      }
    }
  }

  lemma FrontEnveloped(lines: seq<Event>, n: nat)
    requires AllEnveloped(lines) && n < |lines|
    ensures AllEnveloped(lines[..n]) && lines[n].Enveloped()
  {
    forall e | e in lines[..n] ensures e.Enveloped() {
      assert e in lines;
    }
    assert lines[n] in lines;
  }

  lemma {:induction false} AllFresh(lines: seq<Event>)
    requires AllEnveloped(lines)
    ensures Fresh(map[], lines) == lines
  {
    if lines != [] {
      var n := |lines| - 1;
      FrontEnveloped(lines, n);
      AllFresh(lines[..n]);
      assert lines == lines[..n] + [lines[n]];
    }
  }

  ghost predicate Rising(lines: seq<Event>)
    requires AllEnveloped(lines)
  {
    forall a, b :: 0 <= a < b < |lines| ==> lines[a].SeqNo() < lines[b].SeqNo()
  }

  /** k strictly increasing numbers between 1 and k are 1 to k. */
  lemma {:induction false} IncreasingFloor(lines: seq<Event>, i: nat)
    requires AllEnveloped(lines) && i < |lines|
    requires Rising(lines) && lines[0].SeqNo() >= 1
    ensures lines[i].SeqNo() >= i + 1
  {
    if i > 0 { IncreasingFloor(lines, i - 1); }
  }

  lemma {:induction false} IncreasingCeiling(lines: seq<Event>, i: nat)
    requires AllEnveloped(lines) && i < |lines|
    requires Rising(lines)
    requires forall a :: 0 <= a < |lines| ==> lines[a].SeqNo() <= |lines|
    ensures lines[i].SeqNo() <= i + 1
    decreases |lines| - i
  {
    if i + 1 < |lines| { IncreasingCeiling(lines, i + 1); }
  }

  ghost predicate LinesOf(log: seq<Event>, lines: seq<Event>) {
    && |lines| == |log| && AllEnveloped(lines)
    && forall i :: 0 <= i < |lines| ==>
         && log[0].Enveloped() && lines[i].Stream() == log[0].Stream()
         && 1 <= lines[i].SeqNo() <= |log| && log[lines[i].SeqNo() - 1] == lines[i]
  }

  lemma LinesOfLog(log: seq<Event>, lines: seq<Event>)
    requires WriterLog(log) && |lines| == |log| && forall e :: e in lines <==> e in log
    ensures LinesOf(log, lines)
  {
    forall i | 0 <= i < |lines|
      ensures lines[i].Enveloped() && lines[i].Stream() == log[0].Stream()
      ensures 1 <= lines[i].SeqNo() <= |log| && log[lines[i].SeqNo() - 1] == lines[i]
    {
      assert lines[i] in lines;
      LineFacts(log, lines[i]);
    }
  }

  lemma AdmittedRises(lines: seq<Event>)
    requires AllEnveloped(lines) && Admissible(EMPTY_INDEX, lines, {})
    ensures Rising(lines)
  {
    AllFresh(lines);
  }

  lemma RisingIsInPlace(log: seq<Event>, lines: seq<Event>, i: nat)
    requires LinesOf(log, lines) && Rising(lines) && i < |lines|
    ensures lines[i] == log[i]
  {
    IncreasingFloor(lines, i);
    IncreasingCeiling(lines, i);
  }

  lemma AdmittedInOrder(log: seq<Event>, lines: seq<Event>)
    requires LinesOf(log, lines) && Admissible(EMPTY_INDEX, lines, {})
    ensures lines == log
  {
    AdmittedRises(lines);
    forall i | 0 <= i < |lines| ensures lines[i] == log[i] {
      RisingIsInPlace(log, lines, i);
    }
  }

  lemma OrderedAdmitted(log: seq<Event>)
    requires WriterLog(log)
    ensures Admissible(EMPTY_INDEX, log, {})
  {
    assert AllEnveloped(log);
    AllFresh(log);
    forall q | 1 <= q < FinalSeq(1, log) ensures Carries(log, q) {
      assert log[q - 1] in log;
    }
  }

  /** The lines are admissible to an empty ledger exactly when they are read in append order. */
  lemma AdmissibleInOrder(log: seq<Event>, lines: seq<Event>)
    requires WriterLog(log) && |lines| == |log| && forall e :: e in lines <==> e in log
    ensures Admissible(EMPTY_INDEX, lines, {}) <==> lines == log
  {
    OrderedAdmitted(log);
    if Admissible(EMPTY_INDEX, lines, {}) {
      LinesOfLog(log, lines);
      AdmittedInOrder(log, lines);
    }
  }

  lemma ShardVerdict(s: State, log: seq<Event>, r: nat, allow: bool)
    requires Rep(s, log, r)
    ensures IndexOnly(Some(s.index), ReadAll(s.files)) == {}
    ensures Verdict(EMPTY_INDEX, ReadAll(s.files), AcceptedLoss(Some(s.index), ReadAll(s.files), allow)) ==
      if DaysFollowSeqs(ReadAll(s.files)) then Ok(ReadAll(s.files)) else Err(OriginDiscontinuity)
  {
    var lines := ReadAll(s.files);
    NothingIndexOnly(s, log, r);
    assert AcceptedLoss(Some(s.index), lines, allow) == {};
    ReadIsPermutation(s.files, log);
    LinesDistinctIds(log, lines);
    DistinctRetries(lines);
    FirstsOfDistinct(lines);
    AdmissibleInOrder(log, lines);
    ReadOrder(s.files, log);
    DaysOfLog(log, lines);
  }

  lemma DistinctRetries(lines: seq<Event>)
    requires DistinctIds(lines)
    ensures ExactRetries(lines)
  {
    forall e, f | e in lines && f in lines && e.id == f.id ensures e == f {
      IdIsUnique(lines, e, f);
    }
  }

  /** The index of the protocol never holds an event that no shard carries. */
  lemma NothingIndexOnly(s: State, log: seq<Event>, r: nat)
    requires Rep(s, log, r)
    ensures IndexOnly(Some(s.index), ReadAll(s.files)) == {}
  {
    forall id | id in s.index.rows ensures HasId(ReadAll(s.files), id) {
      RepRow(s, log, r, id);
    }
  }

  lemma RebuiltIndex(s: State, log: seq<Event>, r: nat)
    requires Rep(s, log, r)
    ensures Reconciled(EMPTY_INDEX, ReadAll(s.files)) == Ok(IndexOf(log))
    ensures |IndexOf(log).rows| == |ReadAll(s.files)|
  {
    ReadIsPermutation(s.files, log);
    assert log[..0] == [];
    LogReconciles(log, 0, ReadAll(s.files));
    RowCount(log);
  }

  lemma RefilledFromEmpty(lines: seq<Event>, index: Index, now: Option<Index>, counts: Counts)
    requires Refilled(EMPTY_INDEX, lines, |lines|, now, counts)
    requires Reconciled(EMPTY_INDEX, lines) == Ok(index) && |index.rows| == |lines|
    ensures now == Some(index) && counts == Counts(|lines|, 0)
  {
  }

  lemma ReplaceAccepted(was: Index, saved: Option<Index>, lines: seq<Event>, index: Index, allow: bool,
                        now: Option<Index>, backup: Option<Index>, result: Result<Report, RebuildError>)
    requires LedgerOk(was) && IndexOnly(Some(was), lines) == {}
    requires Verdict(EMPTY_INDEX, lines, AcceptedLoss(Some(was), lines, allow)) == Ok(lines)
    requires Reconciled(EMPTY_INDEX, lines) == Ok(index) && |index.rows| == |lines|
    requires RebuildResult(Some(was), saved, lines, Options(true, false, allow), now, backup, result)
    ensures result == Ok(Rebuilt(Counts(|lines|, 0), 0)) && backup == Some(was) && now == Some(index)
  {
    assert Base(Some(was), true) == EMPTY_INDEX;
    RefilledFromEmpty(lines, index, now, result.value.counts);
  }

  lemma ReplaceRefused(was: Index, saved: Option<Index>, lines: seq<Event>, allow: bool, error: ImportError,
                       now: Option<Index>, backup: Option<Index>, result: Result<Report, RebuildError>)
    requires LedgerOk(was)
    requires Verdict(EMPTY_INDEX, lines, AcceptedLoss(Some(was), lines, allow)) == Err(error)
    requires RebuildResult(Some(was), saved, lines, Options(true, false, allow), now, backup, result)
    ensures result == Err(Rejected(error)) && now == Some(was) && backup == saved
  {
  }

  lemma RebuildOnLog(s: State, log: seq<Event>, r: nat, saved: Option<Index>, allow: bool,
                     now: Option<Index>, backup: Option<Index>, result: Result<Report, RebuildError>)
    requires Rep(s, log, r) && LedgerOk(s.index)
    requires RebuildResult(Some(s.index), saved, ReadAll(s.files), Options(true, false, allow),
                           now, backup, result)
    ensures if DaysFollowSeqs(ReadAll(s.files)) then
        && result == Ok(Rebuilt(Counts(|ReadAll(s.files)|, 0), 0))
        && backup == Some(s.index) && now == Some(IndexOf(log))
      else
        result == Err(Rejected(OriginDiscontinuity)) && now == Some(s.index) && backup == saved
  {
    var lines := ReadAll(s.files);
    ShardVerdict(s, log, r, allow);
    if DaysFollowSeqs(lines) {
      RebuiltIndex(s, log, r);
      ReplaceAccepted(s.index, saved, lines, IndexOf(log), allow, now, backup, result);
    } else {
      ReplaceRefused(s.index, saved, lines, allow, OriginDiscontinuity, now, backup, result);
    }
  }

  /** After any run of one writer at a time, `rebuild --replace` from its shards finds no
      index-only event and is accepted exactly when the shard days do not decrease with the
      sequence numbers. Then it yields what reconciling the shards yields. */
  lemma RebuildOfRun(commands: seq<Command>, saved: Option<Index>, allow: bool,
                     now: Option<Index>, backup: Option<Index>, result: Result<Report, RebuildError>)
    requires LedgerOk(Run(INITIAL, commands).index)
    requires RebuildResult(Some(Run(INITIAL, commands).index), saved, ReadAll(Run(INITIAL, commands).files),
                           Options(true, false, allow), now, backup, result)
    ensures var s := Run(INITIAL, commands);
      var lines := ReadAll(s.files);
      if DaysFollowSeqs(lines) then
        && result == Ok(Rebuilt(Counts(|lines|, 0), 0))
        && backup == Some(s.index)
        && now.Some? && Reconciled(EMPTY_INDEX, lines) == Ok(now.value)
        && Reconciled(s.index, lines) == Ok(now.value)
      else
        result == Err(Rejected(OriginDiscontinuity)) && now == Some(s.index) && backup == saved
  {
    InitialRep();
    var s := Run(INITIAL, commands);
    var log, r := RunKeeps(INITIAL, [], 0, commands);
    RebuildOnLog(s, log, r, saved, allow, now, backup, result);
    RebuiltIndex(s, log, r);
    Recovers(s, log, r);
  }

  lemma RunLedgerOk(commands: seq<Command>)
    ensures LedgerOk(Run(INITIAL, commands).index)
  {
    InitialRep();
    var log, r := RunKeeps(INITIAL, [], 0, commands);
    IndexOfOk(log[..r]);
  }

  // ----- a backdated run -----

  function Dated(id: EventId, day: nat): Command {
    Command(
      Add(Timestamp(day, "T00:00:00Z"), "decision", "tester", "summary", None, [], "manual",
          Metadata(None, None, None, None, None, None, "")),
      Draw(id, "now", Context("repo", "/repo", "/repo", "/repo", "marker", None), "stream"),
      Reliable)
  }

  lemma AllocatedKeepsDraft(cursor: Option<Cursor>, draft: Event, minted: StreamId)
    ensures var e := Allocated(cursor, draft, minted); e.id == draft.id && e.ts == draft.ts
  {
  }

  lemma DatedStep(s: State, log: seq<Event>, id: EventId, day: nat) returns (e: Event)
    requires Rep(s, log, |log|) && SemanticOk(log) && id !in RowsOf(log)
    ensures Rep(After(s, Dated(id, day)), log + [e], |log| + 1) && SemanticOk(log + [e])
    ensures e.ts.day == day && e.id == id
  {
    var c := Dated(id, day);
    AddReachesShard(s, log, |log|, c.request, c.draw, Reliable);
    ReachedKeeps(s, log, |log|, c.request, c.draw, Reliable);
    e := LineOf(s, c.request, c.draw, Reliable);
    AllocatedKeepsDraft(Reconciled(s.index, ReadAll(s.files)).value.cursor, Draft(c.request, c.draw).value, "stream");
  }

  lemma TwoLogLines(files: Shards, e: Event, f: Event)
    requires FilesOf(files, [e] + [f]) && WriterLog([e] + [f])
    ensures e in ReadAll(files) && f in ReadAll(files)
    ensures e.Enveloped() && f.Enveloped() && e.SeqNo() == 1 && f.SeqNo() == 2
  {
    ReadIsPermutation(files, [e] + [f]);
    assert ([e] + [f])[0] == e && ([e] + [f])[1] == f;
  }

  lemma OtherIdIsFree(e: Event, id: EventId)
    requires e.id != id
    ensures id !in RowsOf([e])
  {
    if id in RowsOf([e]) {
      var i := RowOwner([e], id);
    }
  }

  lemma FirstDated(id: EventId, day: nat) returns (e: Event)
    ensures Rep(After(INITIAL, Dated(id, day)), [e], 1) && SemanticOk([e])
    ensures e.ts.day == day && e.id == id
  {
    InitialRep();
    e := DatedStep(INITIAL, [], id, day);
    assert [] + [e] == [e];
  }

  lemma SecondDated(s: State, e: Event, id: EventId, day: nat) returns (f: Event)
    requires Rep(s, [e], 1) && SemanticOk([e]) && id != e.id
    ensures FilesOf(After(s, Dated(id, day)).files, [e] + [f]) && WriterLog([e] + [f])
    ensures f.ts.day == day
  {
    OtherIdIsFree(e, id);
    f := DatedStep(s, [e], id, day);
  }

  lemma TwoCommands(c: Command, d: Command)
    ensures Run(INITIAL, [c, d]) == After(After(INITIAL, c), d)
  {
    assert [c, d][..1] == [c] && [c][..0] == [];
    assert Run(INITIAL, [c]) == After(INITIAL, c);
  }

  /** Two adds, the second dated a day before the first. */
  lemma BackdatedRun()
    ensures var lines := ReadAll(Run(INITIAL, [Dated("a", 1), Dated("b", 0)]).files);
      exists e, f :: e in lines && f in lines && e.Enveloped() && f.Enveloped()
                     && e.SeqNo() == 1 && f.SeqNo() == 2 && e.ts.day > f.ts.day
  {
    TwoCommands(Dated("a", 1), Dated("b", 0));
    var e := FirstDated("a", 1);
    var f := SecondDated(After(INITIAL, Dated("a", 1)), e, "b", 0);
    TwoLogLines(Run(INITIAL, [Dated("a", 1), Dated("b", 0)]).files, e, f);
  }

  /** The rebuild of the shards of that run is refused. */
  lemma BackdatedRunIsRefused(now: Option<Index>, backup: Option<Index>, result: Result<Report, RebuildError>)
    requires var s := Run(INITIAL, [Dated("a", 1), Dated("b", 0)]);
      LedgerOk(s.index) &&
      RebuildResult(Some(s.index), None, ReadAll(s.files), Options(true, false, false), now, backup, result)
    ensures result == Err(Rejected(OriginDiscontinuity))
  {
    BackdatedRun();
    RebuildOfRun([Dated("a", 1), Dated("b", 0)], None, false, now, backup, result);
  }
}
