/** Everything that one writer at a time can leave behind, over all runs and all faults. */
module WriterRuns {
  import opened Wrappers
  import opened Events
  import opened LocalLedger
  import opened Reconcile
  import opened ImportBatch
  import opened ShardDir
  import opened LocalWriter

  // ----- the log behind a state -----

  /** A log of envelopes on one stream, numbered from 1, with distinct ids. */
  ghost predicate WriterLog(log: seq<Event>) {
    && (forall i :: 0 <= i < |log| ==>
          && log[0].Enveloped() && log[i].Enveloped()
          && log[i].Stream() == log[0].Stream() && log[i].SeqNo() == i + 1)
    && DistinctIds(log)
  }

  ghost predicate AllValid(log: seq<Event>) {
    forall e :: e in log ==> ValidEvent(e)
  }

  ghost function RowsOf(log: seq<Event>): map<EventId, Row> {
    if log == [] then map[]
    else RowsOf(log[..|log| - 1])[log[|log| - 1].id := ToRow(log[|log| - 1])]
  }

  /** The index that has committed exactly the log. */
  ghost function IndexOf(log: seq<Event>): Index
    requires WriterLog(log)
  {
    Index(RowsOf(log), if log == [] then None else Some(Cursor(log[0].Stream(), |log| + 1)))
  }

  /** The shards hold the log; the index holds its first `r` events, all of them or all but one. */
  ghost predicate Rep(s: State, log: seq<Event>, r: nat) {
    && WriterLog(log) && AllValid(log)
    && FilesOf(s.files, log)
    && (r == |log| || r + 1 == |log|)
    && WriterLog(log[..r])
    && s.index == IndexOf(log[..r])
  }

  lemma {:induction false} RowAt(log: seq<Event>, i: nat)
    requires DistinctIds(log) && i < |log|
    ensures log[i].id in RowsOf(log) && RowsOf(log)[log[i].id] == ToRow(log[i])
  {
    var n := |log| - 1;
    if i < n {
      RowAt(log[..n], i);
      assert log[..n][i] == log[i];
    }
  }

  lemma {:induction false} RowOwner(log: seq<Event>, id: EventId) returns (i: nat)
    requires id in RowsOf(log)
    ensures i < |log| && log[i].id == id
  {
    var n := |log| - 1;
    if log[n].id == id {
      i := n;
    } else {
      i := RowOwner(log[..n], id);
    }
  }

  lemma {:induction false} RowCount(log: seq<Event>)
    requires DistinctIds(log)
    ensures |RowsOf(log)| == |log|
  {
    if log != [] {
      var n := |log| - 1;
      RowCount(log[..n]);
      if log[n].id in RowsOf(log[..n]) {
        var i := RowOwner(log[..n], log[n].id);
        assert false;
      }
    }
  }

  lemma RowBelow(log: seq<Event>, id: EventId)
    requires WriterLog(log) && id in RowsOf(log)
    ensures RowsOf(log)[id].id == id && StoredRow(RowsOf(log)[id])
    ensures BelowCursor(IndexOf(log).cursor, RowsOf(log)[id])
  {
    var i := RowOwner(log, id);
    RowAt(log, i);
    InsertedRowIsStored(log[i]);
  }

  lemma RowsApart(log: seq<Event>, a: EventId, b: EventId)
    requires WriterLog(log) && a in RowsOf(log) && b in RowsOf(log)
    requires SharedOrigin(RowsOf(log)[a], RowsOf(log)[b])
    ensures a == b
  {
    var i := RowOwner(log, a);
    var j := RowOwner(log, b);
    RowAt(log, i);
    RowAt(log, j);
  }

  lemma IndexOfOk(log: seq<Event>)
    requires WriterLog(log)
    ensures LedgerOk(IndexOf(log))
  {
    var ix := IndexOf(log);
    forall id | id in ix.rows
      ensures ix.rows[id].id == id && StoredRow(ix.rows[id]) && BelowCursor(ix.cursor, ix.rows[id])
    {
      RowBelow(log, id);
    }
    forall a, b | a in ix.rows && b in ix.rows && SharedOrigin(ix.rows[a], ix.rows[b]) ensures a == b {
      RowsApart(log, a, b);
    }
  }

  lemma Position(log: seq<Event>, e: Event) returns (i: nat)
    requires e in log
    ensures i < |log| && log[i] == e
  {
    i :| 0 <= i < |log| && log[i] == e;
  }

  /** A row of a prefix belongs to the event of the log with its id. */
  lemma PrefixRow(log: seq<Event>, k: nat, e: Event)
    requires DistinctIds(log) && k <= |log| && e in log && e.id in RowsOf(log[..k])
    ensures RowsOf(log[..k])[e.id] == ToRow(e)
  {
    var i := RowOwner(log[..k], e.id);
    var j := Position(log, e);
    assert log[..k][i] == log[i] && i == j;
    RowAt(log[..k], i);
  }

  lemma PrefixOrigin(log: seq<Event>, k: nat, e: Event, id: EventId)
    requires WriterLog(log) && k <= |log| && e in log && id in RowsOf(log[..k])
    requires SameOrigin(RowsOf(log[..k])[id], e)
    ensures id == e.id
  {
    var i := RowOwner(log[..k], id);
    var j := Position(log, e);
    assert log[..k][i] == log[i];
    RowAt(log[..k], i);
  }

  lemma LineFacts(log: seq<Event>, e: Event)
    requires WriterLog(log) && e in log
    ensures e.Enveloped() && e.Stream() == log[0].Stream() && 1 <= e.SeqNo() <= |log|
    ensures log[e.SeqNo() - 1] == e
    ensures e.id in RowsOf(log) && RowsOf(log)[e.id] == ToRow(e)
  {
    var i := Position(log, e);
    RowAt(log, i);
  }

  lemma IdIsUnique(log: seq<Event>, e: Event, f: Event)
    requires DistinctIds(log) && e in log && f in log && e.id == f.id
    ensures e == f
  {
    var i := Position(log, e);
    var j := Position(log, f);
  }

  lemma LogLinesCoherent(log: seq<Event>, k: nat, lines: seq<Event>)
    requires WriterLog(log) && k <= |log|
    requires forall e :: e in lines <==> e in log
    ensures PositiveSeqs(lines) && OneRecordPerId(RowsOf(log[..k]), lines)
  {
    forall e | e in lines ensures Agrees(RowsOf(log[..k]), e) && (e.Enveloped() ==> e.SeqNo() >= 1) {
      LineFacts(log, e);
      if e.id in RowsOf(log[..k]) { PrefixRow(log, k, e); }
    }
    forall e, f | e in lines && f in lines && e.id == f.id ensures ToRow(e) == ToRow(f) {
      IdIsUnique(log, e, f);
    }
  }

  lemma LogStream(log: seq<Event>, k: nat, lines: seq<Event>)
    requires WriterLog(log) && k <= |log| && WriterLog(log[..k])
    requires forall e :: e in lines <==> e in log
    ensures OneStream(IndexOf(log[..k]).cursor, lines)
  {
    forall e | e in lines ensures e.Enveloped() && e.Stream() == log[0].Stream() {
      LineFacts(log, e);
    }
  }

  lemma LogOrigins(log: seq<Event>, k: nat, lines: seq<Event>)
    requires WriterLog(log) && k <= |log|
    requires forall e :: e in lines <==> e in log
    ensures OneIdPerOrigin(RowsOf(log[..k]), lines)
  {
    forall e | e in lines ensures Fits(RowsOf(log[..k]), e) {
      forall id | id in RowsOf(log[..k]) && SameOrigin(RowsOf(log[..k])[id], e) ensures id == e.id {
        PrefixOrigin(log, k, e, id);
      }
    }
    forall e, f | e in lines && f in lines && SharesOrigin(e, f) ensures e.id == f.id {
      LineFacts(log, e);
      LineFacts(log, f);
    }
  }

  lemma LogRowsMerged(log: seq<Event>, k: nat, lines: seq<Event>)
    requires WriterLog(log) && k <= |log|
    requires forall e :: e in lines <==> e in log
    ensures RowsMerged(RowsOf(log[..k]), lines, RowsOf(log))
  {
    forall id | id in RowsOf(log[..k]) ensures id in RowsOf(log) && RowsOf(log)[id] == RowsOf(log[..k])[id] {
      var i := RowOwner(log[..k], id);
      assert log[..k][i] == log[i] && log[i] in log;
      RowAt(log[..k], i);
      RowAt(log, i);
    }
    forall e | e in lines ensures e.id in RowsOf(log) && RowsOf(log)[e.id] == ToRow(e) {
      LineFacts(log, e);
    }
    forall id | id in RowsOf(log) ensures exists e :: e in lines && e.id == id {
      var i := RowOwner(log, id);
      assert log[i] in lines;
    }
  }

  lemma LogCursorMerged(log: seq<Event>, k: nat, lines: seq<Event>)
    requires WriterLog(log) && k <= |log| && WriterLog(log[..k])
    requires forall e :: e in lines <==> e in log
    ensures CursorMerged(IndexOf(log[..k]).cursor, lines, IndexOf(log).cursor)
  {
    forall e | e in lines
      ensures e.Enveloped() && e.Stream() == log[0].Stream() && 1 <= e.SeqNo() <= |log|
    {
      LineFacts(log, e);
    }
    if k < |log| {
      assert log[|log| - 1] in lines;
    } else {
      assert log[..k] == log;
    }
  }

  /** Reconciling the index of a prefix with the shards of the log gives the index of the log. */
  lemma LogReconciles(log: seq<Event>, k: nat, lines: seq<Event>)
    requires WriterLog(log) && k <= |log| && WriterLog(log[..k])
    requires forall e :: e in lines <==> e in log
    ensures Reconciled(IndexOf(log[..k]), lines) == Ok(IndexOf(log))
  {
    var ix := IndexOf(log[..k]);
    IndexOfOk(log[..k]);
    LogLinesCoherent(log, k, lines);
    LogStream(log, k, lines);
    LogOrigins(log, k, lines);
    CoherentLinesMerge(ix, lines);
    LogRowsMerged(log, k, lines);
    LogCursorMerged(log, k, lines);
    MergeUnique(ix, lines, lines, Reconciled(ix, lines).value, IndexOf(log));
  }

  /** Recovery: the reconcile transaction brings the index up to the whole log. */
  lemma Recovers(s: State, log: seq<Event>, r: nat)
    requires Rep(s, log, r)
    ensures Reconciled(s.index, ReadAll(s.files)) == Ok(IndexOf(log))
    ensures Rep(State(IndexOf(log), s.files), log, |log|)
  {
    ReadIsPermutation(s.files, log);
    LogReconciles(log, r, ReadAll(s.files));
    assert log[..|log|] == log;
  }

  // ----- the semantic publisher -----

  function ResultOf(e: Event): SemanticResult
    requires IsSemantic(e)
  {
    e.metadata.semantic.value
  }

  /** The observation at `i` names an earlier, lower-generation one for the same case and work. */
  ghost predicate SupersedesEarlier(log: seq<Event>, i: nat)
    requires i < |log| && IsSemantic(log[i])
  {
    var r := ResultOf(log[i]);
    r.supersedes.Some? ==>
      exists j :: 0 <= j < i && Supersedes(log[j], r)
  }

  predicate Supersedes(prior: Event, r: SemanticResult) {
    && r.supersedes == Some(prior.id)
    && IsSemantic(prior)
    && MaySupersede(ResultOf(prior), r)
  }

  /** Semantic observations supersede earlier ones and have pairwise distinct interpretation keys. */
  ghost predicate SemanticOk(log: seq<Event>) {
    && (forall i :: 0 <= i < |log| && IsSemantic(log[i]) ==> SupersedesEarlier(log, i))
    && (forall i, j | 0 <= i < j < |log| && IsSemantic(log[i]) && IsSemantic(log[j]) ::
          ResultOf(log[i]).key != ResultOf(log[j]).key)
  }

  lemma PassedSupersedes(log: seq<Event>, e: Event)
    requires WriterLog(log) && IsSemantic(e)
    requires SupersedesOk(RowsOf(log), ResultOf(e))
    ensures SupersedesEarlier(log + [e], |log|)
  {
    var r := ResultOf(e);
    if r.supersedes.Some? {
      var j := RowOwner(log, r.supersedes.value);
      RowAt(log, j);
      assert (log + [e])[j] == log[j];
      assert Supersedes((log + [e])[j], r);
    }
  }

  lemma PassedKey(log: seq<Event>, e: Event, i: nat)
    requires WriterLog(log) && IsSemantic(e) && i < |log| && IsSemantic(log[i])
    requires KeyMatches(RowsOf(log), ResultOf(e).key) == {}
    ensures ResultOf(log[i]).key != ResultOf(e).key
  {
    RowAt(log, i);
    assert log[i].id !in KeyMatches(RowsOf(log), ResultOf(e).key);
  }

  lemma SupersedesStays(log: seq<Event>, e: Event, i: nat)
    requires i < |log| && IsSemantic(log[i]) && SupersedesEarlier(log, i)
    ensures SupersedesEarlier(log + [e], i)
  {
    var r := ResultOf(log[i]);
    if r.supersedes.Some? {
      var j :| 0 <= j < i && Supersedes(log[j], r);
      assert (log + [e])[j] == log[j];
    }
  }

  lemma SemanticStep(log: seq<Event>, e: Event)
    requires WriterLog(log) && SemanticOk(log)
    requires IsSemantic(e) ==>
      SupersedesOk(RowsOf(log), ResultOf(e)) && KeyMatches(RowsOf(log), ResultOf(e).key) == {}
    ensures SemanticOk(log + [e])
  {
    var all := log + [e];
    forall i | 0 <= i < |all| && IsSemantic(all[i]) ensures SupersedesEarlier(all, i) {
      if i < |log| { SupersedesStays(log, e, i); } else { PassedSupersedes(log, e); }
    }
    forall i, j | 0 <= i < j < |all| && IsSemantic(all[i]) && IsSemantic(all[j])
      ensures ResultOf(all[i]).key != ResultOf(all[j]).key
    {
      if j == |log| { PassedKey(log, e, i); }
    }
  }

  // ----- one attempt -----

  lemma EnvelopeIsValid(draft: Event, stream: StreamId, n: int)
    requires ValidEvent(draft) && !draft.Enveloped() && n >= 1
    ensures ValidEvent(WithEnvelope(draft, stream, n))
    ensures IsSemantic(WithEnvelope(draft, stream, n)) <==> IsSemantic(draft)
  {
  }

  /** The event allocated from the index of a log continues the log. */
  lemma NumberIsFree(log: seq<Event>, e: Event)
    requires WriterLog(log) && e.Enveloped() && e.SeqNo() == |log| + 1
    ensures !HoldsOrigin(RowsOf(log), e)
  {
    if HoldsOrigin(RowsOf(log), e) {
      var id :| id in RowsOf(log) && SameOrigin(RowsOf(log)[id], e);
      RowBelow(log, id);
    }
  }

  lemma AllocatedContinues(log: seq<Event>, draft: Event, minted: StreamId)
    requires WriterLog(log) && ValidEvent(draft) && !draft.Enveloped()
    ensures var e := Allocated(IndexOf(log).cursor, draft, minted);
      && ValidEvent(e) && e.Enveloped() && e.SeqNo() == |log| + 1
      && (log != [] ==> e.Stream() == log[0].Stream())
      && e.id == draft.id && e.metadata == draft.metadata && (IsSemantic(e) <==> IsSemantic(draft))
      && !HoldsOrigin(RowsOf(log), e)
  {
    var e := Allocated(IndexOf(log).cursor, draft, minted);
    EnvelopeIsValid(draft, e.Stream(), |log| + 1);
    NumberIsFree(log, e);
  }

  lemma WriterLogGrows(log: seq<Event>, e: Event)
    requires WriterLog(log) && e.Enveloped() && e.SeqNo() == |log| + 1 && e.id !in RowsOf(log)
    requires log != [] ==> e.Stream() == log[0].Stream()
    ensures WriterLog(log + [e])
  {
    forall i | 0 <= i < |log| ensures log[i].id != e.id {
      RowAt(log, i);
    }
  }

  lemma RowsGrow(log: seq<Event>, e: Event)
    ensures RowsOf(log + [e]) == RowsOf(log)[e.id := ToRow(e)]
  {
    assert (log + [e])[..|log|] == log;
  }

  lemma IndexForm(log: seq<Event>)
    requires WriterLog(log) && log != []
    ensures IndexOf(log) == Index(RowsOf(log), Some(Cursor(log[0].Stream(), |log| + 1)))
  {
  }

  lemma LogGrows(log: seq<Event>, e: Event)
    requires e.Enveloped() && WriterLog(log + [e])
    ensures IndexOf(log + [e]) == Index(RowsOf(log)[e.id := ToRow(e)], Some(Cursor(e.Stream(), |log| + 2)))
  {
    RowsGrow(log, e);
    IndexForm(log + [e]);
    assert (log + [e])[|log|] == e;
  }

  lemma ValidGrows(log: seq<Event>, e: Event)
    requires AllValid(log) && ValidEvent(e)
    ensures AllValid(log + [e])
  {
  }

  /** `e` is the next event of the log. */
  ghost predicate Continues(log: seq<Event>, e: Event) {
    && ValidEvent(e)
    && e.Enveloped() && e.SeqNo() == |log| + 1 && e.id !in RowsOf(log)
    && (log != [] ==> log[0].Enveloped() && e.Stream() == log[0].Stream())
  }

  lemma ShardsGrow(log: seq<Event>, files: Shards, e: Event)
    requires WriterLog(log) && AllValid(log) && FilesOf(files, log) && Continues(log, e)
    ensures WriterLog(log + [e]) && AllValid(log + [e]) && FilesOf(AppendLine(files, e), log + [e])
  {
    WriterLogGrows(log, e);
    LogGrows(log, e);
    ValidGrows(log, e);
    AppendFollowsLog(files, log, e);
  }

  /** The shards after an append, with the index before its commit. */
  lemma ExtendsAhead(log: seq<Event>, files: Shards, e: Event)
    requires WriterLog(log) && AllValid(log) && FilesOf(files, log) && Continues(log, e)
    ensures Rep(State(IndexOf(log), AppendLine(files, e)), log + [e], |log|)
  {
    ShardsGrow(log, files, e);
    assert (log + [e])[..|log|] == log;
  }

  /** The shards after an append, with the index after its commit. */
  lemma ExtendsCommitted(log: seq<Event>, files: Shards, e: Event)
    requires WriterLog(log) && AllValid(log) && FilesOf(files, log) && Continues(log, e)
    ensures WriterLog(log + [e])
    ensures Rep(State(IndexOf(log + [e]), AppendLine(files, e)), log + [e], |log| + 1)
  {
    ShardsGrow(log, files, e);
    assert (log + [e])[..|log| + 1] == log + [e];
  }

  /** The attempt reaches the shard. */
  ghost predicate Appends(index: Index, request: Request, draft: Event, draw: Draw, fault: Fault) {
    && SemanticGate(index.rows, request, draft).Proceed?
    && ValidEvent(Allocated(index.cursor, draft, draw.stream))
    && Inserted(index.rows, Allocated(index.cursor, draft, draw.stream)).Ok?
    && fault != AppendFails
  }

  lemma TransactionForms(s: State, request: Request, draft: Event, draw: Draw, fault: Fault)
    ensures var (now, outcome) := EventTransaction(s, request, draft, draw, fault);
      var e := Allocated(s.index.cursor, draft, draw.stream);
      if !Appends(s.index, request, draft, draw, fault) then
        now == s && (outcome.Existing? || outcome.Failed?)
      else if fault.LosesCommit() then
        now == State(s.index, AppendLine(s.files, e)) && outcome == LossReport(fault)
      else
        && now == State(Index(s.index.rows[e.id := ToRow(e)], Some(Cursor(e.Stream(), e.SeqNo() + 1))),
                        AppendLine(s.files, e))
        && outcome == Added(e)
  {
  }

  lemma PassedGate(log: seq<Event>, request: Request, draft: Event, draw: Draw, e: Event)
    requires WriterLog(log) && SemanticOk(log) && Draft(request, draw) == Some(draft)
    requires SemanticGate(RowsOf(log), request, draft).Proceed?
    requires e.metadata == draft.metadata && (IsSemantic(e) <==> IsSemantic(draft))
    ensures SemanticOk(log + [e])
  {
    DraftIsValid(request, draw);
    SemanticStep(log, e);
  }

  /** The event of an attempt that reaches the shard is the next of the log. */
  lemma AppendContinues(s: State, log: seq<Event>, request: Request, draft: Event, draw: Draw, fault: Fault)
    requires Rep(s, log, |log|) && Draft(request, draw) == Some(draft)
    requires Appends(s.index, request, draft, draw, fault)
    ensures Continues(log, Allocated(s.index.cursor, draft, draw.stream))
  {
    assert log[..|log|] == log;
    DraftIsValid(request, draw);
    AllocatedContinues(log, draft, draw.stream);
  }

  lemma AppendIsSemanticOk(s: State, log: seq<Event>, request: Request, draft: Event, draw: Draw, fault: Fault)
    requires Rep(s, log, |log|) && SemanticOk(log) && Draft(request, draw) == Some(draft)
    requires Appends(s.index, request, draft, draw, fault)
    ensures SemanticOk(log + [Allocated(s.index.cursor, draft, draw.stream)])
  {
    assert log[..|log|] == log;
    DraftIsValid(request, draw);
    AllocatedContinues(log, draft, draw.stream);
    PassedGate(log, request, draft, draw, Allocated(s.index.cursor, draft, draw.stream));
  }

  lemma ExtendsEither(s: State, log: seq<Event>, e: Event)
    requires Rep(s, log, |log|) && Continues(log, e)
    ensures Rep(State(s.index, AppendLine(s.files, e)), log + [e], |log|)
    ensures Rep(State(Index(s.index.rows[e.id := ToRow(e)], Some(Cursor(e.Stream(), e.SeqNo() + 1))),
                      AppendLine(s.files, e)), log + [e], |log| + 1)
  {
    assert log[..|log|] == log;
    ExtendsAhead(log, s.files, e);
    ExtendsCommitted(log, s.files, e);
    LogGrows(log, e);
  }

  /** The event transaction of an attempt that reaches the shard appends the next event of the log,
      and commits it or not. */
  lemma TransactionCases(s: State, log: seq<Event>, request: Request, draft: Event, draw: Draw, fault: Fault)
    requires Rep(s, log, |log|) && Draft(request, draw) == Some(draft)
    requires Appends(s.index, request, draft, draw, fault)
    ensures var (now, outcome) := EventTransaction(s, request, draft, draw, fault);
      var e := Allocated(s.index.cursor, draft, draw.stream);
      && outcome == (if fault.LosesCommit() then LossReport(fault) else Added(e))
      && now.files == AppendLine(s.files, e)
      && Rep(now, log + [e], if fault.LosesCommit() then |log| else |log| + 1)
  {
    AppendContinues(s, log, request, draft, draw, fault);
    TransactionForms(s, request, draft, draw, fault);
    ExtendsEither(s, log, Allocated(s.index.cursor, draft, draw.stream));
  }

  /** What an attempt is after its reconcile. */
  lemma RecordedFrom(s: State, request: Request, draw: Draw, draft: Event, index: Index, fault: Fault)
    requires Draft(request, draw) == Some(draft) && Reconciled(s.index, ReadAll(s.files)) == Ok(index)
    requires fault != DiesBeforeReconcile
    ensures Recorded(s, request, draw, fault) ==
      if fault == DiesAfterReconcile then (State(index, s.files), Died)
      else EventTransaction(State(index, s.files), request, draft, draw, fault)
  {
  }

  /** An attempt that survives the reconcile is its event transaction on the whole log. */
  lemma AfterReconcile(s: State, log: seq<Event>, r: nat, request: Request, draft: Event, draw: Draw, fault: Fault)
    requires Rep(s, log, r) && Draft(request, draw) == Some(draft)
    requires fault != DiesBeforeReconcile && fault != DiesAfterReconcile
    ensures Recorded(s, request, draw, fault)
         == EventTransaction(State(IndexOf(log), s.files), request, draft, draw, fault)
  {
    Recovers(s, log, r);
  }

  /** The attempt gets as far as a whole line in the shard: the record is valid, the reconcile
      succeeds, and the event transaction passes its gate and its insert. */
  ghost predicate ReachesShard(s: State, request: Request, draw: Draw, fault: Fault) {
    && Draft(request, draw).Some?
    && fault != DiesBeforeReconcile && fault != DiesAfterReconcile
    && Reconciled(s.index, ReadAll(s.files)).Ok?
    && Appends(Reconciled(s.index, ReadAll(s.files)).value, request, Draft(request, draw).value, draw, fault)
  }

  /** The event of such an attempt. */
  ghost function LineOf(s: State, request: Request, draw: Draw, fault: Fault): Event
    requires ReachesShard(s, request, draw, fault)
  {
    Allocated(Reconciled(s.index, ReadAll(s.files)).value.cursor, Draft(request, draw).value, draw.stream)
  }

  /** What one attempt does to the log: it grows by the event of the attempt exactly when the attempt
      reaches the shard, and the state after it stands for the grown log. */
  ghost predicate KeepsLog(s: State, log: seq<Event>, request: Request, draw: Draw, fault: Fault,
                           later: seq<Event>, committed: nat) {
    var (now, outcome) := Recorded(s, request, draw, fault);
    && Rep(now, later, committed) && SemanticOk(later)
    && if ReachesShard(s, request, draw, fault) then
         var e := LineOf(s, request, draw, fault);
         && later == log + [e] && now.files == AppendLine(s.files, e)
         && outcome == (if fault.LosesCommit() then LossReport(fault) else Added(e))
         && (outcome.Added? ==> committed == |later|)
       else later == log && now.files == s.files && !outcome.Added?
  }

  /** An attempt that ends early leaves the log, and the index as it was or reconciled. */
  lemma UnreachedForms(s: State, log: seq<Event>, r: nat, request: Request, draw: Draw, fault: Fault)
    requires Rep(s, log, r) && !ReachesShard(s, request, draw, fault)
    ensures var (now, outcome) := Recorded(s, request, draw, fault);
      !outcome.Added? && (now == s || now == State(IndexOf(log), s.files))
  {
    Recovers(s, log, r);
    if Draft(request, draw).Some? && fault != DiesBeforeReconcile {
      var draft := Draft(request, draw).value;
      RecordedFrom(s, request, draw, draft, IndexOf(log), fault);
      TransactionForms(State(IndexOf(log), s.files), request, draft, draw, fault);
    }
  }

  lemma UnreachedKeeps(s: State, log: seq<Event>, r: nat, request: Request, draw: Draw, fault: Fault)
    returns (committed: nat)
    requires Rep(s, log, r) && SemanticOk(log) && !ReachesShard(s, request, draw, fault)
    ensures KeepsLog(s, log, request, draw, fault, log, committed)
  {
    UnreachedForms(s, log, r, request, draw, fault);
    Recovers(s, log, r);
    committed := if Recorded(s, request, draw, fault).0 == s then r else |log|;
  }

  lemma ReachedKeeps(s: State, log: seq<Event>, r: nat, request: Request, draw: Draw, fault: Fault)
    requires Rep(s, log, r) && SemanticOk(log) && ReachesShard(s, request, draw, fault)
    ensures KeepsLog(s, log, request, draw, fault, log + [LineOf(s, request, draw, fault)],
                     if fault.LosesCommit() then |log| else |log| + 1)
  {
    Recovers(s, log, r);
    var draft := Draft(request, draw).value;
    AfterReconcile(s, log, r, request, draft, draw, fault);
    TransactionCases(State(IndexOf(log), s.files), log, request, draft, draw, fault);
    AppendIsSemanticOk(State(IndexOf(log), s.files), log, request, draft, draw, fault);
  }

  /** One attempt, whatever its fault, keeps the state behind some longer log. */
  lemma AttemptKeeps(s: State, log: seq<Event>, r: nat, request: Request, draw: Draw, fault: Fault)
    returns (later: seq<Event>, committed: nat)
    requires Rep(s, log, r) && SemanticOk(log)
    ensures KeepsLog(s, log, request, draw, fault, later, committed)
  {
    if ReachesShard(s, request, draw, fault) {
      ReachedKeeps(s, log, r, request, draw, fault);
      later := log + [LineOf(s, request, draw, fault)];
      committed := if fault.LosesCommit() then |log| else |log| + 1;
    } else {
      later := log;
      committed := UnreachedKeeps(s, log, r, request, draw, fault);
    }
  }
}
