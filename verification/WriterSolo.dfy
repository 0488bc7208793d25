/** The steps of several writers and the attempts of one writer are the same protocol: a writer that
    takes all its steps without another in between leaves what its attempt leaves. */
module WriterSolo {
  import opened Wrappers
  import opened Events
  import opened LocalLedger
  import opened ShardDir
  import opened LocalWriter
  import WriterRuns
  import opened WriterInterleaving

  /** What a writer does in an attempt, up to its fault. */
  function Steps(p: Pid, request: Request, draw: Draw, fault: Fault): seq<Action> {
    match fault
    case DiesBeforeReconcile => []
    case DiesAfterReconcile => [Reconcile(p), DieBetween(p)]
    case AppendFails => [Reconcile(p), Begin(p, request, draw), FailAppend]
    case Reliable => [Reconcile(p), Begin(p, request, draw), Append, Commit]
    case _ => [Reconcile(p), Begin(p, request, draw), Append, DieOpen]
  }

  /** One action, if the attempt has not ended before it. */
  ghost function Did(y: System, a: Action): System {
    if Act(y, a).Some? then Act(y, a).value else y
  }

  ghost function Acts(y: System, actions: seq<Action>): System {
    if actions == [] then y else Did(Acts(y, actions[..|actions| - 1]), actions[|actions| - 1])
  }

  lemma TwoActs(y: System, a: Action, b: Action)
    ensures Acts(y, [a, b]) == Did(Did(y, a), b)
  {
    assert [a, b][..1] == [a] && [a][..0] == [];
    assert Acts(y, [a]) == Did(y, a);
  }

  lemma ThreeActs(y: System, a: Action, b: Action, c: Action)
    ensures Acts(y, [a, b, c]) == Did(Did(Did(y, a), b), c)
  {
    TwoActs(y, a, b);
    assert [a, b, c][..2] == [a, b];
  }

  lemma FourActs(y: System, a: Action, b: Action, c: Action, d: Action)
    ensures Acts(y, [a, b, c, d]) == Did(Did(Did(Did(y, a), b), c), d)
  {
    ThreeActs(y, a, b, c);
    assert [a, b, c, d][..3] == [a, b, c];
  }

  /** The writer stands between its transactions. */
  function Between(y: System, p: Pid, index: Index): System {
    System(State(index, y.durable.files), y.between + {p}, Free)
  }

  lemma FailedReconcile(y: System, p: Pid, request: Request, draw: Draw, last: Action)
    requires y.open == Free && p !in y.between && Draft(request, draw).Some?
    requires Reconciled(y.durable.index, ReadAll(y.durable.files)).Err?
    requires last in [FailAppend, Commit, DieOpen]
    ensures Did(y, Reconcile(p)) == y && Did(y, Begin(p, request, draw)) == y
    ensures Did(y, Append) == y && Did(y, last) == y && Did(y, DieBetween(p)) == y
  {
  }

  lemma DoneReconcile(y: System, p: Pid, index: Index)
    requires y.open == Free && p !in y.between
    requires Reconciled(y.durable.index, ReadAll(y.durable.files)) == Ok(index)
    ensures Did(y, Reconcile(p)) == Between(y, p, index)
    ensures Did(Between(y, p, index), DieBetween(p)) == System(State(index, y.durable.files), y.between, Free)
  {
    assert y.between + {p} - {p} == y.between;
  }

  /** A begin that gives the lock back ends the attempt. */
  lemma EndedBegin(y: System, p: Pid, index: Index, request: Request, draw: Draw, last: Action)
    requires y.open == Free && p !in y.between && Draft(request, draw).Some?
    requires !Begins(index, request, draw) && last in [FailAppend, Commit, DieOpen]
    ensures var after := System(State(index, y.durable.files), y.between, Free);
      && Did(Between(y, p, index), Begin(p, request, draw)) == after
      && Did(after, Append) == after && Did(after, last) == after
  {
    var z := Between(y, p, index);
    assert Act(z, Begin(p, request, draw)).Some?;
    BeginForms(z, p, request, draw);
    assert y.between + {p} - {p} == y.between;
  }

  /** A begin that opens the event transaction, and how it can end. */
  lemma OpenBegin(y: System, p: Pid, index: Index, request: Request, draw: Draw)
    requires y.open == Free && p !in y.between && Begins(index, request, draw)
    ensures var e := Allocated(index.cursor, Draft(request, draw).value, draw.stream);
      var work := Index(index.rows[e.id := ToRow(e)], Some(Cursor(e.Stream(), e.SeqNo() + 1)));
      var begun := Did(Between(y, p, index), Begin(p, request, draw));
      && Did(begun, FailAppend) == System(State(index, y.durable.files), y.between, Free)
      && Did(Did(begun, Append), DieOpen) ==
           System(State(index, AppendLine(y.durable.files, e)), y.between, Free)
      && Did(Did(begun, Append), Commit) ==
           System(State(work, AppendLine(y.durable.files, e)), y.between, Free)
  {
    var z := Between(y, p, index);
    assert Act(z, Begin(p, request, draw)).Some?;
    BeginForms(z, p, request, draw);
    assert y.between + {p} - {p} == y.between;
  }

  /** The durable state that an attempt leaves whose reconcile gave `index`. */
  ghost function LeftBy(s: State, request: Request, draw: Draw, fault: Fault, index: Index): State
    requires Draft(request, draw).Some?
  {
    if fault == DiesAfterReconcile || fault == AppendFails || !Begins(index, request, draw) then State(index, s.files)
    else
      var e := Allocated(index.cursor, Draft(request, draw).value, draw.stream);
      State(if fault == Reliable
            then Index(index.rows[e.id := ToRow(e)], Some(Cursor(e.Stream(), e.SeqNo() + 1)))
            else index,
            AppendLine(s.files, e))
  }

  lemma AttemptForm(s: State, request: Request, draw: Draw, fault: Fault)
    requires Draft(request, draw).Some?
    ensures var merged := Reconciled(s.index, ReadAll(s.files));
      Recorded(s, request, draw, fault).0 ==
        if fault == DiesBeforeReconcile || merged.Err? then s else LeftBy(s, request, draw, fault, merged.value)
  {
    var merged := Reconciled(s.index, ReadAll(s.files));
    if merged.Ok? && fault != DiesBeforeReconcile && fault != DiesAfterReconcile {
      WriterRuns.TransactionForms(State(merged.value, s.files), request, Draft(request, draw).value, draw, fault);
    }
  }

  lemma EndedSteps(y: System, p: Pid, request: Request, draw: Draw, fault: Fault)
    requires y.open == Free && p !in y.between && Draft(request, draw).Some?
    requires fault != DiesBeforeReconcile && Reconciled(y.durable.index, ReadAll(y.durable.files)).Err?
    ensures Acts(y, Steps(p, request, draw, fault)) == y
  {
    FailedReconcile(y, p, request, draw, FailAppend);
    FailedReconcile(y, p, request, draw, Commit);
    FailedReconcile(y, p, request, draw, DieOpen);
    AllActs(y, p, request, draw);
  }

  lemma AllActs(y: System, p: Pid, request: Request, draw: Draw)
    ensures var begun := Did(Did(y, Reconcile(p)), Begin(p, request, draw));
      && Acts(y, Steps(p, request, draw, DiesAfterReconcile)) == Did(Did(y, Reconcile(p)), DieBetween(p))
      && Acts(y, Steps(p, request, draw, AppendFails)) == Did(begun, FailAppend)
      && Acts(y, Steps(p, request, draw, Reliable)) == Did(Did(begun, Append), Commit)
      && Acts(y, Steps(p, request, draw, SyncFails)) == Did(Did(begun, Append), DieOpen)
      && Acts(y, Steps(p, request, draw, DiesBeforeCommit)) == Did(Did(begun, Append), DieOpen)
      && Acts(y, Steps(p, request, draw, CommitFails)) == Did(Did(begun, Append), DieOpen)
  {
    var begin := Begin(p, request, draw);
    TwoActs(y, Reconcile(p), DieBetween(p));
    ThreeActs(y, Reconcile(p), begin, FailAppend);
    FourActs(y, Reconcile(p), begin, Append, Commit);
    FourActs(y, Reconcile(p), begin, Append, DieOpen);
  }

  lemma CommitEnd(y: System, p: Pid, request: Request, draw: Draw, index: Index)
    requires y.open == Free && p !in y.between && Begins(index, request, draw)
    ensures Did(Did(Did(Between(y, p, index), Begin(p, request, draw)), Append), Commit) ==
      System(LeftBy(y.durable, request, draw, Reliable, index), y.between, Free)
  {
    OpenBegin(y, p, index, request, draw);
  }

  lemma CommittedSteps(y: System, p: Pid, request: Request, draw: Draw, index: Index)
    requires y.open == Free && p !in y.between && Begins(index, request, draw)
    requires Reconciled(y.durable.index, ReadAll(y.durable.files)) == Ok(index)
    ensures Acts(y, Steps(p, request, draw, Reliable)) ==
      System(LeftBy(y.durable, request, draw, Reliable, index), y.between, Free)
  {
    DoneReconcile(y, p, index);
    CommitEnd(y, p, request, draw, index);
    LandedActs(y, p, request, draw, Reliable);
  }

  lemma LostSteps(y: System, p: Pid, request: Request, draw: Draw, fault: Fault, index: Index)
    requires y.open == Free && p !in y.between && Begins(index, request, draw) && fault.LosesCommit()
    requires Reconciled(y.durable.index, ReadAll(y.durable.files)) == Ok(index)
    ensures Acts(y, Steps(p, request, draw, fault)) ==
      System(LeftBy(y.durable, request, draw, fault, index), y.between, Free)
  {
    DoneReconcile(y, p, index);
    OpenBegin(y, p, index, request, draw);
    LandedActs(y, p, request, draw, fault);
  }

  lemma LandedActs(y: System, p: Pid, request: Request, draw: Draw, fault: Fault)
    requires fault == Reliable || fault.LosesCommit()
    ensures Acts(y, Steps(p, request, draw, fault)) ==
      Did(Did(Did(Did(y, Reconcile(p)), Begin(p, request, draw)), Append),
          if fault == Reliable then Commit else DieOpen)
  {
    AllActs(y, p, request, draw);
  }

  lemma OpenedSteps(y: System, p: Pid, request: Request, draw: Draw, fault: Fault, index: Index)
    requires y.open == Free && p !in y.between && Begins(index, request, draw)
    requires fault != DiesBeforeReconcile && Reconciled(y.durable.index, ReadAll(y.durable.files)) == Ok(index)
    ensures Acts(y, Steps(p, request, draw, fault)) ==
      System(LeftBy(y.durable, request, draw, fault, index), y.between, Free)
  {
    if fault == Reliable {
      CommittedSteps(y, p, request, draw, index);
    } else if fault.LosesCommit() {
      LostSteps(y, p, request, draw, fault, index);
    } else {
      AllActs(y, p, request, draw);
      DoneReconcile(y, p, index);
      OpenBegin(y, p, index, request, draw);
    }
  }

  lemma RefusedSteps(y: System, p: Pid, request: Request, draw: Draw, fault: Fault, index: Index)
    requires y.open == Free && p !in y.between && Draft(request, draw).Some? && !Begins(index, request, draw)
    requires fault != DiesBeforeReconcile && Reconciled(y.durable.index, ReadAll(y.durable.files)) == Ok(index)
    ensures Acts(y, Steps(p, request, draw, fault)) ==
      System(LeftBy(y.durable, request, draw, fault, index), y.between, Free)
  {
    AllActs(y, p, request, draw);
    DoneReconcile(y, p, index);
    EndedBegin(y, p, index, request, draw, FailAppend);
    EndedBegin(y, p, index, request, draw, Commit);
    EndedBegin(y, p, index, request, draw, DieOpen);
  }

  /** From any state in which the lock is free, the steps of one writer alone leave exactly what its
      attempt leaves, under every fault, and leave the other writers where they were. */
  lemma SoloIsAttempt(y: System, p: Pid, request: Request, draw: Draw, fault: Fault)
    requires y.open == Free && p !in y.between && Draft(request, draw).Some?
    ensures Acts(y, Steps(p, request, draw, fault)) ==
      System(Recorded(y.durable, request, draw, fault).0, y.between, Free)
  {
    var merged := Reconciled(y.durable.index, ReadAll(y.durable.files));
    AttemptForm(y.durable, request, draw, fault);
    if fault != DiesBeforeReconcile {
      if merged.Ok? {
        if Begins(merged.value, request, draw) {
          OpenedSteps(y, p, request, draw, fault, merged.value);
        } else {
          RefusedSteps(y, p, request, draw, fault, merged.value);
        }
      } else {
        EndedSteps(y, p, request, draw, fault);
      }
    }
  }
}
