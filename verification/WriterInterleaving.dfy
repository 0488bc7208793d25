/** Several writers on one machine. SQLite's writer lock serializes the two transactions of every
    writer, but a writer may sit between its own two, and may die or fail anywhere. */
module WriterInterleaving {
  import opened Wrappers
  import opened Events
  import opened LocalLedger
  import opened ImportBatch
  import opened ShardDir
  import opened LocalWriter
  import opened WriterRuns
  import opened WriterTheorems

  type Pid = nat

  /** What the holder of the writer lock has done in its event transaction. */
  datatype Transaction =
    | Free
    | Inserted(pid: Pid, work: Index, event: Event)
    | Appended(pid: Pid, work: Index, event: Event)

  /** The durable state, the writers between their reconcile commit and their event BEGIN, and the
      open event transaction. */
  datatype System = System(durable: State, between: set<Pid>, open: Transaction)

  datatype Action =
    | Reconcile(pid: Pid)
    | Begin(pid: Pid, request: Request, draw: Draw)
    | Append
    | FailAppend
    | Commit
    | DieOpen
    | DieBetween(pid: Pid)

  const START := System(INITIAL, {}, Free)

  /** One step, if it is enabled. Both transactions need the writer lock. `DieOpen` is every loss of
      an open transaction: the death of its writer, a failed flush and a failed commit. */
  ghost function Act(y: System, action: Action): Option<System> {
    match action
    case Reconcile(p) =>
      if y.open != Free || p in y.between then None
      else
        var merged := Reconciled(y.durable.index, ReadAll(y.durable.files));
        if merged.Err? then Some(y)
        else Some(System(State(merged.value, y.durable.files), y.between + {p}, Free))
    case Begin(p, request, draw) =>
      var draft := Draft(request, draw);
      if y.open != Free || p !in y.between || draft.None? then None
      else if !SemanticGate(y.durable.index.rows, request, draft.value).Proceed? then
        Some(y.(between := y.between - {p}))
      else
        var e := Allocated(y.durable.index.cursor, draft.value, draw.stream);
        var rows := LocalLedger.Inserted(y.durable.index.rows, e);
        if !ValidEvent(e) || rows.Err? then Some(y.(between := y.between - {p}))
        else
          var work := Index(rows.value, Some(Cursor(e.Stream(), e.SeqNo() + 1)));
          Some(System(y.durable, y.between - {p}, Inserted(p, work, e)))
    case Append =>
      if !y.open.Inserted? then None
      else
        Some(System(State(y.durable.index, AppendLine(y.durable.files, y.open.event)), y.between,
                    Appended(y.open.pid, y.open.work, y.open.event)))
    case FailAppend =>
      if !y.open.Inserted? then None else Some(y.(open := Free))
    case Commit =>
      if !y.open.Appended? then None
      else Some(System(State(y.open.work, y.durable.files), y.between, Free))
    case DieOpen =>
      if y.open == Free then None else Some(y.(open := Free))
    case DieBetween(p) =>
      if p !in y.between then None else Some(y.(between := y.between - {p}))
  }

  /** When a step can be taken: a transaction needs the free writer lock, a writer begins only after its
      reconcile and reconciles once for it, and the open transaction takes its own steps in order. */
  lemma Enabled(y: System, action: Action)
    ensures Act(y, action).Some? <==>
      match action
      case Reconcile(p) => y.open.Free? && p !in y.between
      case Begin(p, request, draw) => y.open.Free? && p in y.between && Draft(request, draw).Some?
      case Append => y.open.Inserted?
      case FailAppend => y.open.Inserted?
      case Commit => y.open.Appended?
      case DieOpen => y.open.Inserted? || y.open.Appended?
      case DieBetween(p) => p in y.between
  {
  }

  /** A run: every state follows from the one before by the action between them. */
  ghost predicate IsRun(states: seq<System>, actions: seq<Action>) {
    && |states| == |actions| + 1
    && states[0] == START
    && forall i :: 0 <= i < |actions| ==> Act(states[i], actions[i]) == Some(states[i + 1])
  }

  /** No shard line is ahead of the committed index. */
  predicate NothingAhead(s: State) {
    |ReadAll(s.files)| == |s.index.rows|
  }

  // ----- the invariant -----

  /** The open transaction works on the committed index and its own event. */
  ghost predicate OpenOk(y: System, log: seq<Event>, r: nat)
    requires Rep(y.durable, log, r)
  {
    match y.open
    case Free => true
    case Inserted(_, work, e) =>
      && Continues(log[..r], e) && SemanticOk(log[..r] + [e])
      && WriterLog(log[..r] + [e]) && work == IndexOf(log[..r] + [e])
    case Appended(_, work, e) =>
      r + 1 == |log| && log[r] == e && work == IndexOf(log)
  }

  ghost predicate Inv(y: System, log: seq<Event>, r: nat) {
    Rep(y.durable, log, r) && SemanticOk(log) && OpenOk(y, log, r)
  }

  /** An append is well placed when no earlier line is still uncommitted. */
  ghost predicate WellPlaced(y: System, action: Action) {
    action.Append? ==> NothingAhead(y.durable)
  }

  lemma AheadOfRep(s: State, log: seq<Event>, r: nat)
    requires Rep(s, log, r)
    ensures NothingAhead(s) <==> r == |log|
  {
    ReadIsPermutation(s.files, log);
    RowCount(log[..r]);
  }

  /** What passes the gate and gets a free id continues the committed log. */
  lemma BegunContinues(log: seq<Event>, request: Request, draft: Event, draw: Draw)
    requires WriterLog(log) && SemanticOk(log) && Draft(request, draw) == Some(draft)
    requires SemanticGate(RowsOf(log), request, draft).Proceed? && draft.id !in RowsOf(log)
    ensures var e := Allocated(IndexOf(log).cursor, draft, draw.stream);
      && Continues(log, e) && SemanticOk(log + [e]) && WriterLog(log + [e])
      && IndexOf(log + [e]) == Index(RowsOf(log)[e.id := ToRow(e)], Some(Cursor(e.Stream(), e.SeqNo() + 1)))
  {
    var e := Allocated(IndexOf(log).cursor, draft, draw.stream);
    DraftIsValid(request, draw);
    AllocatedContinues(log, draft, draw.stream);
    PassedGate(log, request, draft, draw, e);
    WriterLogGrows(log, e);
    LogGrows(log, e);
  }

  /** A begin that passes its gate and its insert; any other gives the lock back. */
  ghost predicate Begins(index: Index, request: Request, draw: Draw) {
    && Draft(request, draw).Some?
    && Appends(index, request, Draft(request, draw).value, draw, Reliable)
  }

  lemma BeginForms(y: System, p: Pid, request: Request, draw: Draw)
    requires Act(y, Begin(p, request, draw)).Some?
    ensures var left := y.between - {p};
      Act(y, Begin(p, request, draw)).value ==
        if !Begins(y.durable.index, request, draw) then y.(between := left)
        else
          var e := Allocated(y.durable.index.cursor, Draft(request, draw).value, draw.stream);
          System(y.durable, left, Inserted(p,
            Index(y.durable.index.rows[e.id := ToRow(e)], Some(Cursor(e.Stream(), e.SeqNo() + 1))), e))
  {
  }

  lemma BeginsFreeId(index: Index, request: Request, draw: Draw)
    requires Begins(index, request, draw)
    ensures Draft(request, draw).value.id !in index.rows
    ensures SemanticGate(index.rows, request, Draft(request, draw).value).Proceed?
  {
  }

  lemma BeginKeeps(y: System, log: seq<Event>, r: nat, p: Pid, request: Request, draw: Draw)
    requires Inv(y, log, r) && Act(y, Begin(p, request, draw)).Some?
    ensures Inv(Act(y, Begin(p, request, draw)).value, log, r)
  {
    BeginForms(y, p, request, draw);
    if Begins(y.durable.index, request, draw) {
      BeginsFreeId(y.durable.index, request, draw);
      SemanticPrefix(log, r);
      BegunContinues(log[..r], request, Draft(request, draw).value, draw);
    }
  }

  lemma AppendKeeps(y: System, log: seq<Event>, r: nat)
    requires Inv(y, log, r) && y.open.Inserted? && NothingAhead(y.durable)
    ensures Inv(Act(y, Append).value, log + [y.open.event], |log|)
  {
    AheadOfRep(y.durable, log, r);
    assert log[..r] == log;
    ExtendsAhead(log, y.durable.files, y.open.event);
  }

  lemma CommitKeeps(y: System, log: seq<Event>, r: nat)
    requires Inv(y, log, r) && y.open.Appended?
    ensures Inv(Act(y, Commit).value, log, |log|)
  {
    assert log[..|log|] == log;
  }

  lemma ReconcileKeeps(y: System, log: seq<Event>, r: nat, p: Pid)
    requires Inv(y, log, r) && Act(y, Reconcile(p)).Some?
    ensures Inv(Act(y, Reconcile(p)).value, log, |log|)
  {
    Recovers(y.durable, log, r);
  }

  lemma StepKeeps(y: System, action: Action, log: seq<Event>, r: nat) returns (later: seq<Event>, k: nat)
    requires Inv(y, log, r) && Act(y, action).Some? && WellPlaced(y, action)
    ensures Inv(Act(y, action).value, later, k)
  {
    match action
    case Reconcile(p) =>
      ReconcileKeeps(y, log, r, p);
      later, k := log, |log|;
    case Begin(p, request, draw) =>
      BeginKeeps(y, log, r, p, request, draw);
      later, k := log, r;
    case Append =>
      AppendKeeps(y, log, r);
      later, k := log + [y.open.event], |log|;
    case Commit =>
      CommitKeeps(y, log, r);
      later, k := log, |log|;
    case FailAppend => later, k := log, r;
    case DieOpen => later, k := log, r;
    case DieBetween(_) => later, k := log, r;
  }

  /** An append behind an uncommitted line breaks the numbering at once. */
  lemma MisplacedAppend(y: System, log: seq<Event>, r: nat)
    requires Inv(y, log, r) && y.open.Inserted? && !NothingAhead(y.durable)
    ensures !Sequenced(ReadAll(Act(y, Append).value.durable.files))
  {
    AheadOfRep(y.durable, log, r);
    var e := y.open.event;
    var files := AppendLine(y.durable.files, e);
    AppendFollowsLog(y.durable.files, log, e);
    ReadIsPermutation(files, log + [e]);
    if HasNumber(ReadAll(files), |log| + 1) {
      var f :| f in ReadAll(files) && f.Enveloped() && f.SeqNo() == |log| + 1;
      assert f in log;
      LineFacts(log, f);
    }
  }

  lemma SequencedOfInv(y: System, log: seq<Event>, r: nat)
    requires Inv(y, log, r)
    ensures Sequenced(ReadAll(y.durable.files))
  {
    LinesSequenced(log, y.durable.files);
  }

  lemma StartInv()
    ensures Inv(START, [], 0)
  {
    InitialRep();
  }

  // ----- which runs keep the numbering -----

  ghost predicate AllWellPlaced(states: seq<System>, actions: seq<Action>, n: nat)
    requires IsRun(states, actions) && n <= |actions|
  {
    forall i :: 0 <= i < n ==> WellPlaced(states[i], actions[i])
  }

  ghost predicate AllSequenced(states: seq<System>, n: nat)
    requires n < |states|
  {
    forall i :: 0 <= i <= n ==> Sequenced(ReadAll(states[i].durable.files))
  }

  lemma RunStep(states: seq<System>, actions: seq<Action>, i: nat)
    requires IsRun(states, actions) && i < |actions|
    ensures Act(states[i], actions[i]) == Some(states[i + 1])
  {
  }

  lemma {:induction false} PlacedRunKeeps(states: seq<System>, actions: seq<Action>, n: nat)
    returns (log: seq<Event>, r: nat)
    requires IsRun(states, actions) && n <= |actions| && AllWellPlaced(states, actions, n)
    ensures Inv(states[n], log, r) && AllSequenced(states, n)
  {
    if n == 0 {
      StartInv();
      log, r := [], 0;
    } else {
      var l, k := PlacedRunKeeps(states, actions, n - 1);
      RunStep(states, actions, n - 1);
      log, r := StepKeeps(states[n - 1], actions[n - 1], l, k);
    }
    SequencedOfInv(states[n], log, r);
  }

  lemma SequencedStepIsPlaced(y: System, action: Action, z: System, log: seq<Event>, r: nat)
    requires Inv(y, log, r) && Act(y, action) == Some(z) && Sequenced(ReadAll(z.durable.files))
    ensures WellPlaced(y, action)
  {
    if !WellPlaced(y, action) {
      MisplacedAppend(y, log, r);
    }
  }

  lemma {:induction false} SequencedRunIsPlaced(states: seq<System>, actions: seq<Action>, n: nat)
    returns (log: seq<Event>, r: nat)
    requires IsRun(states, actions) && n <= |actions| && AllSequenced(states, n)
    ensures Inv(states[n], log, r) && AllWellPlaced(states, actions, n)
  {
    if n == 0 {
      StartInv();
      log, r := [], 0;
    } else {
      var l, k := SequencedRunIsPlaced(states, actions, n - 1);
      var y := states[n - 1];
      RunStep(states, actions, n - 1);
      SequencedStepIsPlaced(y, actions[n - 1], states[n], l, k);
      log, r := StepKeeps(y, actions[n - 1], l, k);
    }
  }

  /** The shards stay one stream numbered 1 to k without repetition, in every state of a run of any
      writers, exactly when no writer appends while an earlier line is still uncommitted. */
  lemma SequencedExactlyWhenPlaced(states: seq<System>, actions: seq<Action>)
    requires IsRun(states, actions)
    ensures AllSequenced(states, |actions|) <==> AllWellPlaced(states, actions, |actions|)
  {
    if AllSequenced(states, |actions|) {
      var _, _ := SequencedRunIsPlaced(states, actions, |actions|);
    }
    if AllWellPlaced(states, actions, |actions|) {
      var _, _ := PlacedRunKeeps(states, actions, |actions|);
    }
  }

  // ----- the side condition on deaths -----

  /** Nobody loses a commit after its append while another writer sits between its transactions. */
  ghost predicate Careful(y: System, action: Action) {
    action.DieOpen? && y.open.Appended? ==> y.between == {}
  }

  ghost predicate CarefulInv(y: System, log: seq<Event>, r: nat) {
    && Inv(y, log, r)
    && (y.open.Inserted? ==> r == |log|)
    && (y.open.Free? && y.between != {} ==> r == |log|)
  }

  lemma CarefulStep(y: System, action: Action, log: seq<Event>, r: nat)
    returns (later: seq<Event>, k: nat)
    requires CarefulInv(y, log, r) && Act(y, action).Some? && Careful(y, action)
    ensures WellPlaced(y, action) && CarefulInv(Act(y, action).value, later, k)
  {
    AheadOfRep(y.durable, log, r);
    match action
    case Reconcile(p) =>
      ReconcileKeeps(y, log, r, p);
      later, k := log, |log|;
    case Begin(p, request, draw) =>
      BeginKeeps(y, log, r, p, request, draw);
      later, k := log, r;
    case Append =>
      AppendKeeps(y, log, r);
      later, k := log + [y.open.event], |log|;
    case Commit =>
      CommitKeeps(y, log, r);
      later, k := log, |log|;
    case FailAppend => later, k := log, r;
    case DieOpen => later, k := log, r;
    case DieBetween(_) => later, k := log, r;
  }

  lemma {:induction false} CarefulRunKeeps(states: seq<System>, actions: seq<Action>, n: nat)
    returns (log: seq<Event>, r: nat)
    requires IsRun(states, actions) && n <= |actions|
    requires forall i :: 0 <= i < n ==> Careful(states[i], actions[i])
    ensures CarefulInv(states[n], log, r) && AllWellPlaced(states, actions, n)
  {
    if n == 0 {
      StartInv();
      log, r := [], 0;
    } else {
      var l, k := CarefulRunKeeps(states, actions, n - 1);
      RunStep(states, actions, n - 1);
      log, r := CarefulStep(states[n - 1], actions[n - 1], l, k);
    }
  }

  /** Under that condition every interleaving keeps the numbering. */
  lemma CarefulRunsStaySequenced(states: seq<System>, actions: seq<Action>)
    requires IsRun(states, actions)
    requires forall i :: 0 <= i < |actions| ==> Careful(states[i], actions[i])
    ensures AllSequenced(states, |actions|)
  {
    var _, _ := CarefulRunKeeps(states, actions, |actions|);
    SequencedExactlyWhenPlaced(states, actions);
  }

  /** Two lines with one interpretation key are one line, and so are two rows. */
  ghost predicate KeysUnique(s: State) {
    && (forall e, f | e in ReadAll(s.files) && f in ReadAll(s.files) && IsSemantic(e) && IsSemantic(f) &&
          ResultOf(e).key == ResultOf(f).key :: e == f)
    && (forall a, b | a in s.index.rows && b in s.index.rows && SameKey(s.index.rows[a], s.index.rows[b]) :: a == b)
  }

  lemma InvKeys(y: System, log: seq<Event>, r: nat)
    requires Inv(y, log, r)
    ensures KeysUnique(y.durable)
  {
    ReadIsPermutation(y.durable.files, log);
    SemanticPrefix(log, r);
    forall e, f | e in ReadAll(y.durable.files) && f in ReadAll(y.durable.files) && IsSemantic(e) && IsSemantic(f) &&
      ResultOf(e).key == ResultOf(f).key
      ensures e == f
    {
      var i := Position(log, e);
      var j := Position(log, f);
      LogKeys(log, i, j);
    }
    forall a, b | a in y.durable.index.rows && b in y.durable.index.rows &&
      SameKey(y.durable.index.rows[a], y.durable.index.rows[b])
      ensures a == b
    {
      RowKeys(log[..r], a, b);
    }
  }

  /** And with it every interpretation key names one observation, in the shards and in the index,
      however the writers interleave. */
  lemma PlacedKeysAreUnique(states: seq<System>, actions: seq<Action>, n: nat)
    requires IsRun(states, actions) && n <= |actions| && AllWellPlaced(states, actions, n)
    ensures KeysUnique(states[n].durable)
  {
    var log, r := PlacedRunKeeps(states, actions, n);
    InvKeys(states[n], log, r);
  }

  // ----- the trace without it -----

  function BeginAdd(p: Pid, id: EventId): Action {
    Begin(p, SampleAdd(id).0, SampleAdd(id).1)
  }

  /** The event that such an add gets under a number. */
  function Numbered(id: EventId, n: int): Event {
    WithEnvelope(Draft(SampleAdd(id).0, SampleAdd(id).1).value, "stream", n)
  }

  const TRACE: seq<Action> := [
    Reconcile(0), BeginAdd(0, "a"), Append, Commit,
    Reconcile(1), Reconcile(2), BeginAdd(1, "b"), Append, DieOpen,
    BeginAdd(2, "c"), Append]

  ghost predicate RepeatsOrigin(lines: seq<Event>) {
    exists e, f :: e in lines && f in lines && e.id != f.id && e.Enveloped() && f.Enveloped()
                   && e.Stream() == f.Stream() && e.SeqNo() == f.SeqNo()
  }

  function Begun(y: System, p: Pid, e: Event): System
    requires e.Enveloped()
  {
    var work := Index(y.durable.index.rows[e.id := ToRow(e)], Some(Cursor(e.Stream(), e.SeqNo() + 1)));
    System(y.durable, y.between - {p}, Inserted(p, work, e))
  }

  function Written(y: System, p: Pid, e: Event): System
    requires e.Enveloped()
  {
    var begun := Begun(y, p, e);
    System(State(y.durable.index, AppendLine(y.durable.files, e)), begun.between,
           Appended(p, begun.open.work, e))
  }

  lemma NextNumbered(log: seq<Event>, id: EventId)
    requires WriterLog(log) && (log != [] ==> log[0].Stream() == "stream")
    ensures var draft := Draft(SampleAdd(id).0, SampleAdd(id).1).value;
      Allocated(IndexOf(log).cursor, draft, "stream") == Numbered(id, |log| + 1)
  {
  }

  lemma SampleBegins(log: seq<Event>, id: EventId)
    requires WriterLog(log) && id !in RowsOf(log)
    ensures Begins(IndexOf(log), SampleAdd(id).0, SampleAdd(id).1)
  {
    var (request, draw) := SampleAdd(id);
    var draft := Draft(request, draw).value;
    AllocatedContinues(log, draft, "stream");
    PlainAddAppends(IndexOf(log), request, draft, draw, Reliable);
  }

  lemma BeginPasses(y: System, p: Pid, request: Request, draw: Draw, e: Event)
    requires y.open == Free && p in y.between && Begins(y.durable.index, request, draw)
    requires e == Allocated(y.durable.index.cursor, Draft(request, draw).value, draw.stream)
    ensures Act(y, Begin(p, request, draw)) == Some(Begun(y, p, e))
  {
  }

  lemma BegunAppends(y: System, p: Pid, e: Event)
    requires e.Enveloped()
    ensures Act(Begun(y, p, e), Append) == Some(Written(y, p, e))
  {
  }

  /** A writer between its transactions begins and appends the next number of the committed log. */
  lemma BeginsAndAppends(y: System, log: seq<Event>, p: Pid, id: EventId)
    requires WriterLog(log) && y.durable.index == IndexOf(log) && id !in RowsOf(log)
    requires log != [] ==> log[0].Stream() == "stream"
    requires y.open == Free && p in y.between
    ensures Act(y, BeginAdd(p, id)) == Some(Begun(y, p, Numbered(id, |log| + 1)))
    ensures Act(Begun(y, p, Numbered(id, |log| + 1)), Append) == Some(Written(y, p, Numbered(id, |log| + 1)))
  {
    SampleBegins(log, id);
    NextNumbered(log, id);
    BeginPasses(y, p, SampleAdd(id).0, SampleAdd(id).1, Numbered(id, |log| + 1));
    BegunAppends(y, p, Numbered(id, |log| + 1));
  }

  /** A writer that finds the shards reconciled only moves between its transactions. */
  lemma FindsReconciled(y: System, p: Pid, after: System)
    requires y.open == Free && p !in y.between
    requires Reconciled(y.durable.index, ReadAll(y.durable.files)) == Ok(y.durable.index)
    requires after.durable == y.durable && after.between == y.between + {p} && after.open == Free
    ensures Act(y, Reconcile(p)) == Some(after)
  {
  }

  lemma OneLine(e: Event)
    requires e.Enveloped() && e.SeqNo() == 1 && e.id == "a"
    ensures WriterLog([e]) && ReadAll([[e]]) == [e]
    ensures forall id :: id in RowsOf([e]) <==> id == "a"
    ensures Reconciled(IndexOf([e]), [e]) == Ok(IndexOf([e]))
  {
    assert [[e]][..0] == [] && [e][..0] == [] && [e][..1] == [e];
    LogReconciles([e], 1, [e]);
  }

  lemma FirstStates(e: Event)
    requires e == Numbered("a", 1)
    ensures var ready := System(INITIAL, {0}, Free);
      && WriterLog([e])
      && Written(ready, 0, e).durable.files == [[e]]
      && Act(Written(ready, 0, e), Commit) == Some(System(State(IndexOf([e]), [[e]]), {}, Free))
  {
    OneLine(e);
    RowsGrow([], e);
    IndexForm([e]);
    assert [] + [e] == [e] && AppendLine([], e) == [[e]];
    assert {0} - {0} == {};
  }

  lemma FirstActs(ready: System, e: Event)
    requires ready == System(INITIAL, {0}, Free) && e == Numbered("a", 1)
    ensures Act(START, Reconcile(0)) == Some(ready)
    ensures Act(ready, BeginAdd(0, "a")) == Some(Begun(ready, 0, e))
    ensures Act(Begun(ready, 0, e), Append) == Some(Written(ready, 0, e))
  {
    assert START.between + {0} == {0};
    FindsReconciled(START, 0, ready);
    BeginsAndAppends(ready, [], 0, "a");
  }

  /** The first add of the trace, alone on an empty machine. */
  lemma FirstAdd() returns (states: seq<System>)
    ensures IsRun(states, TRACE[..4])
    ensures var e := Numbered("a", 1); WriterLog([e]) && states[4] == System(State(IndexOf([e]), [[e]]), {}, Free)
  {
    var e := Numbered("a", 1);
    var ready := System(INITIAL, {0}, Free);
    FirstStates(e);
    FirstActs(ready, e);
    var done := System(State(IndexOf([e]), [[e]]), {}, Free);
    states := [START, ready, Begun(ready, 0, e), Written(ready, 0, e), done];
    FourSteps(START, ready, Begun(ready, 0, e), Written(ready, 0, e), done,
              Reconcile(0), BeginAdd(0, "a"), Append, Commit);
    FirstFour();
  }

  lemma FirstFour()
    ensures TRACE[..4] == [Reconcile(0), BeginAdd(0, "a"), Append, Commit]
  {
  }

  lemma FourSteps(y0: System, y1: System, y2: System, y3: System, y4: System,
                  a0: Action, a1: Action, a2: Action, a3: Action)
    requires y0 == START && Act(y0, a0) == Some(y1) && Act(y1, a1) == Some(y2)
    requires Act(y2, a2) == Some(y3) && Act(y3, a3) == Some(y4)
    ensures IsRun([y0, y1, y2, y3, y4], [a0, a1, a2, a3])
  {
  }

  /** Two writers reconcile, one appends and dies before its commit, the other reuses its number. */
  lemma ReusedNumber(first: System, e: Event) returns (states: seq<System>)
    requires e == Numbered("a", 1) && WriterLog([e])
    requires first == System(State(IndexOf([e]), [[e]]), {}, Free)
    ensures |states| == 8 && states[0] == first
    ensures forall i :: 0 <= i < 7 ==> Act(states[i], TRACE[i + 4]) == Some(states[i + 1])
    ensures states[7].durable.files == AppendLine(AppendLine([[e]], Numbered("b", 2)), Numbered("c", 2))
  {
    OneLine(e);
    var b, c := Numbered("b", 2), Numbered("c", 2);
    var one := System(first.durable, {1}, Free);
    var both := System(first.durable, {1, 2}, Free);
    BeginsAndAppends(both, [e], 1, "b");
    var ahead := System(Written(both, 1, b).durable, {2}, Free);
    BeginsAndAppends(ahead, [e], 2, "c");
    states := [first, one, both, Begun(both, 1, b), Written(both, 1, b), ahead,
               Begun(ahead, 2, c), Written(ahead, 2, c)];
    FindsReconciled(first, 1, one);
    FindsReconciled(one, 2, both);
    assert both.between - {1} == {2};
    assert Act(Written(both, 1, b), DieOpen) == Some(ahead);
  }

  lemma OneFile(lines: seq<Event>)
    ensures ReadAll([lines]) == lines
  {
    assert [lines][..0] == [];
  }

  lemma OneMoreLine(lines: seq<Event>, e: Event)
    requires e.ts.day == 0
    ensures AppendLine([lines], e) == [lines + [e]]
  {
  }

  lemma SharedTuple(lines: seq<Event>, e: Event, f: Event)
    requires e in lines && f in lines && e.id != f.id && e.Enveloped() && f.Enveloped()
    requires e.Stream() == f.Stream() && e.SeqNo() == f.SeqNo()
    ensures RepeatsOrigin(lines)
  {
  }

  lemma ReusedLines(e: Event)
    ensures var b, c := Numbered("b", 2), Numbered("c", 2);
      RepeatsOrigin(ReadAll(AppendLine(AppendLine([[e]], b), c)))
  {
    var b, c := Numbered("b", 2), Numbered("c", 2);
    OneMoreLine([e], b);
    OneMoreLine([e] + [b], c);
    OneFile([e] + [b] + [c]);
    assert ([e] + [b] + [c])[1] == b && ([e] + [b] + [c])[2] == c;
    SharedTuple([e] + [b] + [c], b, c);
  }

  /** Without the side condition the origin tuple of a shard line can repeat. */
  lemma CarelessRunRepeatsOrigin() returns (states: seq<System>)
    ensures IsRun(states, TRACE)
    ensures RepeatsOrigin(ReadAll(states[|TRACE|].durable.files))
    ensures exists i :: 0 <= i < |TRACE| && !Careful(states[i], TRACE[i])
  {
    var head := FirstAdd();
    var tail := ReusedNumber(head[4], Numbered("a", 1));
    ReusedLines(Numbered("a", 1));
    states := head + tail[1..];
    forall i | 0 <= i < |TRACE| ensures Act(states[i], TRACE[i]) == Some(states[i + 1]) {
      if i < 4 {
        assert TRACE[..4][i] == TRACE[i];
        assert Act(head[i], TRACE[..4][i]) == Some(head[i + 1]);
      } else {
        assert states[i] == tail[i - 4] && states[i + 1] == tail[i - 3];
      }
    }
    RepeatMeansCareless(states, TRACE);
  }

  lemma RepeatMeansCareless(states: seq<System>, actions: seq<Action>)
    requires IsRun(states, actions) && RepeatsOrigin(ReadAll(states[|actions|].durable.files))
    ensures exists i :: 0 <= i < |actions| && !Careful(states[i], actions[i])
  {
    RepeatsBreaksNumbering(ReadAll(states[|actions|].durable.files));
    if forall i :: 0 <= i < |actions| ==> Careful(states[i], actions[i]) {
      CarefulRunsStaySequenced(states, actions);
      assert false;
    }
  }

  lemma RepeatsBreaksNumbering(lines: seq<Event>)
    requires RepeatsOrigin(lines)
    ensures !Sequenced(lines)
  {
    var e, f :| e in lines && f in lines && e.id != f.id && e.Enveloped() && f.Enveloped()
                && e.Stream() == f.Stream() && e.SeqNo() == f.SeqNo();
    var i := Position(lines, e);
    var j := Position(lines, f);
    assert i < j || j < i;
  }
}
