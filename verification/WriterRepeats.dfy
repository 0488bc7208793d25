/** After a repeated tuple: the shards of an interleaved run stay blocked. */
module WriterRepeats {
  import opened Wrappers
  import opened Events
  import opened LocalLedger
  import Reconcile
  import opened ShardDir
  import opened LocalWriter
  import opened WriterInterleaving

  /** The id that an action draws from the random source. */
  function DrawnId(action: Action): Option<EventId> {
    if action.Begin? then Some(action.draw.id) else None
  }

  /** Event ids are drawn once. */
  ghost predicate FreshDraws(actions: seq<Action>) {
    forall i, j | 0 <= i < j < |actions| && DrawnId(actions[i]).Some? :: DrawnId(actions[i]) != DrawnId(actions[j])
  }

  // ----- the shard directory, one line at a time -----

  lemma {:induction false} EmptyDays(files: Shards, k: nat)
    ensures ReadAll(files + seq(k, _ => [])) == ReadAll(files)
  {
    var longer := files + seq(k, _ => []);
    if k == 0 {
      assert longer == files;
    } else {
      assert longer[..|longer| - 1] == files + seq(k - 1, _ => []);
      EmptyDays(files, k - 1);
    }
  }

  lemma NewDayAdds(files: Shards, e: Event)
    requires e.ts.day >= |files|
    ensures ReadAll(AppendLine(files, e)) == ReadAll(files) + [e]
  {
    var gap := files + seq(e.ts.day - |files|, _ => []);
    EmptyDays(files, e.ts.day - |files|);
    assert AppendLine(files, e) == gap + [[e]] && (gap + [[e]])[..|gap|] == gap;
  }

  lemma EarlierDay(files: Shards, e: Event)
    requires e.ts.day < |files| - 1
    ensures var n := |files| - 1; ReadAll(AppendLine(files, e)) == ReadAll(AppendLine(files[..n], e)) + files[n]
  {
    var n := |files| - 1;
    assert AppendLine(files, e)[..n] == AppendLine(files[..n], e);
  }

  /** An append adds its line to what is read, whatever is in the directory. */
  lemma {:induction false} AppendAdds(files: Shards, e: Event)
    ensures forall f :: f in ReadAll(AppendLine(files, e)) <==> f in ReadAll(files) || f == e
    decreases |files|
  {
    var n := |files| - 1;
    if e.ts.day > n {
      NewDayAdds(files, e);
    } else if e.ts.day < n {
      AppendAdds(files[..n], e);
      EarlierDay(files, e);
    } else {
      assert AppendLine(files, e)[..n] == files[..n];
    }
  }

  // ----- what every run keeps -----

  /** Lines and rows of one id are one record, and every row has its line. */
  ghost predicate Coherent(s: State, drawn: set<EventId>) {
    && (forall e :: e in ReadAll(s.files) ==> e.id in drawn && (e.Enveloped() ==> e.SeqNo() >= 1))
    && (forall e, f :: e in ReadAll(s.files) && f in ReadAll(s.files) && e.id == f.id ==> e == f)
    && (forall id :: id in s.index.rows ==> HasLine(s, id))
  }

  ghost predicate HasLine(s: State, id: EventId)
    requires id in s.index.rows
  {
    exists e :: e in ReadAll(s.files) && e.id == id && s.index.rows[id] == ToRow(e)
  }

  /** The open transaction works on the committed rows and its own event. */
  ghost predicate OpenCoherent(y: System, drawn: set<EventId>) {
    match y.open
    case Free => true
    case Inserted(_, work, e) =>
      && LedgerOk(work) && work.rows == y.durable.index.rows[e.id := ToRow(e)]
      && e.id in drawn && (e.Enveloped() ==> e.SeqNo() >= 1)
      && (forall f :: f in ReadAll(y.durable.files) ==> f.id != e.id)
    case Appended(_, work, e) =>
      && LedgerOk(work) && work.rows == y.durable.index.rows[e.id := ToRow(e)]
      && e in ReadAll(y.durable.files)
  }

  ghost predicate Sound(y: System, drawn: set<EventId>) {
    LedgerOk(y.durable.index) && Coherent(y.durable, drawn) && OpenCoherent(y, drawn)
  }

  /** The rows and the cursor of a new event keep the ledger in order. */
  lemma WorkIsOk(index: Index, e: Event)
    requires LedgerOk(index) && LocalLedger.Inserted(index.rows, e).Ok? && e.Enveloped() && e.SeqNo() >= 1
    requires index.cursor.Some? ==> index.cursor.value == Cursor(e.Stream(), e.SeqNo())
    ensures LedgerOk(Index(index.rows[e.id := ToRow(e)], Some(Cursor(e.Stream(), e.SeqNo() + 1))))
  {
    Reconcile.InsertKeepsRows(index.rows, e);
  }

  lemma OneRecord(s: State, drawn: set<EventId>)
    requires Coherent(s, drawn)
    ensures Reconcile.OneRecordPerId(s.index.rows, ReadAll(s.files)) && Reconcile.PositiveSeqs(ReadAll(s.files))
  {
    forall e | e in ReadAll(s.files) ensures Reconcile.Agrees(s.index.rows, e) {
      if e.id in s.index.rows {
        assert HasLine(s, e.id);
      }
    }
  }

  lemma ReconcileSound(s: State, drawn: set<EventId>)
    requires LedgerOk(s.index) && Coherent(s, drawn) && Reconciled(s.index, ReadAll(s.files)).Ok?
    ensures var out := Reconciled(s.index, ReadAll(s.files)).value;
      LedgerOk(out) && Coherent(State(out, s.files), drawn)
  {
    OneRecord(s, drawn);
    Reconcile.CoherentLinesMerge(s.index, ReadAll(s.files));
    var out := Reconciled(s.index, ReadAll(s.files)).value;
    forall id | id in out.rows ensures HasLine(State(out, s.files), id) {
      if id in s.index.rows {
        assert HasLine(s, id);
      }
    }
  }

  lemma DrawnGrows(y: System, id: EventId, drawn: set<EventId>)
    requires Sound(y, drawn) && id !in drawn
    ensures Coherent(y.durable, drawn + {id})
    ensures forall f :: f in ReadAll(y.durable.files) ==> f.id != id
  {
  }

  lemma AllocatedForBegin(index: Index, request: Request, draw: Draw)
    requires Begins(index, request, draw)
    ensures var e := Allocated(index.cursor, Draft(request, draw).value, draw.stream);
      && LocalLedger.Inserted(index.rows, e).Ok? && e.Enveloped() && e.SeqNo() >= 1 && e.id == draw.id
      && (index.cursor.Some? ==> index.cursor.value == Cursor(e.Stream(), e.SeqNo()))
  {
  }

  lemma BegunOpens(y: System, p: Pid, request: Request, draw: Draw, drawn: set<EventId>)
    requires LedgerOk(y.durable.index) && draw.id in drawn && Begins(y.durable.index, request, draw)
    requires forall f :: f in ReadAll(y.durable.files) ==> f.id != draw.id
    ensures var e := Allocated(y.durable.index.cursor, Draft(request, draw).value, draw.stream);
      OpenCoherent(Begun(y, p, e), drawn)
  {
    var e := Allocated(y.durable.index.cursor, Draft(request, draw).value, draw.stream);
    AllocatedForBegin(y.durable.index, request, draw);
    WorkIsOk(y.durable.index, e);
  }

  lemma BeginSound(y: System, p: Pid, request: Request, draw: Draw, drawn: set<EventId>)
    requires Sound(y, drawn) && draw.id !in drawn && Act(y, Begin(p, request, draw)).Some?
    ensures Sound(Act(y, Begin(p, request, draw)).value, drawn + {draw.id})
  {
    BeginForms(y, p, request, draw);
    DrawnGrows(y, draw.id, drawn);
    if Begins(y.durable.index, request, draw) {
      BegunOpens(y, p, request, draw, drawn + {draw.id});
    }
  }

  lemma AppendSound(y: System, drawn: set<EventId>)
    requires Sound(y, drawn) && y.open.Inserted?
    ensures Sound(Act(y, Append).value, drawn)
  {
    var e, z := y.open.event, Act(y, Append).value;
    AppendAdds(y.durable.files, e);
    forall id | id in z.durable.index.rows ensures HasLine(z.durable, id) {
      assert HasLine(y.durable, id);
    }
  }

  lemma CommitSound(y: System, drawn: set<EventId>)
    requires Sound(y, drawn) && y.open.Appended?
    ensures Sound(Act(y, Commit).value, drawn)
  {
    var z := Act(y, Commit).value;
    forall id | id in z.durable.index.rows ensures HasLine(z.durable, id) {
      if id != y.open.event.id {
        assert HasLine(y.durable, id);
      }
    }
  }

  lemma StepSound(y: System, action: Action, drawn: set<EventId>)
    requires Sound(y, drawn) && Act(y, action).Some?
    requires DrawnId(action).Some? ==> DrawnId(action).value !in drawn
    ensures Sound(Act(y, action).value, if DrawnId(action).Some? then drawn + {DrawnId(action).value} else drawn)
    ensures forall e :: e in ReadAll(y.durable.files) ==> e in ReadAll(Act(y, action).value.durable.files)
  {
    match action
    case Reconcile(_) =>
      if Reconciled(y.durable.index, ReadAll(y.durable.files)).Ok? {
        ReconcileSound(y.durable, drawn);
      }
    case Begin(p, request, draw) => BeginSound(y, p, request, draw, drawn);
    case Append =>
      AppendSound(y, drawn);
      AppendAdds(y.durable.files, y.open.event);
    case Commit => CommitSound(y, drawn);
    case _ =>
  }

  /** The ids drawn before a step. */
  function Drawn(actions: seq<Action>, n: nat): set<EventId>
    requires n <= |actions|
  {
    if n == 0 then {}
    else
      var front := Drawn(actions, n - 1);
      if DrawnId(actions[n - 1]).Some? then front + {DrawnId(actions[n - 1]).value} else front
  }

  lemma {:induction false} DrawnBefore(actions: seq<Action>, n: nat, id: EventId)
    requires n <= |actions| && id in Drawn(actions, n)
    ensures exists i :: 0 <= i < n && DrawnId(actions[i]) == Some(id)
  {
    if DrawnId(actions[n - 1]) != Some(id) {
      DrawnBefore(actions, n - 1, id);
    }
  }

  lemma NotDrawnBefore(actions: seq<Action>, n: nat)
    requires FreshDraws(actions) && n < |actions|
    ensures DrawnId(actions[n]).Some? ==> DrawnId(actions[n]).value !in Drawn(actions, n)
  {
    if DrawnId(actions[n]).Some? && DrawnId(actions[n]).value in Drawn(actions, n) {
      DrawnBefore(actions, n, DrawnId(actions[n]).value);
    }
  }

  lemma StartSound()
    ensures Sound(START, {})
  {
  }

  lemma NextSound(states: seq<System>, actions: seq<Action>, n: nat)
    requires IsRun(states, actions) && FreshDraws(actions) && n < |actions|
    requires Sound(states[n], Drawn(actions, n))
    ensures Sound(states[n + 1], Drawn(actions, n + 1))
  {
    RunStep(states, actions, n);
    NotDrawnBefore(actions, n);
    StepSound(states[n], actions[n], Drawn(actions, n));
  }

  lemma {:induction false} RunSound(states: seq<System>, actions: seq<Action>, n: nat)
    requires IsRun(states, actions) && FreshDraws(actions) && n <= |actions|
    ensures Sound(states[n], Drawn(actions, n))
  {
    if n == 0 {
      StartSound();
    } else {
      RunSound(states, actions, n - 1);
      NextSound(states, actions, n - 1);
    }
  }

  lemma {:induction false} LinesStay(states: seq<System>, actions: seq<Action>, i: nat, j: nat, e: Event)
    requires IsRun(states, actions) && FreshDraws(actions) && i <= j <= |actions|
    requires e in ReadAll(states[i].durable.files)
    ensures e in ReadAll(states[j].durable.files)
    decreases j - i
  {
    if i < j {
      LinesStay(states, actions, i, j - 1, e);
      RunStep(states, actions, j - 1);
      if actions[j - 1].Append? {
        AppendAdds(states[j - 1].durable.files, states[j - 1].open.event);
      }
    }
  }

  // ----- blocked -----

  lemma {:induction false} ErrorOnOneStream(ix: Index, lines: seq<Event>)
    requires Reconcile.OneStream(ix.cursor, lines) && Reconciled(ix, lines).Err?
    ensures Reconciled(ix, lines) == Err(OriginTaken)
    decreases |lines|
  {
    var e, rest := lines[0], lines[1..];
    assert lines == [e] + rest && e in lines;
    Reconcile.AbsorbCases(ix, e);
    if Absorbed(ix, e).Ok? {
      Reconcile.SplitStream(ix.cursor, e, rest, Absorbed(ix, e).value.cursor);
      ErrorOnOneStream(Absorbed(ix, e).value, rest);
    }
  }

  lemma RepeatFails(ix: Index, lines: seq<Event>)
    requires LedgerOk(ix) && Reconcile.PositiveSeqs(lines) && Reconcile.OneRecordPerId(ix.rows, lines)
    requires RepeatsOrigin(lines)
    ensures Reconciled(ix, lines).Err?
    ensures Reconcile.OneStream(ix.cursor, lines) ==> Reconciled(ix, lines) == Err(OriginTaken)
  {
    Reconcile.CoherentLinesMerge(ix, lines);
    var e, f :| e in lines && f in lines && e.id != f.id && e.Enveloped() && f.Enveloped()
                && e.Stream() == f.Stream() && e.SeqNo() == f.SeqNo();
    assert Reconcile.SharesOrigin(e, f);
    if Reconcile.OneStream(ix.cursor, lines) {
      ErrorOnOneStream(ix, lines);
    }
  }

  /** Once two lines carry one tuple, no reconcile of any later state succeeds, so no writer gets
      past its first transaction again; on one stream the error is always the taken tuple. */
  lemma RepeatBlocksEveryReconcile(states: seq<System>, actions: seq<Action>, i: nat, j: nat, p: Pid)
    requires IsRun(states, actions) && FreshDraws(actions) && i <= j <= |actions|
    requires RepeatsOrigin(ReadAll(states[i].durable.files))
    ensures var s := states[j].durable;
      && Reconciled(s.index, ReadAll(s.files)).Err?
      && (Reconcile.OneStream(s.index.cursor, ReadAll(s.files)) ==>
            Reconciled(s.index, ReadAll(s.files)) == Err(OriginTaken))
    ensures Act(states[j], Action.Reconcile(p)).Some? ==> Act(states[j], Action.Reconcile(p)) == Some(states[j])
  {
    var s := states[j].durable;
    RunSound(states, actions, j);
    OneRecord(s, Drawn(actions, j));
    var e, f :| e in ReadAll(states[i].durable.files) && f in ReadAll(states[i].durable.files) && e.id != f.id
                && e.Enveloped() && f.Enveloped() && e.Stream() == f.Stream() && e.SeqNo() == f.SeqNo();
    LinesStay(states, actions, i, j, e);
    LinesStay(states, actions, i, j, f);
    RepeatFails(s.index, ReadAll(s.files));
  }
}
