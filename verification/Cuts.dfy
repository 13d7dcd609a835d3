/** Crashes inside an operation that a replay cannot notice: what they leave is
    settled, an event the row does not count being one that tells a replay nothing. */
module Cuts {
  import opened Basics
  import opened History
  import opened Durable
  import opened Statuses
  import opened Ledger

  // -------------------------------------------------- what writes never undo

  /** The events the row counts. */
  function Core(s: RunStore): seq<HistoryEvent>
  {
    if s.row.Some? && s.row.value.historyLen <= |s.history| then s.history[..s.row.value.historyLen] else []
  }

  /** From s to s', the events the row counts, the specs and closed records, and
      the run's being ended all stand. */
  ghost predicate Keeps(s: RunStore, s': RunStore)
  {
    && (s.row.Some? ==> s'.row.Some? && s'.row.value.taskQueue == s.row.value.taskQueue)
    && Core(s) <= Core(s')
    && (forall k :: k in s.acts ==> k in s'.acts && s'.acts[k].spec == s.acts[k].spec)
    && (forall k :: k in s.acts && Done(s.acts[k]) ==> s'.acts[k] == s.acts[k])
    && (Ended(s) ==> Ended(s'))
  }

  lemma OkKept(s: RunStore, w: Write)
    requires Sound(s) && Ok(s, w)
    ensures Keeps(s, Commit(s, w))
  {
    if w.PutEvent? {
      PutAtEnd(s.history, HistoryEvent(w.id, w.ev));
      var n := s.row.value.historyLen;
      assert (s.history[..w.id - 1] + [HistoryEvent(w.id, w.ev)])[..n] == s.history[..n];
    }
  }

  lemma KeepsTransitive(a: RunStore, b: RunStore, c: RunStore)
    requires Keeps(a, b) && Keeps(b, c)
    ensures Keeps(a, c)
  {
  }

  /** However an operation is cut, the events its row counted, specs and closed
      records stand. */
  lemma {:induction false} SafeKept(s: RunStore, ws: seq<Write>, n: nat)
    requires Sound(s) && Safe(s, ws) && n <= |ws|
    ensures Keeps(s, CommitAll(s, ws[..n]))
    decreases n
  {
    if n > 0 {
      OkKeeps(s, ws[0]);
      OkKept(s, ws[0]);
      SafeKept(Commit(s, ws[0]), ws[1..], n - 1);
      assert ws[..n][1..] == ws[1..][..n - 1];
      KeepsTransitive(s, Commit(s, ws[0]), CommitAll(s, ws[..n]));
    }
  }

  // ------------------------------------------------------------ settled stores

  /** The events a replay reads: the input, the outcomes and the children. */
  predicate Telling(e: Event) { e.WorkflowStarted? || IsOutcome(e) || e.ChildStarted? }

  /** The run began with its input, and an event the row does not count yet tells
      a replay nothing. */
  ghost predicate Settled(s: RunStore)
  {
    && Sound(s)
    && (s.row.None? ==> s.acts == map[])
    && (s.row.Some? ==>
          && s.row.value.historyLen >= 1 && s.history[0].ev.WorkflowStarted?
          && (|s.history| > s.row.value.historyLen ==> !Telling(s.history[s.row.value.historyLen].ev)))
  }

  predicate Tells(w: Write) { w.PutEvent? && Telling(w.ev) }

  /** One write leaves a settled store exactly when it is not a telling event. */
  lemma OkSettled(s: RunStore, w: Write)
    requires Settled(s) && s.row.Some? && Ok(s, w)
    ensures Settled(Commit(s, w)) <==> !Tells(w)
    ensures Sound(Commit(s, w)) && Commit(s, w).row.Some?
  {
    OkKeeps(s, w);
    if w.PutEvent? { PutAtEnd(s.history, HistoryEvent(w.id, w.ev)); }
  }

  /** An event and the row that counts it leave a settled store. */
  lemma PairSettled(s: RunStore, e: Write, r: Write)
    requires Settled(s) && s.row.Some? && e.PutEvent? && Ok(s, e)
    requires r.PutRow? && r.row.historyLen == e.id && Ok(Commit(s, e), r)
    ensures Settled(Commit(Commit(s, e), r)) && Commit(Commit(s, e), r).row.Some?
  {
    OkSettled(s, e);
    OkKeeps(Commit(s, e), r);
    PutAtEnd(s.history, HistoryEvent(e.id, e.ev));
  }

  // ------------------------------------------------------- events and their rows

  /** Every event is followed at once by the row that counts it, and none is the
      start of a run. */
  ghost predicate Followed(ws: seq<Write>)
  {
    forall i :: 0 <= i < |ws| && ws[i].PutEvent? ==>
      && i + 1 < |ws| && ws[i + 1].PutRow? && ws[i + 1].row.historyLen == ws[i].id
      && !ws[i].ev.WorkflowStarted?
  }

  lemma FollowedConcat(a: seq<Write>, b: seq<Write>)
    requires Followed(a) && Followed(b)
    ensures Followed(a + b)
  {
    var c := a + b;
    forall i | 0 <= i < |c| && c[i].PutEvent?
      ensures i + 1 < |c| && c[i + 1].PutRow? && c[i + 1].row.historyLen == c[i].id && !c[i].ev.WorkflowStarted?
    {
      if i < |a| {
        assert c[i + 1] == a[i + 1];
      } else {
        assert c[i] == b[i - |a|] && c[i + 1] == b[i - |a| + 1];
      }
    }
  }

  lemma FollowedTail(ws: seq<Write>, n: nat)
    requires Followed(ws) && n <= |ws|
    ensures Followed(ws[n..])
  {
  }

  lemma PastTwo(ws: seq<Write>, n: nat)
    requires 2 <= n <= |ws|
    ensures ws[1..][1..] == ws[2..] && ws[1..][..n - 1][0] == ws[1] && ws[1..][..n - 1][1..] == ws[2..][..n - 2]
  {
    assert ws[1..][..n - 1] == ws[1..n] && ws[1..n][1..] == ws[2..n] && ws[2..][..n - 2] == ws[2..n];
  }

  /** A cut leaves a settled store exactly when the last write made was not a
      telling event. */
  lemma {:induction false} SettledCut(s: RunStore, ws: seq<Write>, n: nat)
    requires Settled(s) && s.row.Some? && Safe(s, ws) && Followed(ws) && n <= |ws|
    ensures Settled(CommitAll(s, ws[..n])) <==> n == 0 || !Tells(ws[n - 1])
    decreases n
  {
    if n > 0 {
      var s1 := Commit(s, ws[0]);
      OkSettled(s, ws[0]);
      assert ws[..n][1..] == ws[1..][..n - 1];
      if !Tells(ws[0]) {
        FollowedTail(ws, 1);
        SettledCut(s1, ws[1..], n - 1);
      } else if n > 1 {
        assert ws[1..][0] == ws[1];
        PairSettled(s, ws[0], ws[1]);
        FollowedTail(ws, 2);
        PastTwo(ws, n);
        SettledCut(Commit(s1, ws[1]), ws[2..], n - 2);
      }
    }
  }

  /** Made whole, they leave a settled store that takes nothing back. */
  lemma {:induction false} WholeSettled(s: RunStore, ws: seq<Write>)
    requires Settled(s) && s.row.Some? && Safe(s, ws) && Followed(ws)
    ensures Settled(CommitAll(s, ws)) && Keeps(s, CommitAll(s, ws))
  {
    assert ws[..|ws|] == ws;
    SettledCut(s, ws, |ws|);
    SafeKept(s, ws, |ws|);
  }

  // ------------------------------------------------------------- each operation

  lemma AppendFollowed(row: Row, ev: Event)
    requires !ev.WorkflowStarted?
    ensures Followed(AppendWrites(row, ev))
  {
  }

  lemma CloseFollowed(s: RunStore, how: Closing)
    ensures Followed(CloseWrites(s, how))
  {
    if Open(s) {
      var row := s.row.value.(status := ClosedStatus(how));
      AppendFollowed(row, Closed(how));
      FollowedConcat([PutRow(row), DelIndex], AppendWrites(row, Closed(how)));
    }
  }

  lemma DispatchFollowed(row: Row, k: nat, rec: Record)
    ensures Followed(DispatchWrites(row, k, rec))
  {
    AppendFollowed(row, ActivityStarted(k, rec.attempt));
    FollowedConcat([PutAct(k, rec.(status := ActStarted))], AppendWrites(row, ActivityStarted(k, rec.attempt)));
  }

  lemma ScheduleFollowed(s: RunStore, k: nat, spec: ActivitySpec)
    ensures Followed(ScheduleWrites(s, k, spec))
  {
    if k !in s.acts && s.row.Some? {
      var rec := Record(Placed(s, spec), ActScheduled, 1, None, None);
      var scheduled := AppendWrites(s.row.value, ActivityScheduled(k, rec.spec));
      AppendFollowed(s.row.value, ActivityScheduled(k, rec.spec));
      FollowedConcat([PutAct(k, rec)], scheduled);
      DispatchFollowed(Bump(s.row.value), k, rec);
      FollowedConcat([PutAct(k, rec)] + scheduled, DispatchWrites(Bump(s.row.value), k, rec));
    }
  }

  lemma CompletionFollowed(s: RunStore, k: nat, resp: Response)
    ensures Followed(CompletionWrites(s, k, resp))
  {
    var v := Judge(s, k, resp);
    if v.Finished? && s.row.Some? {
      AppendFollowed(s.row.value, v.ev);
      FollowedConcat([PutAct(k, v.rec)], AppendWrites(s.row.value, v.ev));
    }
  }

  lemma CancelFollowed(s: RunStore, reason: Payload, subscribed: bool)
    ensures Followed(CancelWrites(s, reason, subscribed))
  {
    if Open(s) && !s.row.value.status.Canceling? {
      var requested := AppendWrites(s.row.value, CancelRequested(reason));
      AppendFollowed(s.row.value, CancelRequested(reason));
      if subscribed {
        FollowedConcat(requested, [PutRow(Bump(s.row.value).(status := Canceling))]);
      } else {
        CloseFollowed(CommitAll(s, requested), CanceledBy(reason));
        FollowedConcat(requested, CloseWrites(CommitAll(s, requested), CanceledBy(reason)));
      }
    }
  }

  lemma {:induction false} RestartsFollowed(acts: map<nat, Record>, order: seq<nat>)
    requires forall k :: k in order ==> k in acts
    ensures Followed(Restarts(acts, order))
    decreases |order|
  {
    if order != [] {
      RestartsFollowed(acts, order[1..]);
      FollowedConcat([PutAct(order[0], acts[order[0]].(status := ActStarted))], Restarts(acts, order[1..]));
    }
  }

  lemma CommandFollowed(s: RunStore, c: Command, m: Minted)
    ensures Followed(CommandWrites(s, c, m))
  {
    match c {
      case CompleteWorkflow(result) => CloseFollowed(s, CompletedWith(result));
      case FailWorkflow(failure) => CloseFollowed(s, FailedWith(failure));
      case AckCanceled(reason) => CloseFollowed(s, CanceledBy(reason));
      case ContinueAsNew(_) => CloseFollowed(s, ContinuedAs(m.newRun));
      case ScheduleActivity(k, spec) => ScheduleFollowed(s, k, spec);
      case StartChild(k, child) => if s.row.Some? { AppendFollowed(s.row.value, ChildStarted(k, ChildOf(m, k))); }
    }
  }

  lemma {:induction false} CommandsFollowed(s: RunStore, cs: seq<Command>, m: Minted)
    ensures Followed(CommandsWrites(s, cs, m))
    decreases |cs|
  {
    if cs != [] {
      var ws := CommandWrites(s, cs[0], m);
      CommandFollowed(s, cs[0], m);
      CommandsFollowed(CommitAll(s, ws), cs[1..], m);
      FollowedConcat(ws, CommandsWrites(CommitAll(s, ws), cs[1..], m));
    }
  }

  lemma OpFollowed(st: State, op: Op)
    requires !op.Start? && (op.Recover? ==> forall k :: k in op.order ==> k in st.store.acts)
    ensures Followed(OpWrites(st, op))
  {
    var s := st.store;
    match op {
      case RespondWorkflow(_, cs, m) => CommandsFollowed(s, cs, m);
      case RespondActivity(token, resp) =>
          if token in st.drivers { CompletionFollowed(s, st.drivers[token].seq_, resp); }
      case FireTimer(t) =>
        if t in st.drivers && st.drivers[t].seq_ in s.acts && s.row.Some? {
          DispatchFollowed(s.row.value, st.drivers[t].seq_, s.acts[st.drivers[t].seq_]);
        }
      case Signal(name, payload) => if Open(s) { AppendFollowed(s.row.value, Signaled(name, payload)); }
      case Cancel(reason, subscribed) => CancelFollowed(s, reason, subscribed);
      case SweepCanceling(reason) => CloseFollowed(s, CanceledBy(reason));
      case Terminate(reason) => CloseFollowed(s, TerminatedBy(reason));
      case Recover(order) => RestartsFollowed(s.acts, order);
    }
  }

  // ------------------------------------------------------------------- states

  /** A history some task was sent: counted events, then at most one that tells a
      replay nothing. */
  ghost predicate AsOf(h: seq<HistoryEvent>, core: seq<HistoryEvent>)
  {
    || (h != [] && h <= core)
    || (|h| >= 2 && h[..|h| - 1] <= core && !Telling(h[|h| - 1].ev))
  }

  ghost predicate TasksFit(tasks: map<nat, seq<HistoryEvent>>, s: RunStore)
  {
    forall t :: t in tasks ==> AsOf(tasks[t], Core(s))
  }

  /** A settled store, and tasks that carry what was history when they were
      enqueued. */
  ghost predicate Footing(st: State)
  {
    && Settled(st.store) && TasksFit(st.tasks, st.store)
    && (st.store.row.None? ==> st.tasks == map[] && st.drivers == map[])
  }

  lemma HistoryAsOf(s: RunStore)
    requires Settled(s) && s.row.Some?
    ensures AsOf(s.history, Core(s))
  {
    var n := s.row.value.historyLen;
    assert |s.history| == n ==> s.history == s.history[..n];
    assert |s.history| == n + 1 ==> s.history[..|s.history| - 1] == s.history[..n];
  }

  lemma TasksKept(tasks: map<nat, seq<HistoryEvent>>, tasks': map<nat, seq<HistoryEvent>>, s: RunStore, s': RunStore)
    requires TasksFit(tasks, s) && Core(s) <= Core(s')
    requires forall t :: t in tasks' ==> (t in tasks && tasks'[t] == tasks[t]) || AsOf(tasks'[t], Core(s'))
    ensures TasksFit(tasks', s')
  {
    forall t | t in tasks' ensures AsOf(tasks'[t], Core(s')) {
      if t in tasks && tasks'[t] == tasks[t] {
        assert AsOf(tasks[t], Core(s));
      }
    }
  }

  /** One more write list, and perhaps a task for what is then history. */
  lemma StoreFooting(st: State, st': State)
    requires Footing(st) && st.store.row.Some? && Settled(st'.store) && Keeps(st.store, st'.store)
    requires forall t :: t in st'.tasks ==>
               (t in st.tasks && st'.tasks[t] == st.tasks[t]) || st'.tasks[t] == st'.store.history
    ensures Footing(st')
  {
    HistoryAsOf(st'.store);
    TasksKept(st.tasks, st'.tasks, st.store, st'.store);
  }

  lemma CommandFooting(st: State, c: Command, m: Minted)
    requires Footing(st) && st.store.row.Some?
    ensures Footing(ApplyCommand(st, c, m)) && ApplyCommand(st, c, m).store.row.Some?
  {
    CommandSafe(st.store, c, m);
    CommandFollowed(st.store, c, m);
    WholeSettled(st.store, CommandWrites(st.store, c, m));
    ApplyCommandWrites(st, c, m);
    StoreFooting(st, ApplyCommand(st, c, m));
  }

  lemma {:induction false} CommandsFooting(st: State, cs: seq<Command>, m: Minted)
    requires Footing(st) && st.store.row.Some?
    ensures Footing(ApplyCommands(st, cs, m))
    decreases |cs|
  {
    if cs != [] {
      CommandFooting(st, cs[0], m);
      CommandsFooting(ApplyCommand(st, cs[0], m), cs[1..], m);
    }
  }

  lemma RespondTasks(st: State, k: nat, resp: Response)
    ensures var st' := Respond(st, k, resp);
            forall t :: t in st'.tasks ==>
              (t in st.tasks && st'.tasks[t] == st.tasks[t]) || st'.tasks[t] == st'.store.history
  {
  }

  /** Every other operation adds at most a task for the history it leaves. */
  lemma DoTasks(st: State, op: Op)
    requires Possible(st, op) && !op.RespondWorkflow?
    ensures var st' := Do(st, op);
            forall t :: t in st'.tasks ==>
              (t in st.tasks && st'.tasks[t] == st.tasks[t]) || st'.tasks[t] == st'.store.history
  {
    match op {
      case RespondActivity(token, resp) =>
        if token in st.drivers && st.drivers[token].Token? {
          RespondTasks(st.(drivers := st.drivers - {token}), st.drivers[token].seq_, resp);
        }
      case Recover(order) => DriveAllKeeps(Store(st, OpWrites(st, op)).(recovered := true), order);
      case Start(_, _) =>
      case FireTimer(_) =>
      case Signal(_, _) =>
      case Cancel(_, _) =>
      case SweepCanceling(_) =>
      case Terminate(_) =>
    }
  }

  lemma DoFooting(st: State, op: Op)
    requires Footing(st) && Possible(st, op)
    ensures Footing(Do(st, op))
  {
    if op.Start? {
      StartFooting(st, op.queue, op.input);
    } else if st.store.row.None? {
      NothingDone(st, op);
    } else if op.RespondWorkflow? {
      if op.token in st.tasks { CommandsFooting(st.(tasks := st.tasks - {op.token}), op.commands, op.minted); }
    } else {
      OpSafe(st, op);
      OpFollowed(st, op);
      WholeSettled(st.store, OpWrites(st, op));
      DoWrites(st, op);
      DoTasks(st, op);
      StoreFooting(st, Do(st, op));
    }
  }

  lemma StartFooting(st: State, queue: string, input: Payload)
    requires Footing(st) && st.store == EMPTY
    ensures Footing(Do(st, Start(queue, input)))
  {
    StartSafe(st.store, queue, input);
    HistoryAsOf(CommitAll(st.store, StartWrites(queue, input)));
  }

  /** Before there is a row only recovery does anything: it drops the entry. */
  lemma NothingThere(st: State, op: Op)
    requires Footing(st) && st.store.row.None? && !op.Start? && Possible(st, op)
    ensures OpWrites(st, op) == if op.Recover? && st.store.indexed then [DelIndex] else []
    ensures st.store == EMPTY.(indexed := st.store.indexed)
  {
    assert st.tasks == map[] && st.drivers == map[];
  }

  lemma NothingDone(st: State, op: Op)
    requires Footing(st) && st.store.row.None? && !op.Start? && Possible(st, op)
    ensures Footing(Do(st, op))
  {
    NothingThere(st, op);
    SafeOne(st.store, DelIndex);
    assert st.tasks == map[] && st.drivers == map[];
  }

  // ------------------------------------------------------------------ the cuts

  /** The crash does not fall right after an outcome or a child start, nor inside
      a start once its row is written. */
  predicate CleanCut(st: State, op: Op, cut: nat)
    requires op.Recover? ==> forall k :: k in op.order ==> k in st.store.acts
  {
    var ws := OpWrites(st, op);
    cut == 0 || cut >= |ws| || (if op.Start? then cut == 1 else !Tells(ws[cut - 1]))
  }

  lemma {:induction false} StartCuts(s: RunStore, queue: string, input: Payload, cut: nat)
    requires s == EMPTY && 0 < cut < |StartWrites(queue, input)|
    ensures Settled(CommitAll(s, StartWrites(queue, input)[..cut])) <==> cut == 1
  {
    var ws, row := StartWrites(queue, input), Row(Running, 0, queue);
    SafeOne(s, PutIndex);
    SafeTwo(s, PutIndex, PutRow(row));
    if cut == 1 {
      assert ws[..1] == [PutIndex];
    } else if cut == 2 {
      assert ws[..2] == [PutIndex, PutRow(row)];
    } else {
      assert ws[..3] == [PutIndex, PutRow(row)] + [ws[2]] && [ws[2]][1..] == [];
      CommitConcat(s, [PutIndex, PutRow(row)], [ws[2]]);
    }
  }

  /** Exactly the clean crashes leave a settled store. */
  lemma CleanCutIsSettled(st: State, op: Op, cut: nat)
    requires Footing(st) && Possible(st, op) && cut <= |OpWrites(st, op)|
    ensures CleanCut(st, op, cut) <==> Settled(CommitAll(st.store, OpWrites(st, op)[..cut]))
  {
    var s, ws := st.store, OpWrites(st, op);
    assert ws[..0] == [] && ws[..|ws|] == ws;
    if op.Start? {
      StartSafe(s, op.queue, op.input);
      if 0 < cut < |ws| { StartCuts(s, op.queue, op.input, cut); }
    } else if s.row.None? {
      NothingThere(st, op);
      SafeOne(s, DelIndex);
    } else {
      OpSafe(st, op);
      OpFollowed(st, op);
      SettledCut(s, ws, cut);
    }
  }

  lemma CutFooting(st: State, op: Op, cut: nat)
    requires Footing(st) && Possible(st, op) && CleanCut(st, op, cut)
    ensures Footing(CrashIn(st, op, cut))
  {
    var ws := OpWrites(st, op);
    CleanCutIsSettled(st, op, if cut <= |ws| then cut else |ws|);
  }

  /** The ways a crash tears a run: right after an outcome, right after a child
      start, and inside a start right after its row or its event. */
  datatype Tear = AfterCompleted | AfterFailed | AfterChild | StartAfterRow | StartAfterEvent

  predicate Tears(tear: Tear, st: State, op: Op, cut: nat)
    requires op.Recover? ==> forall k :: k in op.order ==> k in st.store.acts
  {
    if op.Start? then (tear.StartAfterRow? && cut == 2) || (tear.StartAfterEvent? && cut == 3)
    else
      var ws := OpWrites(st, op);
      && 0 < cut <= |ws| && ws[cut - 1].PutEvent?
      && match ws[cut - 1].ev
         case ActivityCompleted(_, _) => tear.AfterCompleted?
         case ActivityFailed(_, _) => tear.AfterFailed?
         case ChildStarted(_, _) => tear.AfterChild?
         case _ => false
  }

  /** A crash is clean exactly when it tears in none of these ways. */
  lemma CleanIffNoTear(st: State, op: Op, cut: nat)
    requires op.Recover? ==> forall k :: k in op.order ==> k in st.store.acts
    ensures CleanCut(st, op, cut) <==> forall tear :: !Tears(tear, st, op, cut)
  {
    if !op.Start? {
      OpFollowed(st, op);
      var ws := OpWrites(st, op);
      if 0 < cut <= |ws| && Tells(ws[cut - 1]) {
        var tear := match ws[cut - 1].ev
                    case ActivityCompleted(_, _) => AfterCompleted
                    case ActivityFailed(_, _) => AfterFailed
                    case _ => AfterChild;
        assert Tears(tear, st, op, cut);
      }
    } else {
      assert Tears(StartAfterRow, st, op, cut) <==> cut == 2;
      assert Tears(StartAfterEvent, st, op, cut) <==> cut == 3;
    }
  }
}
