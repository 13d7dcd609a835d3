/** What holds between operations: the store is tidy, every operation only adds
    to it, and workflow tasks carry prefixes of the history. */
module Protocol {
  import opened Basics
  import opened History
  import opened Durable
  import opened Statuses
  import opened Ledger

  // ----------------------------------------------- stores between operations

  /** Nothing of an operation is half written. */
  ghost predicate Tidy(s: RunStore)
  {
    && Sound(s)
    && (s.row.None? ==> s == EMPTY)
    && (s.row.Some? ==> |s.history| == s.row.value.historyLen >= 1 && s.history[0].ev.WorkflowStarted?)
  }

  /** s' is s with more history: nothing recorded is taken back. */
  ghost predicate Advances(s: RunStore, s': RunStore)
  {
    && Tidy(s')
    && s.history <= s'.history
    && (forall k :: k in s.acts ==> k in s'.acts && s'.acts[k].spec == s.acts[k].spec)
    && (forall k :: k in s.acts && Done(s.acts[k]) ==> s'.acts[k] == s.acts[k])
    && (s.row.Some? ==> s'.row.Some? && s'.row.value.taskQueue == s.row.value.taskQueue)
    && (Ended(s) ==> Ended(s'))
  }

  lemma AppendedAdvances(s: RunStore, s1: RunStore, row: Row, ev: Event)
    requires Tidy(s) && s.row.Some? && s1.history == s.history && row.historyLen == s.row.value.historyLen
    requires Sound(Appended(s1, row, ev))
    requires row.taskQueue == s.row.value.taskQueue && (Ended(s) ==> IsTerminal(row.status))
    requires forall k :: k in s.acts ==> k in s1.acts && s1.acts[k].spec == s.acts[k].spec
    requires forall k :: k in s.acts && Done(s.acts[k]) ==> s1.acts[k] == s.acts[k]
    ensures Advances(s, Appended(s1, row, ev))
    ensures Appended(s1, row, ev).history == s.history + [HistoryEvent(|s.history| + 1, ev)]
  {
    assert s.history[..|s.history|] == s.history;
  }

  lemma {:induction false} CloseAdvances(s: RunStore, how: Closing)
    requires Tidy(s)
    ensures var s' := CommitAll(s, CloseWrites(s, how));
            && Advances(s, s') && s'.acts == s.acts
            && s'.history == (if Open(s) then s.history + [HistoryEvent(|s.history| + 1, Closed(how))] else s.history)
            && !Open(s')
  {
    CloseSafe(s, how);
    if Open(s) {
      AppendedAdvances(s, s.(indexed := false), s.row.value.(status := ClosedStatus(how)), Closed(how));
    }
  }

  lemma {:induction false} SignalAdvances(s: RunStore, ev: Event)
    requires Tidy(s) && Open(s) && FreshEvent(s, ev)
    ensures var s' := CommitAll(s, AppendWrites(s.row.value, ev));
            && Advances(s, s') && s'.acts == s.acts
            && s'.history == s.history + [HistoryEvent(|s.history| + 1, ev)]
            && Open(s')
  {
    AppendSafe(s, ev);
    AppendedAdvances(s, s, s.row.value, ev);
  }

  lemma {:induction false} CancelingAdvances(s: RunStore, reason: Payload)
    requires Tidy(s) && Open(s) && !s.row.value.status.Canceling?
    ensures var s' := CommitAll(s, CancelWrites(s, reason, true));
            && Advances(s, s') && s'.acts == s.acts
            && s'.history == s.history + [HistoryEvent(|s.history| + 1, CancelRequested(reason))]
  {
    CancelSafe(s, reason, true);
    var ev := CancelRequested(reason);
    var requested := AppendWrites(s.row.value, ev);
    SignalAdvances(s, ev);
    var w := PutRow(Bump(s.row.value).(status := Canceling));
    SafeOne(CommitAll(s, requested), w);
    CommitConcat(s, requested, [w]);
  }

  lemma {:induction false} CanceledAdvances(s: RunStore, reason: Payload)
    requires Tidy(s) && Open(s) && !s.row.value.status.Canceling?
    ensures var s' := CommitAll(s, CancelWrites(s, reason, false));
            && Advances(s, s') && s'.acts == s.acts
            && s'.history == s.history + [HistoryEvent(|s.history| + 1, CancelRequested(reason))]
               + [HistoryEvent(|s.history| + 2, Closed(CanceledBy(reason)))]
  {
    var ev := CancelRequested(reason);
    var requested := AppendWrites(s.row.value, ev);
    SignalAdvances(s, ev);
    var s1 := CommitAll(s, requested);
    CloseAdvances(s1, CanceledBy(reason));
    CommitConcat(s, requested, CloseWrites(s1, CanceledBy(reason)));
    AdvancesTransitive(s, s1, CommitAll(s1, CloseWrites(s1, CanceledBy(reason))));
  }

  lemma {:induction false} CancelAdvances(s: RunStore, reason: Payload, subscribed: bool)
    requires Tidy(s)
    ensures var s' := CommitAll(s, CancelWrites(s, reason, subscribed));
            && Advances(s, s') && s'.acts == s.acts
            && (forall i :: |s.history| <= i < |s'.history| ==>
                  s'.history[i].ev.CancelRequested? || s'.history[i].ev == Closed(CanceledBy(reason)))
  {
    if Open(s) && !s.row.value.status.Canceling? {
      if subscribed { CancelingAdvances(s, reason); } else { CanceledAdvances(s, reason); }
    }
  }

  lemma {:induction false} ScheduleAdvances(s: RunStore, k: nat, spec: ActivitySpec)
    requires Tidy(s) && s.row.Some? && k !in s.acts
    ensures var s' := CommitAll(s, ScheduleWrites(s, k, spec));
            && Advances(s, s')
            && s'.acts == s.acts[k := Record(Placed(s, spec), ActStarted, 1, None, None)]
            && s'.history == s.history + [HistoryEvent(|s.history| + 1, ActivityScheduled(k, Placed(s, spec))),
               HistoryEvent(|s.history| + 2, ActivityStarted(k, 1))]
            && (Open(s) <==> Open(s'))
  {
    ScheduleSafe(s, k, spec);
    var rec := Record(Placed(s, spec), ActScheduled, 1, None, None);
    var s1 := s.(acts := s.acts[k := rec]);
    var s2 := Appended(s1, s.row.value, ActivityScheduled(k, rec.spec));
    assert s.history[..|s.history|] == s.history;
    assert s2.history[..|s2.history|] == s2.history;
  }

  lemma FinishAdvances(s: RunStore, k: nat, rec: Record, ev: Event)
    requires Tidy(s) && s.row.Some? && k in s.acts && !Done(s.acts[k]) && rec.spec == s.acts[k].spec
    requires Sound(Appended(s.(acts := s.acts[k := rec]), s.row.value, ev))
    ensures var s' := Appended(s.(acts := s.acts[k := rec]), s.row.value, ev);
            Advances(s, s') && s'.history == s.history + [HistoryEvent(|s.history| + 1, ev)]
  {
    AppendedAdvances(s, s.(acts := s.acts[k := rec]), s.row.value, ev);
  }

  lemma {:induction false} CompletionAdvances(s: RunStore, k: nat, resp: Response)
    requires Tidy(s)
    ensures var s', v := CommitAll(s, CompletionWrites(s, k, resp)), Judge(s, k, resp);
            && Advances(s, s')
            && (v.Ignored? ==> s' == s)
            && (v.Retried? ==> s' == s.(acts := s.acts[k := v.rec]))
            && (v.Finished? ==>
                  && s'.acts == s.acts[k := v.rec]
                  && s'.history == s.history + [HistoryEvent(|s.history| + 1, v.ev)] && (Open(s) <==> Open(s')))
  {
    match Judge(s, k, resp) {
      case Ignored =>
      case Retried(_) => RetriedAdvances(s, k, resp);
      case Finished(_, _) => FinishedAdvances(s, k, resp);
    }
  }

  lemma {:induction false} RetriedAdvances(s: RunStore, k: nat, resp: Response)
    requires Tidy(s) && Judge(s, k, resp).Retried?
    ensures var s', v := CommitAll(s, CompletionWrites(s, k, resp)), Judge(s, k, resp);
            Advances(s, s') && s' == s.(acts := s.acts[k := v.rec])
  {
    CompletionSafe(s, k, resp);
  }

  lemma {:induction false} FinishedAdvances(s: RunStore, k: nat, resp: Response)
    requires Tidy(s) && Judge(s, k, resp).Finished?
    ensures var s', v := CommitAll(s, CompletionWrites(s, k, resp)), Judge(s, k, resp);
            && Advances(s, s')
            && s'.acts == s.acts[k := v.rec] && s'.history == s.history + [HistoryEvent(|s.history| + 1, v.ev)]
               && (Open(s) <==> Open(s'))
  {
    CompletionSafe(s, k, resp);
    var v := Judge(s, k, resp);
    FinishAdvances(s, k, v.rec, v.ev);
  }

  lemma {:induction false} FireTimerAdvances(s: RunStore, k: nat)
    requires Tidy(s) && k in s.acts && !Done(s.acts[k])
    ensures var s' := CommitAll(s, FireTimerWrites(s, k));
            && Advances(s, s')
            && s'.acts == s.acts[k := s.acts[k].(status := ActStarted)]
            && s'.history == s.history + [HistoryEvent(|s.history| + 1, ActivityStarted(k, s.acts[k].attempt))]
            && (Open(s) <==> Open(s'))
  {
    DispatchSafe(s, k);
    AppendedAdvances(s, s.(acts := s.acts[k := s.acts[k].(status := ActStarted)]), s.row.value,
        ActivityStarted(k, s.acts[k].attempt));
  }

  lemma {:induction false} ChildAdvances(s: RunStore, k: nat, child: ChildRef)
    requires Tidy(s) && s.row.Some? && !ChildRecorded(s.history, k)
    ensures var s' := CommitAll(s, EventWrites(s, ChildStarted(k, child)));
            && Advances(s, s') && s'.acts == s.acts
            && s'.history == s.history + [HistoryEvent(|s.history| + 1, ChildStarted(k, child))]
            && (Open(s) <==> Open(s'))
  {
    EventSafe(s, ChildStarted(k, child));
    AppendedAdvances(s, s, s.row.value, ChildStarted(k, child));
  }

  lemma {:induction false} RecoverAdvances(s: RunStore, order: seq<nat>)
    requires Tidy(s) && Lists(order, s.acts)
    ensures var s' := CommitAll(s, RecoverWrites(s, order));
            && Advances(s, s') && s'.history == s.history && (Open(s) <==> Open(s'))
            && s'.acts.Keys == s.acts.Keys
            && (forall k :: k in s.acts ==> (Done(s'.acts[k]) <==> Done(s.acts[k])))
  {
    RecoverSafe(s, order);
    if s.indexed {
      if Open(s) {
        RestartsSafe(s, s.acts, order);
      } else {
        SafeOne(s, DelIndex);
      }
    }
  }

  /** Every operation leaves a tidy store that takes nothing back. */
  lemma {:induction false} CommandAdvances(s: RunStore, c: Command, m: Minted)
    requires Tidy(s) && s.row.Some?
    ensures Advances(s, CommitAll(s, CommandWrites(s, c, m)))
  {
    match c {
      case CompleteWorkflow(result) => CloseAdvances(s, CompletedWith(result));
      case FailWorkflow(failure) => CloseAdvances(s, FailedWith(failure));
      case AckCanceled(reason) => CloseAdvances(s, CanceledBy(reason));
      case ContinueAsNew(_) => CloseAdvances(s, ContinuedAs(m.newRun));
      case ScheduleActivity(k, spec) =>
        if k !in s.acts { ScheduleAdvances(s, k, spec); }
      case StartChild(k, child) =>
        if child.workflowType != "" && !ChildRecorded(s.history, k) { ChildAdvances(s, k, ChildOf(m, k)); }
    }
  }

  lemma {:induction false} CommandsAdvance(s: RunStore, cs: seq<Command>, m: Minted)
    requires Tidy(s) && s.row.Some?
    ensures Advances(s, CommitAll(s, CommandsWrites(s, cs, m)))
    decreases |cs|
  {
    if cs != [] {
      var ws := CommandWrites(s, cs[0], m);
      CommandAdvances(s, cs[0], m);
      CommandsAdvance(CommitAll(s, ws), cs[1..], m);
      CommitConcat(s, ws, CommandsWrites(CommitAll(s, ws), cs[1..], m));
      AdvancesTransitive(s, CommitAll(s, ws), CommitAll(s, CommandsWrites(s, cs, m)));
    }
  }

  lemma AdvancesTransitive(a: RunStore, b: RunStore, c: RunStore)
    requires Advances(a, b) && Advances(b, c)
    ensures Advances(a, c)
  {
  }

  ghost predicate Snapshots(st: State)
  {
    && (forall t :: t in st.tasks ==> t < st.next && st.tasks[t] != [] && st.tasks[t] <= st.store.history)
    && (forall i :: 0 <= i < |st.enqueued| ==> st.enqueued[i] <= st.store.history)
    && (st.store.row.None? ==> st.tasks == map[] && st.drivers == map[])
    && (forall d :: d in st.drivers ==> d < st.next)
  }

  /** Between operations: a tidy store, and tasks that carry what was history
      when they were enqueued. */
  ghost predicate Basis(st: State)
  {
    Tidy(st.store) && Snapshots(st)
  }

  lemma OpAdvances(st: State, op: Op)
    requires Basis(st) && Possible(st, op)
    ensures Advances(st.store, CommitAll(st.store, OpWrites(st, op)))
  {
    var s := st.store;
    match op {
      case Start(queue, input) => StartSafe(s, queue, input);
      case RespondWorkflow(token, cs, m) => if token in st.tasks { CommandsAdvance(s, cs, m); }
      case RespondActivity(token, resp) =>
        if token in st.drivers && st.drivers[token].Token? { CompletionAdvances(s, st.drivers[token].seq_, resp); }
      case FireTimer(t) =>
        if t in st.drivers && st.drivers[t].Timer? && TimerDispatches(st, st.drivers[t].seq_) {
          FireTimerAdvances(s, st.drivers[t].seq_);
        }
      case Signal(name, payload) => if Open(s) { SignalAdvances(s, Signaled(name, payload)); }
      case Cancel(reason, subscribed) => CancelAdvances(s, reason, subscribed);
      case SweepCanceling(reason) => CloseAdvances(s, CanceledBy(reason));
      case Terminate(reason) => CloseAdvances(s, TerminatedBy(reason));
      case Recover(order) => RecoverAdvances(s, order);
    }
  }

  /** Storing more history keeps every snapshot a prefix. */
  lemma StoreSnapshots(st: State, st': State)
    requires Snapshots(st) && Advances(st.store, st'.store) && st'.enqueued == st.enqueued
    requires forall t :: t in st'.tasks ==> t in st.tasks && st'.tasks[t] == st.tasks[t]
    requires forall d :: d in st'.drivers ==> d in st.drivers
    requires st'.next >= st.next
    ensures Snapshots(st')
  {
    if st'.store.row.None? {
      assert st'.tasks == map[] && st'.drivers == map[];
    }
  }

  lemma EnqueueSnapshots(st: State)
    requires Basis(st)
    ensures Basis(Enqueue(st))
  {
  }

  lemma CommandBasis(st: State, c: Command, m: Minted)
    requires Basis(st) && st.store.row.Some?
    ensures Basis(ApplyCommand(st, c, m)) && ApplyCommand(st, c, m).store.row.Some?
  {
    CommandAdvances(st.store, c, m);
    var st' := Store(st, CommandWrites(st.store, c, m));
    StoreSnapshots(st, st');
    EnqueueSnapshots(st');
  }

  lemma {:induction false} CommandsBasis(st: State, cs: seq<Command>, m: Minted)
    requires Basis(st) && st.store.row.Some?
    ensures Basis(ApplyCommands(st, cs, m))
    decreases |cs|
  {
    if cs != [] {
      CommandBasis(st, cs[0], m);
      CommandsBasis(ApplyCommand(st, cs[0], m), cs[1..], m);
    }
  }

  /** The store advances and a workflow task is enqueued. */
  lemma {:induction false} StoredBasis(st: State, ws: seq<Write>)
    requires Basis(st) && Advances(st.store, CommitAll(st.store, ws))
    ensures Basis(Store(st, ws)) && Basis(Enqueue(Store(st, ws)))
  {
    StoreSnapshots(st, Store(st, ws));
    EnqueueSnapshots(Store(st, ws));
  }

  lemma RecoverBasis(st: State, order: seq<nat>)
    requires Basis(st) && Possible(st, Recover(order))
    ensures Basis(Do(st, Recover(order)))
  {
    OpAdvances(st, Recover(order));
    var st1 := Store(st, OpWrites(st, Recover(order))).(recovered := true);
    StoreSnapshots(st, st1);
    if st.store.indexed && Open(st.store) {
      DriveAllDrives(st1, order);
      EnqueueSnapshots(DriveAll(st1, order));
    }
  }

  lemma RespondWorkflowBasis(st: State, token: nat, cs: seq<Command>, m: Minted)
    requires Basis(st)
    ensures Basis(Do(st, RespondWorkflow(token, cs, m)))
  {
    if token in st.tasks {
      StoreSnapshots(st, st.(tasks := st.tasks - {token}));
      CommandsBasis(st.(tasks := st.tasks - {token}), cs, m);
    }
  }

  lemma TimerBasis(st: State, t: nat)
    requires Basis(st)
    ensures Basis(Do(st, FireTimer(t)))
  {
    if t in st.drivers && st.drivers[t].Timer? {
      OpAdvances(st, FireTimer(t));
      StoreSnapshots(st, Store(st.(drivers := st.drivers - {t}), OpWrites(st, FireTimer(t))));
    }
  }

  lemma DoBasis(st: State, op: Op)
    requires Basis(st) && Possible(st, op)
    ensures Basis(Do(st, op))
  {
    match op {
      case RespondWorkflow(token, cs, m) => RespondWorkflowBasis(st, token, cs, m);
      case RespondActivity(token, resp) =>
        if token in st.drivers && st.drivers[token].Token? {
          RespondBasis(st.(drivers := st.drivers - {token}), st.drivers[token].seq_, resp);
        }
      case FireTimer(t) => TimerBasis(st, t);
      case Recover(order) => RecoverBasis(st, order);
      case _ =>
        OpAdvances(st, op);
        StoredBasis(st, OpWrites(st, op));
    }
  }

  lemma DriveSnapshots(st: State, d: Driver)
    requires Basis(st) && st.store.row.Some?
    ensures Basis(Drive(st, d))
  {
  }

  lemma RecordedBasis(st: State, k: nat, resp: Response)
    requires Basis(st)
    ensures Basis(Recorded(st, k, resp))
    ensures Judge(st.store, k, resp).Retried? ==> Recorded(st, k, resp).store.row.Some?
  {
    CompletionAdvances(st.store, k, resp);
    StoreSnapshots(st, Recorded(st, k, resp));
  }

  lemma RespondBasis(st: State, k: nat, resp: Response)
    requires Basis(st)
    ensures Basis(Respond(st, k, resp))
  {
    RecordedBasis(st, k, resp);
    match Judge(st.store, k, resp) {
      case Ignored =>
      case Retried(_) => DriveSnapshots(Recorded(st, k, resp), Timer(k));
      case Finished(_, _) => EnqueueSnapshots(Recorded(st, k, resp));
    }
  }

  lemma {:induction false} DriveAllDrives(st: State, order: seq<nat>)
    requires forall d :: d in st.drivers ==> d < st.next
    ensures var st' := DriveAll(st, order);
            && st' == st.(drivers := st'.drivers, next := st.next + |order|)
            && (forall d :: d in st'.drivers <==> d in st.drivers || st.next <= d < st.next + |order|)
            && (forall d :: d in st.drivers ==> st'.drivers[d] == st.drivers[d])
            && (forall d :: st.next <= d < st.next + |order| ==> st'.drivers[d] == Token(order[d - st.next]))
    decreases |order|
  {
    if order != [] {
      DriveAllDrives(Drive(st, Token(order[0])), order[1..]);
    }
  }

  lemma CrashBasis(st: State, op: Op, cut: nat)
    requires Basis(st) && Allowed(BetweenOperations, st, Crashes(op, cut))
    ensures Basis(CrashIn(st, op, cut))
  {
    OpAdvances(st, op);
    var ws := OpWrites(st, op);
    assert ws[..0] == [] && ws[..|ws|] == ws;
  }

  lemma StepBasis(st: State, step: Step)
    requires Basis(st) && Allowed(BetweenOperations, st, step)
    ensures Basis(Exec(st, step))
  {
    match step {
      case Does(op) => DoBasis(st, op);
      case Crashes(op, cut) => CrashBasis(st, op, cut);
    }
  }

  lemma {:induction false} RunBasis(st: State, steps: seq<Step>, st': State)
    requires Basis(st) && Leads(BetweenOperations, st, steps, st')
    ensures Basis(st')
    decreases |steps|
  {
    if steps != [] {
      StepBasis(st, steps[0]);
      RunBasis(Exec(st, steps[0]), steps[1..], st');
    }
  }

  /** Without a crash inside an operation, event ids are exactly 1 up to the
      row's history length. */
  lemma {:induction false} HistoryIsExact(steps: seq<Step>, st: State)
    requires Leads(BetweenOperations, INITIAL, steps, st)
    ensures Numbered(st.store.history)
    ensures |st.store.history| == if st.store.row.Some? then st.store.row.value.historyLen else 0
  {
    RunBasis(INITIAL, steps, st);
  }
}
