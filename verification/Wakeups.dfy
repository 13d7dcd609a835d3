/** No lost wake-up: every event a workflow waits for is inside the history of
    some workflow task enqueued since the restart, whatever crash came before. */
module Wakeups {
  import opened Basics
  import opened History
  import opened Durable
  import opened Statuses
  import opened Ledger
  import opened Protocol

  /** Events the workflow waits for. */
  predicate Waking(e: Event)
  {
    e.ActivityCompleted? || e.ActivityFailed? || e.Signaled? || e.ChildStarted?
  }

  /** The j-th event of h, with all before it, is in one of the enqueued
      histories. */
  ghost predicate Shipped(h: seq<HistoryEvent>, j: nat, enqueued: seq<seq<HistoryEvent>>)
    requires j < |h|
  {
    exists i :: 0 <= i < |enqueued| && h[..j + 1] <= enqueued[i]
  }

  /** Every waking event of h is inside one of the enqueued histories. */
  ghost predicate Covered(h: seq<HistoryEvent>, enqueued: seq<seq<HistoryEvent>>)
  {
    forall j: nat :: j < |h| && Waking(h[j].ev) ==> Shipped(h, j, enqueued)
  }

  ghost predicate Awake(st: State)
  {
    st.recovered && Open(st.store) ==> Covered(st.store.history, st.enqueued)
  }

  /** An event that wakes nobody, appended or put over the last one. */
  lemma CoveredAppend(h: seq<HistoryEvent>, n: nat, e: HistoryEvent, enqueued: seq<seq<HistoryEvent>>)
    requires Covered(h, enqueued) && n <= |h| && !Waking(e.ev)
    ensures Covered(h[..n] + [e], enqueued)
  {
    var h' := h[..n] + [e];
    forall j: nat | j < |h'| && Waking(h'[j].ev) ensures Shipped(h', j, enqueued) {
      assert h'[j] == h[j] && h'[..j + 1] == h[..j + 1];
      assert Shipped(h, j, enqueued);
    }
  }

  /** A task carrying the whole history covers it. */
  lemma EnqueueCovers(st: State)
    requires Open(st.store)
    ensures Awake(Enqueue(st))
  {
    var st' := Enqueue(st);
    assert st'.enqueued[|st.enqueued|] == st.store.history;
    forall j: nat | j < |st'.store.history| ensures Shipped(st'.store.history, j, st'.enqueued) {
      assert st'.store.history[..j + 1] <= st'.enqueued[|st.enqueued|];
    }
  }

  lemma ScheduleWakes(st: State, k: nat, spec: ActivitySpec)
    requires Sound(st.store) && Awake(st) && k !in st.store.acts && st.store.row.Some?
    ensures Awake(Store(st, ScheduleWrites(st.store, k, spec)))
  {
    var s := st.store;
    ScheduleSafe(s, k, spec);
    var n := s.row.value.historyLen;
    var first := HistoryEvent(n + 1, ActivityScheduled(k, Placed(s, spec)));
    var second := HistoryEvent(n + 2, ActivityStarted(k, 1));
    if st.recovered && Open(s) {
      CoveredAppend(s.history, n, first, st.enqueued);
      CoveredAppend(s.history[..n] + [first], n + 1, second, st.enqueued);
    }
  }

  /** The events a command appends without enqueueing a task wake nobody. */
  lemma CommandWakes(st: State, c: Command, m: Minted)
    requires Sound(st.store) && Awake(st)
    ensures Awake(ApplyCommand(st, c, m))
  {
    var s := st.store;
    match c {
      case CompleteWorkflow(result) => CloseSafe(s, CompletedWith(result));
      case FailWorkflow(failure) => CloseSafe(s, FailedWith(failure));
      case AckCanceled(reason) => CloseSafe(s, CanceledBy(reason));
      case ContinueAsNew(_) => CloseSafe(s, ContinuedAs(m.newRun));
      case ScheduleActivity(k, spec) =>
        if k !in s.acts {
          if s.row.Some? {
            ScheduleWakes(st, k, spec);
          } else {
            SafeOne(s, PutAct(k, Record(Placed(s, spec), ActScheduled, 1, None, None)));
          }
        }
      case StartChild(k, child) =>
        if child.workflowType != "" && !ChildRecorded(s.history, k) {
          EventSafe(s, ChildStarted(k, ChildOf(m, k)));
          var st1 := Store(st, CommandWrites(s, c, m));
          if Open(st1.store) { EnqueueCovers(st1); }
        }
    }
  }

  lemma {:induction false} CommandsWake(st: State, cs: seq<Command>, m: Minted)
    requires Sound(st.store) && Awake(st)
    ensures Awake(ApplyCommands(st, cs, m))
    decreases |cs|
  {
    if cs != [] {
      CommandSafe(st.store, cs[0], m);
      ApplyCommandWrites(st, cs[0], m);
      CommandWakes(st, cs[0], m);
      CommandsWake(ApplyCommand(st, cs[0], m), cs[1..], m);
    }
  }

  lemma RespondWakes(st: State, k: nat, resp: Response)
    requires Sound(st.store) && Awake(st)
    ensures Awake(Respond(st, k, resp))
  {
    CompletionSafe(st.store, k, resp);
    if Judge(st.store, k, resp).Finished? && Open(Recorded(st, k, resp).store) {
      EnqueueCovers(Recorded(st, k, resp));
    }
  }

  lemma CancelWakes(st: State, reason: Payload, subscribed: bool)
    requires Sound(st.store) && Awake(st)
    ensures Awake(Do(st, Cancel(reason, subscribed)))
  {
    var s, st' := st.store, Do(st, Cancel(reason, subscribed));
    if Open(s) && !s.row.value.status.Canceling? {
      var ev, n := CancelRequested(reason), s.row.value.historyLen;
      var requested := AppendWrites(s.row.value, ev);
      AppendSafe(s, ev);
      var s1 := CommitAll(s, requested);
      if subscribed {
        var w := PutRow(Bump(s.row.value).(status := Canceling));
        SafeOne(s1, w);
        CommitConcat(s, requested, [w]);
        if st.recovered { CoveredAppend(s.history, n, HistoryEvent(n + 1, ev), st.enqueued); }
      } else {
        CloseSafe(s1, CanceledBy(reason));
        CommitConcat(s, requested, CloseWrites(s1, CanceledBy(reason)));
      }
    }
  }

  /** A dispatch appends an event that wakes nobody. */
  lemma {:induction false} DispatchCovered(s: RunStore, k: nat, enqueued: seq<seq<HistoryEvent>>)
    requires Sound(s) && k in s.acts && !Done(s.acts[k])
    ensures var s' := CommitAll(s, FireTimerWrites(s, k));
            (Open(s') ==> Open(s)) && (Open(s) && Covered(s.history, enqueued) ==> Covered(s'.history, enqueued))
  {
    if s.row.Some? {
      var n := s.row.value.historyLen;
      DispatchSafe(s, k);
      if Covered(s.history, enqueued) {
        CoveredAppend(s.history, n, HistoryEvent(n + 1, ActivityStarted(k, s.acts[k].attempt)), enqueued);
      }
    } else {
      SafeOne(s, PutAct(k, s.acts[k].(status := ActStarted)));
    }
  }

  lemma TimerWakes(st: State, t: nat)
    requires Sound(st.store) && Awake(st) && t in st.drivers && st.drivers[t].Timer?
    ensures Awake(Do(st, FireTimer(t)))
  {
    var s, k := st.store, st.drivers[t].seq_;
    if k in s.acts && !Done(s.acts[k]) { DispatchCovered(s, k, st.enqueued); }
  }

  lemma RecoverWakes(st: State, order: seq<nat>)
    requires Sound(st.store) && Lists(order, st.store.acts)
    ensures Awake(Do(st, Recover(order)))
  {
    var st1 := Store(st, RecoverWrites(st.store, order)).(recovered := true);
    if Open(st.store) {
      RestartsSafe(st.store, st.store.acts, order);
      DriveAllKeeps(st1, order);
      EnqueueCovers(DriveAll(st1, order));
    } else if st.store.indexed {
      SafeOne(st.store, DelIndex);
    }
  }

  lemma ReportedWakes(st: State, token: nat, resp: Response)
    requires Sound(st.store) && Awake(st)
    ensures Awake(Do(st, RespondActivity(token, resp)))
  {
    if token in st.drivers && st.drivers[token].Token? {
      RespondWakes(st.(drivers := st.drivers - {token}), st.drivers[token].seq_, resp);
    }
  }

  lemma SignalWakes(st: State, name: string, payload: Payload)
    requires Sound(st.store) && Awake(st)
    ensures Awake(Do(st, Signal(name, payload)))
  {
    if Open(st.store) {
      AppendSafe(st.store, Signaled(name, payload));
      EnqueueCovers(Store(st, OpWrites(st, Signal(name, payload))));
    }
  }

  lemma StepWakes(st: State, step: Step)
    requires Sound(st.store) && Awake(st) && Allowed(AnyCut, st, step)
    ensures Awake(Exec(st, step))
  {
    if step.Does? {
      match step.op {
        case Start(queue, input) =>
          StartSafe(st.store, queue, input);
          EnqueueCovers(Store(st, StartWrites(queue, input)));
        case RespondWorkflow(token, cs, m) =>
            if token in st.tasks { CommandsWake(st.(tasks := st.tasks - {token}), cs, m); }
        case RespondActivity(token, resp) => ReportedWakes(st, token, resp);
        case FireTimer(t) => if t in st.drivers && st.drivers[t].Timer? { TimerWakes(st, t); }
        case Signal(name, payload) => SignalWakes(st, name, payload);
        case Cancel(reason, subscribed) => CancelWakes(st, reason, subscribed);
        case SweepCanceling(reason) => CloseSafe(st.store, CanceledBy(reason));
        case Terminate(reason) => CloseSafe(st.store, TerminatedBy(reason));
        case Recover(order) => RecoverWakes(st, order);
      }
    }
  }

  lemma {:induction false} RunWakes(st: State, steps: seq<Step>, st': State)
    requires Sound(st.store) && Awake(st) && Leads(AnyCut, st, steps, st')
    ensures Awake(st')
    decreases |steps|
  {
    if steps != [] {
      StepSound(st, steps[0]);
      StepWakes(st, steps[0]);
      RunWakes(Exec(st, steps[0]), steps[1..], st');
    }
  }

  /** In every reachable state of a recovered server, with a crash between any two
      writes, each completion, failure, signal and child start of an open run lies
      at its place inside the history of a workflow task enqueued since the
      restart. */
  lemma {:induction false} NoLostWakeup(steps: seq<Step>, st: State)
    requires Leads(AnyCut, INITIAL, steps, st) && st.recovered && Open(st.store)
    ensures forall j: nat :: j < |st.store.history| && Waking(st.store.history[j].ev) ==>
            Shipped(st.store.history, j, st.enqueued)
  {
    RunWakes(INITIAL, steps, st);
  }

  /** With crashes only between operations those histories are prefixes of the
      run's history. */
  lemma {:induction false} SnapshotsArePrefixes(steps: seq<Step>, st: State, i: nat)
    requires Leads(BetweenOperations, INITIAL, steps, st) && i < |st.enqueued|
    ensures st.enqueued[i] <= st.store.history
  {
    RunBasis(INITIAL, steps, st);
  }
}
