/** One driver per open activity: across responses, retries, timers and a crash
    followed by recovery, each unfinished activity of an open run has exactly
    one live dispatch token or armed retry timer. */
module Drivers {
  import opened Basics
  import opened History
  import opened Durable
  import opened Statuses
  import opened Ledger
  import opened Protocol

  type Acts = map<nat, Record>

  predicate Unfinished(acts: Acts, k: nat) { k in acts && !Done(acts[k]) }

  ghost predicate Driven(drivers: map<nat, Driver>, k: nat)
  {
    exists d :: d in drivers && drivers[d].seq_ == k
  }

  /** No two drivers for one activity, and none for an activity with nothing
      left to do. */
  ghost predicate NoExtraDriver(acts: Acts, drivers: map<nat, Driver>, next: nat)
  {
    && (forall d, d' :: d in drivers && d' in drivers && drivers[d].seq_ == drivers[d'].seq_ ==> d == d')
    && (forall d :: d in drivers ==> d < next && Unfinished(acts, drivers[d].seq_))
  }

  ghost predicate AllDriven(acts: Acts, drivers: map<nat, Driver>)
  {
    forall k :: Unfinished(acts, k) ==> Driven(drivers, k)
  }

  /** Exactly one driver. */
  ghost predicate OneDriver(drivers: map<nat, Driver>, k: nat)
  {
    exists d :: d in drivers && drivers[d].seq_ == k && forall e :: e in drivers && drivers[e].seq_ == k ==> e == d
  }

  ghost predicate DriverInvariant(st: State)
  {
    && NoExtraDriver(st.store.acts, st.drivers, st.next)
    && (st.recovered && Open(st.store) ==> AllDriven(st.store.acts, st.drivers))
    && (!st.recovered ==> st.drivers == map[])
  }

  // ------------------------------------------------ the four kinds of change

  /** The same activities are unfinished, but perhaps for k. */
  ghost predicate SameBut(acts: Acts, acts': Acts, k: nat)
  {
    forall j :: j != k ==> (Unfinished(acts, j) <==> Unfinished(acts', j))
  }

  /** A driver for k appears where there was none. */
  lemma Adds(acts: Acts, acts': Acts, drivers: map<nat, Driver>, next: nat, k: nat, d: Driver)
    requires NoExtraDriver(acts, drivers, next) && SameBut(acts, acts', k)
    requires d.seq_ == k && !Driven(drivers, k) && Unfinished(acts', k)
    ensures NoExtraDriver(acts', drivers[next := d], next + 1)
    ensures (forall j :: Unfinished(acts, j) && j != k ==> Driven(drivers, j)) ==> AllDriven(acts', drivers[next := d])
  {
    var drivers' := drivers[next := d];
    assert drivers'[next].seq_ == k;
    forall j | Driven(drivers, j) ensures Driven(drivers', j) {
      var e :| e in drivers && drivers[e].seq_ == j;
      assert e in drivers' && drivers'[e].seq_ == j;
    }
    forall e | e in drivers' && e != next ensures drivers'[e].seq_ != k {
      assert e in drivers;
    }
  }

  /** The driver of k goes. */
  lemma Drops(acts: Acts, acts': Acts, drivers: map<nat, Driver>, next: nat, t: nat)
    requires NoExtraDriver(acts, drivers, next) && t in drivers && SameBut(acts, acts', drivers[t].seq_)
    ensures NoExtraDriver(acts', drivers - {t}, next) && !Driven(drivers - {t}, drivers[t].seq_)
    ensures AllDriven(acts, drivers) ==>
              forall j :: Unfinished(acts', j) && j != drivers[t].seq_ ==> Driven(drivers - {t}, j)
  {
    forall j | Driven(drivers, j) && j != drivers[t].seq_ ensures Driven(drivers - {t}, j) {
      var d :| d in drivers && drivers[d].seq_ == j;
      assert d in drivers - {t};
    }
  }

  lemma Unchanged(acts: Acts, acts': Acts, drivers: map<nat, Driver>, next: nat, next': nat)
    requires NoExtraDriver(acts, drivers, next) && next <= next'
    requires forall j :: Unfinished(acts, j) <==> Unfinished(acts', j)
    ensures NoExtraDriver(acts', drivers, next')
    ensures AllDriven(acts, drivers) ==> AllDriven(acts', drivers)
  {
  }

  /** Unfinished activities may appear while the run is not open. */
  lemma Widens(acts: Acts, acts': Acts, drivers: map<nat, Driver>, next: nat)
    requires NoExtraDriver(acts, drivers, next) && forall j :: Unfinished(acts, j) ==> Unfinished(acts', j)
    ensures NoExtraDriver(acts', drivers, next)
  {
  }

  // ----------------------------------------------------------- each operation

  /** The activities a command changes, and whether the run stays open. */
  lemma {:induction false} CommandActs(s: RunStore, c: Command, m: Minted)
    requires Sound(s)
    ensures var s' := CommitAll(s, CommandWrites(s, c, m));
            && (Open(s') ==> Open(s)) && (s.row.Some? ==> s'.row.Some?)
            && (c.ScheduleActivity? && c.seq_ !in s.acts ==>
                  Unfinished(s'.acts, c.seq_) && SameBut(s.acts, s'.acts, c.seq_))
            && (!(c.ScheduleActivity? && c.seq_ !in s.acts) ==> s'.acts == s.acts)
  {
    match c {
      case CompleteWorkflow(result) => CloseSafe(s, CompletedWith(result));
      case FailWorkflow(failure) => CloseSafe(s, FailedWith(failure));
      case AckCanceled(reason) => CloseSafe(s, CanceledBy(reason));
      case ContinueAsNew(_) => CloseSafe(s, ContinuedAs(m.newRun));
      case ScheduleActivity(k, spec) =>
        ScheduleSafe(s, k, spec);
        if k !in s.acts && s.row.None? { SafeOne(s, PutAct(k, Record(Placed(s, spec), ActScheduled, 1, None, None))); }
      case StartChild(k, child) =>
        if child.workflowType != "" && !ChildRecorded(s.history, k) { EventSafe(s, ChildStarted(k, ChildOf(m, k))); }
    }
  }

  lemma CommandDrivers(st: State, c: Command, m: Minted)
    requires Sound(st.store) && DriverInvariant(st) && st.recovered
    ensures var st' := ApplyCommand(st, c, m);
            DriverInvariant(st') && st'.recovered
  {
    CommandActs(st.store, c, m);
    var st' := ApplyCommand(st, c, m);
    if c.ScheduleActivity? && c.seq_ !in st.store.acts {
      if st.store.row.Some? {
        Adds(st.store.acts, st'.store.acts, st.drivers, st.next, c.seq_, Token(c.seq_));
      } else {
        Widens(st.store.acts, st'.store.acts, st.drivers, st.next);
      }
    } else {
      Unchanged(st.store.acts, st'.store.acts, st.drivers, st.next, st'.next);
    }
  }

  lemma {:induction false} CommandsDrivers(st: State, cs: seq<Command>, m: Minted)
    requires Sound(st.store) && DriverInvariant(st) && st.recovered
    ensures DriverInvariant(ApplyCommands(st, cs, m))
    decreases |cs|
  {
    if cs != [] {
      CommandSafe(st.store, cs[0], m);
      ApplyCommandWrites(st, cs[0], m);
      CommandDrivers(st, cs[0], m);
      CommandsDrivers(ApplyCommand(st, cs[0], m), cs[1..], m);
    }
  }

  /** What a response does to the records and to the run's being open. */
  lemma {:induction false} CompletionShape(s: RunStore, k: nat, resp: Response)
    requires Sound(s)
    ensures var s', v := CommitAll(s, CompletionWrites(s, k, resp)), Judge(s, k, resp);
            && (Open(s') <==> Open(s))
            && s'.acts == if v.Ignored? then s.acts else s.acts[k := v.rec]
  {
    CompletionSafe(s, k, resp);
  }

  lemma RetriedDrivers(st: State, t: nat, resp: Response)
    requires Sound(st.store) && DriverInvariant(st) && t in st.drivers
             && Judge(st.store, st.drivers[t].seq_, resp).Retried?
    ensures DriverInvariant(Respond(st.(drivers := st.drivers - {t}), st.drivers[t].seq_, resp))
  {
    var k := st.drivers[t].seq_;
    var st' := Respond(st.(drivers := st.drivers - {t}), k, resp);
    CompletionShape(st.store, k, resp);
    Drops(st.store.acts, st.store.acts, st.drivers, st.next, t);
    Adds(st.store.acts, st'.store.acts, st.drivers - {t}, st.next, k, Timer(k));
  }

  lemma IgnoredDrivers(st: State, t: nat, resp: Response)
    requires DriverInvariant(st) && t in st.drivers && Judge(st.store, st.drivers[t].seq_, resp).Ignored?
    ensures DriverInvariant(Respond(st.(drivers := st.drivers - {t}), st.drivers[t].seq_, resp))
  {
    Drops(st.store.acts, st.store.acts, st.drivers, st.next, t);
  }

  lemma FinishedDrivers(st: State, t: nat, resp: Response)
    requires Sound(st.store) && DriverInvariant(st) && t in st.drivers
             && Judge(st.store, st.drivers[t].seq_, resp).Finished?
    ensures DriverInvariant(Respond(st.(drivers := st.drivers - {t}), st.drivers[t].seq_, resp))
  {
    var k := st.drivers[t].seq_;
    var acts' := CommitAll(st.store, CompletionWrites(st.store, k, resp)).acts;
    CompletionShape(st.store, k, resp);
    Drops(st.store.acts, acts', st.drivers, st.next, t);
    Unchanged(acts', acts', st.drivers - {t}, st.next, st.next + 1);
  }

  lemma RespondDrivers(st: State, t: nat, resp: Response)
    requires Sound(st.store) && DriverInvariant(st) && t in st.drivers
    ensures DriverInvariant(Respond(st.(drivers := st.drivers - {t}), st.drivers[t].seq_, resp))
  {
    match Judge(st.store, st.drivers[t].seq_, resp) {
      case Ignored => IgnoredDrivers(st, t, resp);
      case Retried(_) => RetriedDrivers(st, t, resp);
      case Finished(_, _) => FinishedDrivers(st, t, resp);
    }
  }

  lemma {:induction false} TimerShape(s: RunStore, k: nat)
    requires Sound(s) && Unfinished(s.acts, k)
    ensures var s' := CommitAll(s, FireTimerWrites(s, k));
            (Open(s') <==> Open(s)) && s'.acts == s.acts[k := s.acts[k].(status := ActStarted)]
  {
    if s.row.None? {
      SafeOne(s, PutAct(k, s.acts[k].(status := ActStarted)));
    } else {
      DispatchSafe(s, k);
    }
  }

  lemma TimerDrivers(st: State, t: nat)
    requires Sound(st.store) && DriverInvariant(st) && t in st.drivers && st.drivers[t].Timer?
    ensures DriverInvariant(Do(st, FireTimer(t)))
  {
    if st.store.row.Some? {
      TimerDispatched(st, t);
    } else {
      var acts' := Do(st, FireTimer(t)).store.acts;
      TimerShape(st.store, st.drivers[t].seq_);
      Drops(st.store.acts, acts', st.drivers, st.next, t);
    }
  }

  lemma TimerDispatched(st: State, t: nat)
    requires Sound(st.store) && DriverInvariant(st) && t in st.drivers && st.drivers[t].Timer? && st.store.row.Some?
    ensures DriverInvariant(Do(st, FireTimer(t)))
  {
    var k := st.drivers[t].seq_;
    TimerShape(st.store, k);
    Drops(st.store.acts, st.store.acts, st.drivers, st.next, t);
    Adds(st.store.acts, Do(st, FireTimer(t)).store.acts, st.drivers - {t}, st.next, k, Token(k));
  }

  lemma StillDrivers(st: State, st': State)
    requires DriverInvariant(st) && st'.store.acts == st.store.acts && st'.drivers == st.drivers && st'.next >= st.next
    requires st'.recovered == st.recovered && (Open(st'.store) ==> Open(st.store))
    ensures DriverInvariant(st')
  {
    Unchanged(st.store.acts, st'.store.acts, st.drivers, st.next, st'.next);
  }

  // ----------------------------------------------------------------- recovery

  /** Recovery adds one token per unfinished activity of an open run. */
  ghost predicate Recovered(st: State, st': State, order: seq<nat>)
  {
    && (forall k :: Unfinished(st.store.acts, k) <==> Unfinished(st'.store.acts, k))
    && (forall d :: d in st'.drivers <==> d in st.drivers || st.next <= d < st.next + |order|)
    && (forall d :: d in st.drivers ==> st'.drivers[d] == st.drivers[d])
    && (forall d :: st.next <= d < st.next + |order| ==> st'.drivers[d] == Token(order[d - st.next]))
    && st'.next >= st.next + |order|
    && st'.recovered
  }

  lemma RecoverShape(st: State, order: seq<nat>)
    requires Sound(st.store) && Open(st.store) && Lists(order, st.store.acts)
    requires forall d :: d in st.drivers ==> d < st.next
    ensures Recovered(st, Do(st, Recover(order)), order)
  {
    RestartsSafe(st.store, st.store.acts, order);
    RecoverTokens(st, order);
  }

  lemma {:induction false} RecoverIs(st: State, order: seq<nat>)
    requires Open(st.store) && st.store.indexed && forall k :: k in order ==> k in st.store.acts
    ensures var st1 := Store(st, RecoverWrites(st.store, order)).(recovered := true);
            && Do(st, Recover(order)) == Enqueue(DriveAll(st1, order))
            && st1.drivers == st.drivers && st1.next == st.next
  {
  }

  lemma RecoverTokens(st: State, order: seq<nat>)
    requires Sound(st.store) && Open(st.store) && Lists(order, st.store.acts)
    requires forall d :: d in st.drivers ==> d < st.next
    requires forall k ::
               Unfinished(st.store.acts, k) <==> Unfinished(CommitAll(st.store, RecoverWrites(st.store, order)).acts, k)
    ensures Recovered(st, Do(st, Recover(order)), order)
  {
    RecoverIs(st, order);
    DriveAllDrives(Store(st, RecoverWrites(st.store, order)).(recovered := true), order);
  }

  lemma RecoveredDrives(st: State, st': State, order: seq<nat>)
    requires Recovered(st, st', order) && Lists(order, st.store.acts)
    ensures AllDriven(st'.store.acts, st'.drivers)
  {
    forall k | Unfinished(st'.store.acts, k) ensures Driven(st'.drivers, k) {
      assert k in order;
      var i :| 0 <= i < |order| && order[i] == k;
      assert st.next <= st.next + i < st.next + |order|;
      assert st'.drivers[st.next + i] == Token(order[i]);
    }
  }

  /** The listener accepts requests before recovery runs. One driver per
      activity survives recovery exactly when no request served in between has
      given an unfinished activity a driver already. */
  lemma RecoveryKeepsOneDriver(st: State, order: seq<nat>)
    requires Sound(st.store) && Open(st.store) && Lists(order, st.store.acts)
    requires NoExtraDriver(st.store.acts, st.drivers, st.next)
    ensures var st' := Do(st, Recover(order));
            && AllDriven(st'.store.acts, st'.drivers)
            && (NoExtraDriver(st'.store.acts, st'.drivers, st'.next) <==> st.drivers == map[])
  {
    var st' := Do(st, Recover(order));
    RecoverShape(st, order);
    RecoveredDrives(st, st', order);
    RecoveredExtra(st, st', order);
  }

  lemma RecoveredExtra(st: State, st': State, order: seq<nat>)
    requires Recovered(st, st', order) && Lists(order, st.store.acts)
    requires NoExtraDriver(st.store.acts, st.drivers, st.next)
    ensures NoExtraDriver(st'.store.acts, st'.drivers, st'.next) <==> st.drivers == map[]
  {
    if st.drivers == map[] {
      forall d | d in st'.drivers ensures d < st'.next && Unfinished(st'.store.acts, st'.drivers[d].seq_) {
        assert st'.drivers[d] == Token(order[d - st.next]);
        assert order[d - st.next] in order;
      }
    } else {
      var d :| d in st.drivers;
      var k := st.drivers[d].seq_;
      assert k in order;
      var i :| 0 <= i < |order| && order[i] == k;
      assert st.next <= st.next + i < st.next + |order|;
      assert st'.drivers[st.next + i] == Token(order[i]);
      assert st'.drivers[d].seq_ == k;
    }
  }

  // ---------------------------------------------------------------- every run

  lemma {:induction false} CancelShape(s: RunStore, reason: Payload, subscribed: bool)
    requires Sound(s)
    ensures var s' := CommitAll(s, CancelWrites(s, reason, subscribed)); s'.acts == s.acts && (Open(s') ==> Open(s))
  {
    if Open(s) && !s.row.value.status.Canceling? {
      var ev := CancelRequested(reason);
      var requested := AppendWrites(s.row.value, ev);
      AppendSafe(s, ev);
      var s1 := CommitAll(s, requested);
      if subscribed {
        var w := PutRow(Bump(s.row.value).(status := Canceling));
        SafeOne(s1, w);
        CommitConcat(s, requested, [w]);
      } else {
        CloseSafe(s1, CanceledBy(reason));
        CommitConcat(s, requested, CloseWrites(s1, CanceledBy(reason)));
      }
    }
  }

  lemma DoDrivers(st: State, op: Op)
    requires Sound(st.store) && DriverInvariant(st) && Allowed(QuietBoot, st, Does(op))
    ensures DriverInvariant(Do(st, op))
  {
    var s := st.store;
    match op {
      case Start(queue, input) =>
        StartSafe(s, queue, input);
        assert st.drivers == map[];
      case RespondWorkflow(token, cs, m) =>
        if token in st.tasks { CommandsDrivers(st.(tasks := st.tasks - {token}), cs, m); }
      case RespondActivity(token, resp) =>
        if token in st.drivers && st.drivers[token].Token? { RespondDrivers(st, token, resp); }
      case FireTimer(t) =>
        if t in st.drivers && st.drivers[t].Timer? { TimerDrivers(st, t); }
      case Signal(name, payload) =>
        if Open(s) { AppendSafe(s, Signaled(name, payload)); StillDrivers(st, Do(st, op)); }
      case Cancel(reason, subscribed) => CancelShape(s, reason, subscribed); StillDrivers(st, Do(st, op));
      case SweepCanceling(reason) => CloseSafe(s, CanceledBy(reason)); StillDrivers(st, Do(st, op));
      case Terminate(reason) => CloseSafe(s, TerminatedBy(reason)); StillDrivers(st, Do(st, op));
      case Recover(order) => RecoverDrivers(st, order);
    }
  }

  lemma RecoverDrivers(st: State, order: seq<nat>)
    requires Sound(st.store) && Lists(order, st.store.acts) && st.drivers == map[]
    ensures DriverInvariant(Do(st, Recover(order)))
  {
    if Open(st.store) {
      RecoverShape(st, order);
      RecoveryKeepsOneDriver(st, order);
    } else if st.store.indexed {
      SafeOne(st.store, DelIndex);
    }
  }

  lemma StepDrivers(st: State, step: Step)
    requires Sound(st.store) && DriverInvariant(st) && Allowed(QuietBoot, st, step)
    ensures DriverInvariant(Exec(st, step))
  {
    match step {
      case Does(op) => DoDrivers(st, op);
      case Crashes(op, cut) =>
    }
  }

  lemma {:induction false} RunDrivers(st: State, steps: seq<Step>, st': State)
    requires Sound(st.store) && DriverInvariant(st) && Leads(QuietBoot, st, steps, st')
    ensures DriverInvariant(st')
    decreases |steps|
  {
    if steps != [] {
      StepSound(st, steps[0]);
      StepDrivers(st, steps[0]);
      RunDrivers(Exec(st, steps[0]), steps[1..], st');
    }
  }

  /** In every reachable state of a recovered server, with a crash between any two
      writes, each unfinished activity of an open run has exactly one driver, and
      a finished one has none. */
  lemma {:induction false} OneDriverPerActivity(steps: seq<Step>, st: State)
    requires Leads(QuietBoot, INITIAL, steps, st) && st.recovered && Open(st.store)
    ensures forall k :: k in st.store.acts && !Done(st.store.acts[k]) ==> OneDriver(st.drivers, k)
    ensures forall k :: k in st.store.acts && Done(st.store.acts[k]) ==> !Driven(st.drivers, k)
  {
    RunDrivers(INITIAL, steps, st);
    forall k | Unfinished(st.store.acts, k) ensures OneDriver(st.drivers, k) {
      var d :| d in st.drivers && st.drivers[d].seq_ == k;
    }
  }
}
