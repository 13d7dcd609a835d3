/** What each operation does to a run, written out: which events its history gains,
    what its row and its records say then, and which tokens, timers and tasks there
    are. Each law holds of every sound store, whatever crash came before. */
module Effects {
  import opened Basics
  import opened History
  import opened Durable
  import opened Statuses
  import opened Ledger
  import opened Protocol
  import Retry

  /** Events under the ids after n. */
  function Numbers(n: nat, evs: seq<Event>): seq<HistoryEvent>
  {
    seq(|evs|, i requires 0 <= i < |evs| => HistoryEvent(n + 1 + i, evs[i]))
  }

  /** The run's history is the events its row counted and then these, and the row
      counts them, has this status and the same queue. */
  ghost predicate Gains(s: RunStore, s': RunStore, evs: seq<Event>, status: RunStatus)
  {
    && s.row.Some? && s.row.value.historyLen <= |s.history|
    && var n := s.row.value.historyLen;
       && s'.history == s.history[..n] + Numbers(n, evs)
       && s'.row == Some(Row(status, n + |evs|, s.row.value.taskQueue))
  }

  /** One more task, for the history as it then is. */
  ghost predicate Wakes(st: State, st': State)
  {
    && st'.tasks == st.tasks[st.next := st'.store.history] && st'.next == st.next + 1
    && st'.enqueued == st.enqueued + [st'.store.history]
  }

  ghost predicate SameTasks(st: State, st': State)
  {
    st'.tasks == st.tasks && st'.enqueued == st.enqueued
  }

  lemma AppendedGains(s: RunStore, s1: RunStore, row: Row, ev: Event)
    requires s.row.Some? && s.row.value.historyLen <= |s.history| && s1.history == s.history
    requires row.historyLen == s.row.value.historyLen && row.taskQueue == s.row.value.taskQueue
    ensures Gains(s, Appended(s1, row, ev), [ev], row.status)
  {
    assert Numbers(row.historyLen, [ev]) == [HistoryEvent(row.historyLen + 1, ev)];
  }

  lemma AppendedTwice(s: RunStore, s1: RunStore, a: Event, status: RunStatus, s2: RunStore, row: Row, b: Event)
    requires Gains(s, s1, [a], status) && s2.history == s1.history
    requires row.historyLen == s1.row.value.historyLen && row.taskQueue == s1.row.value.taskQueue
    ensures Gains(s, Appended(s2, row, b), [a, b], row.status)
  {
    var n := s.row.value.historyLen;
    assert s1.history[..n + 1] == s1.history;
    assert Numbers(n, [a, b]) == Numbers(n, [a]) + [HistoryEvent(n + 2, b)];
    assert s1.history + [HistoryEvent(n + 2, b)] == s.history[..n] + Numbers(n, [a, b]);
  }

  // ------------------------------------------------------------------- closing

  /** How a run ends and what its row says then. */
  predicate Says(how: Closing, status: RunStatus)
  {
    || (how.CompletedWith? && status == Completed)
    || (how.FailedWith? && status == Failed)
    || (how.CanceledBy? && status == Canceled)
    || (how.TerminatedBy? && status == Terminated)
    || (how.ContinuedAs? && status == ContinuedAsNew)
  }

  /** An open run is closed this way: row, closing event, no index entry; any other
      stays as it is. */
  ghost predicate Closes(s: RunStore, s': RunStore, how: Closing)
  {
    if Open(s) then
      && s'.row.Some? && Says(how, s'.row.value.status) && Gains(s, s', [Closed(how)], s'.row.value.status)
      && !s'.indexed && s'.acts == s.acts
    else s' == s
  }

  lemma {:induction false} ClosesIs(s: RunStore, how: Closing)
    requires Sound(s)
    ensures Closes(s, CommitAll(s, CloseWrites(s, how)), how)
  {
    CloseSafe(s, how);
    if Open(s) { AppendedGains(s, s.(indexed := false), s.row.value.(status := ClosedStatus(how)), Closed(how)); }
  }

  /** A command that ends the run ends it as it says. */
  lemma ClosingLaw(st: State, c: Command, m: Minted)
    requires Sound(st.store)
    ensures var st' := ApplyCommand(st, c, m);
            && (c.CompleteWorkflow? ==> Closes(st.store, st'.store, CompletedWith(c.result)))
            && (c.FailWorkflow? ==> Closes(st.store, st'.store, FailedWith(c.failure)))
            && (c.AckCanceled? ==> Closes(st.store, st'.store, CanceledBy(c.reason)))
            && (c.ContinueAsNew? ==> Closes(st.store, st'.store, ContinuedAs(m.newRun)))
            && (!c.ScheduleActivity? && !c.StartChild? ==> st' == st.(store := st'.store))
  {
    match c {
      case CompleteWorkflow(result) => ClosesIs(st.store, CompletedWith(result));
      case FailWorkflow(failure) => ClosesIs(st.store, FailedWith(failure));
      case AckCanceled(reason) => ClosesIs(st.store, CanceledBy(reason));
      case ContinueAsNew(_) => ClosesIs(st.store, ContinuedAs(m.newRun));
      case ScheduleActivity(_, _) =>
      case StartChild(_, _) =>
    }
  }

  /** An operator's termination, and the sweep of a run nobody acknowledged. */
  lemma OperatorLaw(st: State, reason: Payload)
    requires Sound(st.store)
    ensures var st' := Do(st, Terminate(reason));
            Closes(st.store, st'.store, TerminatedBy(reason)) && st' == st.(store := st'.store)
    ensures var st' := Do(st, SweepCanceling(reason));
            Closes(st.store, st'.store, CanceledBy(reason)) && st' == st.(store := st'.store)
  {
    ClosesIs(st.store, TerminatedBy(reason));
    ClosesIs(st.store, CanceledBy(reason));
  }

  // ---------------------------------------------------- starting and signalling

  lemma StartLaw(st: State, queue: string, input: Payload)
    requires st.store == EMPTY
    ensures var st' := Do(st, Start(queue, input));
            && st'.store == RunStore(true, Some(Row(Running, 1, queue)), [HistoryEvent(1, WorkflowStarted(input))],
                                     map[])
            && Wakes(st, st') && st'.drivers == st.drivers
  {
    StartSafe(st.store, queue, input);
  }

  /** A signal reaches an open run with its name and payload, and wakes it. */
  lemma SignalLaw(st: State, name: string, payload: Payload)
    requires Sound(st.store)
    ensures var s, st' := st.store, Do(st, Signal(name, payload));
            && (Open(s) ==>
                  && Gains(s, st'.store, [Signaled(name, payload)], s.row.value.status)
                  && st'.store.indexed == s.indexed && st'.store.acts == s.acts && st'.drivers == st.drivers
                  && Wakes(st, st'))
            && (!Open(s) ==> st' == st)
  {
    var s := st.store;
    if Open(s) {
      AppendSafe(s, Signaled(name, payload));
      AppendedGains(s, s, s.row.value, Signaled(name, payload));
    }
  }

  /** A cancel request is recorded once. A run somebody is subscribed to goes on as
      canceling; any other is canceled at once. */
  lemma CancelLaw(st: State, reason: Payload, subscribed: bool)
    requires Sound(st.store)
    ensures var s, st' := st.store, Do(st, Cancel(reason, subscribed));
            && (s.row.Some? && s.row.value.status == Running && subscribed ==>
                  && Gains(s, st'.store, [CancelRequested(reason)], Canceling) && st'.store.indexed == s.indexed)
            && (s.row.Some? && s.row.value.status == Running && !subscribed ==>
                  && Gains(s, st'.store, [CancelRequested(reason), Closed(CanceledBy(reason))], Canceled)
                  && !st'.store.indexed)
            && (s.row.None? || s.row.value.status != Running ==> st'.store == s)
            && st'.store.acts == s.acts && st' == st.(store := st'.store)
  {
    var s := st.store;
    if s.row.Some? && s.row.value.status == Running {
      var ev := CancelRequested(reason);
      var requested := AppendWrites(s.row.value, ev);
      AppendSafe(s, ev);
      AppendedGains(s, s, s.row.value, ev);
      var s1 := CommitAll(s, requested);
      if subscribed {
        var w := PutRow(Bump(s.row.value).(status := Canceling));
        SafeOne(s1, w);
        CommitConcat(s, requested, [w]);
      } else {
        CloseSafe(s1, CanceledBy(reason));
        CommitConcat(s, requested, CloseWrites(s1, CanceledBy(reason)));
        AppendedTwice(s, s1, ev, Running, s1.(indexed := false), s1.row.value.(status := Canceled),
                      Closed(CanceledBy(reason)));
      }
    }
  }

  // ---------------------------------------------------------------- activities

  predicate Unfinished(s: RunStore, k: nat)
  {
    k in s.acts && (s.acts[k].status == ActScheduled || s.acts[k].status == ActStarted)
  }

  /** The failure is tried again: an attempt is left, of the policy's maximum or of
      ten, and neither the failure nor the policy calls it final. */
  predicate TriedAgain(rec: Record, f: Retry.Failure)
  {
    var policy := rec.spec.retry;
    && rec.attempt < (if policy.Some? && policy.value.maxAttempts > 0 then policy.value.maxAttempts else 10)
    && !f.nonRetryable
    && (policy.Some? ==> f.code !in policy.value.nonRetryable)
  }

  /** A first-time schedule: the activity as asked for, on the run's queue unless it
      names its own; its record, both events and a token for the worker. */
  lemma ScheduleLaw(st: State, k: nat, spec: ActivitySpec, m: Minted)
    requires Sound(st.store) && st.store.row.Some?
    ensures var s, st' := st.store, ApplyCommand(st, ScheduleActivity(k, spec), m);
            var placed := spec.(taskQueue := if spec.taskQueue == "" then s.row.value.taskQueue else spec.taskQueue);
            && (k in s.acts ==> st' == st)
            && (k !in s.acts ==>
                  && Gains(s, st'.store, [ActivityScheduled(k, placed), ActivityStarted(k, 1)], s.row.value.status)
                  && st'.store.acts == s.acts[k := Record(placed, ActStarted, 1, None, None)]
                  && st'.store.indexed == s.indexed
                  && st'.drivers == st.drivers[st.next := Token(k)] && st'.next == st.next + 1 && SameTasks(st, st'))
  {
    var s := st.store;
    ScheduleSafe(s, k, spec);
    if k !in s.acts {
      var rec := Record(Placed(s, spec), ActScheduled, 1, None, None);
      var s1 := s.(acts := s.acts[k := rec]);
      AppendedGains(s, s1, s.row.value, ActivityScheduled(k, rec.spec));
      var s2 := Appended(s1, s.row.value, ActivityScheduled(k, rec.spec));
      AppendedTwice(s, s2, ActivityScheduled(k, rec.spec), s.row.value.status,
                    s2.(acts := s2.acts[k := rec.(status := ActStarted)]), s2.row.value, ActivityStarted(k, 1));
    }
  }

  /** A response to an unfinished activity of an open run, by the token it was
      dispatched under. A result is recorded as that result. A failure that is
      tried again adds no event: the next attempt's record and a timer. Any other
      failure is recorded as that failure. */
  lemma ResponseLaw(st: State, token: nat, resp: Response)
    requires Sound(st.store) && Open(st.store) && token in st.drivers && st.drivers[token].Token?
    requires Unfinished(st.store, st.drivers[token].seq_)
    ensures var s, k, st' := st.store, st.drivers[token].seq_, Do(st, RespondActivity(token, resp));
            var rec, status, left := s.acts[k], s.row.value.status, st.drivers - {token};
            && (resp.failure.None? ==>
                  && Gains(s, st'.store, [ActivityCompleted(k, resp.result)], status)
                  && st'.store.acts == s.acts[k := rec.(status := ActCompleted, result := Some(resp.result))]
                  && st'.drivers == left && Wakes(st, st'))
            && (resp.failure.Some? && TriedAgain(rec, resp.failure.value) ==>
                  && st'.store.history == s.history && st'.store.row == s.row
                  && st'.store.acts
                     == s.acts[k := rec.(attempt := rec.attempt + 1, status := ActScheduled, failure := resp.failure)]
                  && st'.drivers == left[st.next := Timer(k)] && SameTasks(st, st'))
            && (resp.failure.Some? && !TriedAgain(rec, resp.failure.value) ==>
                  && Gains(s, st'.store, [ActivityFailed(k, resp.failure.value)], status)
                  && st'.store.acts == s.acts[k := rec.(status := ActFailed, failure := resp.failure)]
                  && st'.drivers == left && Wakes(st, st'))
            && st'.store.indexed == s.indexed
  {
    var s, k := st.store, st.drivers[token].seq_;
    CompletionSafe(s, k, resp);
    var v := Judge(s, k, resp);
    if v.Finished? { AppendedGains(s, s.(acts := s.acts[k := v.rec]), s.row.value, v.ev); }
  }

  /** A response to anything else changes nothing in the store: an unknown token, a
      finished or missing activity, a run that has ended. */
  lemma LateResponseLaw(st: State, token: nat, resp: Response)
    requires token in st.drivers && st.drivers[token].Token? ==>
               !Unfinished(st.store, st.drivers[token].seq_) || (st.store.row.Some? && !Open(st.store))
    ensures var st' := Do(st, RespondActivity(token, resp));
            && st'.store == st.store && SameTasks(st, st')
            && st'.drivers ==
               if token in st.drivers && st.drivers[token].Token? then st.drivers - {token} else st.drivers
  {
  }

  /** A retry timer dispatches the attempt its activity is at, once. */
  lemma TimerLaw(st: State, t: nat)
    requires Sound(st.store) && st.store.row.Some? && t in st.drivers && st.drivers[t].Timer?
    ensures var s, k, st' := st.store, st.drivers[t].seq_, Do(st, FireTimer(t));
            && (Unfinished(s, k) ==>
                  && Gains(s, st'.store, [ActivityStarted(k, s.acts[k].attempt)], s.row.value.status)
                  && st'.store.acts == s.acts[k := s.acts[k].(status := ActStarted)]
                  && st'.drivers == (st.drivers - {t})[st.next := Token(k)])
            && (!Unfinished(s, k) ==> st'.store == s && st'.drivers == st.drivers - {t})
            && st'.store.indexed == s.indexed && SameTasks(st, st')
  {
    var s, k := st.store, st.drivers[t].seq_;
    if Unfinished(s, k) {
      DispatchSafe(s, k);
      AppendedGains(s, s.(acts := s.acts[k := s.acts[k].(status := ActStarted)]), s.row.value,
                    ActivityStarted(k, s.acts[k].attempt));
    }
  }

  // ------------------------------------------------------------------ children

  /** A child start is recorded once per number, with the child it made, and wakes
      an open run. */
  lemma ChildLaw(st: State, k: nat, child: ChildSpec, m: Minted)
    requires Sound(st.store) && st.store.row.Some?
    ensures var s, st' := st.store, ApplyCommand(st, StartChild(k, child), m);
            var known := exists i :: 0 <= i < |s.history| && s.history[i].ev.ChildStarted? && s.history[i].ev.seq_ == k;
            && (child.workflowType == "" || known ==> st' == st)
            && (child.workflowType != "" && !known ==>
                  && Gains(s, st'.store, [ChildStarted(k, ChildOf(m, k))], s.row.value.status)
                  && st'.store.acts == s.acts && st'.store.indexed == s.indexed && st'.drivers == st.drivers
                  && (if Open(s) then Wakes(st, st') else SameTasks(st, st')))
  {
    var s := st.store;
    if child.workflowType != "" && !ChildRecorded(s.history, k) {
      EventSafe(s, ChildStarted(k, ChildOf(m, k)));
      AppendedGains(s, s, s.row.value, ChildStarted(k, ChildOf(m, k)));
    }
  }

  // ------------------------------------------------------------- workflow tasks

  /** An answer consumes its token and applies its commands one after another; an
      answer under a token that is not out does nothing. */
  lemma {:induction false} AnswerLaw(st: State, token: nat, c: Command, cs: seq<Command>, m: Minted)
    ensures token !in st.tasks ==> Do(st, RespondWorkflow(token, cs, m)) == st
    ensures token in st.tasks ==> Do(st, RespondWorkflow(token, [], m)) == st.(tasks := st.tasks - {token})
    ensures token in st.tasks ==>
              Do(st, RespondWorkflow(token, [c] + cs, m))
              == ApplyCommands(ApplyCommand(st.(tasks := st.tasks - {token}), c, m), cs, m)
  {
    assert ([c] + cs)[1..] == cs;
  }

  /** A token that was handed out before is never out again once answered. */
  lemma {:induction false} TokenGone(st: State, token: nat, cs: seq<Command>, m: Minted)
    requires token < st.next && token !in st.tasks
    ensures token !in ApplyCommands(st, cs, m).tasks && st.next <= ApplyCommands(st, cs, m).next
    decreases |cs|
  {
    if cs != [] { TokenGone(ApplyCommand(st, cs[0], m), token, cs[1..], m); }
  }

  lemma AnswerOnce(st: State, token: nat, cs: seq<Command>, m: Minted)
    requires token < st.next
    ensures token !in Do(st, RespondWorkflow(token, cs, m)).tasks
  {
    if token in st.tasks { TokenGone(st.(tasks := st.tasks - {token}), token, cs, m); }
  }

  // ------------------------------------------------------------------ recovery

  /** Recovery of an indexed open run starts every unfinished activity again and
      changes nothing else in the store. An entry the row contradicts goes, and
      nothing else. */
  lemma RecoverLaw(st: State, order: seq<nat>)
    requires Sound(st.store) && Possible(st, Recover(order))
    ensures var s, s' := st.store, Do(st, Recover(order)).store;
            && s'.history == s.history && s'.row == s.row && s'.indexed == (s.indexed && Open(s))
            && s'.acts.Keys == s.acts.Keys
            && (forall k :: k in s.acts ==>
                  s'.acts[k] == if s.indexed && Open(s) && Unfinished(s, k) then s.acts[k].(status := ActStarted)
                                else s.acts[k])
  {
    DoWrites(st, Recover(order));
    var s := st.store;
    if s.indexed {
      if Open(s) { RestartsSafe(s, s.acts, order); } else { SafeOne(s, DelIndex); }
    }
  }

  /** It puts each of them under a token of its own and gives the run a task. */
  lemma RecoverDrives(st: State, order: seq<nat>)
    requires Sound(st.store) && Possible(st, Recover(order))
    ensures var s, st' := st.store, Do(st, Recover(order));
            && st'.recovered
            && (s.indexed && Open(s) ==>
                  && st'.tasks == st.tasks[st.next + |order| := s.history] && Tokens(st'.drivers, st.next, order))
            && (!(s.indexed && Open(s)) ==> SameTasks(st, st') && st'.drivers == st.drivers)
  {
    var s := st.store;
    if s.indexed && Open(s) {
      RestartsSafe(s, s.acts, order);
      var st1 := Store(st, RecoverWrites(s, order)).(recovered := true);
      DriveAllKeeps(st1, order);
      DriveAllTokens(st1, order);
    }
  }

  /** A token for each, one after another from this one on. */
  ghost predicate Tokens(drivers: map<nat, Driver>, next: nat, order: seq<nat>)
  {
    forall d :: next <= d < next + |order| ==> d in drivers && drivers[d] == Token(order[d - next])
  }

  lemma {:induction false} DriveAllTokens(st: State, order: seq<nat>)
    ensures var st' := DriveAll(st, order);
            && Tokens(st'.drivers, st.next, order)
            && (forall d :: d in st.drivers && d < st.next ==> d in st'.drivers && st'.drivers[d] == st.drivers[d])
    decreases |order|
  {
    if order != [] { DriveAllTokens(Drive(st, Token(order[0])), order[1..]); }
  }

  // -------------------------------------------------------- the row and the end

  /** In every reachable state, with a crash between any two writes: the row says
      how the run ended exactly as its closing event does. */
  lemma {:induction false} RowTellsEnd(steps: seq<Step>, st: State, i: nat)
    requires Leads(AnyCut, INITIAL, steps, st) && i < |st.store.history| && st.store.history[i].ev.Closed?
    ensures st.store.row.Some?
    ensures var how, status := st.store.history[i].ev.how, st.store.row.value.status;
            && (status == Completed <==> how.CompletedWith?)
            && (status == Failed <==> how.FailedWith?)
            && (status == Canceled <==> how.CanceledBy?)
            && (status == Terminated <==> how.TerminatedBy?)
            && (status == ContinuedAsNew <==> how.ContinuedAs?)
            && status != Running && status != Canceling && status != TimedOut
  {
    RunSound(AnyCut, INITIAL, steps, st);
    assert Backed(st.store, st.store.history[i].ev);
  }

  ghost predicate HasClosing(h: seq<HistoryEvent>) { exists i :: 0 <= i < |h| && h[i].ev.Closed? }

  /** An ended run has its closing event. */
  ghost predicate Concluded(s: RunStore) { Ended(s) ==> HasClosing(s.history) }

  lemma KeepsClosing(s: RunStore, s': RunStore)
    requires Advances(s, s') && Concluded(s) && (Ended(s') ==> Ended(s) || HasClosing(s'.history))
    ensures Concluded(s')
  {
    if Ended(s) {
      var i :| 0 <= i < |s.history| && s.history[i].ev.Closed?;
      assert s'.history[i] == s.history[i];
    }
  }

  lemma {:induction false} CloseConcludes(s: RunStore, how: Closing)
    requires Tidy(s) && Concluded(s)
    ensures Concluded(CommitAll(s, CloseWrites(s, how)))
  {
    CloseAdvances(s, how);
    if Open(s) {
      var s' := CommitAll(s, CloseWrites(s, how));
      assert s'.history[|s.history|].ev.Closed?;
    }
  }

  lemma {:induction false} CommandConcludes(s: RunStore, c: Command, m: Minted)
    requires Tidy(s) && s.row.Some? && Concluded(s)
    ensures Concluded(CommitAll(s, CommandWrites(s, c, m)))
  {
    match c {
      case CompleteWorkflow(result) => CloseConcludes(s, CompletedWith(result));
      case FailWorkflow(failure) => CloseConcludes(s, FailedWith(failure));
      case AckCanceled(reason) => CloseConcludes(s, CanceledBy(reason));
      case ContinueAsNew(_) => CloseConcludes(s, ContinuedAs(m.newRun));
      case ScheduleActivity(k, spec) =>
        if k !in s.acts {
          ScheduleAdvances(s, k, spec);
          KeepsClosing(s, CommitAll(s, CommandWrites(s, c, m)));
        }
      case StartChild(k, child) =>
        if child.workflowType != "" && !ChildRecorded(s.history, k) {
          ChildAdvances(s, k, ChildOf(m, k));
          KeepsClosing(s, CommitAll(s, CommandWrites(s, c, m)));
        }
    }
  }

  lemma {:induction false} CommandsConclude(s: RunStore, cs: seq<Command>, m: Minted)
    requires Tidy(s) && s.row.Some? && Concluded(s)
    ensures Concluded(CommitAll(s, CommandsWrites(s, cs, m)))
    decreases |cs|
  {
    if cs != [] {
      var ws := CommandWrites(s, cs[0], m);
      CommandAdvances(s, cs[0], m);
      CommandConcludes(s, cs[0], m);
      CommandsConclude(CommitAll(s, ws), cs[1..], m);
      CommitConcat(s, ws, CommandsWrites(CommitAll(s, ws), cs[1..], m));
    }
  }

  lemma {:induction false} CancelConcludes(s: RunStore, reason: Payload, subscribed: bool)
    requires Tidy(s) && Concluded(s)
    ensures Concluded(CommitAll(s, CancelWrites(s, reason, subscribed)))
  {
    if Open(s) && !s.row.value.status.Canceling? {
      var s' := CommitAll(s, CancelWrites(s, reason, subscribed));
      if subscribed {
        CancelLaw(State(s, map[], map[], [], 0, true, map[]), reason, true);
      } else {
        CanceledAdvances(s, reason);
        assert s'.history[|s.history| + 1].ev.Closed?;
      }
    }
  }

  lemma OpConcludes(st: State, op: Op)
    requires Basis(st) && Possible(st, op) && Concluded(st.store)
    ensures Concluded(CommitAll(st.store, OpWrites(st, op)))
  {
    var s := st.store;
    OpAdvances(st, op);
    match op {
      case Start(queue, input) => StartSafe(s, queue, input);
      case RespondWorkflow(token, cs, m) => if token in st.tasks { CommandsConclude(s, cs, m); }
      case RespondActivity(token, resp) =>
        if token in st.drivers && st.drivers[token].Token? {
          CompletionAdvances(s, st.drivers[token].seq_, resp);
          KeepsClosing(s, CommitAll(s, OpWrites(st, op)));
        }
      case FireTimer(t) =>
        if t in st.drivers && st.drivers[t].Timer? && TimerDispatches(st, st.drivers[t].seq_) {
          FireTimerAdvances(s, st.drivers[t].seq_);
          KeepsClosing(s, CommitAll(s, OpWrites(st, op)));
        }
      case Signal(name, payload) => if Open(s) { SignalAdvances(s, Signaled(name, payload)); }
      case Cancel(reason, subscribed) => CancelConcludes(s, reason, subscribed);
      case SweepCanceling(reason) => CloseConcludes(s, CanceledBy(reason));
      case Terminate(reason) => CloseConcludes(s, TerminatedBy(reason));
      case Recover(order) =>
        RecoverAdvances(s, order);
        KeepsClosing(s, CommitAll(s, OpWrites(st, op)));
    }
  }

  lemma {:induction false} RunConcludes(st: State, steps: seq<Step>, st': State)
    requires Basis(st) && Concluded(st.store) && Leads(BetweenOperations, st, steps, st')
    ensures Concluded(st'.store)
    decreases |steps|
  {
    if steps != [] {
      var step := steps[0];
      StepBasis(st, step);
      OpConcludes(st, step.op);
      DoWrites(st, step.op);
      var ws := OpWrites(st, step.op);
      assert ws[..0] == [] && ws[..|ws|] == ws;
      RunConcludes(Exec(st, step), steps[1..], st');
    }
  }

  /** Without a crash inside an operation a run has ended exactly when its history
      has the closing event. */
  lemma {:induction false} EndedIffClosed(steps: seq<Step>, st: State)
    requires Leads(BetweenOperations, INITIAL, steps, st)
    ensures Ended(st.store) <==> HasClosing(st.store.history)
  {
    RunConcludes(INITIAL, steps, st);
    RunSound(BetweenOperations, INITIAL, steps, st);
    if HasClosing(st.store.history) {
      var i :| 0 <= i < |st.store.history| && st.store.history[i].ev.Closed?;
      assert Backed(st.store, st.store.history[i].ev);
    }
  }
}
