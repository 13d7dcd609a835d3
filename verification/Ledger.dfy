/** What the order of writes guarantees about a run's keys, whatever crash cuts
    an operation short and whatever commands a worker sends. */
module Ledger {
  import opened Basics
  import opened History
  import opened Durable
  import opened Statuses

  /** Two events of which a history holds at most one. */
  predicate Clash(a: Event, b: Event)
  {
    || (a.ActivityScheduled? && b.ActivityScheduled? && a.seq_ == b.seq_)
    || (IsOutcome(a) && IsOutcome(b) && a.seq_ == b.seq_)
    || (a.ChildStarted? && b.ChildStarted? && a.seq_ == b.seq_)
    || (a.Closed? && b.Closed?)
  }

  predicate IsOutcome(e: Event) { e.ActivityCompleted? || e.ActivityFailed? }

  ghost predicate Numbered(h: seq<HistoryEvent>)
  {
    forall i :: 0 <= i < |h| ==> h[i].id == i + 1
  }

  /** At most one scheduled event, one outcome and one child start per sequence
      number, and at most one closing event. */
  ghost predicate AtMostOnce(h: seq<HistoryEvent>)
  {
    forall i, j :: 0 <= i < j < |h| ==> !Clash(h[i].ev, h[j].ev)
  }

  /** The durable row that an event of each kind is written after. */
  predicate Backed(s: RunStore, e: Event)
  {
    match e
    case ActivityScheduled(k, spec) => k in s.acts && s.acts[k].spec == spec
    case ActivityCompleted(k, result) => k in s.acts && s.acts[k].status.ActCompleted?
        && s.acts[k].result == Some(result)
    case ActivityFailed(k, failure) => k in s.acts && s.acts[k].status.ActFailed? && s.acts[k].failure == Some(failure)
    case Closed(how) => s.row.Some? && s.row.value.status == ClosedStatus(how)
    case _ => true
  }

  ghost predicate Sound(s: RunStore)
  {
    && Numbered(s.history)
    && AtMostOnce(s.history)
    && (s.row.None? ==> s.history == [])
    && (s.row.Some? ==> s.row.value.historyLen <= |s.history| <= s.row.value.historyLen + 1)
    && (forall i :: 0 <= i < |s.history| ==> Backed(s, s.history[i].ev))
    && (Open(s) ==> s.indexed)
    && (forall k :: k in s.acts ==> 1 <= s.acts[k].attempt <= MaxAttempts(s.acts[k]))
  }

  // ----------------------------------------------------- one write at a time

  /** When a write may be made. */
  ghost predicate Ok(s: RunStore, w: Write)
  {
    match w
    case PutIndex => true
    case DelIndex => !Open(s)
    case PutRow(row) =>
      if s.row.None? then row.historyLen == 0 && s.indexed && s.history == [] && !IsTerminal(row.status)
      else
        && row.historyLen <= |s.history| <= row.historyLen + 1
        && s.row.value.historyLen <= row.historyLen && row.taskQueue == s.row.value.taskQueue
        && (IsTerminal(s.row.value.status) ==> row.status == s.row.value.status)
    case PutEvent(id, ev) =>
      && s.row.Some?
      && id == s.row.value.historyLen + 1
      && Backed(s, ev)
      && (forall i :: 0 <= i < |s.history| ==> !Clash(s.history[i].ev, ev))
    case PutAct(k, rec) =>
      && 1 <= rec.attempt <= MaxAttempts(rec)
      && (k in s.acts ==> rec.spec == s.acts[k].spec && rec.attempt >= s.acts[k].attempt && !Done(s.acts[k]))
  }

  lemma {:induction false} PutAtEnd(h: seq<HistoryEvent>, e: HistoryEvent)
    requires Numbered(h) && |h| <= e.id <= |h| + 1 && e.id > 0
    ensures PutAt(h, e) == h[..e.id - 1] + [e]
  {
    if e.id == |h| + 1 {
      assert h[..e.id - 1] == h;
    }
  }

  lemma OkKeeps(s: RunStore, w: Write)
    requires Sound(s) && Ok(s, w)
    ensures Sound(Commit(s, w))
  {
    match w {
      case PutIndex =>
      case DelIndex =>
      case PutRow(row) => OkRow(s, row);
      case PutEvent(id, ev) => OkEvent(s, id, ev);
      case PutAct(k, rec) => OkAct(s, k, rec);
    }
  }

  lemma OkRow(s: RunStore, row: Row)
    requires Sound(s) && Ok(s, PutRow(row))
    ensures Sound(Commit(s, PutRow(row)))
  {
    var s' := Commit(s, PutRow(row));
    forall i | 0 <= i < |s.history| ensures Backed(s', s'.history[i].ev) {
      assert Backed(s, s.history[i].ev);
    }
  }

  /** An event that clashes with none before it, written last or over the last. */
  lemma {:induction false} PutAtOnce(h: seq<HistoryEvent>, e: HistoryEvent)
    requires Numbered(h) && AtMostOnce(h) && |h| <= e.id <= |h| + 1 && e.id > 0
    requires forall i :: 0 <= i < |h| ==> !Clash(h[i].ev, e.ev)
    ensures Numbered(PutAt(h, e)) && AtMostOnce(PutAt(h, e)) && PutAt(h, e) == h[..e.id - 1] + [e]
  {
    PutAtEnd(h, e);
  }

  lemma OkEvent(s: RunStore, id: nat, ev: Event)
    requires Sound(s) && Ok(s, PutEvent(id, ev))
    ensures Sound(Commit(s, PutEvent(id, ev)))
  {
    var s' := Commit(s, PutEvent(id, ev));
    PutAtOnce(s.history, HistoryEvent(id, ev));
    forall i | 0 <= i < |s'.history| ensures Backed(s', s'.history[i].ev) {
      assert i < |s'.history| - 1 ==> Backed(s, s.history[i].ev);
    }
  }

  lemma OkAct(s: RunStore, k: nat, rec: Record)
    requires Sound(s) && Ok(s, PutAct(k, rec))
    ensures Sound(Commit(s, PutAct(k, rec)))
  {
    var s' := Commit(s, PutAct(k, rec));
    forall i | 0 <= i < |s.history| ensures Backed(s', s'.history[i].ev) {
      assert Backed(s, s.history[i].ev);
    }
  }

  ghost predicate Safe(s: RunStore, ws: seq<Write>)
    decreases |ws|
  {
    ws == [] || (Ok(s, ws[0]) && Safe(Commit(s, ws[0]), ws[1..]))
  }

  /** A safe list of writes may be cut anywhere. */
  lemma {:induction false} SafeCut(s: RunStore, ws: seq<Write>, n: nat)
    requires Sound(s) && Safe(s, ws) && n <= |ws|
    ensures Sound(CommitAll(s, ws[..n]))
    decreases n
  {
    if n > 0 {
      OkKeeps(s, ws[0]);
      SafeCut(Commit(s, ws[0]), ws[1..], n - 1);
      assert ws[..n][1..] == ws[1..][..n - 1];
    }
  }

  lemma {:induction false} SafeConcat(s: RunStore, a: seq<Write>, b: seq<Write>)
    requires Safe(s, a) && Safe(CommitAll(s, a), b)
    ensures Safe(s, a + b) && CommitAll(s, a + b) == CommitAll(CommitAll(s, a), b)
    decreases |a|
  {
    CommitConcat(s, a, b);
    if a == [] {
      assert a + b == b;
    } else {
      assert (a + b)[1..] == a[1..] + b;
      SafeConcat(Commit(s, a[0]), a[1..], b);
    }
  }

  lemma {:induction false} SafeOne(s: RunStore, w: Write)
    requires Sound(s) && Ok(s, w)
    ensures Safe(s, [w]) && CommitAll(s, [w]) == Commit(s, w) && Sound(Commit(s, w))
  {
    OkKeeps(s, w);
    assert [w][1..] == [];
  }

  lemma {:induction false} SafeTwo(s: RunStore, w: Write, x: Write)
    requires Sound(s) && Ok(s, w) && Ok(Commit(s, w), x)
    ensures Safe(s, [w, x]) && CommitAll(s, [w, x]) == Commit(Commit(s, w), x) && Sound(Commit(Commit(s, w), x))
  {
    OkKeeps(s, w);
    SafeOne(Commit(s, w), x);
    assert [w, x][1..] == [x];
  }

  // ------------------------------------------------------- each operation

  /** A store with one more event: it lands right after the row's length, over
      an event whose row update a crash cut off. */
  function Appended(s: RunStore, row: Row, ev: Event): RunStore
    requires row.historyLen <= |s.history|
  {
    s.(history := s.history[..row.historyLen] + [HistoryEvent(row.historyLen + 1, ev)], row := Some(Bump(row)))
  }

  ghost predicate FreshEvent(s: RunStore, ev: Event)
  {
    Backed(s, ev) && forall i :: 0 <= i < |s.history| ==> !Clash(s.history[i].ev, ev)
  }

  lemma {:induction false} AppendSafe(s: RunStore, ev: Event)
    requires Sound(s) && s.row.Some? && FreshEvent(s, ev)
    ensures var ws := AppendWrites(s.row.value, ev);
            && Safe(s, ws) && Sound(CommitAll(s, ws))
            && CommitAll(s, ws) == Appended(s, s.row.value, ev)
  {
    var row := s.row.value;
    PutAtEnd(s.history, HistoryEvent(row.historyLen + 1, ev));
    SafeTwo(s, PutEvent(row.historyLen + 1, ev), PutRow(Bump(row)));
  }

  lemma {:induction false} StartSafe(s: RunStore, queue: string, input: Payload)
    requires s == EMPTY
    ensures var ws := StartWrites(queue, input);
            && Safe(s, ws) && Sound(CommitAll(s, ws))
            && CommitAll(s, ws) == RunStore(true, Some(Row(Running, 1, queue)),
               [HistoryEvent(1, WorkflowStarted(input))], map[])
  {
    var row := Row(Running, 0, queue);
    SafeTwo(s, PutIndex, PutRow(row));
    var s' := CommitAll(s, [PutIndex, PutRow(row)]);
    AppendSafe(s', WorkflowStarted(input));
    SafeConcat(s, [PutIndex, PutRow(row)], AppendWrites(row, WorkflowStarted(input)));
  }

  lemma {:induction false} DispatchSafe(s: RunStore, k: nat)
    requires Sound(s) && s.row.Some? && k in s.acts && !Done(s.acts[k])
    ensures var ws := DispatchWrites(s.row.value, k, s.acts[k]);
            && Safe(s, ws) && Sound(CommitAll(s, ws))
            && CommitAll(s, ws) == Appended(s.(acts := s.acts[k := s.acts[k].(status := ActStarted)]), s.row.value,
               ActivityStarted(k, s.acts[k].attempt))
  {
    var rec := s.acts[k];
    SafeOne(s, PutAct(k, rec.(status := ActStarted)));
    var s' := Commit(s, PutAct(k, rec.(status := ActStarted)));
    AppendSafe(s', ActivityStarted(k, rec.attempt));
    SafeConcat(s, [PutAct(k, rec.(status := ActStarted))], AppendWrites(s.row.value, ActivityStarted(k, rec.attempt)));
  }

  /** The store after a first-time schedule. */
  function Scheduled(s: RunStore, k: nat, spec: ActivitySpec): RunStore
    requires s.row.Some? && s.row.value.historyLen <= |s.history|
  {
    var rec := Record(Placed(s, spec), ActScheduled, 1, None, None);
    var s1 := s.(acts := s.acts[k := rec]);
    var s2 := Appended(s1, s.row.value, ActivityScheduled(k, rec.spec));
    Appended(s2.(acts := s2.acts[k := rec.(status := ActStarted)]), s2.row.value, ActivityStarted(k, 1))
  }

  lemma {:induction false} ScheduleSafe(s: RunStore, k: nat, spec: ActivitySpec)
    requires Sound(s)
    ensures var ws := ScheduleWrites(s, k, spec);
            && Safe(s, ws) && Sound(CommitAll(s, ws))
            && (k in s.acts ==> CommitAll(s, ws) == s)
            && (k !in s.acts && s.row.Some? ==> CommitAll(s, ws) == Scheduled(s, k, spec))
  {
    if k !in s.acts {
      var rec := Record(Placed(s, spec), ActScheduled, 1, None, None);
      var first := [PutAct(k, rec)];
      SafeOne(s, PutAct(k, rec));
      var s1 := Commit(s, PutAct(k, rec));
      if s.row.Some? {
        var ev := ActivityScheduled(k, rec.spec);
        forall i | 0 <= i < |s1.history| ensures !Clash(s1.history[i].ev, ev) {
          assert Backed(s, s.history[i].ev);
        }
        AppendSafe(s1, ev);
        var second := AppendWrites(s.row.value, ev);
        var s2 := CommitAll(s1, second);
        DispatchSafe(s2, k);
        SafeConcat(s, first, second);
        SafeConcat(s, first + second, DispatchWrites(s2.row.value, k, rec));
      }
    }
  }

  lemma {:induction false} CloseSafe(s: RunStore, how: Closing)
    requires Sound(s)
    ensures var ws := CloseWrites(s, how);
            && Safe(s, ws) && Sound(CommitAll(s, ws))
            && (!Open(s) ==> CommitAll(s, ws) == s)
            && (Open(s) ==> CommitAll(s, ws) == Appended(s.(indexed := false),
                  s.row.value.(status := ClosedStatus(how)), Closed(how)))
  {
    if Open(s) {
      var row := s.row.value.(status := ClosedStatus(how));
      SafeTwo(s, PutRow(row), DelIndex);
      var s1 := CommitAll(s, [PutRow(row), DelIndex]);
      forall i | 0 <= i < |s1.history| ensures !Clash(s1.history[i].ev, Closed(how)) {
        assert Backed(s, s.history[i].ev);
      }
      AppendSafe(s1, Closed(how));
      SafeConcat(s, [PutRow(row), DelIndex], AppendWrites(row, Closed(how)));
    }
  }

  lemma {:induction false} EventSafe(s: RunStore, ev: Event)
    requires Sound(s) && FreshEvent(s, ev)
    ensures var ws := EventWrites(s, ev);
            && Safe(s, ws) && Sound(CommitAll(s, ws))
            && (s.row.None? ==> CommitAll(s, ws) == s)
            && (s.row.Some? ==> CommitAll(s, ws) == Appended(s, s.row.value, ev))
  {
    if s.row.Some? {
      AppendSafe(s, ev);
    }
  }

  lemma {:induction false} CompletionSafe(s: RunStore, k: nat, resp: Response)
    requires Sound(s)
    ensures var ws, v := CompletionWrites(s, k, resp), Judge(s, k, resp);
            && Safe(s, ws) && Sound(CommitAll(s, ws))
            && (v.Ignored? ==> CommitAll(s, ws) == s)
            && (v.Retried? ==> CommitAll(s, ws) == s.(acts := s.acts[k := v.rec]))
            && (v.Finished? && s.row.Some? ==>
                  CommitAll(s, ws) == Appended(s.(acts := s.acts[k := v.rec]), s.row.value, v.ev))
            && (v.Finished? && s.row.None? ==> CommitAll(s, ws) == s.(acts := s.acts[k := v.rec]))
  {
    var v := Judge(s, k, resp);
    if !v.Ignored? {
      SafeOne(s, PutAct(k, v.rec));
      if v.Finished? {
        var s1 := Commit(s, PutAct(k, v.rec));
        forall i | 0 <= i < |s1.history| ensures !Clash(s1.history[i].ev, v.ev) {
          assert Backed(s, s.history[i].ev);
        }
        EventSafe(s1, v.ev);
        SafeConcat(s, [PutAct(k, v.rec)], EventWrites(s1, v.ev));
      }
    }
  }

  lemma {:induction false} CancelSafe(s: RunStore, reason: Payload, subscribed: bool)
    requires Sound(s)
    ensures var ws := CancelWrites(s, reason, subscribed);
            Safe(s, ws) && Sound(CommitAll(s, ws))
  {
    if Open(s) && !s.row.value.status.Canceling? {
      var ev := CancelRequested(reason);
      AppendSafe(s, ev);
      var requested := AppendWrites(s.row.value, ev);
      var s1 := CommitAll(s, requested);
      if subscribed {
        var row := Bump(s.row.value).(status := Canceling);
        SafeOne(s1, PutRow(row));
        SafeConcat(s, requested, [PutRow(row)]);
      } else {
        CloseSafe(s1, CanceledBy(reason));
        SafeConcat(s, requested, CloseWrites(s1, CanceledBy(reason)));
      }
    }
  }

  lemma {:induction false} CommandSafe(s: RunStore, c: Command, m: Minted)
    requires Sound(s)
    ensures var ws := CommandWrites(s, c, m);
            Safe(s, ws) && Sound(CommitAll(s, ws))
  {
    match c {
      case CompleteWorkflow(result) => CloseSafe(s, CompletedWith(result));
      case FailWorkflow(failure) => CloseSafe(s, FailedWith(failure));
      case ScheduleActivity(k, spec) => ScheduleSafe(s, k, spec);
      case AckCanceled(reason) => CloseSafe(s, CanceledBy(reason));
      case ContinueAsNew(_) => CloseSafe(s, ContinuedAs(m.newRun));
      case StartChild(k, child) =>
        if child.workflowType != "" && !ChildRecorded(s.history, k) {
          EventSafe(s, ChildStarted(k, ChildOf(m, k)));
        }
    }
  }

  lemma {:induction false} CommandsSafe(s: RunStore, cs: seq<Command>, m: Minted)
    requires Sound(s)
    ensures var ws := CommandsWrites(s, cs, m);
            Safe(s, ws) && Sound(CommitAll(s, ws))
    decreases |cs|
  {
    if cs != [] {
      var ws := CommandWrites(s, cs[0], m);
      CommandSafe(s, cs[0], m);
      CommandsSafe(CommitAll(s, ws), cs[1..], m);
      SafeConcat(s, ws, CommandsWrites(CommitAll(s, ws), cs[1..], m));
    }
  }

  lemma {:induction false} FireTimerSafe(s: RunStore, k: nat)
    requires Sound(s)
    ensures var ws := FireTimerWrites(s, k);
            Safe(s, ws) && Sound(CommitAll(s, ws))
  {
    if k in s.acts && !Done(s.acts[k]) {
      if s.row.None? {
        SafeOne(s, PutAct(k, s.acts[k].(status := ActStarted)));
      } else {
        DispatchSafe(s, k);
      }
    }
  }

  /** The records after recovery: same activities, same specs and attempts,
      unfinished ones started. */
  ghost predicate Restarted(acts: map<nat, Record>, acts': map<nat, Record>, order: seq<nat>)
  {
    && acts'.Keys == acts.Keys
    && forall k :: k in acts ==> acts'[k] == if k in order then acts[k].(status := ActStarted) else acts[k]
  }

  lemma RestartedNext(acts: map<nat, Record>, acts': map<nat, Record>, order: seq<nat>)
    requires order != [] && order[0] in acts
    requires Restarted(acts[order[0] := acts[order[0]].(status := ActStarted)], acts', order[1..])
    ensures Restarted(acts, acts', order)
  {
    assert order == [order[0]] + order[1..];
  }

  lemma {:induction false} RestartsSafe(s: RunStore, acts: map<nat, Record>, order: seq<nat>)
    requires Sound(s)
    requires forall k :: k in order ==> k in acts && k in s.acts && s.acts[k] == acts[k] && !Done(acts[k])
    requires forall i, j :: 0 <= i < j < |order| ==> order[i] != order[j]
    ensures var ws := Restarts(acts, order);
            && Safe(s, ws) && Sound(CommitAll(s, ws))
            && CommitAll(s, ws) == s.(acts := CommitAll(s, ws).acts)
            && Restarted(s.acts, CommitAll(s, ws).acts, order)
    decreases |order|
  {
    if order != [] {
      var w := PutAct(order[0], acts[order[0]].(status := ActStarted));
      SafeOne(s, w);
      RestartsSafe(Commit(s, w), acts, order[1..]);
      SafeConcat(s, [w], Restarts(acts, order[1..]));
      RestartedNext(s.acts, CommitAll(Commit(s, w), Restarts(acts, order[1..])).acts, order);
    }
  }

  lemma {:induction false} RecoverSafe(s: RunStore, order: seq<nat>)
    requires Sound(s) && Lists(order, s.acts)
    ensures var ws := RecoverWrites(s, order);
            Safe(s, ws) && Sound(CommitAll(s, ws))
  {
    if s.indexed {
      if Open(s) {
        RestartsSafe(s, s.acts, order);
      } else {
        SafeOne(s, DelIndex);
      }
    }
  }

  lemma OpSafe(st: State, op: Op)
    requires Sound(st.store) && Possible(st, op)
    ensures Safe(st.store, OpWrites(st, op)) && Sound(CommitAll(st.store, OpWrites(st, op)))
  {
    var s := st.store;
    match op {
      case Start(queue, input) => StartSafe(s, queue, input);
      case RespondWorkflow(token, cs, m) => if token in st.tasks { CommandsSafe(s, cs, m); }
      case RespondActivity(token, resp) =>
        if token in st.drivers && st.drivers[token].Token? { CompletionSafe(s, st.drivers[token].seq_, resp); }
      case FireTimer(t) =>
        if t in st.drivers && st.drivers[t].Timer? { FireTimerSafe(s, st.drivers[t].seq_); }
      case Signal(name, payload) => if Open(s) { AppendSafe(s, Signaled(name, payload)); }
      case Cancel(reason, subscribed) => CancelSafe(s, reason, subscribed);
      case SweepCanceling(reason) => CloseSafe(s, CanceledBy(reason));
      case Terminate(reason) => CloseSafe(s, TerminatedBy(reason));
      case Recover(order) => RecoverSafe(s, order);
    }
  }

  /** What an operation leaves in the store is its list of writes, all made. */
  lemma DoWrites(st: State, op: Op)
    requires Possible(st, op)
    ensures Do(st, op).store == CommitAll(st.store, OpWrites(st, op))
  {
    match op {
      case RespondWorkflow(token, cs, m) =>
        if token in st.tasks {
          ApplyCommandsWrites(st.(tasks := st.tasks - {token}), cs, m);
        }
      case Recover(order) =>
        if st.store.indexed && Open(st.store) {
          DriveAllKeeps(Store(st, OpWrites(st, op)).(recovered := true), order);
        }
      case _ =>
    }
  }

  lemma ApplyCommandWrites(st: State, c: Command, m: Minted)
    ensures ApplyCommand(st, c, m).store == CommitAll(st.store, CommandWrites(st.store, c, m))
  {
  }

  lemma {:induction false} ApplyCommandsWrites(st: State, cs: seq<Command>, m: Minted)
    ensures ApplyCommands(st, cs, m).store == CommitAll(st.store, CommandsWrites(st.store, cs, m))
    decreases |cs|
  {
    if cs != [] {
      var ws := CommandWrites(st.store, cs[0], m);
      ApplyCommandWrites(st, cs[0], m);
      ApplyCommandsWrites(ApplyCommand(st, cs[0], m), cs[1..], m);
      CommitConcat(st.store, ws, CommandsWrites(CommitAll(st.store, ws), cs[1..], m));
    }
  }

  lemma {:induction false} DriveAllKeeps(st: State, order: seq<nat>)
    ensures DriveAll(st, order) == st.(drivers := DriveAll(st, order).drivers, next := st.next + |order|)
    decreases |order|
  {
    if order != [] {
      DriveAllKeeps(Drive(st, Token(order[0])), order[1..]);
    }
  }

  // -------------------------------------------------------------- every run

  lemma StepSound(st: State, step: Step)
    requires Sound(st.store) && Possible(st, step.op)
    ensures Sound(Exec(st, step).store)
  {
    OpSafe(st, step.op);
    match step {
      case Does(op) => DoWrites(st, op);
      case Crashes(op, cut) =>
        var ws := OpWrites(st, op);
        SafeCut(st.store, ws, if cut <= |ws| then cut else |ws|);
    }
  }

  lemma {:induction false} RunSound(regime: Regime, st: State, steps: seq<Step>, st': State)
    requires Sound(st.store) && Leads(regime, st, steps, st')
    ensures Sound(st'.store)
    decreases |steps|
  {
    if steps != [] {
      StepSound(st, steps[0]);
      RunSound(regime, Exec(st, steps[0]), steps[1..], st');
    }
  }

  /** At-most-once history: for every run, with a crash between any two writes
      and any commands from workers, the events are numbered from 1 without
      gaps, no two of them clash, the row's length counts them or all but the
      last, each stands on its durable record, and an open run is indexed. */
  lemma {:induction false} HistoryAtMostOnce(steps: seq<Step>, st: State)
    requires Leads(AnyCut, INITIAL, steps, st)
    ensures Numbered(st.store.history) && AtMostOnce(st.store.history)
    ensures st.store.row.Some? ==>
              st.store.row.value.historyLen <= |st.store.history| <= st.store.row.value.historyLen + 1
    ensures forall i :: 0 <= i < |st.store.history| ==> Backed(st.store, st.store.history[i].ev)
    ensures Open(st.store) ==> st.store.indexed
  {
    RunSound(AnyCut, INITIAL, steps, st);
  }
}
