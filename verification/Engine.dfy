/** The engine's operations on one run, as the source performs them: each put
    and delete in turn, under the run's lock. The log of writes is proved to be
    exactly the list the crash model cuts, and the state that of module Durable. */
module Engine {
  import opened Basics
  import opened History
  import opened Durable
  import opened Statuses
  import Retry

  function AttemptWrites(row: Option<Row>, k: nat, rec: Record): seq<Write>
  {
    if row.None? then [PutAct(k, rec.(status := ActStarted))] else DispatchWrites(row.value, k, rec)
  }

  function Finish(st: State, k: nat, rec: Record, ev: Event): State
  {
    Enqueue(Store(st, [PutAct(k, rec)] + EventWrites(st.store, ev)))
  }

  method ShouldRetry(rec: Record, f: Retry.Failure) returns (again: bool)
    ensures again == TryAgain(rec, f)
  {
    TryAgainIsShouldRetry(rec, f);
    again := Retry.ShouldRetry(Retry.Effective(rec.spec.retry), f, rec.attempt);
  }

  class RunEngine {
    // the run's keys in the store
    var indexed: bool
    var row: Option<Row>
    var history: seq<HistoryEvent>
    var acts: map<nat, Record>
    // dispatcher and timers
    var drivers: map<nat, Driver>
    var tasks: map<nat, seq<HistoryEvent>>
    var next: nat

    ghost var log: seq<Write>
    ghost var enqueued: seq<seq<HistoryEvent>>
    ghost var recovered: bool
    ghost var failures: map<nat, nat>

    ghost function Keys(): RunStore
      reads this
    {
      RunStore(indexed, row, history, acts)
    }

    ghost function Now(): State
      reads this
    {
      State(Keys(), drivers, tasks, enqueued, next, recovered, failures)
    }

    /** The store is what the writes made of it. */
    ghost predicate Valid()
      reads this
    {
      Keys() == CommitAll(EMPTY, log)
    }

    constructor ()
      ensures Valid() && Now() == INITIAL && log == []
    {
      indexed, row, history, acts := false, None, [], map[];
      drivers, tasks, next := map[], map[], 0;
      log, enqueued, recovered, failures := [], [], true, map[];
    }

    // ------------------------------------------------------------- the store

    method Put(w: Write)
      requires Valid()
      modifies this`indexed, this`row, this`history, this`acts, this`log
      ensures Valid() && log == old(log) + [w] && Keys() == Commit(old(Keys()), w)
    {
      match w {
        case PutIndex => indexed := true;
        case DelIndex => indexed := false;
        case PutRow(r) => row := Some(r);
        case PutEvent(id, ev) => history := PutAt(history, HistoryEvent(id, ev));
        case PutAct(k, rec) => acts := acts[k := rec];
      }
      log := log + [w];
      CommitConcat(EMPTY, old(log), [w]);
      assert [w][1..] == [];
    }

    /** Bumps the row's length after the event is in; fails, writing nothing,
        when the run has no row. */
    method AppendHistory(ev: Event) returns (ok: bool)
      requires Valid()
      modifies this`indexed, this`row, this`history, this`acts, this`log
      ensures Valid() && ok == old(row).Some?
      ensures log == old(log) + EventWrites(old(Keys()), ev)
      ensures ok ==> row == Some(Bump(old(row).value)) && acts == old(acts) && indexed == old(indexed)
      ensures !ok ==> Keys() == old(Keys())
    {
      if row.None? {
        return false;
      }
      var r := row.value;
      Put(PutEvent(r.historyLen + 1, ev));
      Put(PutRow(Bump(r)));
      ok := true;
    }

    // ------------------------------------------------------------- dispatching

    method EnqueueWorkflowTask()
      requires Valid()
      modifies this`tasks, this`next, this`enqueued
      ensures Valid() && Now() == Enqueue(old(Now()))
    {
      if row.Some? && !IsTerminal(row.value.status) {
        tasks := tasks[next := history];
        enqueued := enqueued + [history];
        next := next + 1;
      }
    }

    /** Mints a token for the activity's task, or arms its retry timer. */
    method AddDriver(d: Driver)
      requires Valid()
      modifies this`drivers, this`next
      ensures Valid() && Now() == Drive(old(Now()), d)
    {
      drivers := drivers[next := d];
      next := next + 1;
    }

    /** The writes since the call started are ws, so the store is theirs. */
    twostate lemma {:induction false} Stored(ws: seq<Write>)
      requires old(Valid()) && Valid() && log == old(log) + ws
      ensures Keys() == CommitAll(old(Keys()), ws)
    {
      CommitConcat(EMPTY, old(log), ws);
    }

    // -------------------------------------------------------------- operations

    method StartWorkflow(queue: string, input: Payload)
      requires Valid() && Keys() == EMPTY && queue != ""
      modifies this
      ensures Valid() && log == old(log) + OpWrites(old(Now()), Start(queue, input))
      ensures Now() == Do(old(Now()), Start(queue, input))
    {
      Put(PutIndex);
      Put(PutRow(Row(Running, 0, queue)));
      var _ := AppendHistory(WorkflowStarted(input));
      Stored(StartWrites(queue, input));
      EnqueueWorkflowTask();
    }

    /** Creates and dispatches the activity unless its record exists. */
    method ApplyScheduleActivity(k: nat, spec: ActivitySpec)
      requires Valid()
      modifies this`indexed, this`row, this`history, this`acts, this`log, this`drivers, this`next
      ensures Valid() && log == old(log) + ScheduleWrites(old(Keys()), k, spec)
      ensures var fresh_ := k !in old(acts) && old(row).Some?;
              && drivers == (if fresh_ then old(drivers)[old(next) := Token(k)] else old(drivers))
              && next == (if fresh_ then old(next) + 1 else old(next))
    {
      if k in acts {
        return;
      }
      var placed := spec;
      if spec.taskQueue == "" && row.Some? {
        placed := spec.(taskQueue := row.value.taskQueue);
      }
      var rec := Record(placed, ActScheduled, 1, None, None);
      Put(PutAct(k, rec));
      var ok := AppendHistory(ActivityScheduled(k, placed));
      if ok {
        var _ := DispatchActivityAttempt(k, rec);
      }
    }

    /** Marks the attempt started, then hands its task to the dispatcher. */
    method DispatchActivityAttempt(k: nat, rec: Record) returns (ok: bool)
      requires Valid()
      modifies this`indexed, this`row, this`history, this`acts, this`log, this`drivers, this`next
      ensures Valid() && ok == old(row).Some?
      ensures log == old(log) + AttemptWrites(old(row), k, rec)
      ensures drivers == if ok then old(drivers)[old(next) := Token(k)] else old(drivers)
      ensures next == if ok then old(next) + 1 else old(next)
    {
      Put(PutAct(k, rec.(status := ActStarted)));
      ok := AppendHistory(ActivityStarted(k, rec.attempt));
      if ok {
        AddDriver(Token(k));
      }
    }

    /** Terminal row first, then the index entry goes, then the closing event. */
    method TerminalTransition(how: Closing)
      requires Valid()
      modifies this`indexed, this`row, this`history, this`acts, this`log
      ensures Valid() && log == old(log) + CloseWrites(old(Keys()), how)
      ensures Now() == Store(old(Now()), CloseWrites(old(Keys()), how))
    {
      if row.Some? && !IsTerminal(row.value.status) {
        Put(PutRow(row.value.(status := ClosedStatus(how))));
        Put(DelIndex);
        var _ := AppendHistory(Closed(how));
      }
      Stored(CloseWrites(old(Keys()), how));
    }

    method ChildStartRecorded(k: nat) returns (found: bool)
      ensures found == ChildRecorded(history, k)
    {
      for i := 0 to |history|
        invariant !ChildRecorded(history[..i], k)
      {
        if history[i].ev.ChildStarted? && history[i].ev.seq_ == k {
          return true;
        }
      }
      assert history[..|history|] == history;
      found := false;
    }

    method ApplyStartChild(k: nat, child: ChildSpec, m: Minted)
      requires Valid()
      modifies this
      ensures Valid() && log == old(log) + CommandWrites(old(Keys()), StartChild(k, child), m)
      ensures Now() == ApplyCommand(old(Now()), StartChild(k, child), m)
    {
      var recorded := ChildStartRecorded(k);
      if child.workflowType == "" || recorded {
        Stored([]);
        return;
      }
      var ok := AppendHistory(ChildStarted(k, ChildOf(m, k)));
      Stored(EventWrites(old(Keys()), ChildStarted(k, ChildOf(m, k))));
      if ok {
        EnqueueWorkflowTask();
      }
    }

    method ApplyWorkerCommand(c: Command, m: Minted)
      requires Valid()
      modifies this
      ensures Valid() && log == old(log) + CommandWrites(old(Keys()), c, m)
      ensures Now() == ApplyCommand(old(Now()), c, m)
    {
      match c {
        case CompleteWorkflow(result) => TerminalTransition(CompletedWith(result));
        case FailWorkflow(failure) => TerminalTransition(FailedWith(failure));
        case ScheduleActivity(k, spec) =>
          ApplyScheduleActivity(k, spec);
          Stored(CommandWrites(old(Keys()), c, m));
        case AckCanceled(reason) => TerminalTransition(CanceledBy(reason));
        case ContinueAsNew(_) => TerminalTransition(ContinuedAs(m.newRun));
        case StartChild(k, child) => ApplyStartChild(k, child, m);
      }
    }

    /** Consumes the task's token and applies the commands in order. */
    method RespondWorkflowTask(token: nat, cs: seq<Command>, m: Minted)
      requires Valid()
      modifies this
      ensures Valid() && log == old(log) + OpWrites(old(Now()), RespondWorkflow(token, cs, m))
      ensures Now() == Do(old(Now()), RespondWorkflow(token, cs, m))
    {
      if token !in tasks {
        return;
      }
      tasks := tasks - {token};
      ghost var first, wrote := Now(), log;
      for i := 0 to |cs|
        invariant Valid()
        invariant ApplyCommands(Now(), cs[i..], m) == ApplyCommands(first, cs, m)
        invariant log + CommandsWrites(Keys(), cs[i..], m) == wrote + CommandsWrites(first.store, cs, m)
      {
        ApplyNext(cs[i], cs[i..], m);
        assert cs[i..][1..] == cs[i + 1..];
      }
      assert cs[|cs|..] == [];
    }

    method ApplyNext(c: Command, ghost cs: seq<Command>, m: Minted)
      requires Valid() && cs != [] && c == cs[0]
      modifies this
      ensures Valid()
      ensures ApplyCommands(Now(), cs[1..], m) == ApplyCommands(old(Now()), cs, m)
      ensures log + CommandsWrites(Keys(), cs[1..], m) == old(log) + CommandsWrites(old(Keys()), cs, m)
    {
      ApplyOne(c, m);
      ghost var ws, rest := CommandWrites(old(Keys()), c, m), CommandsWrites(Keys(), cs[1..], m);
      assert old(log) + ws + rest == old(log) + (ws + rest);
    }

    /** ApplyWorkerCommand, with the store it leaves. */
    method ApplyOne(c: Command, m: Minted)
      requires Valid()
      modifies this
      ensures Valid() && log == old(log) + CommandWrites(old(Keys()), c, m)
      ensures Now() == ApplyCommand(old(Now()), c, m)
      ensures Keys() == CommitAll(old(Keys()), CommandWrites(old(Keys()), c, m))
    {
      ApplyWorkerCommand(c, m);
      Stored(CommandWrites(old(Keys()), c, m));
    }

    /** Consumes the activity's token, then records the outcome or retries. */
    method RespondActivityTask(token: nat, resp: Response)
      requires Valid()
      modifies this
      ensures Valid() && log == old(log) + OpWrites(old(Now()), RespondActivity(token, resp))
      ensures Now() == Do(old(Now()), RespondActivity(token, resp))
    {
      if token !in drivers || !drivers[token].Token? {
        return;
      }
      var k := drivers[token].seq_;
      drivers := drivers - {token};
      CompleteWorkflowActivity(k, resp);
    }

    method CompleteWorkflowActivity(k: nat, resp: Response)
      requires Valid()
      modifies this
      ensures Valid() && log == old(log) + CompletionWrites(old(Keys()), k, resp)
      ensures Now() == Respond(old(Now()), k, resp)
    {
      if k !in acts || Done(acts[k]) || (row.Some? && IsTerminal(row.value.status)) {
        Stored([]);
        return;
      }
      var rec := acts[k];
      match resp.failure {
        case None =>
          FinishActivity(k, rec.(status := ActCompleted, result := Some(resp.result)),
              ActivityCompleted(k, resp.result));
        case Some(f) =>
          failures := failures[k := FailuresOf(old(Now()), k) + 1];
          var again := ShouldRetry(rec, f);
          if again {
            RetryActivity(k, rec.(attempt := rec.attempt + 1, status := ActScheduled, failure := Some(f)));
          } else {
            FinishActivity(k, rec.(status := ActFailed, failure := Some(f)), ActivityFailed(k, f));
          }
      }
    }

    /** The record of the next attempt, and a timer armed for it. */
    method RetryActivity(k: nat, rec: Record)
      requires Valid()
      modifies this`indexed, this`row, this`history, this`acts, this`log, this`drivers, this`next
      ensures Valid() && log == old(log) + [PutAct(k, rec)]
      ensures Now() == Drive(Store(old(Now()), [PutAct(k, rec)]), Timer(k))
    {
      Put(PutAct(k, rec));
      Stored([PutAct(k, rec)]);
      AddDriver(Timer(k));
    }

    /** The terminal record, its event, and a workflow task to replay them. */
    method FinishActivity(k: nat, rec: Record, ev: Event)
      requires Valid()
      modifies this`indexed, this`row, this`history, this`acts, this`log, this`tasks, this`next, this`enqueued
      ensures Valid() && log == old(log) + ([PutAct(k, rec)] + EventWrites(old(Keys()), ev))
      ensures Now() == Finish(old(Now()), k, rec, ev)
    {
      Put(PutAct(k, rec));
      var ok := AppendHistory(ev);
      Stored([PutAct(k, rec)] + EventWrites(old(Keys()), ev));
      if ok {
        EnqueueWorkflowTask();
      }
    }

    /** An armed retry timer fires. */
    method FireRetryTimer(t: nat)
      requires Valid()
      modifies this
      ensures Valid() && log == old(log) + OpWrites(old(Now()), FireTimer(t))
      ensures Now() == Do(old(Now()), FireTimer(t))
    {
      if t !in drivers || !drivers[t].Timer? {
        return;
      }
      var k := drivers[t].seq_;
      drivers := drivers - {t};
      if k !in acts || Done(acts[k]) {
        Stored([]);
        return;
      }
      var _ := DispatchActivityAttempt(k, acts[k]);
      Stored(FireTimerWrites(old(Keys()), k));
    }

    method SignalWorkflow(name: string, payload: Payload)
      requires Valid()
      modifies this
      ensures Valid() && log == old(log) + OpWrites(old(Now()), Signal(name, payload))
      ensures Now() == Do(old(Now()), Signal(name, payload))
    {
      if row.None? || IsTerminal(row.value.status) {
        return;
      }
      var _ := AppendHistory(Signaled(name, payload));
      Stored(AppendWrites(old(row).value, Signaled(name, payload)));
      EnqueueWorkflowTask();
    }

    method CancelWorkflow(reason: Payload, subscribed: bool)
      requires Valid()
      modifies this
      ensures Valid() && log == old(log) + OpWrites(old(Now()), Cancel(reason, subscribed))
      ensures Now() == Do(old(Now()), Cancel(reason, subscribed))
    {
      if row.None? || IsTerminal(row.value.status) || row.value.status == Canceling {
        Stored([]);
        return;
      }
      var _ := AppendHistory(CancelRequested(reason));
      Stored(AppendWrites(old(row).value, CancelRequested(reason)));
      if subscribed {
        Put(PutRow(row.value.(status := Canceling)));
      } else {
        TerminalTransition(CanceledBy(reason));
      }
      Stored(CancelWrites(old(Keys()), reason, subscribed));
    }

    /** Boot-time recovery of the run, if the index lists it. */
    method RecoverRun() returns (ghost order: seq<nat>)
      requires Valid() && !recovered
      modifies this
      ensures Lists(order, old(acts))
      ensures Valid() && log == old(log) + OpWrites(old(Now()), Recover(order))
      ensures Now() == Do(old(Now()), Recover(order))
    {
      recovered := true;
      var listed := ListUnfinished();
      order := listed;
      if !indexed {
        Stored([]);
        return;
      }
      if row.None? || IsTerminal(row.value.status) {
        Put(DelIndex);
        Stored([DelIndex]);
        return;
      }
      RestartAll(listed);
      EnqueueWorkflowTask();
    }

    method ListUnfinished() returns (order: seq<nat>)
      ensures Lists(order, acts)
    {
      order := [];
      var rest := acts.Keys;
      while rest != {}
        invariant rest <= acts.Keys
        invariant forall k :: k in order <==> k in acts && k !in rest && !Done(acts[k])
        invariant forall i, j :: 0 <= i < j < |order| ==> order[i] != order[j]
      {
        var k :| k in rest;
        rest := rest - {k};
        if !Done(acts[k]) {
          order := order + [k];
        }
      }
    }

    method RestartAll(order: seq<nat>)
      requires Valid() && Lists(order, acts)
      modifies this
      ensures Valid() && log == old(log) + Restarts(old(acts), order)
      ensures Now() == DriveAll(Store(old(Now()), Restarts(old(acts), order)), order)
    {
      ghost var records, first, wrote := acts, Now(), log;
      for i := 0 to |order|
        invariant Valid()
        invariant forall k :: k in order[i..] ==> k in acts && acts[k] == records[k]
        invariant log + Restarts(records, order[i..]) == wrote + Restarts(records, order)
        invariant DriveAll(Now().(store := EMPTY), order[i..]) == DriveAll(first.(store := EMPTY), order)
      {
        assert order[i..][1..] == order[i + 1..];
        RestartNext(order[i], order[i..], records);
      }
      assert order[|order|..] == [];
      Stored(Restarts(old(acts), order));
      DriveAllStore(first, Keys(), order);
      DriveAllStore(first, EMPTY, order);
    }

    method RestartNext(k: nat, ghost order: seq<nat>, ghost records: map<nat, Record>)
      requires forall j :: j in order ==> j in records
      requires Valid() && order != [] && order[0] == k && k in acts && acts[k] == records[k]
      modifies this
      ensures Valid() && acts == old(acts)[k := records[k].(status := ActStarted)]
      ensures log + Restarts(records, order[1..]) == old(log) + Restarts(records, order)
      ensures DriveAll(Now().(store := EMPTY), order[1..]) == DriveAll(old(Now()).(store := EMPTY), order)
    {
      Put(PutAct(k, acts[k].(status := ActStarted)));
      AddDriver(Token(k));
    }
  }

  /** Driving does not look at the store. */
  lemma {:induction false} DriveAllStore(st: State, s: RunStore, order: seq<nat>)
    ensures DriveAll(st.(store := s), order) == DriveAll(st, order).(store := s)
    decreases |order|
  {
    if order != [] {
      DriveAllStore(Drive(st, Token(order[0])), s, order[1..]);
    }
  }
}
