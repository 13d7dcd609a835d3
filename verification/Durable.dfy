/** The durable engine for one workflow run (pkg/tasks/durable.go, engine.go,
    engine_commands.go, embed.go): its rows in the store, the order in which
    each operation writes them, and the volatile tokens, timers and tasks that
    a restart loses. Operations of one run are serialised by its lock, so each
    is one step; a crash may cut the writes of a step anywhere. */
module Durable {
  import opened Basics
  import opened History
  import Retry
  import opened Statuses

  // --------------------------------------------------------------------- rows

  datatype Row = Row(status: RunStatus, historyLen: nat, taskQueue: string)

  datatype ActivityStatus = ActScheduled | ActStarted | ActCompleted | ActFailed

  /** The seq-keyed record of one activity. */
  datatype Record = Record(
    spec: ActivitySpec,
    status: ActivityStatus,
    attempt: nat,
    result: Option<Payload>,
    failure: Option<Retry.Failure>)

  predicate Done(r: Record) { r.status.ActCompleted? || r.status.ActFailed? }

  /** A run's keys: its open-index entry, its row, its events in key order and
      its activity records. */
  datatype RunStore = RunStore(
    indexed: bool,
    row: Option<Row>,
    history: seq<HistoryEvent>,
    acts: map<nat, Record>)

  const EMPTY := RunStore(false, None, [], map[])

  predicate Open(s: RunStore) { s.row.Some? && !IsTerminal(s.row.value.status) }

  predicate Ended(s: RunStore) { s.row.Some? && IsTerminal(s.row.value.status) }

  // ------------------------------------------------------------------- writes

  datatype Write =
    | PutIndex
    | DelIndex
    | PutRow(row: Row)
    | PutEvent(id: nat, ev: Event)
    | PutAct(seq_: nat, rec: Record)

  /** An event put at its id: replaces the row under that key or takes its place
      in key order. */
  function PutAt(h: seq<HistoryEvent>, e: HistoryEvent): seq<HistoryEvent>
  {
    if h == [] then [e]
    else
      var front, last := h[..|h| - 1], h[|h| - 1];
      if last.id < e.id then h + [e]
      else if last.id == e.id then front + [e]
      else PutAt(front, e) + [last]
  }

  function Commit(s: RunStore, w: Write): RunStore
  {
    match w
    case PutIndex => s.(indexed := true)
    case DelIndex => s.(indexed := false)
    case PutRow(row) => s.(row := Some(row))
    case PutEvent(id, ev) => s.(history := PutAt(s.history, HistoryEvent(id, ev)))
    case PutAct(k, rec) => s.(acts := s.acts[k := rec])
  }

  function CommitAll(s: RunStore, ws: seq<Write>): RunStore
    decreases |ws|
  {
    if ws == [] then s else CommitAll(Commit(s, ws[0]), ws[1..])
  }

  lemma {:induction false} CommitConcat(s: RunStore, a: seq<Write>, b: seq<Write>)
    ensures CommitAll(s, a + b) == CommitAll(CommitAll(s, a), b)
    decreases |a|
  {
    if a == [] {
      assert a + b == b;
    } else {
      assert (a + b)[1..] == a[1..] + b;
      CommitConcat(Commit(s, a[0]), a[1..], b);
    }
  }

  // --------------------------------------------- what each operation writes

  function Bump(row: Row): Row { row.(historyLen := row.historyLen + 1) }

  /** appendHistory: the event, then the row with the longer length. */
  function AppendWrites(row: Row, ev: Event): seq<Write>
  {
    [PutEvent(row.historyLen + 1, ev), PutRow(Bump(row))]
  }

  /** A start: index entry first, then the row, then the first event. */
  function StartWrites(queue: string, input: Payload): seq<Write>
  {
    var row := Row(Running, 0, queue);
    [PutIndex, PutRow(row)] + AppendWrites(row, WorkflowStarted(input))
  }

  /** dispatchActivityAttempt: the record, then the started marker. */
  function DispatchWrites(row: Row, k: nat, rec: Record): seq<Write>
  {
    [PutAct(k, rec.(status := ActStarted))] + AppendWrites(row, ActivityStarted(k, rec.attempt))
  }

  function Placed(s: RunStore, spec: ActivitySpec): ActivitySpec
  {
    if spec.taskQueue == "" && s.row.Some? then spec.(taskQueue := s.row.value.taskQueue) else spec
  }

  /** applyScheduleActivity: nothing when the record exists. */
  function ScheduleWrites(s: RunStore, k: nat, spec: ActivitySpec): seq<Write>
  {
    if k in s.acts then [] else
    var rec := Record(Placed(s, spec), ActScheduled, 1, None, None);
    if s.row.None? then [PutAct(k, rec)]
    else
      [PutAct(k, rec)] + AppendWrites(s.row.value, ActivityScheduled(k, rec.spec))
      + DispatchWrites(Bump(s.row.value), k, rec)
  }

  /** A worker's answer for an activity attempt; no failure means success. */
  datatype Response = Response(result: Payload, failure: Option<Retry.Failure>)

  /** The attempts an activity has in all: its policy's bound, or the default
      when the policy leaves it unset. */
  function MaxAttempts(rec: Record): nat
  {
    if rec.spec.retry.Some? && rec.spec.retry.value.maxAttempts > 0 then rec.spec.retry.value.maxAttempts
    else Retry.DEFAULT_MAX_ATTEMPTS
  }

  predicate TryAgain(rec: Record, f: Retry.Failure)
  {
    && rec.attempt < MaxAttempts(rec)
    && !f.nonRetryable
    && (rec.spec.retry.None? || f.code !in rec.spec.retry.value.nonRetryable)
  }

  /** TryAgain is the effective policy's decision. */
  lemma TryAgainIsShouldRetry(rec: Record, f: Retry.Failure)
    ensures TryAgain(rec, f) <==> Retry.Retries(Retry.Effective(rec.spec.retry), f, rec.attempt)
    ensures MaxAttempts(rec) == Retry.Effective(rec.spec.retry).maxAttempts
  {
  }

  datatype Verdict = Ignored | Retried(rec: Record) | Finished(rec: Record, ev: Event)

  /** What completeWorkflowActivity decides about a response. */
  function Judge(s: RunStore, k: nat, resp: Response): Verdict
  {
    if k !in s.acts || Done(s.acts[k]) || Ended(s) then Ignored else
    var rec := s.acts[k];
    match resp.failure
    case None =>
      Finished(rec.(status := ActCompleted, result := Some(resp.result)), ActivityCompleted(k, resp.result))
    case Some(f) =>
      if TryAgain(rec, f) then Retried(rec.(attempt := rec.attempt + 1, status := ActScheduled, failure := Some(f)))
      else Finished(rec.(status := ActFailed, failure := Some(f)), ActivityFailed(k, f))
  }

  function CompletionWrites(s: RunStore, k: nat, resp: Response): seq<Write>
  {
    match Judge(s, k, resp)
    case Ignored => []
    case Retried(rec) => [PutAct(k, rec)]
    case Finished(rec, ev) => [PutAct(k, rec)] + EventWrites(s, ev)
  }

  /** appendHistory fails, writing nothing, when the run has no row. */
  function EventWrites(s: RunStore, ev: Event): seq<Write>
  {
    if s.row.None? then [] else AppendWrites(s.row.value, ev)
  }

  function ClosedStatus(how: Closing): RunStatus
  {
    match how
    case CompletedWith(_) => Completed
    case FailedWith(_) => Failed
    case CanceledBy(_) => Canceled
    case TerminatedBy(_) => Terminated
    case ContinuedAs(_) => ContinuedAsNew
  }

  /** terminalTransition: the terminal row, then the index entry goes, then the
      closing event. Nothing for a run that is not open. */
  function CloseWrites(s: RunStore, how: Closing): seq<Write>
  {
    if !Open(s) then [] else
    var row := s.row.value.(status := ClosedStatus(how));
    [PutRow(row), DelIndex] + AppendWrites(row, Closed(how))
  }

  function CancelWrites(s: RunStore, reason: Payload, subscribed: bool): seq<Write>
  {
    if !Open(s) || s.row.value.status.Canceling? then [] else
    var requested := AppendWrites(s.row.value, CancelRequested(reason));
    if subscribed then requested + [PutRow(Bump(s.row.value).(status := Canceling))]
    else requested + CloseWrites(CommitAll(s, requested), CanceledBy(reason))
  }

  /** Identities the server mints while applying a batch of commands. */
  datatype Minted = Minted(children: map<nat, ChildRef>, newRun: string)

  function ChildOf(m: Minted, k: nat): ChildRef
  {
    if k in m.children then m.children[k] else ChildRef("", "")
  }

  predicate ChildRecorded(h: seq<HistoryEvent>, k: nat)
  {
    exists i :: 0 <= i < |h| && h[i].ev.ChildStarted? && h[i].ev.seq_ == k
  }

  function CommandWrites(s: RunStore, c: Command, m: Minted): seq<Write>
  {
    match c
    case CompleteWorkflow(result) => CloseWrites(s, CompletedWith(result))
    case FailWorkflow(failure) => CloseWrites(s, FailedWith(failure))
    case ScheduleActivity(k, spec) => ScheduleWrites(s, k, spec)
    case AckCanceled(reason) => CloseWrites(s, CanceledBy(reason))
    case ContinueAsNew(_) => CloseWrites(s, ContinuedAs(m.newRun))
    case StartChild(k, child) =>
      if child.workflowType == "" || ChildRecorded(s.history, k) then []
      else EventWrites(s, ChildStarted(k, ChildOf(m, k)))
  }

  function CommandsWrites(s: RunStore, cs: seq<Command>, m: Minted): seq<Write>
    decreases |cs|
  {
    if cs == [] then []
    else
      var ws := CommandWrites(s, cs[0], m);
      ws + CommandsWrites(CommitAll(s, ws), cs[1..], m)
  }

  // ------------------------------------------------------------------- states

  /** What makes an activity go on: a dispatched task whose token the worker
      will answer, or an armed retry timer. */
  datatype Driver = Token(seq_: nat) | Timer(seq_: nat)

  datatype State = State(
    store: RunStore,
    drivers: map<nat, Driver>,
    tasks: map<nat, seq<HistoryEvent>>,     // workflow tasks awaiting an answer, with the history each carries
    enqueued: seq<seq<HistoryEvent>>,       // histories of all workflow tasks enqueued since the restart
    next: nat,                              // next fresh token
    recovered: bool,                        // false between a crash and the boot-time recovery
    failures: map<nat, nat>)                // failed responses accepted so far, per activity

  const INITIAL := State(EMPTY, map[], map[], [], 0, true, map[])

  /** scheduleWorkflowTask: ship the whole history, unless the run is closed. */
  function Enqueue(st: State): State
  {
    if !Open(st.store) then st else
    st.(tasks := st.tasks[st.next := st.store.history],
        enqueued := st.enqueued + [st.store.history],
        next := st.next + 1)
  }

  function Drive(st: State, d: Driver): State
  {
    st.(drivers := st.drivers[st.next := d], next := st.next + 1)
  }

  function Store(st: State, ws: seq<Write>): State
  {
    st.(store := CommitAll(st.store, ws))
  }

  function ApplyCommand(st: State, c: Command, m: Minted): State
  {
    var st' := Store(st, CommandWrites(st.store, c, m));
    match c
    case ScheduleActivity(k, _) =>
      if k in st.store.acts || st.store.row.None? then st' else Drive(st', Token(k))
    case StartChild(k, child) =>
      if child.workflowType == "" || ChildRecorded(st.store.history, k) || st.store.row.None? then st' else Enqueue(st')
    case _ => st'
  }

  function ApplyCommands(st: State, cs: seq<Command>, m: Minted): State
    decreases |cs|
  {
    if cs == [] then st else ApplyCommands(ApplyCommand(st, cs[0], m), cs[1..], m)
  }

  function FailuresOf(st: State, k: nat): nat
  {
    if k in st.failures then st.failures[k] else 0
  }

  /** The writes of a response made, and a failure counted. */
  function Recorded(st: State, k: nat, resp: Response): State
  {
    var st' := Store(st, CompletionWrites(st.store, k, resp));
    if Judge(st.store, k, resp).Ignored? || resp.failure.None? then st'
    else st'.(failures := st.failures[k := FailuresOf(st, k) + 1])
  }

  function Respond(st: State, k: nat, resp: Response): State
  {
    match Judge(st.store, k, resp)
    case Ignored => Recorded(st, k, resp)
    case Retried(_) => Drive(Recorded(st, k, resp), Timer(k))
    case Finished(_, _) => Enqueue(Recorded(st, k, resp))
  }

  predicate TimerDispatches(st: State, k: nat)
  {
    k in st.store.acts && !Done(st.store.acts[k]) && st.store.row.Some?
  }

  function FireTimerWrites(s: RunStore, k: nat): seq<Write>
  {
    if k !in s.acts || Done(s.acts[k]) then []
    else if s.row.None? then [PutAct(k, s.acts[k].(status := ActStarted))]
    else DispatchWrites(s.row.value, k, s.acts[k])
  }

  /** recoverRun's writes: a contradicted index entry goes; otherwise every
      unfinished activity, in listing order, is marked started again. */
  function RecoverWrites(s: RunStore, order: seq<nat>): seq<Write>
    requires forall k :: k in order ==> k in s.acts
  {
    if !s.indexed then []
    else if !Open(s) then [DelIndex]
    else Restarts(s.acts, order)
  }

  function Restarts(acts: map<nat, Record>, order: seq<nat>): seq<Write>
    requires forall k :: k in order ==> k in acts
  {
    if order == [] then []
    else [PutAct(order[0], acts[order[0]].(status := ActStarted))] + Restarts(acts, order[1..])
  }

  /** order lists the unfinished activities, each once. */
  ghost predicate Lists(order: seq<nat>, acts: map<nat, Record>)
  {
    && (forall k :: k in order <==> k in acts && !Done(acts[k]))
    && (forall i, j :: 0 <= i < j < |order| ==> order[i] != order[j])
  }

  function DriveAll(st: State, order: seq<nat>): State
    decreases |order|
  {
    if order == [] then st else DriveAll(Drive(st, Token(order[0])), order[1..])
  }

  datatype Op =
    | Start(queue: string, input: Payload)
    | RespondWorkflow(token: nat, commands: seq<Command>, minted: Minted)
    | RespondActivity(token: nat, response: Response)
    | FireTimer(timer: nat)
    | Signal(name: string, payload: Payload)
    | Cancel(reason: Payload, subscribed: bool)
    | SweepCanceling(reason: Payload)
    | Terminate(reason: Payload)
    | Recover(order: seq<nat>)

  /** A run id is started once; recovery runs at boot and lists the store. */
  ghost predicate Possible(st: State, op: Op)
  {
    && (op.Start? ==> st.store == EMPTY && op.queue != "")
    && (op.Recover? ==> !st.recovered && Lists(op.order, st.store.acts))
  }

  /** The writes of an operation, in order. */
  function OpWrites(st: State, op: Op): seq<Write>
    requires op.Recover? ==> forall k :: k in op.order ==> k in st.store.acts
  {
    match op
    case Start(queue, input) => StartWrites(queue, input)
    case RespondWorkflow(token, cs, m) =>
      if token in st.tasks then CommandsWrites(st.store, cs, m) else []
    case RespondActivity(token, resp) =>
      if token in st.drivers && st.drivers[token].Token? then CompletionWrites(st.store, st.drivers[token].seq_, resp)
          else []
    case FireTimer(t) =>
      if t in st.drivers && st.drivers[t].Timer? then FireTimerWrites(st.store, st.drivers[t].seq_) else []
    case Signal(name, payload) =>
      if Open(st.store) then AppendWrites(st.store.row.value, Signaled(name, payload)) else []
    case Cancel(reason, subscribed) => CancelWrites(st.store, reason, subscribed)
    case SweepCanceling(reason) => CloseWrites(st.store, CanceledBy(reason))
    case Terminate(reason) => CloseWrites(st.store, TerminatedBy(reason))
    case Recover(order) => RecoverWrites(st.store, order)
  }

  function Do(st: State, op: Op): State
    requires op.Recover? ==> forall k :: k in op.order ==> k in st.store.acts
  {
    match op
    case Start(_, _) => Enqueue(Store(st, OpWrites(st, op)))
    case RespondWorkflow(token, cs, m) =>
      if token in st.tasks then ApplyCommands(st.(tasks := st.tasks - {token}), cs, m) else st
    case RespondActivity(token, resp) =>
      if token in st.drivers && st.drivers[token].Token?
      then Respond(st.(drivers := st.drivers - {token}), st.drivers[token].seq_, resp) else st
    case FireTimer(t) =>
      if t in st.drivers && st.drivers[t].Timer? then
        var st' := Store(st.(drivers := st.drivers - {t}), OpWrites(st, op));
        if TimerDispatches(st, st.drivers[t].seq_) then Drive(st', Token(st.drivers[t].seq_)) else st'
      else st
    case Signal(_, _) => if Open(st.store) then Enqueue(Store(st, OpWrites(st, op))) else st
    case Recover(order) =>
      var st' := Store(st, OpWrites(st, op)).(recovered := true);
      if st.store.indexed && Open(st.store) then Enqueue(DriveAll(st', order)) else st'
    case _ => Store(st, OpWrites(st, op))
  }

  /** A crash after the first `cut` writes of an operation: what is in memory is
      gone. */
  function CrashIn(st: State, op: Op, cut: nat): State
    requires op.Recover? ==> forall k :: k in op.order ==> k in st.store.acts
  {
    var ws := OpWrites(st, op);
    State(CommitAll(st.store, ws[..if cut <= |ws| then cut else |ws|]), map[], map[], [], st.next, false, st.failures)
  }

  datatype Step = Does(op: Op) | Crashes(op: Op, cut: nat)

  function Exec(st: State, step: Step): State
    requires step.op.Recover? ==> forall k :: k in step.op.order ==> k in st.store.acts
  {
    match step
    case Does(op) => Do(st, op)
    case Crashes(op, cut) => CrashIn(st, op, cut)
  }

  /** Which runs a claim is about: a crash may cut an operation anywhere; only
      between operations; or anywhere, with nothing served until recovery is
      done. */
  datatype Regime = AnyCut | BetweenOperations | QuietBoot

  ghost predicate Allowed(regime: Regime, st: State, step: Step)
  {
    && Possible(st, step.op)
    && (regime.BetweenOperations? && step.Crashes? ==> step.cut == 0 || step.cut >= |OpWrites(st, step.op)|)
    && (regime.QuietBoot? && !st.recovered ==> step.op.Recover?)
  }

  /** st' is reached from st by these steps. */
  ghost predicate Leads(regime: Regime, st: State, steps: seq<Step>, st': State)
    decreases |steps|
  {
    if steps == [] then st' == st
    else Allowed(regime, st, steps[0]) && Leads(regime, Exec(st, steps[0]), steps[1..], st')
  }
}
