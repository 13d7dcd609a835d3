/** Runs from the initial state that reach what the exact conditions of the other
    modules warn of. */
module Scenarios {
  import opened Basics
  import opened History
  import opened Durable
  import opened Statuses
  import opened Ledger
  import opened Drivers
  import opened Attempts
  import C = Cuts
  import R = Replay
  import Retry
  import S = Soundness
  import T = Traces

  /** A run started and its first activity scheduled. */
  function Begun(st: State, queue: string, input: Payload, spec: ActivitySpec, m: Minted): State
  {
    Do(Do(st, Start(queue, input)), RespondWorkflow(st.next, [ScheduleActivity(0, spec)], m))
  }

  function StartedStore(queue: string, input: Payload): RunStore
  {
    RunStore(true, Some(Row(Running, 1, queue)), [HistoryEvent(1, WorkflowStarted(input))], map[])
  }

  lemma Starts(st: State, queue: string, input: Payload)
    requires st.store == EMPTY
    ensures var st' := Do(st, Start(queue, input));
            && st'.store == StartedStore(queue, input) && Sound(st'.store)
            && st.next in st'.tasks && st'.drivers == st.drivers && st'.next == st.next + 1
               && st'.recovered == st.recovered
  {
    StartSafe(st.store, queue, input);
  }

  lemma BegunIs(st: State, queue: string, input: Payload, spec: ActivitySpec, m: Minted)
    requires st.store == EMPTY
    ensures var st' := Begun(st, queue, input, spec, m);
            && st'.store == Scheduled(StartedStore(queue, input), 0, spec) && Sound(st'.store)
            && st'.drivers == st.drivers[st.next + 1 := Token(0)] && st'.next == st.next + 2
               && st'.recovered == st.recovered
  {
    Starts(st, queue, input);
    var st1 := Do(st, Start(queue, input));
    var c := ScheduleActivity(0, spec);
    assert [c][1..] == [];
    var st2 := st1.(tasks := st1.tasks - {st.next});
    assert ApplyCommands(st2, [c], m) == ApplyCommands(ApplyCommand(st2, c, m), [c][1..], m) == ApplyCommand(st2, c, m);
    ScheduleSafe(st2.store, 0, spec);
  }

  function BegunHistory(input: Payload, spec: ActivitySpec): seq<HistoryEvent>
  {
    [HistoryEvent(1, WorkflowStarted(input)), HistoryEvent(2, ActivityScheduled(0, spec)),
        HistoryEvent(3, ActivityStarted(0, 1))]
  }

  /** One unfinished activity, driven by one token. */
  lemma BegunState(st: State, queue: string, input: Payload, spec: ActivitySpec, m: Minted)
    requires st.store == EMPTY
    ensures var st' := Begun(st, queue, input, spec, m);
            && Sound(st'.store) && st'.store.indexed && st'.store.row == Some(Row(Running, 3, queue))
            && st'.store.acts.Keys == {0} && Unfinished(st'.store.acts, 0)
            && st'.store.history == BegunHistory(input, Placed(StartedStore(queue, input), spec))
            && st'.drivers == st.drivers[st.next + 1 := Token(0)] && st'.next == st.next + 2
               && st'.recovered == st.recovered
  {
    BegunIs(st, queue, input, spec, m);
  }

  /** Requests served between boot and recovery can leave two drivers: a run is
      started and its first activity scheduled before recovery lists it. */
  lemma TwoDriversReachable(queue: string, input: Payload, spec: ActivitySpec, m: Minted) returns (st: State)
    requires queue != ""
    ensures Leads(BetweenOperations, INITIAL,
                  [Crashes(Terminate(input), 0), Does(Start(queue, input)),
                      Does(RespondWorkflow(0, [ScheduleActivity(0, spec)], m)), Does(Recover([0]))],
                  st)
    ensures st.recovered && Open(st.store) && Unfinished(st.store.acts, 0)
    ensures 1 in st.drivers && 2 in st.drivers && st.drivers[1] == st.drivers[2] == Token(0)
  {
    var st0 := CrashIn(INITIAL, Terminate(input), 0);
    BegunState(st0, queue, input, spec, m);
    Starts(st0, queue, input);
    var st2 := Begun(st0, queue, input, spec, m);
    assert Lists([0], st2.store.acts);
    RecoverShape(st2, [0]);
    st := Do(st2, Recover([0]));
    RecoverIs(st2, [0]);
    RestartsSafe(st2.store, st2.store.acts, [0]);
    DriveAllKeeps(Store(st2, RecoverWrites(st2.store, [0])).(recovered := true), [0]);
    FourSteps(BetweenOperations, INITIAL, Crashes(Terminate(input), 0), Does(Start(queue, input)),
              Does(RespondWorkflow(0, [ScheduleActivity(0, spec)], m)), Does(Recover([0])), st);
  }

  lemma {:induction false} FourSteps(regime: Regime, st: State, a: Step, b: Step, c: Step, d: Step, st': State)
    requires Allowed(regime, st, a) && Allowed(regime, Exec(st, a), b) && Allowed(regime, Exec(Exec(st, a), b), c)
    requires Allowed(regime, Exec(Exec(Exec(st, a), b), c), d) && st' == Exec(Exec(Exec(Exec(st, a), b), c), d)
    ensures Leads(regime, st, [a, b, c, d], st')
  {
    var st1 := Exec(st, a);
    ThreeSteps(regime, st1, b, c, d, st');
    assert [a, b, c, d][1..] == [b, c, d];
  }

  lemma {:induction false} ThreeSteps(regime: Regime, st: State, a: Step, b: Step, c: Step, st': State)
    requires Allowed(regime, st, a) && Allowed(regime, Exec(st, a), b) && Allowed(regime, Exec(Exec(st, a), b), c)
    requires st' == Exec(Exec(Exec(st, a), b), c)
    ensures Leads(regime, st, [a, b, c], st')
  {
    var st2 := Exec(Exec(st, a), b);
    assert [a, b, c][1..] == [b, c] && [b, c][1..] == [c] && [c][1..] == [];
    assert Leads(regime, st2, [c], st');
    assert Leads(regime, Exec(st, a), [b, c], st');
  }

  /** A crash after the first write of a completion, reached from the initial
      state, loses the activity's outcome. */
  lemma LostOutcomeReachable(queue: string, input: Payload, spec: ActivitySpec, m: Minted, result: Payload)
      returns (st: State)
    requires queue != ""
    ensures Leads(AnyCut, INITIAL,
                  [Does(Start(queue, input)), Does(RespondWorkflow(0, [ScheduleActivity(0, spec)], m)),
                      Crashes(RespondActivity(1, Response(result, None)), 1)],
                  st)
    ensures Lost(st.store, 0) && Open(st.store)
  {
    Starts(INITIAL, queue, input);
    BegunState(INITIAL, queue, input, spec, m);
    var st2 := Begun(INITIAL, queue, input, spec, m);
    var op := RespondActivity(1, Response(result, None));
    st := CrashIn(st2, op, 1);
    var v := Judge(st2.store, 0, Response(result, None));
    var ws := OpWrites(st2, op);
    assert ws[..1] == [PutAct(0, v.rec)];
    SafeOne(st2.store, PutAct(0, v.rec));
    ThreeSteps(AnyCut, INITIAL, Does(Start(queue, input)), Does(RespondWorkflow(0, [ScheduleActivity(0, spec)], m)),
        Crashes(op, 1), st);
  }

  // ------------------------------------------------------------------- tears

  predicate TearsIn(tears: set<C.Tear>, st: State, op: Op, cut: nat)
    requires op.Recover? ==> forall k :: k in op.order ==> k in st.store.acts
  {
    exists tear :: tear in tears && C.Tears(tear, st, op, cut)
  }

  /** Faithful workers, and crashes that are clean or tear in one of these ways. */
  ghost predicate Suffers(w: R.Workflow, queue: string, tears: set<C.Tear>, st: State, steps: seq<Step>, st': State)
    decreases |steps|
  {
    if steps == [] then st' == st
    else
      && Possible(st, steps[0].op) && S.Faithful(w, queue, st, steps[0].op)
      && (steps[0].Crashes? ==>
            C.CleanCut(st, steps[0].op, steps[0].cut) || TearsIn(tears, st, steps[0].op, steps[0].cut))
      && Suffers(w, queue, tears, Exec(st, steps[0]), steps[1..], st')
  }

  lemma {:induction false} SuffersFirst(w: R.Workflow, queue: string, tear: C.Tear, st: State, step: Step,
      steps: seq<Step>, st': State)
    requires Possible(st, step.op) && S.Faithful(w, queue, st, step.op)
    requires step.Crashes? ==> C.CleanCut(st, step.op, step.cut) || C.Tears(tear, st, step.op, step.cut)
    requires Suffers(w, queue, {tear}, Exec(st, step), steps, st')
    ensures Suffers(w, queue, {tear}, st, [step] + steps, st')
  {
    assert ([step] + steps)[1..] == steps;
  }

  lemma {:induction false} SuffersMore(w: R.Workflow, queue: string, tears: set<C.Tear>, more: set<C.Tear>, st: State,
                                       steps: seq<Step>, st': State)
    requires Suffers(w, queue, tears, st, steps, st') && tears <= more
    ensures Suffers(w, queue, more, st, steps, st')
    decreases |steps|
  {
    if steps != [] { SuffersMore(w, queue, tears, more, Exec(st, steps[0]), steps[1..], st'); }
  }

  /** Without tears these are the runs of replay soundness. */
  lemma {:induction false} SuffersNothing(w: R.Workflow, queue: string, st: State, steps: seq<Step>, st': State)
    ensures Suffers(w, queue, {}, st, steps, st') <==> S.Replays(w, queue, st, steps, st')
    decreases |steps|
  {
    if steps != [] && Possible(st, steps[0].op) { SuffersNothing(w, queue, Exec(st, steps[0]), steps[1..], st'); }
  }

  /** What Echo makes of an outcome. */
  function Say(o: Outcome): Payload
  {
    match o
    case Result(result) => result
    case Error(failure) => failure.message
    case Child(child) => child.runId
  }

  /** Makes one call, awaits it and returns what came of it. */
  function Echo(slot: R.Slot): R.Workflow
  {
    (input: Option<Payload>, answers: seq<R.Answer>) =>
      if |answers| == 0 then (if slot.ActivitySlot? then R.ExecuteActivity(slot.spec) else R.ExecuteChild(slot.child))
      else if |answers| == 1 then R.Get(0)
      else if answers[1].Value? then R.Return(Say(answers[1].outcome))
      else R.Return("")
  }

  lemma {:induction false} EchoCalls(slot: R.Slot, input: Option<Payload>, r: R.Resolver)
    ensures R.Run(Echo(slot), input, r, 1) == R.Episode([R.Future(0)], [slot], R.Running)
    ensures R.Run(Echo(slot), input, r, 2) ==
            if r(slot, 0) == None then R.Episode([R.Future(0)], [slot], R.Blocked)
            else R.Episode([R.Future(0), R.Value(r(slot, 0).value)], [slot], R.Running)
  {
    assert R.Run(Echo(slot), input, r, 0) == R.Episode([], [], R.Running);
  }

  lemma {:induction false} EchoRuns(slot: R.Slot, input: Option<Payload>, r: R.Resolver)
    ensures r(slot, 0) == None ==> R.Run(Echo(slot), input, r, 2) == R.Episode([R.Future(0)], [slot], R.Blocked)
    ensures r(slot, 0).Some? ==>
              var o := r(slot, 0).value;
              R.Run(Echo(slot), input, r, 3) == R.Episode([R.Future(0), R.Value(o)], [slot], R.Returned(Say(o)))
  {
    EchoCalls(slot, input, r);
  }

  /** Run in one go, Echo returns the outcome it is given and nothing else. */
  lemma EchoReturnsOnly(slot: R.Slot, input: Option<Payload>, oracle: nat -> Outcome, other: Payload)
    requires (slot.ActivitySlot? ==> R.Schedulable(slot.spec)) && Say(oracle(0)) != other
    ensures !S.RunsTo(Echo(slot), input, oracle, CompletedWith(other))
  {
    var w, r := Echo(slot), R.ByOracle(oracle);
    EchoRuns(slot, input, r);
    forall n: nat ensures R.Run(w, input, r, n).status != R.Returned(other) {
      if n < 3 {
        R.RunGrows(w, input, r, n, 3);
      } else {
        R.RunGrows(w, input, r, 3, n);
      }
    }
    T.OracleSame(oracle);
    T.EndsIff(w, input, r, T.Given(oracle), R.Returned(other));
  }

  lemma {:induction false} OneSlot(v: R.View, queue: string, slot: R.Slot)
    ensures R.CommandsFor(v, queue, [slot]) == R.CommandFor(v, queue, slot, 0)
  {
    assert [slot][..0] == [];
  }

  /** While its call is not answered Echo asks for it, if it was not asked for. */
  lemma {:induction false} EchoAsks(slot: R.Slot, queue: string, h: seq<HistoryEvent>)
    requires R.Resolve(R.Load(h), slot, 0) == None
    ensures R.Decide(Echo(slot), queue, h, 2) == R.CommandFor(R.Load(h), queue, slot, 0)
    ensures R.Replayed(Echo(slot), R.Load(h), 2).status == R.Blocked
  {
    EchoRuns(slot, R.Load(h).input, R.ByView(R.Load(h)));
    OneSlot(R.Load(h), queue, slot);
  }

  /** The history holds an answer to the call. */
  predicate Answers(h: seq<HistoryEvent>, slot: R.Slot, o: Outcome)
  {
    var v := R.Load(h);
    if slot.ActivitySlot? then 0 in v.results && v.results[0] == o else 0 in v.children && v.children[0] == o
  }

  /** Once it is answered Echo returns the answer. */
  lemma {:induction false} EchoReturns(slot: R.Slot, queue: string, h: seq<HistoryEvent>, o: Outcome)
    requires Answers(h, slot, o)
    ensures R.Decide(Echo(slot), queue, h, 3) == [CompleteWorkflow(Say(o))]
    ensures R.Replayed(Echo(slot), R.Load(h), 3).status == R.Returned(Say(o))
  {
    EchoRuns(slot, R.Load(h).input, R.ByView(R.Load(h)));
    OneSlot(R.Load(h), queue, slot);
  }

  lemma {:induction false} Answered(w: R.Workflow, queue: string, st: State, token: nat, h: seq<HistoryEvent>, n: nat,
      m: Minted)
    requires token in st.tasks && st.tasks[token] == h && R.Replayed(w, R.Load(h), n).status != R.Running
    ensures S.Faithful(w, queue, st, RespondWorkflow(token, R.Decide(w, queue, h, n), m))
  {
  }

  /** Recovery ships the history as it stands. */
  lemma Ships(st: State)
    requires Sound(st.store) && st.store.indexed && Open(st.store) && !st.recovered && st.tasks == map[]
    requires forall k :: k in st.store.acts ==> Done(st.store.acts[k])
    ensures Possible(st, Recover([]))
    ensures var st' := Do(st, Recover([])); st'.store == st.store && st'.tasks == map[st.next := st.store.history]
  {
    assert Lists([], st.store.acts);
  }

  lemma OneCommand(st: State, token: nat, c: Command, m: Minted)
    requires token in st.tasks
    ensures Do(st, RespondWorkflow(token, [c], m)).store == CommitAll(st.store, CommandWrites(st.store, c, m))
  {
    assert [c][1..] == [];
    var st' := st.(tasks := st.tasks - {token});
    assert ApplyCommands(st', [c], m) == ApplyCommands(ApplyCommand(st', c, m), [c][1..], m) == ApplyCommand(st', c, m);
  }

  /** Recovery ships the history, and a faithful worker answers it with one
      command. */
  lemma RecoveredAnswer(w: R.Workflow, queue: string, tear: C.Tear, st: State, c: Command, n: nat, m: Minted)
    returns (steps: seq<Step>, st': State)
    requires Sound(st.store) && st.store.indexed && Open(st.store) && !st.recovered && st.tasks == map[]
    requires forall k :: k in st.store.acts ==> Done(st.store.acts[k])
    requires R.Decide(w, queue, st.store.history, n) == [c]
    requires R.Replayed(w, R.Load(st.store.history), n).status != R.Running
    ensures Suffers(w, queue, {tear}, st, steps, st')
    ensures st'.store == CommitAll(st.store, CommandWrites(st.store, c, m))
  {
    var d, e := Recover([]), RespondWorkflow(st.next, [c], m);
    Ships(st);
    var st1 := Do(st, d);
    Answered(w, queue, st1, st.next, st.store.history, n, m);
    OneCommand(st1, st.next, c, m);
    st' := Do(st1, e);
    SuffersFirst(w, queue, tear, st1, Does(e), [], st');
    SuffersFirst(w, queue, tear, st, Does(d), [Does(e)] + [], st');
    steps := [Does(d)] + ([Does(e)] + []);
  }

  // ---------------------------------------------------------- a torn outcome

  /** The answer to the call is the one event the row does not count. */
  ghost predicate TornAnswer(s: RunStore, queue: string, slot: R.Slot, o: Outcome)
  {
    && Sound(s) && s.indexed && s.row.Some? && |s.history| >= 2 && s.row == Some(Row(Running, |s.history| - 1, queue))
    && (forall k :: k in s.acts ==> Done(s.acts[k]))
    && Answers(s.history, slot, o)
  }

  /** From there the worker returns the answer, and the closing event takes the
      key of the event its row never counted. */
  lemma TornEnds(w: R.Workflow, queue: string, tear: C.Tear, st: State, slot: R.Slot, o: Outcome, m: Minted)
    returns (steps: seq<Step>, st': State)
    requires w == Echo(slot) && TornAnswer(st.store, queue, slot, o) && st.tasks == map[] && !st.recovered
    ensures Suffers(w, queue, {tear}, st, steps, st')
    ensures var h := st.store.history;
            st'.store.history == h[..|h| - 1] + [HistoryEvent(|h|, Closed(CompletedWith(Say(o))))]
  {
    EchoReturns(slot, queue, st.store.history, o);
    CloseSafe(st.store, CompletedWith(Say(o)));
    steps, st' := RecoveredAnswer(w, queue, tear, st, CompleteWorkflow(Say(o)), 3, m);
  }

  /** No answer to the call is left, so another one contradicts nothing, and on it
      the workflow returns something else. */
  lemma Disagrees(slot: R.Slot, queue: string, s: RunStore, o: Outcome, other: Outcome)
      returns (oracle: nat -> Outcome)
    requires (slot.ActivitySlot? ==> R.Schedulable(slot.spec)) && Say(o) != Say(other)
    requires Forgot(s.history, o)
    ensures T.Yields(s.history, oracle) && !S.Agreeing(Echo(slot), queue, s, oracle)
  {
    oracle := k => other;
    EchoReturnsOnly(slot, Some(s.history[0].ev.input), oracle, Say(o));
    assert s.history[|s.history| - 1].ev.Closed?;
  }

  /** A run that returned what came of its call, and recorded nothing of it. */
  ghost predicate Forgot(h: seq<HistoryEvent>, o: Outcome)
  {
    h != [] && h[0].ev.WorkflowStarted? && h[|h| - 1].ev == Closed(CompletedWith(Say(o))) && Silent(h)
  }

  lemma ForgotIs(h: seq<HistoryEvent>, id: nat, o: Outcome)
    requires h != [] && h[0].ev.WorkflowStarted? && Silent(h)
    ensures Forgot(h + [HistoryEvent(id, Closed(CompletedWith(Say(o))))], o)
  {
  }

  /** A history without an outcome or a child. */
  ghost predicate Silent(h: seq<HistoryEvent>)
  {
    forall i :: 0 <= i < |h| ==> !IsOutcome(h[i].ev) && !h[i].ev.ChildStarted?
  }

  // --------------------------------------------------------- a torn completion

  lemma BegunLoads(input: Payload, spec: ActivitySpec)
    ensures R.Load(BegunHistory(input, spec)[..1]) == R.View(Some(input), map[], {}, map[])
    ensures R.Load(BegunHistory(input, spec)) == R.View(Some(input), map[], {0}, map[])
  {
    var h := BegunHistory(input, spec);
    assert h[..1] == [h[0]] && h[..3] == h && h[..2][..1] == h[..1] && h[..3][..2] == h[..2] && h[..1][..0] == [];
    assert R.Load(h[..1]) == R.Absorb(R.Load([]), h[0].ev);
    assert R.Load(h[..2]) == R.Absorb(R.Load(h[..1]), h[1].ev);
    assert R.Load(h[..3]) == R.Absorb(R.Load(h[..2]), h[2].ev);
  }

  /** A response that ends the activity. */
  predicate Final(resp: Response) { resp.failure.Some? ==> resp.failure.value.nonRetryable }

  function OutcomeOf(resp: Response): Outcome
  {
    if resp.failure.None? then Result(resp.result) else Error(resp.failure.value)
  }

  function OutcomeEvent(resp: Response): Event
  {
    if resp.failure.None? then ActivityCompleted(0, resp.result) else ActivityFailed(0, resp.failure.value)
  }

  /** An outcome's record and event written, its row not. */
  lemma {:induction false} TornCompletion(s: RunStore, resp: Response)
    requires Sound(s) && Open(s) && 0 in s.acts && !Done(s.acts[0]) && Final(resp)
             && |s.history| == s.row.value.historyLen
    ensures var ws := CompletionWrites(s, 0, resp); var s' := CommitAll(s, ws[..2]);
            && |ws| == 3 && ws[1] == PutEvent(|s.history| + 1, OutcomeEvent(resp))
            && Sound(s') && s'.indexed == s.indexed && s'.row == s.row
            && s'.history == s.history + [HistoryEvent(|s.history| + 1, OutcomeEvent(resp))]
            && s'.acts.Keys == s.acts.Keys && Done(s'.acts[0])
  {
    CompletionSafe(s, 0, resp);
    var ws := CompletionWrites(s, 0, resp);
    var two := [ws[0], ws[1]];
    assert ws[..2] == two && two[1..] == [ws[1]] && [ws[1]][1..] == [];
    SafeCut(s, ws, 2);
    PutAtEnd(s.history, HistoryEvent(|s.history| + 1, OutcomeEvent(resp)));
    assert s.history[..|s.history|] == s.history;
    assert CommitAll(Commit(s, ws[0]), [ws[1]]) == Commit(Commit(s, ws[0]), ws[1]);
    assert s.acts[0 := ws[0].rec].Keys == s.acts.Keys;
  }

  function TearOf(resp: Response): C.Tear { if resp.failure.None? then C.AfterCompleted else C.AfterFailed }

  lemma OutcomeAnswers(input: Payload, spec: ActivitySpec, resp: Response)
    ensures Answers(BegunHistory(input, spec) + [HistoryEvent(4, OutcomeEvent(resp))], R.ActivitySlot(spec),
            OutcomeOf(resp))
  {
    BegunLoads(input, spec);
    S.LoadAppend(BegunHistory(input, spec), HistoryEvent(4, OutcomeEvent(resp)));
  }

  /** The second write of a final response to the first activity is its outcome. */
  lemma {:induction false} TornStore(s: RunStore, queue: string, input: Payload, spec: ActivitySpec, resp: Response)
    requires Sound(s) && s.indexed && s.row == Some(Row(Running, 3, queue)) && s.history == BegunHistory(input, spec)
    requires s.acts.Keys == {0} && !Done(s.acts[0]) && Final(resp)
    ensures var ws := CompletionWrites(s, 0, resp); var s' := CommitAll(s, ws[..2]);
            && |ws| == 3 && ws[1] == PutEvent(4, OutcomeEvent(resp))
            && s'.history == BegunHistory(input, spec) + [HistoryEvent(4, OutcomeEvent(resp))]
            && TornAnswer(s', queue, R.ActivitySlot(spec), OutcomeOf(resp))
  {
    TornCompletion(s, resp);
    OutcomeAnswers(input, spec, resp);
  }

  lemma TornState(queue: string, input: Payload, spec: ActivitySpec, m: Minted, resp: Response)
    requires R.Schedulable(spec) && spec.taskQueue != "" && Final(resp)
    ensures var st, op := Begun(INITIAL, queue, input, spec, m), RespondActivity(1, resp);
            && C.Tears(TearOf(resp), st, op, 2)
            && TornAnswer(CrashIn(st, op, 2).store, queue, R.ActivitySlot(spec), OutcomeOf(resp))
            && CrashIn(st, op, 2).store.history == BegunHistory(input, spec) + [HistoryEvent(4, OutcomeEvent(resp))]
  {
    var st := Begun(INITIAL, queue, input, spec, m);
    BegunState(INITIAL, queue, input, spec, m);
    TornStore(st.store, queue, input, spec, resp);
  }

  lemma FirstAnswer(queue: string, input: Payload, slot: R.Slot, m: Minted)
    requires slot.ActivitySlot? ==> R.Schedulable(slot.spec)
    ensures var h := StartedStore(queue, input).history;
            S.Faithful(Echo(slot), queue, Do(INITIAL, Start(queue, input)),
                RespondWorkflow(0, R.CommandFor(R.Load(h), queue, slot, 0), m))
    ensures R.Load(StartedStore(queue, input).history) == R.View(Some(input), map[], {}, map[])
  {
    var h := StartedStore(queue, input).history;
    assert h[..0] == [];
    assert R.Load(h) == R.Absorb(R.Load(h[..0]), h[0].ev);
    Starts(INITIAL, queue, input);
    EchoAsks(slot, queue, h);
    Answered(Echo(slot), queue, Do(INITIAL, Start(queue, input)), 0, h, 2, m);
  }

  function ReturnedHistory(input: Payload, spec: ActivitySpec, resp: Response): seq<HistoryEvent>
  {
    BegunHistory(input, spec) + [HistoryEvent(4, Closed(CompletedWith(Say(OutcomeOf(resp)))))]
  }

  lemma ReturnedForgot(input: Payload, spec: ActivitySpec, resp: Response)
    ensures Forgot(ReturnedHistory(input, spec, resp), OutcomeOf(resp))
  {
    ForgotIs(BegunHistory(input, spec), 4, OutcomeOf(resp));
  }

  /** Scheduled, then torn, then returned. */
  lemma TornOutcomeRun(queue: string, input: Payload, asked: ActivitySpec, m: Minted, resp: Response)
    returns (steps: seq<Step>, st: State)
    requires queue != "" && R.Schedulable(asked) && asked.taskQueue != "" && Final(resp)
    ensures Suffers(Echo(R.ActivitySlot(asked)), queue, {TearOf(resp)}, INITIAL, steps, st)
    ensures st.store.history == ReturnedHistory(input, asked, resp)
  {
    var slot, tear := R.ActivitySlot(asked), TearOf(resp);
    var w := Echo(slot);
    var a, b := Start(queue, input), RespondWorkflow(0, [ScheduleActivity(0, asked)], m);
    var c := RespondActivity(1, resp);
    var st1, st2 := Do(INITIAL, a), Begun(INITIAL, queue, input, asked, m);
    TornState(queue, input, asked, m, resp);
    var st3 := CrashIn(st2, c, 2);
    steps, st := TornEnds(w, queue, tear, st3, slot, OutcomeOf(resp), m);
    assert st3.store.history[..3] == BegunHistory(input, asked);
    FirstAnswer(queue, input, slot, m);
    SuffersFirst(w, queue, tear, st2, Crashes(c, 2), steps, st);
    SuffersFirst(w, queue, tear, st1, Does(b), [Crashes(c, 2)] + steps, st);
    SuffersFirst(w, queue, tear, INITIAL, Does(a), [Does(b)] + ([Crashes(c, 2)] + steps), st);
    steps := [Does(a)] + ([Does(b)] + ([Crashes(c, 2)] + steps));
  }

  /** A crash between an outcome and its row: the run returns the outcome, and its
      history holds none. */
  lemma TornOutcomeReachable(queue: string, input: Payload, spec: ActivitySpec, m: Minted, resp: Response,
      other: Outcome)
    returns (w: R.Workflow, steps: seq<Step>, st: State, oracle: nat -> Outcome)
    requires queue != "" && R.Schedulable(spec) && Final(resp) && Say(OutcomeOf(resp)) != Say(other)
    ensures Suffers(w, queue, {TearOf(resp)}, INITIAL, steps, st)
    ensures T.Yields(st.store.history, oracle) && !S.Agreeing(w, queue, st.store, oracle)
  {
    var asked := R.OnQueue(spec, queue);
    w := Echo(R.ActivitySlot(asked));
    steps, st := TornOutcomeRun(queue, input, asked, m, resp);
    ReturnedForgot(input, asked, resp);
    oracle := Disagrees(R.ActivitySlot(asked), queue, st.store, OutcomeOf(resp), other);
  }

  // -------------------------------------------------------------- a torn child

  lemma {:induction false} OneCommandWrites(s: RunStore, c: Command, m: Minted)
    ensures CommandsWrites(s, [c], m) == CommandWrites(s, c, m)
  {
    var ws := CommandWrites(s, c, m);
    assert [c][1..] == [];
    assert CommandsWrites(CommitAll(s, ws), [c][1..], m) == [];
    assert ws + [] == ws;
  }

  /** The first write of a start-child is the event, which its row does not count
      yet. */
  lemma {:induction false} TornChildStore(s: RunStore, ev: Event)
    requires Sound(s) && s.row.Some? && s.row.value.historyLen == |s.history| && FreshEvent(s, ev)
    ensures var ws := AppendWrites(s.row.value, ev);
            && CommitAll(s, ws[..1]) == s.(history := s.history + [HistoryEvent(|s.history| + 1, ev)])
            && Sound(CommitAll(s, ws[..1]))
  {
    var ws := AppendWrites(s.row.value, ev);
    assert ws[..1] == [ws[0]];
    SafeOne(s, ws[0]);
    PutAtEnd(s.history, HistoryEvent(|s.history| + 1, ev));
    assert s.history[..|s.history|] == s.history;
  }

  lemma TornChildState(queue: string, input: Payload, child: ChildSpec, m: Minted)
    requires child.workflowType != ""
    ensures var st, op := Do(INITIAL, Start(queue, input)), RespondWorkflow(0, [StartChild(0, child)], m);
            && C.Tears(C.AfterChild, st, op, 1)
            && TornAnswer(CrashIn(st, op, 1).store, queue, R.ChildSlot(child), Child(ChildOf(m, 0)))
            && CrashIn(st, op, 1).store.history
               == StartedStore(queue, input).history + [HistoryEvent(2, ChildStarted(0, ChildOf(m, 0)))]
  {
    Starts(INITIAL, queue, input);
    var s, ev := StartedStore(queue, input), ChildStarted(0, ChildOf(m, 0));
    OneCommandWrites(s, StartChild(0, child), m);
    TornChildStore(s, ev);
    S.LoadAppend(s.history, HistoryEvent(2, ev));
  }

  /** Torn, then returned. */
  lemma TornChildRun(queue: string, input: Payload, child: ChildSpec, m: Minted) returns (steps: seq<Step>, st: State)
    requires queue != "" && child.workflowType != ""
    ensures Suffers(Echo(R.ChildSlot(child)), queue, {C.AfterChild}, INITIAL, steps, st)
    ensures st.store.history
            == StartedStore(queue, input).history + [HistoryEvent(2, Closed(CompletedWith(ChildOf(m, 0).runId)))]
  {
    var slot, tear := R.ChildSlot(child), C.AfterChild;
    var w, a, b := Echo(slot), Start(queue, input), RespondWorkflow(0, [StartChild(0, child)], m);
    var st1 := Do(INITIAL, a);
    TornChildState(queue, input, child, m);
    var st2 := CrashIn(st1, b, 1);
    steps, st := TornEnds(w, queue, tear, st2, slot, Child(ChildOf(m, 0)), m);
    assert st2.store.history[..1] == StartedStore(queue, input).history;
    FirstAnswer(queue, input, slot, m);
    SuffersFirst(w, queue, tear, st1, Crashes(b, 1), steps, st);
    SuffersFirst(w, queue, tear, INITIAL, Does(a), [Crashes(b, 1)] + steps, st);
    steps := [Does(a)] + ([Crashes(b, 1)] + steps);
  }

  /** A crash between a child start and its row: the run returns that child's id,
      and its history holds no child. */
  lemma TornChildReachable(queue: string, input: Payload, child: ChildSpec, m: Minted, other: Outcome)
    returns (w: R.Workflow, steps: seq<Step>, st: State, oracle: nat -> Outcome)
    requires queue != "" && child.workflowType != "" && ChildOf(m, 0).runId != Say(other)
    ensures Suffers(w, queue, {C.AfterChild}, INITIAL, steps, st)
    ensures T.Yields(st.store.history, oracle) && !S.Agreeing(w, queue, st.store, oracle)
  {
    var slot, o := R.ChildSlot(child), Child(ChildOf(m, 0));
    w := Echo(slot);
    steps, st := TornChildRun(queue, input, child, m);
    ForgotIs(StartedStore(queue, input).history, 2, o);
    oracle := Disagrees(slot, queue, st.store, o, other);
  }

  // -------------------------------------------------------------- a torn start

  /** Two or three writes of a start: the row counts no event. */
  lemma TornStartState(queue: string, input: Payload, cut: nat)
    requires cut == 2 || cut == 3
    ensures var s := CrashIn(INITIAL, Start(queue, input), cut).store;
            && Sound(s) && s.indexed && s.row == Some(Row(Running, 0, queue)) && s.acts == map[]
            && s.history == (if cut == 2 then [] else [HistoryEvent(1, WorkflowStarted(input))])
  {
    var ws, row := StartWrites(queue, input), Row(Running, 0, queue);
    SafeTwo(EMPTY, PutIndex, PutRow(row));
    assert ws[..2] == [PutIndex, PutRow(row)];
    if cut == 3 {
      var s2 := CommitAll(EMPTY, ws[..2]);
      assert ws[..3] == ws[..2] + [ws[2]];
      CommitConcat(EMPTY, ws[..2], [ws[2]]);
      SafeOne(s2, ws[2]);
    }
  }

  lemma {:induction false} AsksFirst(queue: string, asked: ActivitySpec, h: seq<HistoryEvent>)
    requires R.Schedulable(asked) && asked.taskQueue != "" && (h == [] || (|h| == 1 && h[0].ev.WorkflowStarted?))
    ensures R.Decide(Echo(R.ActivitySlot(asked)), queue, h, 2) == [ScheduleActivity(0, asked)]
    ensures R.Replayed(Echo(R.ActivitySlot(asked)), R.Load(h), 2).status == R.Blocked
  {
    StartLoads(h);
    EchoAsks(R.ActivitySlot(asked), queue, h);
  }

  lemma {:induction false} ScheduledOver(s: RunStore, asked: ActivitySpec, m: Minted)
    requires Sound(s) && s.row.Some? && s.row.value.historyLen == 0 && s.acts == map[] && asked.taskQueue != ""
    ensures CommitAll(s, CommandWrites(s, ScheduleActivity(0, asked), m)).history == ScheduledFirst(asked)
  {
    ScheduleSafe(s, 0, asked);
  }

  /** Recovery ships what history there is, and the first event of the answer
      takes the first key. */
  lemma FirstKeyTaken(queue: string, tear: C.Tear, st: State, asked: ActivitySpec, m: Minted)
      returns (steps: seq<Step>, st': State)
    requires R.Schedulable(asked) && asked.taskQueue != "" && st.tasks == map[] && !st.recovered
    requires var s := st.store; Sound(s) && s.indexed && s.row == Some(Row(Running, 0, queue)) && s.acts == map[]
    requires var h := st.store.history; h == [] || (|h| == 1 && h[0].ev.WorkflowStarted?)
    ensures Suffers(Echo(R.ActivitySlot(asked)), queue, {tear}, st, steps, st')
    ensures st'.store.history == ScheduledFirst(asked)
  {
    AsksFirst(queue, asked, st.store.history);
    ScheduledOver(st.store, asked, m);
    steps, st' := RecoveredAnswer(Echo(R.ActivitySlot(asked)), queue, tear, st, ScheduleActivity(0, asked), 2, m);
  }

  function StartTear(cut: nat): C.Tear { if cut == 2 then C.StartAfterRow else C.StartAfterEvent }

  lemma TornStartRun(queue: string, input: Payload, asked: ActivitySpec, m: Minted, cut: nat)
    returns (steps: seq<Step>, st: State)
    requires queue != "" && R.Schedulable(asked) && asked.taskQueue != "" && (cut == 2 || cut == 3)
    ensures Suffers(Echo(R.ActivitySlot(asked)), queue, {StartTear(cut)}, INITIAL, steps, st)
    ensures st.store.history == ScheduledFirst(asked)
  {
    var a, tear := Start(queue, input), StartTear(cut);
    TornStartState(queue, input, cut);
    steps, st := FirstKeyTaken(queue, tear, CrashIn(INITIAL, a, cut), asked, m);
    SuffersFirst(Echo(R.ActivitySlot(asked)), queue, tear, INITIAL, Crashes(a, cut), steps, st);
    steps := [Crashes(a, cut)] + steps;
  }

  /** A crash inside a start after its row: the history then does not begin with
      the input. */
  lemma TornStartReachable(queue: string, input: Payload, spec: ActivitySpec, m: Minted, cut: nat)
    returns (w: R.Workflow, steps: seq<Step>, st: State, oracle: nat -> Outcome)
    requires queue != "" && R.Schedulable(spec) && (cut == 2 || cut == 3)
    ensures Suffers(w, queue, {StartTear(cut)}, INITIAL, steps, st)
    ensures T.Yields(st.store.history, oracle) && !S.Agreeing(w, queue, st.store, oracle)
  {
    var asked := R.OnQueue(spec, queue);
    w := Echo(R.ActivitySlot(asked));
    steps, st := TornStartRun(queue, input, asked, m, cut);
    oracle := k => Result("");
    Headless(w, queue, st.store, oracle);
  }

  /** A history that does not begin with the input agrees with nothing. */
  lemma Headless(w: R.Workflow, queue: string, s: RunStore, oracle: nat -> Outcome)
    requires s.history != [] && !s.history[0].ev.WorkflowStarted? && Silent(s.history)
    ensures T.Yields(s.history, oracle) && !S.Agreeing(w, queue, s, oracle)
  {
  }

  function ScheduledFirst(spec: ActivitySpec): seq<HistoryEvent>
  {
    [HistoryEvent(1, ActivityScheduled(0, spec)), HistoryEvent(2, ActivityStarted(0, 1))]
  }

  lemma {:induction false} StartLoads(h: seq<HistoryEvent>)
    requires h == [] || (|h| == 1 && h[0].ev.WorkflowStarted?)
    ensures var v := R.Load(h); v.results == map[] && v.scheduled == {} && v.children == map[]
  {
    if h != [] { assert h[..0] == []; }
  }

  // ---------------------------------------------------------------- every tear

  /** Each way of tearing breaks replay soundness: there is a run of faithful
      workers, torn in that way alone, whose history direct execution contradicts
      under outcomes the history records. */
  lemma EveryTearBreaks(tear: C.Tear, queue: string)
    returns (w: R.Workflow, steps: seq<Step>, st: State, oracle: nat -> Outcome)
    requires queue != ""
    ensures Suffers(w, queue, {tear}, INITIAL, steps, st)
    ensures T.Yields(st.store.history, oracle) && !S.Agreeing(w, queue, st.store, oracle)
  {
    var spec := ActivitySpec("activity", Some(""), "", 0, 0, None);
    var m := Minted(map[], "");
    match tear {
      case AfterCompleted =>
        w, steps, st, oracle := TornOutcomeReachable(queue, "", spec, m, Response("a", None), Result("b"));
      case AfterFailed =>
        var resp := Response("", Some(Retry.Failure("a", "", true)));
        w, steps, st, oracle := TornOutcomeReachable(queue, "", spec, m, resp, Result("b"));
      case AfterChild =>
        w, steps, st, oracle := TornChildReachable(queue, "", ChildSpec("child", "", "", ""), m, Result("b"));
      case StartAfterRow =>
        w, steps, st, oracle := TornStartReachable(queue, "", spec, m, 2);
      case StartAfterEvent =>
        w, steps, st, oracle := TornStartReachable(queue, "", spec, m, 3);
    }
  }

  /** Every run of this workflow torn at most in these ways agrees with direct
      execution, under every oracle that yields what its history records. */
  ghost predicate Tolerates(w: R.Workflow, queue: string, tears: set<C.Tear>)
  {
    forall steps, st, oracle ::
      Suffers(w, queue, tears, INITIAL, steps, st) && T.Yields(st.store.history, oracle) ==>
        S.Agreeing(w, queue, st.store, oracle)
  }

  /** Replay soundness holds for every workflow exactly when no crash tears. */
  lemma SoundExactlyWithoutTears(queue: string, tears: set<C.Tear>)
    requires queue != ""
    ensures (forall w :: Tolerates(w, queue, tears)) <==> tears == {}
  {
    if tears == {} {
      forall w, steps, st, oracle: nat -> Outcome |
        Suffers(w, queue, tears, INITIAL, steps, st) && T.Yields(st.store.history, oracle)
        ensures S.Agreeing(w, queue, st.store, oracle)
      {
        SuffersNothing(w, queue, INITIAL, steps, st);
        S.ReplaySoundness(w, queue, steps, st, oracle);
      }
    } else {
      var tear :| tear in tears;
      var w, steps, st, oracle := EveryTearBreaks(tear, queue);
      SuffersMore(w, queue, {tear}, tears, INITIAL, steps, st);
      assert !Tolerates(w, queue, tears);
    }
  }
}
