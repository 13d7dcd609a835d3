/** The replaying worker. A workflow is a deterministic function from the
    answers it has observed to its next call; each workflow task re-runs it
    against the shipped history (pkg/sdk/worker/env.go, replay.go, dispatch.go;
    startChild and continueAsNew from sdk/typescript/src/workflow/runtime.ts). */
module Replay {
  import opened Basics
  import opened History
  import Retry

  // ---------------------------------------------------------------- workflows

  datatype Call =
    | ExecuteActivity(spec: ActivitySpec)
    | ExecuteChild(child: ChildSpec)
    | Get(seq_: nat)
    | Return(result: Payload)
    | Throw(failure: Retry.Failure)
    | Continue(input: Payload)

  /** A call that only creates a future is answered by the future; awaiting one
      is answered by its outcome. */
  datatype Answer = Future(seq_: nat) | Value(outcome: Outcome)

  type Workflow = (Option<Payload>, seq<Answer>) -> Call

  /** The call behind a sequence number. */
  datatype Slot = ActivitySlot(spec: ActivitySpec) | ChildSlot(child: ChildSpec)

  /** Panic of awaiting a future that was never created. */
  const NIL_FUTURE := Retry.Failure("workflow panic: nil future", "PanicError", false)
  const UNRESOLVABLE := Retry.Failure("activity type unresolvable", "ConfigError", true)
  const UNENCODABLE := Retry.Failure("encode activity args", "MarshalError", true)

  /** An activity call that reaches the server; the others settle on the spot. */
  predicate Schedulable(spec: ActivitySpec)
  {
    spec.activityType != "" && spec.input.Some?
  }

  function LocalFailure(spec: ActivitySpec): Retry.Failure
  {
    if spec.activityType == "" then UNRESOLVABLE else UNENCODABLE
  }

  // ------------------------------------------------------------------ episodes

  datatype Status =
    | Running
    | Blocked
    | Returned(result: Payload)
    | Threw(failure: Retry.Failure)
    | Continued(input: Payload)

  datatype Episode = Episode(answers: seq<Answer>, slots: seq<Slot>, status: Status)

  /** How an await is answered: by sequence number, or not yet. */
  type Resolver = (Slot, nat) -> Option<Outcome>

  function Step(w: Workflow, input: Option<Payload>, r: Resolver, e: Episode): Episode
  {
    if e.status != Running then e else
    match w(input, e.answers)
    case ExecuteActivity(spec) => Create(e, ActivitySlot(spec))
    case ExecuteChild(child) => Create(e, ChildSlot(child))
    case Get(k) =>
      if k >= |e.slots| then e.(status := Threw(NIL_FUTURE))
      else (match r(e.slots[k], k)
            case Some(o) => e.(answers := e.answers + [Value(o)])
            case None => e.(status := Blocked))
    case Return(result) => e.(status := Returned(result))
    case Throw(failure) => e.(status := Threw(failure))
    case Continue(next) => e.(status := Continued(next))
  }

  function Create(e: Episode, slot: Slot): Episode
  {
    e.(answers := e.answers + [Future(|e.slots|)], slots := e.slots + [slot])
  }

  /** The first n steps of running w from the top. */
  function Run(w: Workflow, input: Option<Payload>, r: Resolver, n: nat): Episode
  {
    if n == 0 then Episode([], [], Running) else Step(w, input, r, Run(w, input, r, n - 1))
  }

  ghost predicate Extends(shorter: Episode, longer: Episode)
  {
    shorter.answers <= longer.answers && shorter.slots <= longer.slots
  }

  lemma {:induction false} RunGrows(w: Workflow, input: Option<Payload>, r: Resolver, m: nat, n: nat)
    requires m <= n
    ensures Extends(Run(w, input, r, m), Run(w, input, r, n))
    ensures Run(w, input, r, m).status != Running ==> Run(w, input, r, n) == Run(w, input, r, m)
  {
    if m < n {
      RunGrows(w, input, r, m, n - 1);
    }
  }

  /** Along the run under `along`, whatever r answers r' answers the same. */
  ghost predicate Agrees(w: Workflow, input: Option<Payload>, along: Resolver, r: Resolver, r': Resolver)
  {
    forall n: nat, k: nat ::
      var slots := Run(w, input, along, n).slots;
      k < |slots| && r(slots[k], k).Some? ==> r'(slots[k], k) == r(slots[k], k)
  }

  /** Determinism under growing knowledge: with a resolver that knows more, the
      run is the same until the shorter one blocks, and goes on from there. */
  lemma {:induction false} RunMonotone(w: Workflow, input: Option<Payload>, along: Resolver, r: Resolver, r': Resolver,
      n: nat)
    requires along == r || along == r'
    requires Agrees(w, input, along, r, r')
    ensures Extends(Run(w, input, r, n), Run(w, input, r', n))
    ensures Run(w, input, r, n).status != Blocked ==> Run(w, input, r', n) == Run(w, input, r, n)
  {
    if n > 0 {
      RunMonotone(w, input, along, r, r', n - 1);
      RunGrows(w, input, r', n - 1, n);
      var e := Run(w, input, r, n - 1);
      if e.status == Running {
        assert e == Run(w, input, along, n - 1);
        var call := w(input, e.answers);
        if call.Get? && call.seq_ < |e.slots| {
          assert r(e.slots[call.seq_], call.seq_).Some? ==>
              r'(e.slots[call.seq_], call.seq_) == r(e.slots[call.seq_], call.seq_);
        }
      }
    }
  }

  // --------------------------------------------------------- views of a history

  /** What the decider keeps of a history. */
  datatype View = View(
    input: Option<Payload>,
    results: map<nat, Outcome>,
    scheduled: set<nat>,
    children: map<nat, Outcome>)

  const EMPTY_VIEW := View(None, map[], {}, map[])

  function Absorb(v: View, ev: Event): View
  {
    match ev
    case WorkflowStarted(input) => if v.input.None? then v.(input := Some(input)) else v
    case ActivityScheduled(k, _) => v.(scheduled := v.scheduled + {k})
    case ActivityCompleted(k, result) => v.(results := v.results[k := Result(result)])
    case ActivityFailed(k, failure) => v.(results := v.results[k := Error(failure)])
    case ChildStarted(k, child) => v.(children := v.children[k := Child(child)])
    case _ => v
  }

  function Load(h: seq<HistoryEvent>): View
  {
    if h == [] then EMPTY_VIEW else Absorb(Load(h[..|h| - 1]), h[|h| - 1].ev)
  }

  function Resolve(v: View, slot: Slot, k: nat): Option<Outcome>
  {
    match slot
    case ActivitySlot(spec) =>
      if k in v.results then Some(v.results[k])
      else if Schedulable(spec) then None
      else Some(Error(LocalFailure(spec)))
    case ChildSlot(_) =>
      if k in v.children then Some(v.children[k]) else None
  }

  function ByView(v: View): Resolver
  {
    (slot: Slot, k: nat) => Resolve(v, slot, k)
  }

  /** n steps of the decision episode on a history. */
  function Replayed(w: Workflow, v: View, n: nat): Episode
  {
    Run(w, v.input, ByView(v), n)
  }

  /** v' knows everything v knows. */
  ghost predicate Within(v: View, v': View)
  {
    && v.input == v'.input
    && v.scheduled <= v'.scheduled
    && (forall k :: k in v.results ==> k in v'.results && v'.results[k] == v.results[k])
    && (forall k :: k in v.children ==> k in v'.children && v'.children[k] == v.children[k])
  }

  /** Along the replay of v, no result recorded in v' belongs to a call that
      never reached the server. */
  ghost predicate NoStrayResults(w: Workflow, v: View, v': View)
  {
    forall n: nat, k: nat ::
      var slots := Replayed(w, v, n).slots;
      k < |slots| && k in v'.results ==> slots[k].ActivitySlot? && Schedulable(slots[k].spec)
  }

  /** The replays of two histories, one knowing more than the other, make the
      same calls as far as the first one goes. */
  lemma ViewsMonotone(w: Workflow, along: View, v: View, v': View, n: nat)
    requires Within(v, v') && (along == v || along == v') && NoStrayResults(w, along, v')
    ensures Extends(Replayed(w, v, n), Replayed(w, v', n))
    ensures Replayed(w, v, n).status != Blocked ==> Replayed(w, v', n) == Replayed(w, v, n)
  {
    var r, r', a := ByView(v), ByView(v'), ByView(along);
    forall m: nat, k: nat | k < |Run(w, v.input, a, m).slots| && r(Run(w, v.input, a, m).slots[k], k).Some?
      ensures r'(Run(w, v.input, a, m).slots[k], k) == r(Run(w, v.input, a, m).slots[k], k)
    {
      var slot := Replayed(w, along, m).slots[k];
      assert k in v'.results ==> slot.ActivitySlot? && Schedulable(slot.spec);
    }
    RunMonotone(w, v.input, a, r, r', n);
  }

  // ------------------------------------------------------------------- commands

  /** The command a call produces when history does not already answer it. */
  function CommandFor(v: View, queue: string, slot: Slot, k: nat): seq<Command>
  {
    match slot
    case ActivitySlot(spec) =>
      if k in v.results || k in v.scheduled || !Schedulable(spec) then []
      else [ScheduleActivity(k, OnQueue(spec, queue))]
    case ChildSlot(child) =>
      if k in v.children then [] else [StartChild(k, child)]
  }

  /** An activity without a queue of its own goes to the workflow's queue. */
  function OnQueue(spec: ActivitySpec, queue: string): ActivitySpec
  {
    if spec.taskQueue == "" then spec.(taskQueue := queue) else spec
  }

  function CommandsFor(v: View, queue: string, slots: seq<Slot>): seq<Command>
  {
    if slots == [] then []
    else CommandsFor(v, queue, slots[..|slots| - 1]) + CommandFor(v, queue, slots[|slots| - 1], |slots| - 1)
  }

  function Ending(s: Status): seq<Command>
  {
    match s
    case Returned(result) => [CompleteWorkflow(result)]
    case Threw(failure) => [FailWorkflow(failure)]
    case Continued(input) => [ContinueAsNew(input)]
    case _ => []
  }

  /** Everything the worker ships back after n steps. */
  function Decide(w: Workflow, queue: string, h: seq<HistoryEvent>, n: nat): seq<Command>
  {
    var v := Load(h);
    var e := Replayed(w, v, n);
    CommandsFor(v, queue, e.slots) + Ending(e.status)
  }

  /** A command for slot k is exactly the command that slot calls for. */
  lemma {:induction false} CommandsBySlot(v: View, queue: string, slots: seq<Slot>, c: Command)
    ensures c in CommandsFor(v, queue, slots) <==>
            exists k: nat :: k < |slots| && c in CommandFor(v, queue, slots[k], k)
  {
    if slots != [] {
      var front, last := slots[..|slots| - 1], |slots| - 1;
      CommandsBySlot(v, queue, front, c);
      if c in CommandsFor(v, queue, front) {
        var k: nat :| k < |front| && c in CommandFor(v, queue, front[k], k);
        assert k < |slots| && c in CommandFor(v, queue, slots[k], k);
      }
      if k: nat :| k < |slots| && c in CommandFor(v, queue, slots[k], k) {
        if k < last {
          assert c in CommandFor(v, queue, front[k], k);
        }
      }
    }
  }

  /** Episode monotonicity. Replaying a longer history makes the same calls
      under the same sequence numbers, then possibly more; and a command of the
      shorter replay is either answered by the longer history already or comes
      out again unchanged. */
  lemma {:induction false} EpisodeMonotone(w: Workflow, queue: string, v: View, v': View, n: nat)
    requires Within(v, v') && NoStrayResults(w, v, v')
    ensures Extends(Replayed(w, v, n), Replayed(w, v', n))
    ensures Replayed(w, v, n).status != Blocked ==> Replayed(w, v', n) == Replayed(w, v, n)
    ensures forall c :: c in CommandsFor(v, queue, Replayed(w, v, n).slots) ==>
              || c in CommandsFor(v', queue, Replayed(w, v', n).slots)
              || (c.ScheduleActivity? && (c.seq_ in v'.scheduled || c.seq_ in v'.results))
              || (c.StartChild? && c.seq_ in v'.children)
  {
    ViewsMonotone(w, v, v, v', n);
    var slots, slots' := Replayed(w, v, n).slots, Replayed(w, v', n).slots;
    forall c | c in CommandsFor(v, queue, slots)
      ensures || c in CommandsFor(v', queue, slots')
              || (c.ScheduleActivity? && (c.seq_ in v'.scheduled || c.seq_ in v'.results))
              || (c.StartChild? && c.seq_ in v'.children)
    {
      CommandsBySlot(v, queue, slots, c);
      CommandsBySlot(v', queue, slots', c);
      var k: nat :| k < |slots| && c in CommandFor(v, queue, slots[k], k);
      assert slots'[k] == slots[k];
    }
  }

  // ----------------------------------------------------------- direct execution

  /** The workflow run in one go, each await yielding the oracle's outcome for
      its sequence number. */
  function Direct(w: Workflow, input: Option<Payload>, oracle: nat -> Outcome, n: nat): Episode
  {
    Run(w, input, ByOracle(oracle), n)
  }

  function ByOracle(oracle: nat -> Outcome): Resolver
  {
    (slot: Slot, k: nat) =>
      if slot.ActivitySlot? && !Schedulable(slot.spec) then Some(Error(LocalFailure(slot.spec)))
      else Some(oracle(k))
  }

  /** The oracle yields what the history recorded, for the calls w makes. */
  ghost predicate Records(w: Workflow, v: View, oracle: nat -> Outcome)
  {
    forall n: nat, k: nat ::
      var slots := Replayed(w, v, n).slots;
      k < |slots| ==>
        && (slots[k].ActivitySlot? && k in v.results ==> oracle(k) == v.results[k])
        && (slots[k].ChildSlot? && k in v.children ==> oracle(k) == v.children[k])
  }

  /** Direct execution never blocks. */
  lemma {:induction false} DirectNeverBlocks(w: Workflow, input: Option<Payload>, oracle: nat -> Outcome, n: nat)
    ensures Direct(w, input, oracle, n).status != Blocked
  {
    if n > 0 {
      DirectNeverBlocks(w, input, oracle, n - 1);
    }
  }

  /** Replay is direct execution cut at the first outcome still missing. */
  lemma ReplayIsDirect(w: Workflow, v: View, oracle: nat -> Outcome, n: nat)
    requires NoStrayResults(w, v, v) && Records(w, v, oracle)
    ensures Extends(Replayed(w, v, n), Direct(w, v.input, oracle, n))
    ensures Replayed(w, v, n).status != Blocked ==> Direct(w, v.input, oracle, n) == Replayed(w, v, n)
  {
    var r, r' := ByView(v), ByOracle(oracle);
    forall m: nat, k: nat | k < |Run(w, v.input, r, m).slots| && r(Run(w, v.input, r, m).slots[k], k).Some?
      ensures r'(Run(w, v.input, r, m).slots[k], k) == r(Run(w, v.input, r, m).slots[k], k)
    {
      var slot := Replayed(w, v, m).slots[k];
      assert k in v.results ==> slot.ActivitySlot? && Schedulable(slot.spec);
    }
    RunMonotone(w, v.input, r, r, r', n);
  }
}
