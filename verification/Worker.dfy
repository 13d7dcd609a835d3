/** The worker's decider object and the loop that runs one decision episode
    (pkg/sdk/worker/env.go, dispatch.go), proved to compute the episode of
    module Replay. */
module Worker {
  import opened Basics
  import opened History
  import opened Replay
  import T = Traces

  /** A future as the decider hands it out. Awaiting an unsettled one ends the
      episode. */
  datatype Pending = Settled(outcome: Outcome) | Unsettled

  function Handle(v: View, slot: Slot, k: nat): Pending
  {
    match Resolve(v, slot, k)
    case Some(o) => Settled(o)
    case None => Unsettled
  }

  class WorkerEnv {
    const taskQueue: string
    var input: Option<Payload>
    var activityResults: map<nat, Outcome>
    var scheduledSeqs: set<nat>
    var childStarted: map<nat, Outcome>
    var nextSeq: nat
    var newCommands: seq<Command>

    /** The calls made so far in this episode, by sequence number. */
    ghost var slots: seq<Slot>
    /** The history the decider was seeded with. */
    ghost var view: View

    ghost predicate Valid()
      reads this
    {
      && input == view.input
      && activityResults == view.results
      && childStarted == view.children
      && nextSeq == |slots|
      && view.scheduled <= scheduledSeqs
      && (forall k :: k in scheduledSeqs && k !in view.scheduled ==> k < nextSeq)
      && newCommands == CommandsFor(view, taskQueue, slots)
    }

    constructor (queue: string)
      ensures Valid() && view == EMPTY_VIEW && slots == [] && taskQueue == queue
    {
      taskQueue := queue;
      input, activityResults, scheduledSeqs, childStarted := None, map[], {}, map[];
      nextSeq, newCommands := 0, [];
      slots, view := [], EMPTY_VIEW;
    }

    method LoadHistory(events: seq<HistoryEvent>)
      requires Valid() && view == EMPTY_VIEW && slots == []
      modifies this
      ensures Valid() && view == Load(events) && slots == []
    {
      for i := 0 to |events|
        invariant Valid() && slots == [] && view == Load(events[..i])
      {
        var ev := events[i].ev;
        match ev {
          case WorkflowStarted(arg) => if input.None? { input := Some(arg); }
          case ActivityScheduled(k, _) => scheduledSeqs := scheduledSeqs + {k};
          case ActivityCompleted(k, result) => activityResults := activityResults[k := Result(result)];
          case ActivityFailed(k, failure) => activityResults := activityResults[k := Error(failure)];
          case ChildStarted(k, child) => childStarted := childStarted[k := Child(child)];
          case _ =>
        }
        view := Absorb(view, ev);
        assert events[..i + 1][..i] == events[..i];
      }
      assert events[..|events|] == events;
    }

    method ExecuteActivity(spec: ActivitySpec) returns (f: Pending)
      requires Valid()
      modifies this
      ensures Valid() && view == old(view)
      ensures slots == old(slots) + [ActivitySlot(spec)]
      ensures f == Handle(view, ActivitySlot(spec), old(nextSeq))
      ensures newCommands == old(newCommands) + CommandFor(view, taskQueue, ActivitySlot(spec), old(nextSeq))
    {
      var k := nextSeq;
      nextSeq := nextSeq + 1;
      slots := slots + [ActivitySlot(spec)];
      assert slots[..|slots| - 1] == old(slots);
      if k in activityResults {
        return Settled(activityResults[k]);
      }
      if !Schedulable(spec) {
        return Settled(Error(LocalFailure(spec)));
      }
      if k !in scheduledSeqs {
        newCommands := newCommands + [ScheduleActivity(k, OnQueue(spec, taskQueue))];
        scheduledSeqs := scheduledSeqs + {k};
      }
      f := Unsettled;
    }

    method StartChildWorkflow(child: ChildSpec) returns (f: Pending)
      requires Valid()
      modifies this
      ensures Valid() && view == old(view)
      ensures slots == old(slots) + [ChildSlot(child)]
      ensures f == Handle(view, ChildSlot(child), old(nextSeq))
      ensures newCommands == old(newCommands) + CommandFor(view, taskQueue, ChildSlot(child), old(nextSeq))
    {
      var k := nextSeq;
      nextSeq := nextSeq + 1;
      slots := slots + [ChildSlot(child)];
      assert slots[..|slots| - 1] == old(slots);
      if k in childStarted {
        return Settled(childStarted[k]);
      }
      newCommands := newCommands + [StartChild(k, child)];
      f := Unsettled;
    }

    method DrainCommands() returns (out: seq<Command>)
      requires Valid()
      modifies this`newCommands
      ensures out == CommandsFor(view, taskQueue, slots) && newCommands == []
    {
      out := newCommands;
      newCommands := [];
    }
  }

  /** The futures handed out so far, against the calls behind them. */
  ghost predicate Handles(v: View, futures: seq<Pending>, slots: seq<Slot>)
  {
    && |futures| == |slots|
    && forall k: nat :: k < |futures| ==> futures[k] == Handle(v, slots[k], k)
  }

  /** One call of the workflow function. */
  method MakeCall(w: Workflow, env: WorkerEnv, answers: seq<Answer>, futures: seq<Pending>)
    returns (answers': seq<Answer>, futures': seq<Pending>, status: Status)
    requires env.Valid() && Handles(env.view, futures, env.slots)
    modifies env
    ensures env.Valid() && env.view == old(env.view) && Handles(env.view, futures', env.slots)
    ensures Episode(answers', env.slots, status)
            == Step(w, env.view.input, ByView(env.view), Episode(answers, old(env.slots), Running))
  {
    answers', futures', status := answers, futures, Running;
    match w(env.input, answers) {
      case ExecuteActivity(spec) =>
        answers' := answers + [Future(env.nextSeq)];
        var f := env.ExecuteActivity(spec);
        futures' := futures + [f];
      case ExecuteChild(child) =>
        answers' := answers + [Future(env.nextSeq)];
        var f := env.StartChildWorkflow(child);
        futures' := futures + [f];
      case Get(k) =>
        if k >= |futures| {
          status := Threw(NIL_FUTURE);
        } else if futures[k].Settled? {
          answers' := answers + [Value(futures[k].outcome)];
        } else {
          status := Blocked;
        }
      case Return(result) => status := Returned(result);
      case Throw(failure) => status := Threw(failure);
      case Continue(next) => status := Continued(next);
    }
  }

  /** The calls and the end of an episode are those of answers the workflow
      observes, up to where it ends or awaits an outcome that is not there. */
  ghost predicate Soundly(w: Workflow, v: View, slots: seq<Slot>, status: Status)
  {
    exists answers :: T.Stands(w, v.input, ByView(v), Episode(answers, slots, status))
  }

  /** The workflow function run until it returns, fails, parks or blocks on an
      outcome history does not have. It has to come back, which `halt`
      witnesses. */
  method RunWorkflowEpisode(w: Workflow, env: WorkerEnv, ghost halt: nat) returns (status: Status)
    requires env.Valid() && env.slots == []
    requires Replayed(w, env.view, halt).status != Running
    modifies env
    ensures env.Valid() && env.view == old(env.view)
    ensures env.slots == Replayed(w, env.view, halt).slots
    ensures status == Replayed(w, env.view, halt).status
    ensures Soundly(w, env.view, env.slots, status)
  {
    var answers: seq<Answer>, futures: seq<Pending> := [], [];
    status := Running;
    ghost var n := 0;
    while status == Running
      invariant env.Valid() && env.view == old(env.view) && Handles(env.view, futures, env.slots)
      invariant n <= halt
      invariant Replayed(w, env.view, n) == Episode(answers, env.slots, status)
      decreases halt - n
    {
      RunGrows(w, env.view.input, ByView(env.view), n, halt);
      answers, futures, status := MakeCall(w, env, answers, futures);
      n := n + 1;
    }
    RunGrows(w, env.view.input, ByView(env.view), n, halt);
    T.RunStands(w, env.view.input, ByView(env.view), ByView(env.view), n);
  }

  /** The command that reports how an episode ended; none for one that blocked. */
  method Ends(status: Status) returns (last: seq<Command>)
    ensures last == Ending(status)
  {
    match status {
      case Returned(result) => last := [CompleteWorkflow(result)];
      case Threw(failure) => last := [FailWorkflow(failure)];
      case Continued(next) => last := [ContinueAsNew(next)];
      case _ => last := [];
    }
  }

  /** One workflow task, start to finish: the commands shipped are those the
      workflow wants given the delivered history, the calls in the order of their
      numbers and its end last. */
  method DispatchWorkflowTask(w: Workflow, queue: string, events: seq<HistoryEvent>, ghost bound: nat)
    returns (commands: seq<Command>)
    requires T.Halts(w, events, bound)
    ensures T.Decision(w, queue, events, commands)
    ensures commands == Decide(w, queue, events, bound + 1)
  {
    var env := new WorkerEnv(queue);
    env.LoadHistory(events);
    T.HaltsWithin(w, events, bound);
    T.DecideDecides(w, queue, events, bound + 1);
    var status := RunWorkflowEpisode(w, env, bound + 1);
    var calls := env.DrainCommands();
    var last := Ends(status);
    commands := calls + last;
  }
}
