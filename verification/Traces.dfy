/** What a workflow does, told without running anything: the answers it observes
    one after another, the calls behind its futures, and where it ends; and what a
    history says, event by event. The replaying worker is held against this. */
module Traces {
  import opened Basics
  import opened History
  import opened Replay
  import Retry

  // ------------------------------------------------------- what a history says

  /** The input the first started event carries. */
  function InputIn(h: seq<HistoryEvent>): Option<Payload>
  {
    if h == [] then None else if h[0].ev.WorkflowStarted? then Some(h[0].ev.input) else InputIn(h[1..])
  }

  /** The last outcome recorded for an activity. */
  function OutcomeIn(h: seq<HistoryEvent>, k: nat): Option<Outcome>
  {
    if h == [] then None
    else
      var last := h[|h| - 1].ev;
      if last.ActivityCompleted? && last.seq_ == k then Some(Result(last.result))
      else if last.ActivityFailed? && last.seq_ == k then Some(Error(last.failure))
      else OutcomeIn(h[..|h| - 1], k)
  }

  /** The last child recorded under a number. */
  function ChildIn(h: seq<HistoryEvent>, k: nat): Option<Outcome>
  {
    if h == [] then None
    else
      var last := h[|h| - 1].ev;
      if last.ChildStarted? && last.seq_ == k then Some(Child(last.child)) else ChildIn(h[..|h| - 1], k)
  }

  ghost predicate ScheduledIn(h: seq<HistoryEvent>, k: nat)
  {
    exists i :: 0 <= i < |h| && h[i].ev.ActivityScheduled? && h[i].ev.seq_ == k
  }

  /** A call that never reaches the server fails on the spot. */
  function Unsent(spec: ActivitySpec): Option<Outcome>
  {
    if spec.activityType == "" then Some(Error(UNRESOLVABLE))
    else if spec.input.None? then Some(Error(UNENCODABLE))
    else None
  }

  /** What awaiting a call yields when history is all there is. */
  function Known(h: seq<HistoryEvent>): Resolver
  {
    (slot: Slot, k: nat) =>
      match slot
      case ActivitySlot(spec) => if OutcomeIn(h, k).Some? then OutcomeIn(h, k) else Unsent(spec)
      case ChildSlot(_) => ChildIn(h, k)
  }

  /** What awaiting a call yields when every outcome is given. */
  function Given(oracle: nat -> Outcome): Resolver
  {
    (slot: Slot, k: nat) =>
      if slot.ActivitySlot? && Unsent(slot.spec).Some? then Unsent(slot.spec) else Some(oracle(k))
  }

  /** The oracle yields every outcome and child that the history records. */
  ghost predicate Yields(h: seq<HistoryEvent>, oracle: nat -> Outcome)
  {
    forall i :: 0 <= i < |h| ==>
      match h[i].ev
      case ActivityCompleted(k, result) => oracle(k) == Result(result)
      case ActivityFailed(k, failure) => oracle(k) == Error(failure)
      case ChildStarted(k, child) => oracle(k) == Child(child)
      case _ => true
  }

  /** The decider's view says what the events say. */
  lemma {:induction false} ViewTells(h: seq<HistoryEvent>, k: nat)
    ensures var v := Load(h);
            && v.input == InputIn(h)
            && (if k in v.results then OutcomeIn(h, k) == Some(v.results[k]) else OutcomeIn(h, k) == None)
            && (if k in v.children then ChildIn(h, k) == Some(v.children[k]) else ChildIn(h, k) == None)
            && (k in v.scheduled <==> ScheduledIn(h, k))
  {
    if h != [] {
      var n := |h| - 1;
      ViewTells(h[..n], k);
      InputSnoc(h[..n], h[n]);
      assert h == h[..n] + [h[n]];
      if ScheduledIn(h[..n], k) {
        var i :| 0 <= i < n && h[..n][i].ev.ActivityScheduled? && h[..n][i].ev.seq_ == k;
        assert h[i].ev.ActivityScheduled? && h[i].ev.seq_ == k;
      }
      if ScheduledIn(h, k) {
        var i :| 0 <= i <= n && h[i].ev.ActivityScheduled? && h[i].ev.seq_ == k;
        assert i < n ==> h[..n][i] == h[i];
      }
    }
  }

  lemma {:induction false} InputSnoc(h: seq<HistoryEvent>, e: HistoryEvent)
    ensures InputIn(h + [e]) ==
            if InputIn(h).Some? then InputIn(h) else if e.ev.WorkflowStarted? then Some(e.ev.input) else None
  {
    if h == [] {
      assert [] + [e] == [e] && [e][1..] == [];
    } else {
      assert (h + [e])[1..] == h[1..] + [e];
      InputSnoc(h[1..], e);
    }
  }

  lemma {:induction false} ViewKnows(h: seq<HistoryEvent>, slot: Slot, k: nat)
    ensures ByView(Load(h))(slot, k) == Known(h)(slot, k)
  {
    ViewTells(h, k);
  }

  lemma OracleGives(oracle: nat -> Outcome, slot: Slot, k: nat)
    ensures ByOracle(oracle)(slot, k) == Given(oracle)(slot, k)
  {
    if slot.ActivitySlot? { UnsentIff(slot.spec); }
  }

  lemma UnsentIff(spec: ActivitySpec)
    ensures if Schedulable(spec) then Unsent(spec) == None else Unsent(spec) == Some(Error(LocalFailure(spec)))
  {
  }

  // -------------------------------------------------------------------- traces

  /** The calls that number the futures, among those made before these answers. */
  function Calls(w: Workflow, input: Option<Payload>, answers: seq<Answer>): seq<Slot>
  {
    if answers == [] then []
    else
      var before := answers[..|answers| - 1];
      Calls(w, input, before) + Numbered(w(input, before))
  }

  /** Only a call for an activity or a child takes a number. */
  function Numbered(call: Call): seq<Slot>
  {
    match call
    case ExecuteActivity(spec) => [ActivitySlot(spec)]
    case ExecuteChild(child) => [ChildSlot(child)]
    case _ => []
  }

  /** The workflow, having observed `before`, makes a call answered by a. */
  ghost predicate Observes(w: Workflow, input: Option<Payload>, r: Resolver, before: seq<Answer>, a: Answer)
  {
    var calls := Calls(w, input, before);
    match w(input, before)
    case ExecuteActivity(_) => a == Future(|calls|)
    case ExecuteChild(_) => a == Future(|calls|)
    case Get(k) => k < |calls| && r(calls[k], k).Some? && a == Value(r(calls[k], k).value)
    case _ => false
  }

  /** Answers the workflow observes one after another, as r resolves its awaits. */
  ghost predicate Trace(w: Workflow, input: Option<Payload>, r: Resolver, answers: seq<Answer>)
  {
    forall i :: 0 <= i < |answers| ==> Observes(w, input, r, answers[..i], answers[i])
  }

  /** Somewhere along the run the k-th call is this one. */
  ghost predicate Makes(w: Workflow, input: Option<Payload>, r: Resolver, k: nat, slot: Slot)
  {
    exists answers ::
      && Trace(w, input, r, answers)
      && k < |Calls(w, input, answers)| && Calls(w, input, answers)[k] == slot
  }

  /** The run comes to this call. */
  ghost predicate ComesTo(w: Workflow, input: Option<Payload>, r: Resolver, call: Call)
  {
    exists answers :: Trace(w, input, r, answers) && w(input, answers) == call
  }

  /** The run awaits a future that was never made. */
  ghost predicate AwaitsNothing(w: Workflow, input: Option<Payload>, r: Resolver)
  {
    exists answers ::
      && Trace(w, input, r, answers)
      && w(input, answers).Get? && w(input, answers).seq_ >= |Calls(w, input, answers)|
  }

  /** The run fails this way: thrown, or the panic of awaiting nothing. */
  ghost predicate Fails(w: Workflow, input: Option<Payload>, r: Resolver, failure: Retry.Failure)
  {
    ComesTo(w, input, r, Throw(failure)) || (failure == NIL_FUTURE && AwaitsNothing(w, input, r))
  }

  /** The run ends this way. */
  ghost predicate EndsSo(w: Workflow, input: Option<Payload>, r: Resolver, s: Status)
  {
    match s
    case Returned(result) => ComesTo(w, input, r, Return(result))
    case Threw(failure) => Fails(w, input, r, failure)
    case Continued(next) => ComesTo(w, input, r, Continue(next))
    case _ => false
  }

  ghost predicate SameAnswers(r: Resolver, r': Resolver)
  {
    forall slot, k :: r(slot, k) == r'(slot, k)
  }

  // ------------------------------------------------------ running and the trace

  lemma {:induction false} TraceSnoc(w: Workflow, input: Option<Payload>, r: Resolver, answers: seq<Answer>, a: Answer)
    ensures Trace(w, input, r, answers + [a]) <==> Trace(w, input, r, answers) && Observes(w, input, r, answers, a)
    ensures Calls(w, input, answers + [a]) == Calls(w, input, answers) + Numbered(w(input, answers))
  {
    var all := answers + [a];
    assert all[..|answers|] == answers;
    forall i | 0 <= i < |answers| ensures all[..i] == answers[..i] && all[i] == answers[i] {
    }
  }

  /** How an episode stands, told by its trace. */
  ghost predicate Stands(w: Workflow, input: Option<Payload>, r: Resolver, e: Episode)
  {
    var call, calls := w(input, e.answers), Calls(w, input, e.answers);
    && Trace(w, input, r, e.answers) && e.slots == calls
    && match e.status
       case Running => true
       case Blocked => call.Get? && call.seq_ < |calls| && r(calls[call.seq_], call.seq_) == None
       case Returned(result) => call == Return(result)
       case Threw(failure) => call == Throw(failure) || (failure == NIL_FUTURE && call.Get? && call.seq_ >= |calls|)
       case Continued(next) => call == Continue(next)
  }

  /** The state after one more answer. */
  lemma AnswerStands(w: Workflow, input: Option<Payload>, r: Resolver, e: Episode, a: Answer)
    requires Stands(w, input, r, e) && Observes(w, input, r, e.answers, a)
    ensures Stands(w, input, r, Episode(e.answers + [a], e.slots + Numbered(w(input, e.answers)), Running))
  {
    TraceSnoc(w, input, r, e.answers, a);
  }

  lemma StepStands(w: Workflow, input: Option<Payload>, r: Resolver, r': Resolver, e: Episode)
    requires Stands(w, input, r', e) && SameAnswers(r, r')
    ensures Stands(w, input, r', Step(w, input, r, e))
  {
    if e.status == Running {
      var call := w(input, e.answers);
      match call {
        case ExecuteActivity(spec) => AnswerStands(w, input, r', e, Future(|e.slots|));
        case ExecuteChild(child) => AnswerStands(w, input, r', e, Future(|e.slots|));
        case Get(k) =>
          if k < |e.slots| {
            assert r(e.slots[k], k) == r'(e.slots[k], k);
            if r(e.slots[k], k).Some? {
              AnswerStands(w, input, r', e, Value(r(e.slots[k], k).value));
              assert e.slots + [] == e.slots;
            }
          }
        case Return(_) =>
        case Throw(_) =>
        case Continue(_) =>
      }
    }
  }

  /** Every state of a run stands on a trace. */
  lemma {:induction false} RunStands(w: Workflow, input: Option<Payload>, r: Resolver, r': Resolver, n: nat)
    requires SameAnswers(r, r')
    ensures Stands(w, input, r', Run(w, input, r, n))
  {
    if n > 0 {
      RunStands(w, input, r, r', n - 1);
      StepStands(w, input, r, r', Run(w, input, r, n - 1));
    }
  }

  /** A run that goes on has observed one answer per step. */
  lemma {:induction false} OnePerStep(w: Workflow, input: Option<Payload>, r: Resolver, n: nat)
    ensures Run(w, input, r, n).status == Running ==> |Run(w, input, r, n).answers| == n
  {
    if n > 0 { OnePerStep(w, input, r, n - 1); }
  }

  /** Every trace is run through. */
  lemma {:induction false} TraceRuns(w: Workflow, input: Option<Payload>, r: Resolver, r': Resolver,
      answers: seq<Answer>)
    requires SameAnswers(r, r') && Trace(w, input, r', answers)
    ensures Run(w, input, r, |answers|) == Episode(answers, Calls(w, input, answers), Running)
  {
    if answers != [] {
      var n := |answers| - 1;
      assert answers == answers[..n] + [answers[n]];
      TraceSnoc(w, input, r', answers[..n], answers[n]);
      TraceRuns(w, input, r, r', answers[..n]);
    }
  }

  /** One step past a trace. */
  lemma {:induction false} PastTrace(w: Workflow, input: Option<Payload>, r: Resolver, r': Resolver,
      answers: seq<Answer>)
    requires SameAnswers(r, r') && Trace(w, input, r', answers)
    ensures var s, call := Run(w, input, r, |answers| + 1).status, w(input, answers);
            && (call.Return? ==> s == Returned(call.result))
            && (call.Throw? ==> s == Threw(call.failure))
            && (call.Continue? ==> s == Continued(call.input))
            && (call.Get? && call.seq_ >= |Calls(w, input, answers)| ==> s == Threw(NIL_FUTURE))
  {
    TraceRuns(w, input, r, r', answers);
  }

  lemma {:induction false} EndShown(w: Workflow, input: Option<Payload>, r: Resolver, r': Resolver, n: nat)
    requires SameAnswers(r, r')
    ensures var s := Run(w, input, r, n).status; s != Running && s != Blocked ==> EndsSo(w, input, r', s)
  {
    RunStands(w, input, r, r', n);
    var answers := Run(w, input, r, n).answers;
    assert Trace(w, input, r', answers);
  }

  /** A run ends in a status exactly when its trace comes to that call. */
  lemma {:induction false} EndsIff(w: Workflow, input: Option<Payload>, r: Resolver, r': Resolver, s: Status)
    requires SameAnswers(r, r') && s != Running && s != Blocked
    ensures (exists n: nat :: Run(w, input, r, n).status == s) <==> EndsSo(w, input, r', s)
  {
    if n: nat :| Run(w, input, r, n).status == s { EndShown(w, input, r, r', n); }
    if EndsSo(w, input, r', s) {
      var answers := EndTrace(w, input, r', s);
      PastTrace(w, input, r, r', answers);
      assert Run(w, input, r, |answers| + 1).status == s;
    }
  }

  lemma EndTrace(w: Workflow, input: Option<Payload>, r: Resolver, s: Status) returns (answers: seq<Answer>)
    requires EndsSo(w, input, r, s)
    ensures Trace(w, input, r, answers)
    ensures var call := w(input, answers);
            || (s.Returned? && call == Return(s.result)) || (s.Continued? && call == Continue(s.input))
            || (s.Threw? && call == Throw(s.failure))
            || (s == Threw(NIL_FUTURE) && call.Get? && call.seq_ >= |Calls(w, input, answers)|)
  {
    match s {
      case Returned(result) => answers :| Trace(w, input, r, answers) && w(input, answers) == Return(result);
      case Continued(next) => answers :| Trace(w, input, r, answers) && w(input, answers) == Continue(next);
      case Threw(failure) =>
        if ComesTo(w, input, r, Throw(failure)) {
          answers :| Trace(w, input, r, answers) && w(input, answers) == Throw(failure);
        } else {
          answers :| Trace(w, input, r, answers) && w(input, answers).Get?
                     && w(input, answers).seq_ >= |Calls(w, input, answers)|;
        }
    }
  }

  /** A run has a call under a number exactly when its trace makes it. */
  lemma {:induction false} MakesIff(w: Workflow, input: Option<Payload>, r: Resolver, r': Resolver, k: nat, slot: Slot)
    requires SameAnswers(r, r')
    ensures (exists n: nat :: k < |Run(w, input, r, n).slots| && Run(w, input, r, n).slots[k] == slot) <==>
            Makes(w, input, r', k, slot)
  {
    if n: nat :| k < |Run(w, input, r, n).slots| && Run(w, input, r, n).slots[k] == slot {
      RunStands(w, input, r, r', n);
      var answers := Run(w, input, r, n).answers;
      assert Trace(w, input, r', answers) && Calls(w, input, answers)[k] == slot;
    }
    if Makes(w, input, r', k, slot) {
      var answers :| Trace(w, input, r', answers) && k < |Calls(w, input, answers)|
                     && Calls(w, input, answers)[k] == slot;
      TraceRuns(w, input, r, r', answers);
      assert Run(w, input, r, |answers|).slots[k] == slot;
    }
  }

  lemma {:induction false} ViewSame(h: seq<HistoryEvent>)
    ensures SameAnswers(ByView(Load(h)), Known(h)) && Load(h).input == InputIn(h)
  {
    forall slot, k ensures ByView(Load(h))(slot, k) == Known(h)(slot, k) {
      ViewKnows(h, slot, k);
    }
    ViewTells(h, 0);
  }

  lemma OracleSame(oracle: nat -> Outcome)
    ensures SameAnswers(ByOracle(oracle), Given(oracle))
  {
    forall slot, k ensures ByOracle(oracle)(slot, k) == Given(oracle)(slot, k) {
      OracleGives(oracle, slot, k);
    }
  }

  // ----------------------------------------------------------------- decisions

  /** The workflow comes back: no trace is longer than this. */
  ghost predicate Halts(w: Workflow, h: seq<HistoryEvent>, bound: nat)
  {
    forall answers :: Trace(w, InputIn(h), Known(h), answers) ==> |answers| <= bound
  }

  /** The command the workflow wants, given this history: the activities and
      children it calls for that history does not have yet, and its end. */
  ghost predicate Wants(w: Workflow, queue: string, h: seq<HistoryEvent>, c: Command)
  {
    var input, r := InputIn(h), Known(h);
    match c
    case CompleteWorkflow(result) => ComesTo(w, input, r, Return(result))
    case FailWorkflow(failure) => Fails(w, input, r, failure)
    case ContinueAsNew(next) => ComesTo(w, input, r, Continue(next))
    case ScheduleActivity(k, spec) =>
      && OutcomeIn(h, k) == None && !ScheduledIn(h, k)
      && exists asked :: Makes(w, input, r, k, ActivitySlot(asked)) && Sent(asked, queue, spec)
    case StartChild(k, child) => ChildIn(h, k) == None && Makes(w, input, r, k, ChildSlot(child))
    case AckCanceled(_) => false
  }

  /** The activity as it goes to the server: as asked for, on the workflow's queue
      unless it names its own. */
  predicate Sent(asked: ActivitySpec, queue: string, spec: ActivitySpec)
  {
    && asked.activityType != "" && asked.input.Some?
    && spec.activityType == asked.activityType && spec.input == asked.input && spec.retry == asked.retry
    && spec.startToCloseMs == asked.startToCloseMs && spec.heartbeatMs == asked.heartbeatMs
    && spec.taskQueue == if asked.taskQueue == "" then queue else asked.taskQueue
  }

  predicate Ending(c: Command) { c.CompleteWorkflow? || c.FailWorkflow? || c.ContinueAsNew? }

  /** Calls by their numbers, and an ending last. */
  ghost predicate InOrder(cs: seq<Command>)
  {
    forall i, j :: 0 <= i < j < |cs| ==>
      && (cs[i].ScheduleActivity? || cs[i].StartChild?)
      && (cs[j].ScheduleActivity? || cs[j].StartChild? ==> cs[i].seq_ < cs[j].seq_)
  }

  lemma SentIff(asked: ActivitySpec, queue: string, spec: ActivitySpec)
    ensures Sent(asked, queue, spec) <==> Schedulable(asked) && spec == OnQueue(asked, queue)
  {
  }

  /** Commands for calls numbered below n. */
  ghost predicate Below(cs: seq<Command>, n: nat)
  {
    forall i :: 0 <= i < |cs| ==> (cs[i].ScheduleActivity? || cs[i].StartChild?) && cs[i].seq_ < n
  }

  lemma OrderSnoc(cs: seq<Command>, c: Command, n: nat)
    requires InOrder(cs) && Below(cs, n) && (c.ScheduleActivity? || c.StartChild?) && c.seq_ == n
    ensures InOrder(cs + [c]) && Below(cs + [c], n + 1)
  {
  }

  lemma {:induction false} CommandsInOrder(v: View, queue: string, slots: seq<Slot>)
    ensures InOrder(CommandsFor(v, queue, slots)) && Below(CommandsFor(v, queue, slots), |slots|)
  {
    if slots != [] {
      var n := |slots| - 1;
      CommandsInOrder(v, queue, slots[..n]);
      var cs, last := CommandsFor(v, queue, slots[..n]), CommandFor(v, queue, slots[n], n);
      if last != [] {
        OrderSnoc(cs, last[0], n);
        assert last == [last[0]];
      } else {
        assert cs + last == cs;
      }
    }
  }

  /** The calls a finished episode has made are all the workflow makes. */
  lemma {:induction false} FinishedMakes(w: Workflow, input: Option<Payload>, r: Resolver, r': Resolver, n: nat, k: nat,
      slot: Slot)
    requires SameAnswers(r, r') && Run(w, input, r, n).status != Running
    ensures var slots := Run(w, input, r, n).slots;
            k < |slots| && slots[k] == slot <==> Makes(w, input, r', k, slot)
  {
    MakesIff(w, input, r, r', k, slot);
    if m: nat :| k < |Run(w, input, r, m).slots| && Run(w, input, r, m).slots[k] == slot {
      if m <= n { RunGrows(w, input, r, m, n); } else { RunGrows(w, input, r, n, m); }
    }
  }

  lemma {:induction false} FinishedEnds(w: Workflow, input: Option<Payload>, r: Resolver, n: nat, s: Status)
    requires Run(w, input, r, n).status != Running && s != Running
    ensures Run(w, input, r, n).status == s <==> exists m: nat :: Run(w, input, r, m).status == s
  {
    if m: nat :| Run(w, input, r, m).status == s {
      if m <= n { RunGrows(w, input, r, m, n); } else { RunGrows(w, input, r, n, m); }
    }
  }

  lemma {:induction false} ScheduleWanted(w: Workflow, queue: string, h: seq<HistoryEvent>, n: nat, k: nat,
      spec: ActivitySpec)
    requires Replayed(w, Load(h), n).status != Running
    ensures ScheduleActivity(k, spec) in CommandsFor(Load(h), queue, Replayed(w, Load(h), n).slots) <==>
            Wants(w, queue, h, ScheduleActivity(k, spec))
  {
    var v, c := Load(h), ScheduleActivity(k, spec);
    var slots := Replayed(w, v, n).slots;
    ViewSame(h);
    ViewTells(h, k);
    CommandsBySlot(v, queue, slots, c);
    forall asked
      ensures Sent(asked, queue, spec) <==> Schedulable(asked) && spec == OnQueue(asked, queue)
      ensures k < |slots| && slots[k] == ActivitySlot(asked) <==> Makes(w, InputIn(h), Known(h), k, ActivitySlot(asked))
    {
      SentIff(asked, queue, spec);
      FinishedMakes(w, v.input, ByView(v), Known(h), n, k, ActivitySlot(asked));
    }
    if j: nat :| j < |slots| && c in CommandFor(v, queue, slots[j], j) {
      assert j == k && slots[k] == ActivitySlot(slots[k].spec);
    }
  }

  lemma {:induction false} ChildWanted(w: Workflow, queue: string, h: seq<HistoryEvent>, n: nat, k: nat,
      child: ChildSpec)
    requires Replayed(w, Load(h), n).status != Running
    ensures StartChild(k, child) in CommandsFor(Load(h), queue, Replayed(w, Load(h), n).slots) <==>
            Wants(w, queue, h, StartChild(k, child))
  {
    var v, c := Load(h), StartChild(k, child);
    var slots := Replayed(w, v, n).slots;
    ViewSame(h);
    ViewTells(h, k);
    CommandsBySlot(v, queue, slots, c);
    FinishedMakes(w, v.input, ByView(v), Known(h), n, k, ChildSlot(child));
    if j: nat :| j < |slots| && c in CommandFor(v, queue, slots[j], j) {
      assert j == k;
    }
  }

  lemma {:induction false} EndWanted(w: Workflow, queue: string, h: seq<HistoryEvent>, n: nat, s: Status, c: Command)
    requires Replayed(w, Load(h), n).status != Running && s != Running && s != Blocked && Replay.Ending(s) == [c]
    ensures Replayed(w, Load(h), n).status == s <==> Wants(w, queue, h, c)
  {
    var v := Load(h);
    ViewSame(h);
    EndsIff(w, v.input, ByView(v), Known(h), s);
    FinishedEnds(w, v.input, ByView(v), n, s);
  }

  /** The worker ships exactly the commands the workflow wants, the calls in the
      order of their numbers and its end last. */
  lemma {:induction false} DecisionIsWanted(w: Workflow, queue: string, h: seq<HistoryEvent>, n: nat, c: Command)
    requires Replayed(w, Load(h), n).status != Running
    ensures c in Decide(w, queue, h, n) <==> Wants(w, queue, h, c)
    ensures InOrder(Decide(w, queue, h, n))
  {
    var v := Load(h);
    var e := Replayed(w, v, n);
    CommandsInOrder(v, queue, e.slots);
    match c {
      case ScheduleActivity(k, spec) => ScheduleWanted(w, queue, h, n, k, spec);
      case StartChild(k, child) => ChildWanted(w, queue, h, n, k, child);
      case CompleteWorkflow(result) => EndWanted(w, queue, h, n, Returned(result), c);
      case FailWorkflow(failure) => EndWanted(w, queue, h, n, Threw(failure), c);
      case ContinueAsNew(next) => EndWanted(w, queue, h, n, Continued(next), c);
      case AckCanceled(_) =>
    }
  }

  /** Exactly the commands the workflow wants, in order. */
  ghost predicate Decision(w: Workflow, queue: string, h: seq<HistoryEvent>, cs: seq<Command>)
  {
    (forall c :: c in cs <==> Wants(w, queue, h, c)) && InOrder(cs)
  }

  lemma {:induction false} DecideDecides(w: Workflow, queue: string, h: seq<HistoryEvent>, n: nat)
    requires Replayed(w, Load(h), n).status != Running
    ensures Decision(w, queue, h, Decide(w, queue, h, n))
  {
    forall c ensures c in Decide(w, queue, h, n) <==> Wants(w, queue, h, c) { DecisionIsWanted(w, queue, h, n, c); }
    DecisionIsWanted(w, queue, h, n, AckCanceled(""));
  }

  /** A workflow that comes back does so within its bound and one step. */
  lemma {:induction false} HaltsWithin(w: Workflow, h: seq<HistoryEvent>, bound: nat)
    requires Halts(w, h, bound)
    ensures Replayed(w, Load(h), bound + 1).status != Running
  {
    ViewSame(h);
    RunStands(w, InputIn(h), ByView(Load(h)), Known(h), bound + 1);
    OnePerStep(w, InputIn(h), ByView(Load(h)), bound + 1);
  }
}
