/** Replay soundness: what the durable protocol and the replaying worker compute
    together is what the workflow computes when run in one go. */
module Soundness {
  import opened Basics
  import opened History
  import opened Replay
  import D = Durable
  import opened Ledger
  import opened Cuts
  import St = Statuses
  import T = Traces

  // ------------------------------------------------- what a view remembers

  lemma {:induction false} LoadAppend(h: seq<HistoryEvent>, e: HistoryEvent)
    ensures Load(h + [e]) == Absorb(Load(h), e.ev)
  {
    assert (h + [e])[..|h|] == h;
  }

  lemma {:induction false} LoadRemembers(h: seq<HistoryEvent>)
    ensures forall k :: k in Load(h).results ==> exists i :: 0 <= i < |h| && IsOutcome(h[i].ev) && h[i].ev.seq_ == k
    ensures forall k :: k in Load(h).children ==> exists i :: 0 <= i < |h| && h[i].ev.ChildStarted? && h[i].ev.seq_ == k
    ensures h != [] && h[0].ev.WorkflowStarted? ==> Load(h).input == Some(h[0].ev.input)
  {
    if h != [] {
      var front, last := h[..|h| - 1], |h| - 1;
      LoadRemembers(front);
      forall k | k in Load(h).results ensures exists i :: 0 <= i < |h| && IsOutcome(h[i].ev) && h[i].ev.seq_ == k {
        if k in Load(front).results {
          var i :| 0 <= i < |front| && IsOutcome(front[i].ev) && front[i].ev.seq_ == k;
          assert h[i] == front[i];
        } else {
          assert IsOutcome(h[last].ev) && h[last].ev.seq_ == k;
        }
      }
      forall k | k in Load(h).children ensures exists i :: 0 <= i < |h| && h[i].ev.ChildStarted? && h[i].ev.seq_ == k {
        if k in Load(front).children {
          var i :| 0 <= i < |front| && front[i].ev.ChildStarted? && front[i].ev.seq_ == k;
          assert h[i] == front[i];
        } else {
          assert h[last].ev.ChildStarted? && h[last].ev.seq_ == k;
        }
      }
    }
  }

  lemma AbsorbWithin(v: View, e: Event)
    requires v.input.Some?
    requires IsOutcome(e) ==> e.seq_ !in v.results
    requires e.ChildStarted? ==> e.seq_ !in v.children
    ensures Within(v, Absorb(v, e))
  {
  }

  /** An event that clashes with nothing before it overrides nothing. */
  lemma {:induction false} AppendWithin(h: seq<HistoryEvent>, e: HistoryEvent)
    requires AtMostOnce(h + [e]) && h != [] && h[0].ev.WorkflowStarted?
    ensures Within(Load(h), Load(h + [e]))
  {
    LoadAppend(h, e);
    LoadRemembers(h);
    forall i | 0 <= i < |h| ensures !Clash(h[i].ev, e.ev) {
      assert (h + [e])[i] == h[i] && (h + [e])[|h|] == e;
    }
    AbsorbWithin(Load(h), e.ev);
  }

  /** A longer at-most-once history knows everything a prefix knows. */
  lemma {:induction false} PrefixWithin(h: seq<HistoryEvent>, h': seq<HistoryEvent>)
    requires h <= h' && AtMostOnce(h') && h != [] && h[0].ev.WorkflowStarted?
    ensures Within(Load(h), Load(h'))
    decreases |h'|
  {
    if |h| < |h'| {
      var front := h'[..|h'| - 1];
      assert h' == front + [h'[|h'| - 1]];
      assert AtMostOnce(front);
      PrefixWithin(h, front);
      AppendWithin(front, h'[|h'| - 1]);
    } else {
      assert h == h';
    }
  }

  /** Episode monotonicity on histories: replaying a history that extends another
      makes the same calls first, and a command of the shorter replay is answered
      by the longer history or comes out again unchanged. */
  lemma {:induction false} LongerHistoryReplays(w: Workflow, queue: string, h: seq<HistoryEvent>, h': seq<HistoryEvent>,
      n: nat)
    requires h <= h' && AtMostOnce(h') && h != [] && h[0].ev.WorkflowStarted?
    requires NoStrayResults(w, Load(h), Load(h'))
    ensures var v, v' := Load(h), Load(h');
            && Extends(Replayed(w, v, n), Replayed(w, v', n))
            && (Replayed(w, v, n).status != Blocked ==> Replayed(w, v', n) == Replayed(w, v, n))
            && (forall c :: c in CommandsFor(v, queue, Replayed(w, v, n).slots) ==>
                  || c in CommandsFor(v', queue, Replayed(w, v', n).slots)
                  || (c.ScheduleActivity? && (c.seq_ in v'.scheduled || c.seq_ in v'.results))
                  || (c.StartChild? && c.seq_ in v'.children))
  {
    PrefixWithin(h, h');
    EpisodeMonotone(w, queue, Load(h), Load(h'), n);
  }

  // ------------------------------------------------------------ explanations

  /** The workflow's k-th call is this one. */
  ghost predicate SlotAt(w: Workflow, v: View, k: nat, slot: Slot)
  {
    exists n: nat :: k < |Replayed(w, v, n).slots| && Replayed(w, v, n).slots[k] == slot
  }

  /** spec is what the workflow asks for in its k-th call. */
  ghost predicate Justified(w: Workflow, queue: string, v: View, k: nat, spec: ActivitySpec)
  {
    exists asked :: Schedulable(asked) && spec == OnQueue(asked, queue) && SlotAt(w, v, k, ActivitySlot(asked))
  }

  ghost predicate ChildCall(w: Workflow, v: View, k: nat)
  {
    exists child :: SlotAt(w, v, k, ChildSlot(child))
  }

  predicate Final(s: Status) { s != Running && s != Blocked }

  ghost predicate Ends(w: Workflow, v: View, s: Status)
  {
    exists n: nat :: Replayed(w, v, n).status == s
  }

  /** The workflow itself ends this way, unless an operator ended the run. */
  ghost predicate ClosingOk(w: Workflow, v: View, how: Closing)
  {
    match how
    case CompletedWith(result) => Ends(w, v, Returned(result))
    case FailedWith(failure) => Ends(w, v, Threw(failure))
    case ContinuedAs(_) => exists input :: Ends(w, v, Continued(input))
    case _ => true
  }

  /** A row that says the workflow ended it this way has the workflow end so. */
  ghost predicate RowOk(w: Workflow, v: View, status: St.RunStatus)
  {
    match status
    case Completed => exists result :: Ends(w, v, Returned(result))
    case Failed => exists failure :: Ends(w, v, Threw(failure))
    case ContinuedAsNew => exists input :: Ends(w, v, Continued(input))
    case _ => true
  }

  ghost predicate Sanctioned(w: Workflow, queue: string, v: View, c: Command)
  {
    match c
    case CompleteWorkflow(result) => Ends(w, v, Returned(result))
    case FailWorkflow(failure) => Ends(w, v, Threw(failure))
    case ContinueAsNew(input) => Ends(w, v, Continued(input))
    case ScheduleActivity(k, spec) => Justified(w, queue, v, k, spec)
    case StartChild(k, _) => ChildCall(w, v, k)
    case AckCanceled(_) => true
  }

  /** Everything durable about the run is explained by running the workflow. */
  ghost predicate Explained(w: Workflow, queue: string, s: D.RunStore)
  {
    var v := Load(Core(s));
    && (s.row.Some? ==> s.row.value.taskQueue == queue && RowOk(w, v, s.row.value.status))
    && (forall k :: k in s.acts ==> Justified(w, queue, v, k, s.acts[k].spec))
    && (forall i :: 0 <= i < |s.history| && s.history[i].ev.ChildStarted? ==> ChildCall(w, v, s.history[i].ev.seq_))
    && (forall i :: 0 <= i < |s.history| && s.history[i].ev.Closed? ==> ClosingOk(w, v, s.history[i].ev.how))
  }

  // --------------------------------------------------- carrying explanations over

  /** v' extends the replay of v. */
  ghost predicate Carries(w: Workflow, v: View, v': View)
  {
    && (forall n: nat {:trigger Replayed(w, v, n)} :: Extends(Replayed(w, v, n), Replayed(w, v', n)))
    && (forall n: nat {:trigger Replayed(w, v, n)} :: Final(Replayed(w, v, n).status) ==>
          Replayed(w, v', n) == Replayed(w, v, n))
  }

  lemma SlotCarries(w: Workflow, v: View, v': View, k: nat, slot: Slot)
    requires Carries(w, v, v') && SlotAt(w, v, k, slot)
    ensures SlotAt(w, v', k, slot)
  {
    var n: nat :| k < |Replayed(w, v, n).slots| && Replayed(w, v, n).slots[k] == slot;
    assert Replayed(w, v', n).slots[k] == slot;
  }

  lemma JustifiedCarries(w: Workflow, queue: string, v: View, v': View, k: nat, spec: ActivitySpec)
    requires Carries(w, v, v') && Justified(w, queue, v, k, spec)
    ensures Justified(w, queue, v', k, spec)
  {
    var asked :| Schedulable(asked) && spec == OnQueue(asked, queue) && SlotAt(w, v, k, ActivitySlot(asked));
    SlotCarries(w, v, v', k, ActivitySlot(asked));
  }

  lemma ChildCarries(w: Workflow, v: View, v': View, k: nat)
    requires Carries(w, v, v') && ChildCall(w, v, k)
    ensures ChildCall(w, v', k)
  {
    var child :| SlotAt(w, v, k, ChildSlot(child));
    SlotCarries(w, v, v', k, ChildSlot(child));
  }

  lemma EndsCarries(w: Workflow, v: View, v': View, s: Status)
    requires Carries(w, v, v') && Ends(w, v, s) && Final(s)
    ensures Ends(w, v', s)
  {
    var n: nat :| Replayed(w, v, n).status == s;
    assert Replayed(w, v', n).status == s;
  }

  lemma ClosingCarries(w: Workflow, v: View, v': View, how: Closing)
    requires Carries(w, v, v') && ClosingOk(w, v, how)
    ensures ClosingOk(w, v', how)
  {
    match how {
      case CompletedWith(result) => EndsCarries(w, v, v', Returned(result));
      case FailedWith(failure) => EndsCarries(w, v, v', Threw(failure));
      case ContinuedAs(_) =>
        var input :| Ends(w, v, Continued(input));
        EndsCarries(w, v, v', Continued(input));
      case _ =>
    }
  }

  lemma RowCarries(w: Workflow, v: View, v': View, status: St.RunStatus)
    requires Carries(w, v, v') && RowOk(w, v, status)
    ensures RowOk(w, v', status)
  {
    match status {
      case Completed =>
        var result :| Ends(w, v, Returned(result));
        EndsCarries(w, v, v', Returned(result));
      case Failed =>
        var failure :| Ends(w, v, Threw(failure));
        EndsCarries(w, v, v', Threw(failure));
      case ContinuedAsNew =>
        var input :| Ends(w, v, Continued(input));
        EndsCarries(w, v, v', Continued(input));
      case _ =>
    }
  }

  lemma SanctionedCarries(w: Workflow, queue: string, v: View, v': View, c: Command)
    requires Carries(w, v, v') && Sanctioned(w, queue, v, c)
    ensures Sanctioned(w, queue, v', c)
  {
    match c {
      case CompleteWorkflow(result) => EndsCarries(w, v, v', Returned(result));
      case FailWorkflow(failure) => EndsCarries(w, v, v', Threw(failure));
      case ContinueAsNew(input) => EndsCarries(w, v, v', Continued(input));
      case ScheduleActivity(k, spec) => JustifiedCarries(w, queue, v, v', k, spec);
      case StartChild(k, _) => ChildCarries(w, v, v', k);
      case AckCanceled(_) =>
    }
  }

  /** Results belong to calls the workflow makes under v, so they are no
      surprise to its replay. */
  lemma NoStrays(w: Workflow, queue: string, v: View, v': View, specs: map<nat, ActivitySpec>)
    requires forall k :: k in v'.results ==> k in specs && Justified(w, queue, v, k, specs[k])
    ensures NoStrayResults(w, v, v')
  {
    forall n: nat, k: nat | k < |Replayed(w, v, n).slots| && k in v'.results
      ensures Replayed(w, v, n).slots[k].ActivitySlot? && Schedulable(Replayed(w, v, n).slots[k].spec)
    {
      var asked :| Schedulable(asked) && specs[k] == OnQueue(asked, queue) && SlotAt(w, v, k, ActivitySlot(asked));
      var m: nat :| k < |Replayed(w, v, m).slots| && Replayed(w, v, m).slots[k] == ActivitySlot(asked);
      if m <= n {
        RunGrows(w, v.input, ByView(v), m, n);
      } else {
        RunGrows(w, v.input, ByView(v), n, m);
      }
    }
  }

  lemma CarriesWhen(w: Workflow, along: View, v: View, v': View)
    requires Within(v, v') && (along == v || along == v') && NoStrayResults(w, along, v')
    ensures Carries(w, v, v')
  {
    forall n: nat
      ensures Extends(Replayed(w, v, n), Replayed(w, v', n))
      ensures Final(Replayed(w, v, n).status) ==> Replayed(w, v', n) == Replayed(w, v, n)
    {
      ViewsMonotone(w, along, v, v', n);
    }
  }

  function Specs(s: D.RunStore): map<nat, ActivitySpec>
  {
    map k | k in s.acts :: s.acts[k].spec
  }

  lemma ResultsHaveRecords(s: D.RunStore)
    requires Sound(s)
    ensures forall k :: k in Load(Core(s)).results ==> k in s.acts
  {
    var h := Core(s);
    LoadRemembers(h);
    forall k | k in Load(h).results ensures k in s.acts {
      var i :| 0 <= i < |h| && IsOutcome(h[i].ev) && h[i].ev.seq_ == k;
      assert h[i] == s.history[i] && Backed(s, s.history[i].ev);
    }
  }

  ghost predicate RowKept(w: Workflow, v: View, s: D.RunStore, status: St.RunStatus)
  {
    RowOk(w, v, status) || (s.row.Some? && s.row.value.status == status)
  }

  /** What one operation adds is explained by the history it found. */
  ghost predicate Warranted(w: Workflow, queue: string, s: D.RunStore, s': D.RunStore)
  {
    var v, n := Load(Core(s)), |Core(s)|;
    && (s'.row.Some? ==> RowKept(w, v, s, s'.row.value.status))
    && (forall k :: k in s'.acts && k !in s.acts ==> Justified(w, queue, v, k, s'.acts[k].spec))
    && (forall i :: n <= i < |s'.history| && s'.history[i].ev.ChildStarted? ==> ChildCall(w, v, s'.history[i].ev.seq_))
    && (forall i :: n <= i < |s'.history| && s'.history[i].ev.Closed? ==> ClosingOk(w, v, s'.history[i].ev.how))
  }

  lemma GrowthCarries(w: Workflow, queue: string, s: D.RunStore, s': D.RunStore)
    requires Settled(s) && s.row.Some? && Sound(s') && Keeps(s, s') && Explained(w, queue, s)
             && Warranted(w, queue, s, s')
    ensures Carries(w, Load(Core(s)), Load(Core(s')))
  {
    var v, v' := Load(Core(s)), Load(Core(s'));
    assert Core(s)[0] == s.history[0];
    PrefixWithin(Core(s), Core(s'));
    ResultsHaveRecords(s');
    NoStrays(w, queue, v, v', Specs(s'));
    CarriesWhen(w, v, v, v');
  }

  /** Explanations survive every operation whose additions are warranted. */
  lemma ExplainedGrows(w: Workflow, queue: string, s: D.RunStore, s': D.RunStore)
    requires Settled(s) && s.row.Some? && Sound(s') && Keeps(s, s') && Explained(w, queue, s)
             && Warranted(w, queue, s, s')
    ensures Explained(w, queue, s')
  {
    var v, v', n := Load(Core(s)), Load(Core(s')), |Core(s)|;
    GrowthCarries(w, queue, s, s');
    forall i | 0 <= i < n ensures s'.history[i] == s.history[i] {
      assert Core(s)[i] == s.history[i] && Core(s')[i] == s'.history[i];
    }
    RowCarries(w, v, v', s'.row.value.status);
    forall k | k in s'.acts ensures Justified(w, queue, v', k, s'.acts[k].spec) {
      JustifiedCarries(w, queue, v, v', k, s'.acts[k].spec);
    }
    forall i | 0 <= i < |s'.history| && s'.history[i].ev.ChildStarted? ensures ChildCall(w, v', s'.history[i].ev.seq_) {
      ChildCarries(w, v, v', s'.history[i].ev.seq_);
    }
    forall i | 0 <= i < |s'.history| && s'.history[i].ev.Closed? ensures ClosingOk(w, v', s'.history[i].ev.how) {
      ClosingCarries(w, v, v', s'.history[i].ev.how);
    }
  }

  // ------------------------------------------- events that tell a replay nothing

  /** Two views a replay cannot tell apart: they differ at most in what has been
      scheduled. */
  ghost predicate Alike(v: View, v': View)
  {
    v.input == v'.input && v.results == v'.results && v.children == v'.children
  }

  lemma {:induction false} AlikeReplay(w: Workflow, v: View, v': View, n: nat)
    requires Alike(v, v')
    ensures Replayed(w, v, n) == Replayed(w, v', n)
  {
    if n > 0 { AlikeReplay(w, v, v', n - 1); }
  }

  lemma AlikeCarries(w: Workflow, v: View, v': View)
    requires Alike(v, v')
    ensures Carries(w, v, v')
  {
    forall n: nat ensures Replayed(w, v', n) == Replayed(w, v, n) { AlikeReplay(w, v, v', n); }
  }

  /** A last event that is not telling leaves the view alike. */
  lemma {:induction false} QuietEnd(h: seq<HistoryEvent>)
    requires h != [] && !Telling(h[|h| - 1].ev)
    ensures Alike(Load(h), Load(h[..|h| - 1]))
  {
  }

  lemma CoreAlike(s: D.RunStore)
    requires Settled(s) && s.row.Some?
    ensures Alike(Load(s.history), Load(Core(s)))
  {
    var n := s.row.value.historyLen;
    if |s.history| > n {
      assert s.history[..|s.history| - 1] == Core(s);
      QuietEnd(s.history);
    } else {
      assert s.history == Core(s);
    }
  }

  // ----------------------------------------------------------------- commands

  /** Every command of an episode is sanctioned by the history it replayed. */
  lemma {:induction false} DecisionSanctioned(w: Workflow, queue: string, h: seq<HistoryEvent>, n: nat, c: Command)
    requires c in Decide(w, queue, h, n)
    ensures Sanctioned(w, queue, Load(h), c)
  {
    var v := Load(h);
    var e := Replayed(w, v, n);
    if c in CommandsFor(v, queue, e.slots) {
      CommandsBySlot(v, queue, e.slots, c);
      var k: nat :| k < |e.slots| && c in CommandFor(v, queue, e.slots[k], k);
      assert SlotAt(w, v, k, e.slots[k]);
      match e.slots[k] {
        case ActivitySlot(asked) => assert Justified(w, queue, v, k, OnQueue(asked, queue));
        case ChildSlot(_) =>
      }
    }
  }

  lemma {:induction false} PrefixCarries(w: Workflow, queue: string, s: D.RunStore, h: seq<HistoryEvent>)
    requires Settled(s) && s.row.Some? && Explained(w, queue, s) && h <= Core(s) && h != []
    ensures Carries(w, Load(h), Load(Core(s)))
  {
    var v, v' := Load(h), Load(Core(s));
    assert Core(s)[0] == s.history[0];
    PrefixWithin(h, Core(s));
    ResultsHaveRecords(s);
    NoStrays(w, queue, v', v', Specs(s));
    CarriesWhen(w, v', v, v');
  }

  lemma CarriesTwice(w: Workflow, a: View, b: View, c: View)
    requires Carries(w, a, b) && Carries(w, b, c)
    ensures Carries(w, a, c)
  {
    forall n: nat
      ensures Extends(Replayed(w, a, n), Replayed(w, c, n))
      ensures Final(Replayed(w, a, n).status) ==> Replayed(w, c, n) == Replayed(w, a, n)
    {
      assert Extends(Replayed(w, a, n), Replayed(w, b, n)) && Extends(Replayed(w, b, n), Replayed(w, c, n));
    }
  }

  lemma {:induction false} SnapshotCarries(w: Workflow, queue: string, s: D.RunStore, h: seq<HistoryEvent>)
    requires Settled(s) && s.row.Some? && Explained(w, queue, s) && AsOf(h, Core(s))
    ensures Carries(w, Load(h), Load(Core(s)))
  {
    if h <= Core(s) {
      PrefixCarries(w, queue, s, h);
    } else {
      var p := h[..|h| - 1];
      QuietEnd(h);
      AlikeCarries(w, Load(h), Load(p));
      PrefixCarries(w, queue, s, p);
      CarriesTwice(w, Load(h), Load(p), Load(Core(s)));
    }
  }

  /** Whatever a worker decides from an old snapshot, even one that ends in an
      event since overwritten, is what the workflow still asks for now. */
  lemma StaleDecisionStands(w: Workflow, queue: string, s: D.RunStore, h: seq<HistoryEvent>, n: nat, c: Command)
    requires Settled(s) && s.row.Some? && Explained(w, queue, s) && AsOf(h, Core(s))
    requires c in Decide(w, queue, h, n)
    ensures Sanctioned(w, queue, Load(Core(s)), c)
  {
    SnapshotCarries(w, queue, s, h);
    DecisionSanctioned(w, queue, h, n, c);
    SanctionedCarries(w, queue, Load(h), Load(Core(s)), c);
  }

  // ------------------------------------------------------------------- writes

  /** A write that adds only what the workflow asks for. */
  ghost predicate WriteWarranted(w: Workflow, queue: string, v: View, s: D.RunStore, x: D.Write)
  {
    match x
    case PutAct(k, rec) => k in s.acts || Justified(w, queue, v, k, rec.spec)
    case PutEvent(_, ev) => (ev.ChildStarted? ==> ChildCall(w, v, ev.seq_)) && (ev.Closed? ==> ClosingOk(w, v, ev.how))
    case PutRow(row) => RowKept(w, v, s, row.status)
    case _ => true
  }

  ghost predicate AllWarranted(w: Workflow, queue: string, v: View, s: D.RunStore, ws: seq<D.Write>)
  {
    forall i :: 0 <= i < |ws| ==> WriteWarranted(w, queue, v, s, ws[i])
  }

  lemma WriteAdds(w: Workflow, queue: string, s: D.RunStore, s1: D.RunStore, x: D.Write)
    requires Warranted(w, queue, s, s1) && WriteWarranted(w, queue, Load(Core(s)), s, x)
    requires Sound(s1) && Ok(s1, x)
    ensures Warranted(w, queue, s, D.Commit(s1, x))
  {
    if x.PutEvent? {
      PutAtEnd(s1.history, HistoryEvent(x.id, x.ev));
      var s2 := D.Commit(s1, x);
      forall i | |Core(s)| <= i < |s2.history| - 1 ensures s2.history[i] == s1.history[i] {
      }
    }
  }

  /** However the writes of an operation are cut, what they add is explained by
      the history the operation found. */
  lemma {:induction false} CutWarranted(w: Workflow, queue: string, s: D.RunStore, s1: D.RunStore, ws: seq<D.Write>,
      n: nat)
    requires Warranted(w, queue, s, s1) && AllWarranted(w, queue, Load(Core(s)), s, ws)
    requires Sound(s1) && Safe(s1, ws) && n <= |ws|
    ensures Warranted(w, queue, s, D.CommitAll(s1, ws[..n]))
    decreases n
  {
    if n > 0 {
      OkKeeps(s1, ws[0]);
      WriteAdds(w, queue, s, s1, ws[0]);
      CutWarranted(w, queue, s, D.Commit(s1, ws[0]), ws[1..], n - 1);
      assert ws[..n][1..] == ws[1..][..n - 1];
    }
  }

  /** Explanations survive every clean cut of warranted writes. */
  lemma {:induction false} CutExplained(w: Workflow, queue: string, s: D.RunStore, ws: seq<D.Write>, n: nat)
    requires Settled(s) && s.row.Some? && Explained(w, queue, s) && Safe(s, ws) && n <= |ws|
    requires AllWarranted(w, queue, Load(Core(s)), s, ws)
    ensures var s' := D.CommitAll(s, ws[..n]);
            Keeps(s, s') && Warranted(w, queue, s, s') && Explained(w, queue, s')
  {
    var s' := D.CommitAll(s, ws[..n]);
    assert Warranted(w, queue, s, s);
    CutWarranted(w, queue, s, s, ws, n);
    SafeKept(s, ws, n);
    SafeCut(s, ws, n);
    ExplainedGrows(w, queue, s, s');
  }

  // ------------------------------------------------------- commands and the rest

  lemma CommandWarranted(w: Workflow, queue: string, s: D.RunStore, c: Command, m: D.Minted)
    requires queue != "" && s.row.Some? && Sanctioned(w, queue, Load(Core(s)), c)
    ensures AllWarranted(w, queue, Load(Core(s)), s, D.CommandWrites(s, c, m))
  {
    if c.ContinueAsNew? { assert ClosingOk(w, Load(Core(s)), ContinuedAs(m.newRun)); }
    if c.ScheduleActivity? { assert c.spec.taskQueue != ""; }
  }

  lemma {:induction false} CommandExplained(w: Workflow, queue: string, s: D.RunStore, c: Command, m: D.Minted, n: nat)
    requires queue != "" && Settled(s) && s.row.Some? && Explained(w, queue, s)
             && Sanctioned(w, queue, Load(Core(s)), c)
    requires n <= |D.CommandWrites(s, c, m)|
    ensures var s' := D.CommitAll(s, D.CommandWrites(s, c, m)[..n]);
            Keeps(s, s') && Warranted(w, queue, s, s') && Explained(w, queue, s')
  {
    CommandWarranted(w, queue, s, c, m);
    CommandSafe(s, c, m);
    CutExplained(w, queue, s, D.CommandWrites(s, c, m), n);
  }

  /** A command applied whole leaves everything explained and the others still
      what the workflow asks for. */
  lemma {:induction false} CommandStands(w: Workflow, queue: string, s: D.RunStore, cs: seq<Command>, m: D.Minted)
    requires queue != "" && Settled(s) && s.row.Some? && Explained(w, queue, s) && cs != []
    requires forall c :: c in cs ==> Sanctioned(w, queue, Load(Core(s)), c)
    ensures var s' := D.CommitAll(s, D.CommandWrites(s, cs[0], m));
            && Settled(s') && s'.row.Some? && Explained(w, queue, s')
            && forall c :: c in cs[1..] ==> Sanctioned(w, queue, Load(Core(s')), c)
  {
    var ws := D.CommandWrites(s, cs[0], m);
    var s' := D.CommitAll(s, ws);
    assert ws[..|ws|] == ws;
    CommandExplained(w, queue, s, cs[0], m, |ws|);
    CommandSafe(s, cs[0], m);
    CommandFollowed(s, cs[0], m);
    WholeSettled(s, ws);
    GrowthCarries(w, queue, s, s');
    forall c | c in cs[1..] ensures Sanctioned(w, queue, Load(Core(s')), c) {
      SanctionedCarries(w, queue, Load(Core(s)), Load(Core(s')), c);
    }
  }

  /** Where the first n writes of a list of commands end: in the first command, or
      in the others after it. */
  lemma {:induction false} CommandsCut(s: D.RunStore, cs: seq<Command>, m: D.Minted, n: nat)
    requires cs != [] && n <= |D.CommandsWrites(s, cs, m)|
    ensures var ws := D.CommandWrites(s, cs[0], m);
            var s', cut := D.CommitAll(s, ws), D.CommitAll(s, D.CommandsWrites(s, cs, m)[..n]);
            if n <= |ws| then cut == D.CommitAll(s, ws[..n])
            else
              var rest := D.CommandsWrites(s', cs[1..], m);
              n - |ws| <= |rest| && cut == D.CommitAll(s', rest[..n - |ws|])
  {
    var ws := D.CommandWrites(s, cs[0], m);
    var rest := D.CommandsWrites(D.CommitAll(s, ws), cs[1..], m);
    if n <= |ws| {
      assert (ws + rest)[..n] == ws[..n];
    } else {
      assert (ws + rest)[..n] == ws + rest[..n - |ws|];
      D.CommitConcat(s, ws, rest[..n - |ws|]);
    }
  }

  lemma {:induction false} CommandsExplained(w: Workflow, queue: string, s: D.RunStore, cs: seq<Command>, m: D.Minted,
      n: nat)
    requires queue != "" && Settled(s) && s.row.Some? && Explained(w, queue, s)
    requires forall c :: c in cs ==> Sanctioned(w, queue, Load(Core(s)), c)
    requires n <= |D.CommandsWrites(s, cs, m)|
    ensures Explained(w, queue, D.CommitAll(s, D.CommandsWrites(s, cs, m)[..n]))
    decreases |cs|
  {
    if cs != [] {
      var ws := D.CommandWrites(s, cs[0], m);
      CommandsCut(s, cs, m, n);
      if n <= |ws| {
        CommandExplained(w, queue, s, cs[0], m, n);
      } else {
        CommandStands(w, queue, s, cs, m);
        CommandsExplained(w, queue, D.CommitAll(s, ws), cs[1..], m, n - |ws|);
      }
    }
  }

  /** No other operation adds an activity, or an event that needs explaining. */
  lemma OpWarranted(w: Workflow, queue: string, st: D.State, op: D.Op)
    requires st.store.row.Some? && D.Possible(st, op) && !op.RespondWorkflow? && !op.Start?
    ensures AllWarranted(w, queue, Load(Core(st.store)), st.store, D.OpWrites(st, op))
  {
    var s, v := st.store, Load(Core(st.store));
    if op.Recover? { RestartsWarranted(w, queue, v, s, op.order); }
    if op.Cancel? { CancelWarranted(w, queue, v, s, op.reason, op.subscribed); }
  }

  lemma CancelWarranted(w: Workflow, queue: string, v: View, s: D.RunStore, reason: Payload, subscribed: bool)
    ensures AllWarranted(w, queue, v, s, D.CancelWrites(s, reason, subscribed))
  {
  }

  lemma {:induction false} RestartsWarranted(w: Workflow, queue: string, v: View, s: D.RunStore, order: seq<nat>)
    requires forall k :: k in order ==> k in s.acts
    ensures AllWarranted(w, queue, v, s, D.Restarts(s.acts, order))
    decreases |order|
  {
    if order != [] { RestartsWarranted(w, queue, v, s, order[1..]); }
  }

  // -------------------------------------------------------------- every run

  /** A worker that answers does so with the decision of a finished episode on
      the history it was sent, perhaps cut short by a crash. */
  ghost predicate Faithful(w: Workflow, queue: string, st: D.State, op: D.Op)
  {
    && (op.Start? ==> op.queue == queue)
    && (op.RespondWorkflow? && op.token in st.tasks ==>
          exists n: nat ::
            && Replayed(w, Load(st.tasks[op.token]), n).status != Running
            && op.commands <= Decide(w, queue, st.tasks[op.token], n))
  }

  /** Faithful workers, and crashes that fall neither between an outcome or a child
      start and its row nor inside a start once its row is written. */
  ghost predicate Replays(w: Workflow, queue: string, st: D.State, steps: seq<D.Step>, st': D.State)
    decreases |steps|
  {
    if steps == [] then st' == st
    else
      && D.Possible(st, steps[0].op)
      && (steps[0].Crashes? ==> CleanCut(st, steps[0].op, steps[0].cut))
      && Faithful(w, queue, st, steps[0].op)
      && Replays(w, queue, D.Exec(st, steps[0]), steps[1..], st')
  }

  lemma {:induction false} StartExplained(w: Workflow, queue: string, s: D.RunStore, input: Payload)
    requires s == D.EMPTY
    ensures Explained(w, queue, D.CommitAll(s, D.StartWrites(queue, input)))
  {
    StartSafe(s, queue, input);
  }

  /** However it is cut, an operation leaves everything explained; a start has to
      be whole or cut before its row. */
  lemma OpExplained(w: Workflow, queue: string, st: D.State, op: D.Op, n: nat)
    requires queue != "" && Footing(st) && Explained(w, queue, st.store)
    requires D.Possible(st, op) && Faithful(w, queue, st, op)
    requires n <= |D.OpWrites(st, op)| && CleanCut(st, op, n)
    ensures Explained(w, queue, D.CommitAll(st.store, D.OpWrites(st, op)[..n]))
  {
    var s, ws := st.store, D.OpWrites(st, op);
    assert ws[..0] == [] && ws[..|ws|] == ws;
    if op.Start? {
      StartExplained(w, queue, s, op.input);
      if n == 1 {
        assert ws[..1] == [D.PutIndex];
        SafeOne(s, D.PutIndex);
      }
    } else if s.row.None? {
      NothingThere(st, op);
      SafeOne(s, D.DelIndex);
    } else if op.RespondWorkflow? {
      if op.token in st.tasks { AnswerExplained(w, queue, st, op, n); }
    } else {
      OpWarranted(w, queue, st, op);
      OpSafe(st, op);
      CutExplained(w, queue, s, ws, n);
    }
  }

  lemma AnswerExplained(w: Workflow, queue: string, st: D.State, op: D.Op, n: nat)
    requires queue != "" && Footing(st) && st.store.row.Some? && Explained(w, queue, st.store)
    requires op.RespondWorkflow? && op.token in st.tasks && Faithful(w, queue, st, op)
    requires n <= |D.OpWrites(st, op)|
    ensures Explained(w, queue, D.CommitAll(st.store, D.OpWrites(st, op)[..n]))
  {
    var s, h := st.store, st.tasks[op.token];
    var m: nat :| Replayed(w, Load(h), m).status != Running && op.commands <= Decide(w, queue, h, m);
    forall c | c in op.commands ensures Sanctioned(w, queue, Load(Core(s)), c) {
      assert c in Decide(w, queue, h, m);
      StaleDecisionStands(w, queue, s, h, m, c);
    }
    CommandsExplained(w, queue, s, op.commands, op.minted, n);
  }

  lemma StepExplained(w: Workflow, queue: string, st: D.State, step: D.Step)
    requires queue != "" && Footing(st) && Explained(w, queue, st.store) && Faithful(w, queue, st, step.op)
    requires D.Possible(st, step.op) && (step.Crashes? ==> CleanCut(st, step.op, step.cut))
    ensures Footing(D.Exec(st, step)) && Explained(w, queue, D.Exec(st, step).store)
  {
    var ws := D.OpWrites(st, step.op);
    match step {
      case Does(op) =>
        DoFooting(st, op);
        DoWrites(st, op);
        OpExplained(w, queue, st, op, |ws|);
        assert ws[..|ws|] == ws;
      case Crashes(op, cut) =>
        CutFooting(st, op, cut);
        OpExplained(w, queue, st, op, if cut <= |ws| then cut else |ws|);
    }
  }

  lemma {:induction false} RunExplained(w: Workflow, queue: string, st: D.State, steps: seq<D.Step>, st': D.State)
    requires queue != "" && Footing(st) && Explained(w, queue, st.store) && Replays(w, queue, st, steps, st')
    ensures Footing(st') && Explained(w, queue, st'.store)
    decreases |steps|
  {
    if steps != [] {
      StepExplained(w, queue, st, steps[0]);
      RunExplained(w, queue, D.Exec(st, steps[0]), steps[1..], st');
    }
  }

  /** The run agrees with the workflow run in one go on the recorded input, each
      await yielding the oracle's outcome for its sequence number: every scheduled
      event carries what that run asks for in that call, every child start is of a
      child it calls for, and a run that is COMPLETED, FAILED or CONTINUED_AS_NEW, by
      its closing event or by its row, ended the way that run ends. */
  ghost predicate Agreeing(w: Workflow, queue: string, s: D.RunStore, oracle: nat -> Outcome)
  {
    var h := s.history;
    h != [] ==>
      && h[0].ev.WorkflowStarted?
      && (forall i :: 0 <= i < |h| && h[i].ev.ActivityScheduled? ==>
            AsksFor(w, queue, Some(h[0].ev.input), oracle, h[i].ev.seq_, h[i].ev.spec))
      && (forall i :: 0 <= i < |h| && h[i].ev.ChildStarted? ==>
            AsksChild(w, Some(h[0].ev.input), oracle, h[i].ev.seq_))
      && (forall i :: 0 <= i < |h| && h[i].ev.Closed? ==>
            RunsTo(w, Some(h[0].ev.input), oracle, h[i].ev.how))
      && (s.row.Some? ==> RunsAs(w, Some(h[0].ev.input), oracle, s.row.value.status))
  }

  /** Run in one go, the workflow's k-th call asks for spec. */
  ghost predicate AsksFor(w: Workflow, queue: string, input: Option<Payload>, oracle: nat -> Outcome, k: nat,
      spec: ActivitySpec)
  {
    exists asked :: T.Makes(w, input, T.Given(oracle), k, ActivitySlot(asked)) && T.Sent(asked, queue, spec)
  }

  ghost predicate AsksChild(w: Workflow, input: Option<Payload>, oracle: nat -> Outcome, k: nat)
  {
    exists child :: T.Makes(w, input, T.Given(oracle), k, ChildSlot(child))
  }

  /** Run in one go, the workflow ends this way. */
  ghost predicate RunsTo(w: Workflow, input: Option<Payload>, oracle: nat -> Outcome, how: Closing)
  {
    match how
    case CompletedWith(result) => T.ComesTo(w, input, T.Given(oracle), Return(result))
    case FailedWith(failure) => T.Fails(w, input, T.Given(oracle), failure)
    case ContinuedAs(_) => exists next :: T.ComesTo(w, input, T.Given(oracle), Continue(next))
    case _ => true
  }

  ghost predicate RunsAs(w: Workflow, input: Option<Payload>, oracle: nat -> Outcome, status: St.RunStatus)
  {
    match status
    case Completed => exists result :: T.ComesTo(w, input, T.Given(oracle), Return(result))
    case Failed => exists failure :: T.Fails(w, input, T.Given(oracle), failure)
    case ContinuedAsNew => exists next :: T.ComesTo(w, input, T.Given(oracle), Continue(next))
    case _ => true
  }

  /** Replay soundness. In every reachable state, with stale or duplicate tasks
      in flight, retries, recoveries, and crashes after any write but an outcome
      event, a child start, or the row or first event of a start: the run agrees
      with direct execution under every oracle that yields the outcomes its history
      records. */
  lemma {:induction false} ReplaySoundness(w: Workflow, queue: string, steps: seq<D.Step>, st: D.State,
      oracle: nat -> Outcome)
    requires queue != "" && Replays(w, queue, D.INITIAL, steps, st)
    requires T.Yields(st.store.history, oracle)
    ensures Agreeing(w, queue, st.store, oracle)
  {
    RunExplained(w, queue, D.INITIAL, steps, st);
    if st.store.history != [] {
      YieldsRecords(w, st.store.history, oracle);
      ExplainedAgrees(w, queue, st.store, oracle);
    }
  }

  lemma {:induction false} OutcomeYields(h: seq<HistoryEvent>, oracle: nat -> Outcome, k: nat)
    requires T.Yields(h, oracle)
    ensures T.OutcomeIn(h, k).Some? ==> oracle(k) == T.OutcomeIn(h, k).value
    ensures T.ChildIn(h, k).Some? ==> oracle(k) == T.ChildIn(h, k).value
  {
    if h != [] {
      var n := |h| - 1;
      assert T.Yields(h[..n], oracle) by {
        forall i | 0 <= i < n ensures h[..n][i] == h[i] {
        }
      }
      OutcomeYields(h[..n], oracle, k);
      assert h[n] == h[|h| - 1];
    }
  }

  lemma {:induction false} YieldsRecords(w: Workflow, h: seq<HistoryEvent>, oracle: nat -> Outcome)
    requires T.Yields(h, oracle)
    ensures Records(w, Load(h), oracle)
  {
    var v := Load(h);
    forall n: nat, k: nat | k < |Replayed(w, v, n).slots|
      ensures Replayed(w, v, n).slots[k].ActivitySlot? && k in v.results ==> oracle(k) == v.results[k]
      ensures Replayed(w, v, n).slots[k].ChildSlot? && k in v.children ==> oracle(k) == v.children[k]
    {
      T.ViewTells(h, k);
      OutcomeYields(h, oracle, k);
    }
  }

  lemma ExplainedAgrees(w: Workflow, queue: string, s: D.RunStore, oracle: nat -> Outcome)
    requires Settled(s) && s.history != [] && Explained(w, queue, s) && Records(w, Load(s.history), oracle)
    ensures Agreeing(w, queue, s, oracle)
  {
    var h, v := s.history, Load(Core(s));
    CoreAlike(s);
    RecordsAlike(w, Load(h), v, oracle);
    assert Core(s)[0] == h[0];
    LoadRemembers(Core(s));
    ResultsHaveRecords(s);
    NoStrays(w, queue, v, v, Specs(s));
    forall i | 0 <= i < |h| && h[i].ev.ActivityScheduled?
      ensures AsksFor(w, queue, v.input, oracle, h[i].ev.seq_, h[i].ev.spec)
    {
      assert Backed(s, h[i].ev);
      DirectAsks(w, queue, v, oracle, h[i].ev.seq_, h[i].ev.spec);
    }
    forall i | 0 <= i < |h| && h[i].ev.ChildStarted? ensures AsksChild(w, v.input, oracle, h[i].ev.seq_) {
      DirectChild(w, v, oracle, h[i].ev.seq_);
    }
    forall i | 0 <= i < |h| && h[i].ev.Closed? ensures RunsTo(w, v.input, oracle, h[i].ev.how) {
      DirectEnds(w, v, oracle, h[i].ev.how);
    }
    if s.row.Some? { DirectRow(w, v, oracle, s.row.value.status); }
  }

  lemma RecordsAlike(w: Workflow, v: View, v': View, oracle: nat -> Outcome)
    requires Records(w, v, oracle) && Alike(v, v')
    ensures Records(w, v', oracle)
  {
    forall n: nat, k: nat | k < |Replayed(w, v', n).slots|
      ensures Replayed(w, v', n).slots[k].ActivitySlot? && k in v'.results ==> oracle(k) == v'.results[k]
      ensures Replayed(w, v', n).slots[k].ChildSlot? && k in v'.children ==> oracle(k) == v'.children[k]
    {
      AlikeReplay(w, v, v', n);
      assert k < |Replayed(w, v, n).slots|;
    }
  }

  lemma DirectMakes(w: Workflow, v: View, oracle: nat -> Outcome, k: nat, slot: Slot)
    requires NoStrayResults(w, v, v) && Records(w, v, oracle) && SlotAt(w, v, k, slot)
    ensures T.Makes(w, v.input, T.Given(oracle), k, slot)
  {
    var n: nat :| k < |Replayed(w, v, n).slots| && Replayed(w, v, n).slots[k] == slot;
    ReplayIsDirect(w, v, oracle, n);
    assert Run(w, v.input, ByOracle(oracle), n).slots[k] == slot;
    T.OracleSame(oracle);
    T.MakesIff(w, v.input, ByOracle(oracle), T.Given(oracle), k, slot);
  }

  lemma DirectAsks(w: Workflow, queue: string, v: View, oracle: nat -> Outcome, k: nat, spec: ActivitySpec)
    requires NoStrayResults(w, v, v) && Records(w, v, oracle) && Justified(w, queue, v, k, spec)
    ensures AsksFor(w, queue, v.input, oracle, k, spec)
  {
    var asked :| Schedulable(asked) && spec == OnQueue(asked, queue) && SlotAt(w, v, k, ActivitySlot(asked));
    DirectMakes(w, v, oracle, k, ActivitySlot(asked));
    T.SentIff(asked, queue, spec);
  }

  lemma DirectChild(w: Workflow, v: View, oracle: nat -> Outcome, k: nat)
    requires NoStrayResults(w, v, v) && Records(w, v, oracle) && ChildCall(w, v, k)
    ensures AsksChild(w, v.input, oracle, k)
  {
    var child :| SlotAt(w, v, k, ChildSlot(child));
    DirectMakes(w, v, oracle, k, ChildSlot(child));
  }

  lemma DirectEnds(w: Workflow, v: View, oracle: nat -> Outcome, how: Closing)
    requires NoStrayResults(w, v, v) && Records(w, v, oracle) && ClosingOk(w, v, how)
    ensures RunsTo(w, v.input, oracle, how)
  {
    match how {
      case CompletedWith(result) => DirectStatus(w, v, oracle, Returned(result));
      case FailedWith(failure) => DirectStatus(w, v, oracle, Threw(failure));
      case ContinuedAs(_) =>
        var input :| Ends(w, v, Continued(input));
        DirectStatus(w, v, oracle, Continued(input));
      case _ =>
    }
  }

  lemma DirectRow(w: Workflow, v: View, oracle: nat -> Outcome, status: St.RunStatus)
    requires NoStrayResults(w, v, v) && Records(w, v, oracle) && RowOk(w, v, status)
    ensures RunsAs(w, v.input, oracle, status)
  {
    match status {
      case Completed =>
        var result :| Ends(w, v, Returned(result));
        DirectStatus(w, v, oracle, Returned(result));
      case Failed =>
        var failure :| Ends(w, v, Threw(failure));
        DirectStatus(w, v, oracle, Threw(failure));
      case ContinuedAsNew =>
        var input :| Ends(w, v, Continued(input));
        DirectStatus(w, v, oracle, Continued(input));
      case _ =>
    }
  }

  lemma DirectStatus(w: Workflow, v: View, oracle: nat -> Outcome, s: Status)
    requires NoStrayResults(w, v, v) && Records(w, v, oracle) && Ends(w, v, s) && Final(s)
    ensures T.EndsSo(w, v.input, T.Given(oracle), s)
  {
    var n: nat :| Replayed(w, v, n).status == s;
    ReplayIsDirect(w, v, oracle, n);
    assert Run(w, v.input, ByOracle(oracle), n).status == s;
    T.OracleSame(oracle);
    T.EndsIff(w, v.input, ByOracle(oracle), T.Given(oracle), s);
  }
}
