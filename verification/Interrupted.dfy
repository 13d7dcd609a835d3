/** Crashes between the two halves of continue-as-new and of start-child
    (pkg/tasks/engine_commands.go): the run marked continued and nothing more, the
    run closed and its successor not started, the child started and not recorded by
    its parent. */
module Interrupted {
  import opened Basics
  import opened Runs
  import opened Statuses
  import opened Lineage

  datatype Event =
    | Whole(step: Step)
    | HalfClose(ref: Ref)                     // a crash before the event that names the successor
    | HalfContinue(ref: Ref, newRun: nat)     // a crash before the successor's start
    | HalfChild(rq: Request)                  // a crash before the parent's event

  /** The start request of a start-child command. */
  function ChildRequest(rq: Request): Request { rq.(requestId := "", policy := PREFIX + "USE_EXISTING") }

  /** The terminal row of a continued run, without its event. */
  function MarkContinued(st: State, ref: Ref): State
  {
    match Find(st.rows, ref)
    case None => st
    case Some(r) =>
      if IsTerminal(r.status) then st else st.(rows := Put(st.rows, r.(status := RunStatus.ContinuedAsNew)))
  }

  function Happen(st: State, e: Event): State
  {
    match e
    case Whole(step) => Apply(st, step)
    case HalfClose(ref) => MarkContinued(st, ref)
    case HalfContinue(ref, newRun) => Close(st, ref, RunStatus.ContinuedAsNew, ContinuedAs(newRun))
    case HalfChild(rq) => Start(st, ChildRequest(rq)).0
  }

  ghost predicate Proper(st: State, e: Event)
  {
    match e
    case Whole(step) => Allowed(st, step)
    case HalfClose(_) => true
    case HalfContinue(_, _) => true
    case HalfChild(rq) => NewWid(st, rq)
  }

  ghost function Eventually(st: State, es: seq<Event>): State
  {
    if es == [] then st else Happen(Eventually(st, es[..|es| - 1]), es[|es| - 1])
  }

  ghost predicate AllProper(st: State, es: seq<Event>)
  {
    es == [] || (AllProper(st, es[..|es| - 1]) && Proper(Eventually(st, es[..|es| - 1]), es[|es| - 1]))
  }

  // ------------------------------------------------------------ one open run

  /** The rows are those of a whole close. */
  lemma MarkKeeps(st: State, ref: Ref)
    requires Inv(st.rows)
    ensures Inv(MarkContinued(st, ref).rows)
    ensures MarkContinued(st, ref).rows == Close(st, ref, RunStatus.ContinuedAsNew, Ended).rows
  {
    CloseKeeps(st, ref, RunStatus.ContinuedAsNew, Ended);
  }

  lemma {:induction false} CrashesKeep(es: seq<Event>)
    requires AllProper(INITIAL, es)
    ensures Inv(Eventually(INITIAL, es).rows)
  {
    if es != [] {
      CrashesKeep(es[..|es| - 1]);
      var st := Eventually(INITIAL, es[..|es| - 1]);
      match es[|es| - 1] {
        case Whole(step) => StepKeeps(st, step);
        case HalfClose(ref) => MarkKeeps(st, ref);
        case HalfContinue(ref, newRun) => CloseKeeps(st, ref, RunStatus.ContinuedAsNew, ContinuedAs(newRun));
        case HalfChild(rq) =>
          UseExistingRecognised();
          StartKeeps(st, ChildRequest(rq));
      }
    }
  }

  /** Crashes between the halves never leave two open runs under one id. */
  lemma {:induction false} SingleLiveDespiteCrashes(es: seq<Event>)
    requires AllProper(INITIAL, es)
    ensures SingleLive(Eventually(INITIAL, es).rows)
  {
    CrashesKeep(es);
  }

  // --------------------------------------------------------- a lost successor

  /** The run id a step may give to a new run. */
  function Makes(e: Event): Option<Ref>
  {
    match e
    case HalfChild(rq) => Some(NewRun(ChildRequest(rq)).ref)
    case HalfClose(_) => None
    case HalfContinue(_, _) => None
    case Whole(step) =>
      match step
      case DoStart(rq) => Some(NewRun(rq).ref)
      case DoSignalWithStart(rq) => Some(NewRun(rq).ref)
      case DoStartChild(_, _, rq, _) => Some(NewRun(rq).ref)
      case DoContinue(ref, _, newRun, _, _) => Some(Ref(ref.wid, newRun))
      case _ => None
  }

  lemma StartMakes(st: State, rq: Request, x: Ref)
    ensures Present(Start(st, rq).0, x) ==> Present(st, x) || x == NewRun(rq).ref
  {
    var wid := WidOf(rq);
    if rq.typ != "" && Earlier(st, wid, rq.requestId).None? {
      ResolveMakes(st, wid, rq.policy, x);
      match Resolve(st, wid, rq.policy) {
        case Reuse(r) =>
        case Conflict =>
        case Proceed(st') => FindPut(st'.rows, NewRun(rq), x);
      }
    }
  }

  lemma ResolveMakes(st: State, wid: string, policy: string, x: Ref)
    ensures var r := Resolve(st, wid, policy); r.Proceed? ==> Present(r.st, x) == Present(st, x)
  {
    if Current(st.rows, wid).Some? { ClosePresent(st, Current(st.rows, wid).value.ref, Terminated, Ended, x); }
  }

  lemma CancelPresent(st: State, ref: Ref, subscribed: bool, x: Ref)
    ensures Present(Cancel(st, ref, subscribed), x) == Present(st, x)
  {
    FindMember(st.rows, ref);
    if Find(st.rows, ref).Some? && Find(st.rows, ref).value.status.Running? {
      FindPut(st.rows, Find(st.rows, ref).value.(status := Canceling), x);
      ClosePresent(Append(st, ref, CancelRequested), ref, Canceled, Ended, x);
    }
  }

  lemma MarkPresent(st: State, ref: Ref, x: Ref)
    ensures Present(MarkContinued(st, ref), x) == Present(st, x)
  {
    FindMember(st.rows, ref);
    if Find(st.rows, ref).Some? { FindPut(st.rows, Find(st.rows, ref).value.(status := RunStatus.ContinuedAsNew), x); }
  }

  /** Only a step that makes the run can bring it about. */
  lemma HappenMakes(st: State, e: Event, x: Ref)
    ensures Present(Happen(st, e), x) ==> Present(st, x) || Makes(e) == Some(x)
  {
    match e {
      case HalfClose(ref) => MarkPresent(st, ref, x);
      case HalfContinue(ref, newRun) => ClosePresent(st, ref, RunStatus.ContinuedAsNew, ContinuedAs(newRun), x);
      case HalfChild(rq) => StartMakes(st, ChildRequest(rq), x);
      case Whole(step) =>
        match step {
          case DoStart(rq) => StartMakes(st, rq, x);
          case DoSignalWithStart(rq) => StartMakes(st, rq.(policy := ""), x);
          case DoSignal(ref) =>
          case DoCancel(ref, subscribed) => CancelPresent(st, ref, subscribed, x);
          case DoClose(ref, status) => ClosePresent(st, ref, status, Ended, x);
          case DoContinue(ref, typ, newRun, decodes, now) =>
            FindMember(st.rows, ref);
            if Find(st.rows, ref).Some? {
              var cur := Find(st.rows, ref).value;
              ClosePresent(st, ref, RunStatus.ContinuedAsNew, ContinuedAs(newRun), x);
              StartMakes(Close(st, ref, RunStatus.ContinuedAsNew, ContinuedAs(newRun)),
                  Successor(cur, typ, newRun, now), x);
            }
          case DoStartChild(parent, s, rq, decodes) => StartMakes(st, ChildRequest(rq), x);
        }
    }
  }

  /** A run to be continued. */
  ghost predicate Live(st: State, ref: Ref) { Present(st, ref) && IsOpen(Find(st.rows, ref).value) }

  /** A continued run that names no successor. */
  ghost predicate Unnamed(st: State, ref: Ref)
  {
    && Present(st, ref) && Find(st.rows, ref).value.status == RunStatus.ContinuedAsNew
    && Nexts(Marks(st, ref)) == []
  }

  /** A crash between the terminal row and its event leaves a continued run that
      names no successor exactly when there was a run to continue; nothing under
      its id is then open, and applying the command again does nothing. */
  lemma LeavesUnnamedIff(st: State, ref: Ref)
    requires Inv(st.rows) && Traced(st)
    ensures var st' := Happen(st, HalfClose(ref));
            && (Unnamed(st', ref) <==> Live(st, ref))
            && (Live(st, ref) ==>
                  && NoneOpen(st'.rows, ref.wid)
                  && forall typ, n, decodes, now :: ContinueAsNew(st', ref, typ, n, decodes, now) == st')
  {
    var st' := Happen(st, HalfClose(ref));
    FindMember(st.rows, ref);
    if Live(st, ref) {
      var cur := Find(st.rows, ref).value;
      FindPut(st.rows, cur.(status := RunStatus.ContinuedAsNew), ref);
      assert |Nexts(Marks(st, ref))| == 0 && Marks(st', ref) == Marks(st, ref);
      OpenIsOnly(st.rows, cur);
      MarkKeeps(st, ref);
      CloseKeeps(st, ref, RunStatus.ContinuedAsNew, Ended);
    } else {
      assert st' == st;
      assert Present(st, ref) ==>
               |Nexts(Marks(st, ref))| == if Find(st.rows, ref).value.status == RunStatus.ContinuedAsNew then 1 else 0;
    }
  }

  /** A crash between the close and the successor's start loses the successor
      exactly when there was a run to continue: it is then named and missing, and
      applying the command again does nothing. */
  lemma LosesSuccessorIff(st: State, ref: Ref, newRun: nat)
    requires Inv(st.rows) && Traced(st) && !Present(st, Ref(ref.wid, newRun))
    ensures var st' := Happen(st, HalfContinue(ref, newRun));
            && ((Names(st', ref, newRun) && !Present(st', Ref(ref.wid, newRun))) <==>
                  Live(st, ref))
            && (Live(st, ref) ==>
                  && NoneOpen(st'.rows, ref.wid)
                  && forall typ, n, decodes, now :: ContinueAsNew(st', ref, typ, n, decodes, now) == st')
  {
    var st' := Happen(st, HalfContinue(ref, newRun));
    ClosePresent(st, ref, RunStatus.ContinuedAsNew, ContinuedAs(newRun), Ref(ref.wid, newRun));
    FindMember(st.rows, ref);
    if Live(st, ref) {
      var cur := Find(st.rows, ref).value;
      CloseIsSuccession(st, cur, newRun);
      SuccessionNames(st, st', cur, newRun, ref, newRun);
      OpenIsOnly(st.rows, cur);
      CloseKeeps(st, ref, RunStatus.ContinuedAsNew, ContinuedAs(newRun));
    } else {
      assert st' == st;
      assert Names(st, ref, newRun) ==> Present(st, Ref(ref.wid, newRun));
    }
  }

  /** Run ids being generated, the lost successor never comes about. */
  lemma {:induction false} LostSuccessorStays(st: State, es: seq<Event>, lost: Ref)
    requires !Present(st, lost) && forall i :: 0 <= i < |es| ==> Makes(es[i]) != Some(lost)
    ensures !Present(Eventually(st, es), lost)
  {
    if es != [] {
      LostSuccessorStays(st, es[..|es| - 1], lost);
      HappenMakes(Eventually(st, es[..|es| - 1]), es[|es| - 1], lost);
    }
  }

  // ----------------------------------------------------------- a second child

  lemma ChildStart(st: State, rq: Request)
    requires rq.typ != ""
    ensures var (st', r) := Start(st, ChildRequest(rq)); var live := Current(st.rows, WidOf(rq));
            if live.Some? && IsOpen(live.value) then st' == st && r == live
            else st' == Create(st, NewRun(rq), "") && r == Some(NewRun(rq))
  {
    UseExistingIs();
  }

  lemma OpenIsCurrent(rows: seq<Run>, r: Run)
    requires Inv(rows) && r in rows && IsOpen(r)
    ensures Current(rows, r.ref.wid) == Some(r)
  {
    CurrentIsBest(rows, r.ref.wid, r);
    OpenIsOnly(rows, r);
    var best := Current(rows, r.ref.wid).value;
    var i :| 0 <= i < |rows| && rows[i] == best;
    var j :| 0 <= j < |rows| && rows[j] == r;
    assert rows[i].ref == rows[j].ref;
  }

  lemma SameRow(rows: seq<Run>, a: Run, b: Run)
    requires Keyed(rows) && a in rows && b in rows && a.ref == b.ref
    ensures a == b
  {
    var i :| 0 <= i < |rows| && rows[i] == a;
    var j :| 0 <= j < |rows| && rows[j] == b;
    assert i == j;
  }

  /** The run a start-child hands back is this one exactly when it is open under
      the command's id, and is a new one exactly when none there is open. */
  lemma ChildHandedBack(st: State, rq: Request, child: Run)
    requires Inv(st.rows) && child in st.rows && rq.typ != "" && !Present(st, NewRun(rq).ref)
    ensures var (st1, r) := Start(st, ChildRequest(rq));
            && r.Some?
            && (r.value.ref == child.ref <==> IsOpen(child) && child.ref.wid == WidOf(rq))
            && (Present(st1, NewRun(rq).ref) <==> NoneOpen(st.rows, WidOf(rq)))
  {
    var wid := WidOf(rq);
    var live := Current(st.rows, wid);
    ChildStart(st, rq);
    CurrentTells(st.rows, wid);
    FindMember(st.rows, NewRun(rq).ref);
    if live.Some? && IsOpen(live.value) {
      CurrentIsBest(st.rows, wid, live.value);
      if IsOpen(child) && child.ref.wid == wid { OpenIsCurrent(st.rows, child); }
      if live.value.ref == child.ref { SameRow(st.rows, live.value, child); }
      var i :| 0 <= i < |st.rows| && st.rows[i] == live.value;
      assert !NoneOpen(st.rows, wid);
    } else {
      FindPut(st.rows, NewRun(rq), NewRun(rq).ref);
      var j :| 0 <= j < |st.rows| && st.rows[j] == child;
    }
  }

  /** The parent records the run the start hands back. */
  lemma {:induction false} RecordsChild(st: State, parent: Ref, s: int, rq: Request)
    requires Present(st, parent) && rq.typ != "" && ChildrenAt(Marks(st, parent), s) == []
    ensures var (st1, r) := Start(st, ChildRequest(rq));
            && r.Some? && StartChild(st, parent, s, rq, true).rows == st1.rows
            && ChildrenAt(Marks(StartChild(st, parent, s, rq, true), parent), s) == [r.value.ref]
  {
    var (st1, r) := Start(st, ChildRequest(rq));
    ChildStart(st, rq);
    ChildrenUnmoved(st, ChildRequest(rq), parent, s);
    var m := ChildStarted(s, r.value.ref);
    assert StartChild(st, parent, s, rq, true) == Append(st1, parent, m);
    FindPut(st.rows, NewRun(rq), parent);
    MarksAppend(st1, parent, m, parent);
    MarksSnoc(Marks(st1, parent), m, s);
  }

  /** Re-applying a start-child whose child was started and never recorded, at any
      later point: it attaches to that child exactly when the child is still open
      under the id the command now names, and starts another run exactly when no
      run under that id is open. */
  lemma {:induction false} SecondChildIff(st: State, parent: Ref, s: int, rq: Request, child: Run)
    requires Inv(st.rows) && child in st.rows && Present(st, parent) && rq.typ != ""
    requires ChildrenAt(Marks(st, parent), s) == [] && !Present(st, NewRun(rq).ref)
    ensures var st' := StartChild(st, parent, s, rq, true);
            && (ChildrenAt(Marks(st', parent), s) == [child.ref] <==> IsOpen(child) && child.ref.wid == WidOf(rq))
            && (Present(st', NewRun(rq).ref) <==> NoneOpen(st.rows, WidOf(rq)))
  {
    RecordsChild(st, parent, s, rq);
    ChildHandedBack(st, rq, child);
  }

  /** Re-applied at once after the crash, the command starts a second child
      exactly when it names no workflow id, which is then generated anew. */
  lemma {:induction false} ReappliedChild(st: State, parent: Ref, s: int, rq: Request, again: Request)
    requires Inv(st.rows) && NewWid(st, rq) && Present(st, parent) && rq.typ != ""
    requires ChildrenAt(Marks(st, parent), s) == [] && !Present(st, NewRun(rq).ref)
    requires again.typ == rq.typ && again.wid == rq.wid
    requires var st1 := Happen(st, HalfChild(rq)); NewWid(st1, again) && !Present(st1, NewRun(again).ref)
    ensures var st1, child := Happen(st, HalfChild(rq)), Start(st, ChildRequest(rq)).1;
            var st2 := StartChild(st1, parent, s, again, true);
            && child.Some? && child.value in st1.rows
            && (ChildrenAt(Marks(st2, parent), s) == [child.value.ref] <==> rq.wid != "")
            && (Present(st2, NewRun(again).ref) <==> rq.wid == "")
  {
    var (st1, child) := Start(st, ChildRequest(rq));
    ChildKeeps(st, rq);
    ChildrenUnmoved(st, ChildRequest(rq), parent, s);
    StartedOpen(st, rq);
    SecondChildIff(st1, parent, s, again, child.value);
    var i :| 0 <= i < |st1.rows| && st1.rows[i] == child.value;
  }

  lemma ChildKeeps(st: State, rq: Request)
    requires Inv(st.rows) && WidOf(rq) != ""
    ensures Inv(Start(st, ChildRequest(rq)).0.rows)
  {
    UseExistingRecognised();
    StartKeeps(st, ChildRequest(rq));
  }

  lemma StartedOpen(st: State, rq: Request)
    requires Inv(st.rows) && rq.typ != ""
    ensures var (st1, child) := Start(st, ChildRequest(rq));
            && child.Some? && child.value in st1.rows && IsOpen(child.value) && child.value.ref.wid == WidOf(rq)
            && forall x :: Present(st, x) ==> Present(st1, x)
  {
    ChildStart(st, rq);
    var live := Current(st.rows, WidOf(rq));
    if live.Some? && IsOpen(live.value) {
      CurrentIsBest(st.rows, WidOf(rq), live.value);
    } else {
      FindPut(st.rows, NewRun(rq), NewRun(rq).ref);
      FindMember(Put(st.rows, NewRun(rq)), NewRun(rq).ref);
      forall x | Present(st, x) ensures Present(Create(st, NewRun(rq), ""), x) {
        FindPut(st.rows, NewRun(rq), x);
      }
    }
  }

  // ------------------------------------------------------- from the empty store

  lemma {:induction false} OneMore(st: State, es: seq<Event>, e: Event)
    ensures Eventually(st, es + [e]) == Happen(Eventually(st, es), e)
    ensures AllProper(st, es + [e]) <==> AllProper(st, es) && Proper(Eventually(st, es), e)
  {
    assert (es + [e])[..|es|] == es;
  }

  lemma {:induction false} TwoMore(es: seq<Event>, st: State, a: Event, b: Event)
    requires Eventually(INITIAL, es) == st && AllProper(INITIAL, es) && Proper(st, a) && Proper(Happen(st, a), b)
    ensures AllProper(INITIAL, es + [a] + [b]) && Eventually(INITIAL, es + [a] + [b]) == Happen(Happen(st, a), b)
  {
    OneMore(INITIAL, es, a);
    OneMore(INITIAL, es + [a], b);
  }

  /** A start under a recognised policy, with ids of its own. */
  predicate Startable(rq: Request) { rq.typ != "" && rq.wid != "" && rq.newWid != "" && Recognised(rq.policy) }

  lemma FirstRun(rq: Request)
    requires Startable(rq)
    ensures var st := Happen(INITIAL, Whole(DoStart(rq)));
            && Eventually(INITIAL, [Whole(DoStart(rq))]) == st && AllProper(INITIAL, [Whole(DoStart(rq))])
            && st.rows == [NewRun(rq)] && Present(st, NewRun(rq).ref) && Marks(st, NewRun(rq).ref) == [Begun]
  {
    FirstStart(rq);
    OneMore(INITIAL, [], Whole(DoStart(rq)));
    assert [] + [Whole(DoStart(rq))] == [Whole(DoStart(rq))];
  }

  lemma FirstTraced(rq: Request)
    requires Startable(rq)
    ensures var st := Happen(INITIAL, Whole(DoStart(rq))); Inv(st.rows) && Traced(st)
  {
    FirstStart(rq);
    TracedStart(INITIAL, rq);
  }

  /** A start and a crash inside its continue-as-new: marked continued and naming
      no successor, or naming one that is missing. */
  lemma LostSuccessorReachable(rq: Request, n: nat)
    requires Startable(rq) && n != rq.id
    ensures var ref, first := Ref(rq.wid, rq.id), Whole(DoStart(rq));
            var a, b := Eventually(INITIAL, [first] + [HalfClose(ref)]),
                Eventually(INITIAL, [first] + [HalfContinue(ref, n)]);
            && AllProper(INITIAL, [first] + [HalfClose(ref)]) && Unnamed(a, ref) && NoneOpen(a.rows, rq.wid)
            && AllProper(INITIAL, [first] + [HalfContinue(ref, n)]) && NoneOpen(b.rows, rq.wid)
            && Names(b, ref, n) && !Present(b, Ref(rq.wid, n))
  {
    var ref, st := Ref(rq.wid, rq.id), Happen(INITIAL, Whole(DoStart(rq)));
    FirstRun(rq);
    FirstTraced(rq);
    OneMore(INITIAL, [Whole(DoStart(rq))], HalfClose(ref));
    OneMore(INITIAL, [Whole(DoStart(rq))], HalfContinue(ref, n));
    LeavesUnnamedIff(st, ref);
    LosesSuccessorIff(st, ref, n);
  }

  /** A start, a crash inside a start-child that names no workflow id, and the
      command applied again: two children run, and the parent records the second. */
  lemma {:induction false} TwoChildrenReachable(rq: Request, child: Request, again: Request, s: int)
    requires Startable(rq) && child.typ == again.typ != "" && child.wid == again.wid == ""
    requires child.newWid != "" && child.newWid != rq.wid
    requires again.newWid != "" && again.newWid != rq.wid && again.newWid != child.newWid
    ensures var parent := Ref(rq.wid, rq.id);
            var es := [Whole(DoStart(rq))] + [HalfChild(child)] + [Whole(DoStartChild(parent, s, again, true))];
            var st := Eventually(INITIAL, es);
            && AllProper(INITIAL, es) && NewRun(child).ref != NewRun(again).ref
            && Present(st, NewRun(child).ref) && Present(st, NewRun(again).ref)
            && ChildrenAt(Marks(st, parent), s) == [NewRun(again).ref]
  {
    FirstRun(rq);
    assert [Begun][..0] == [];
    ChildTwice([Whole(DoStart(rq))], Ref(rq.wid, rq.id), child, again, s);
  }

  /** The same after any run that has the parent and neither id. */
  lemma {:induction false} ChildTwice(es: seq<Event>, parent: Ref, child: Request, again: Request, s: int)
    requires AllProper(INITIAL, es) && child.typ == again.typ != "" && child.wid == again.wid == ""
    requires child.newWid != "" && again.newWid != "" && again.newWid != child.newWid
    requires var st := Eventually(INITIAL, es);
             && Present(st, parent) && ChildrenAt(Marks(st, parent), s) == []
             && forall i :: 0 <= i < |st.rows| ==>
                st.rows[i].ref.wid != child.newWid && st.rows[i].ref.wid != again.newWid
    ensures var es' := es + [HalfChild(child)] + [Whole(DoStartChild(parent, s, again, true))];
            var st := Eventually(INITIAL, es');
            && AllProper(INITIAL, es') && NewRun(child).ref != NewRun(again).ref
            && Present(st, NewRun(child).ref) && Present(st, NewRun(again).ref)
            && ChildrenAt(Marks(st, parent), s) == [NewRun(again).ref]
  {
    var st := Eventually(INITIAL, es);
    TwoChildren(st, parent, s, child, again);
    TwoProper(st, Happen(st, HalfChild(child)), parent, s, child, again);
    TwoMore(es, st, HalfChild(child), Whole(DoStartChild(parent, s, again, true)));
  }

  lemma TwoProper(st: State, st1: State, parent: Ref, s: int, child: Request, again: Request)
    requires child.newWid != "" && again.newWid != "" && child.wid == "" && again.newWid != child.newWid
    requires forall i :: 0 <= i < |st.rows| ==> st.rows[i].ref.wid != child.newWid && st.rows[i].ref.wid != again.newWid
    requires st1.rows == st.rows + [NewRun(child)]
    ensures Proper(st, HalfChild(child)) && Proper(st1, Whole(DoStartChild(parent, s, again, true)))
  {
  }

  lemma {:induction false} TwoChildren(st: State, parent: Ref, s: int, child: Request, again: Request)
    requires Present(st, parent) && ChildrenAt(Marks(st, parent), s) == []
    requires child.typ != "" && again.typ != "" && WidOf(child) != WidOf(again)
    requires forall i :: 0 <= i < |st.rows| ==> st.rows[i].ref.wid != WidOf(child) && st.rows[i].ref.wid != WidOf(again)
    ensures var st1 := Happen(st, HalfChild(child)); var st2 := StartChild(st1, parent, s, again, true);
            && st1.rows == st.rows + [NewRun(child)]
            && Present(st2, NewRun(child).ref) && Present(st2, NewRun(again).ref)
            && ChildrenAt(Marks(st2, parent), s) == [NewRun(again).ref]
  {
    var st1 := Happen(st, HalfChild(child));
    NewChild(st, child);
    ChildrenUnmoved(st, ChildRequest(child), parent, s);
    NewChild(st1, again);
    RecordsChild(st1, parent, s, again);
    var rows := StartChild(st1, parent, s, again, true).rows;
    assert rows == st1.rows + [NewRun(again)];
    assert rows[|st.rows|] == NewRun(child) && rows[|st1.rows|] == NewRun(again);
    FindMember(rows, NewRun(child).ref);
    FindMember(rows, NewRun(again).ref);
  }

  /** Under an id no run has, a start-child makes one. */
  lemma NewChild(st: State, rq: Request)
    requires rq.typ != "" && forall i :: 0 <= i < |st.rows| ==> st.rows[i].ref.wid != WidOf(rq)
    ensures var st' := Start(st, ChildRequest(rq)).0;
            && st'.rows == st.rows + [NewRun(rq)] && Start(st, ChildRequest(rq)).1 == Some(NewRun(rq))
            && forall x :: Present(st, x) ==> Present(st', x)
  {
    ChildStart(st, rq);
    if Current(st.rows, WidOf(rq)).Some? {
      CurrentIsBest(st.rows, WidOf(rq), Current(st.rows, WidOf(rq)).value);
    }
    FindMember(st.rows, NewRun(rq).ref);
    forall x | Present(st, x) ensures Present(Create(st, NewRun(rq), ""), x) {
      FindPut(st.rows, NewRun(rq), x);
    }
  }
}
