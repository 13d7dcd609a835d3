/** Who continued whom, and which children were started: read off the histories
    of the runs of module Runs. */
module Lineage {
  import opened Basics
  import opened Runs
  import opened Statuses

  /** The successors a history names. */
  function Nexts(ms: seq<Mark>): seq<nat>
  {
    if ms == [] then []
    else Nexts(ms[..|ms| - 1]) + (if ms[|ms| - 1].ContinuedAs? then [ms[|ms| - 1].next] else [])
  }

  ghost predicate Present(st: State, ref: Ref) { Find(st.rows, ref).Some? }

  ghost predicate Quiet(st: State) { forall ref :: !Present(st, ref) ==> Marks(st, ref) == [] }

  /** A run names one successor when it was continued and none otherwise. */
  ghost predicate Counted(st: State)
  {
    forall ref :: Present(st, ref) ==>
      |Nexts(Marks(st, ref))| == if Find(st.rows, ref).value.status == RunStatus.ContinuedAsNew then 1 else 0
  }

  ghost predicate Names(st: State, ref: Ref, n: nat) { n in Nexts(Marks(st, ref)) }

  /** Named successors exist, and no two runs name the same one. */
  ghost predicate Succeeded(st: State)
  {
    && (forall ref, n :: Names(st, ref, n) ==> Present(st, Ref(ref.wid, n)))
    && (forall a, b, n :: Names(st, a, n) && Names(st, b, n) && a.wid == b.wid ==> a == b)
  }

  /** A sequence number of a run started at most one child, and it exists. */
  ghost predicate ChildrenOnce(st: State)
  {
    forall ref, s ::
      |ChildrenAt(Marks(st, ref), s)| <= 1 && forall c :: c in ChildrenAt(Marks(st, ref), s) ==> Present(st, c)
  }

  ghost predicate Traced(st: State) { Quiet(st) && Counted(st) && Succeeded(st) && ChildrenOnce(st) }

  // --------------------------------------------------------------- primitives

  lemma {:induction false} FirstIndex(rows: seq<Run>, ref: Ref, i: nat)
    requires i <= |rows| && (i < |rows| ==> rows[i].ref == ref)
    requires forall k :: 0 <= k < i ==> rows[k].ref != ref
    ensures IndexOf(rows, ref) == i
  {
    var j := IndexOf(rows, ref);
    assert !(i < j) && !(j < i);
  }

  lemma FindPut(rows: seq<Run>, run: Run, ref: Ref)
    ensures Find(Put(rows, run), ref) == if ref == run.ref then Some(run) else Find(rows, ref)
  {
    var i, after := IndexOf(rows, run.ref), Put(rows, run);
    assert forall k :: 0 <= k < |rows| ==> after[k].ref == rows[k].ref;
    if ref == run.ref {
      FirstIndex(after, ref, i);
    } else {
      var j := IndexOf(rows, ref);
      FirstIndex(after, ref, if j < |rows| then j else |after|);
    }
  }

  lemma {:induction false} MarksSnoc(ms: seq<Mark>, m: Mark, s: int)
    ensures Nexts(ms + [m]) == Nexts(ms) + (if m.ContinuedAs? then [m.next] else [])
    ensures ChildrenAt(ms + [m], s) == ChildrenAt(ms, s) + (if m.ChildStarted? && m.seq_ == s then [m.child] else [])
  {
    assert (ms + [m])[..|ms|] == ms;
  }

  lemma MarksAppend(st: State, ref: Ref, m: Mark, x: Ref)
    ensures Append(st, ref, m).rows == st.rows
    ensures Marks(Append(st, ref, m), x) == if x == ref && Present(st, ref) then Marks(st, x) + [m] else Marks(st, x)
  {
  }

  /** Appending anything but a continuation. */
  lemma TracedAppend(st: State, ref: Ref, m: Mark)
    requires Traced(st) && !m.ContinuedAs?
    requires m.ChildStarted? ==> ChildrenAt(Marks(st, ref), m.seq_) == [] && Present(st, m.child)
    ensures Traced(Append(st, ref, m))
  {
    var st' := Append(st, ref, m);
    forall x ensures Present(st', x) == Present(st, x) && Nexts(Marks(st', x)) == Nexts(Marks(st, x)) {
      MarksAppend(st, ref, m, x);
      MarksSnoc(Marks(st, x), m, 0);
    }
    assert forall x, n :: Names(st', x, n) <==> Names(st, x, n);
    assert Counted(st') by {
      forall x | Present(st', x)
        ensures |Nexts(Marks(st', x))| == if Find(st'.rows, x).value.status == RunStatus.ContinuedAsNew then 1 else 0
      {
        assert Present(st, x);
      }
    }
    assert Quiet(st') by {
      forall x | !Present(st', x) ensures Marks(st', x) == [] {
        MarksAppend(st, ref, m, x);
      }
    }
    forall x, s
      ensures |ChildrenAt(Marks(st', x), s)| <= 1 && forall c :: c in ChildrenAt(Marks(st', x), s) ==> Present(st', c)
    {
      MarksAppend(st, ref, m, x);
      MarksSnoc(Marks(st, x), m, s);
      assert |ChildrenAt(Marks(st, x), s)| <= 1;
    }
  }

  /** A run written: a new one, or one whose continued status stands. */
  lemma TracedPut(st: State, run: Run, idem: map<(string, string), nat>)
    requires Traced(st)
    requires match Find(st.rows, run.ref)
             case None => run.status != RunStatus.ContinuedAsNew
             case Some(was) => was.status == RunStatus.ContinuedAsNew <==> run.status == RunStatus.ContinuedAsNew
    ensures Traced(State(Put(st.rows, run), idem, st.events))
  {
    var st' := State(Put(st.rows, run), idem, st.events);
    forall x ensures Present(st', x) <==> Present(st, x) || x == run.ref {
      FindPut(st.rows, run, x);
    }
    forall x ensures Marks(st', x) == Marks(st, x) {
    }
    assert forall x, n :: Names(st', x, n) <==> Names(st, x, n);
    forall x | Present(st', x)
      ensures |Nexts(Marks(st', x))| == if Find(st'.rows, x).value.status == RunStatus.ContinuedAsNew then 1 else 0
    {
      FindPut(st.rows, run, x);
      if Present(st, x) {
        assert |Nexts(Marks(st, x))| == if Find(st.rows, x).value.status == RunStatus.ContinuedAsNew then 1 else 0;
      } else {
        assert Marks(st, x) == [];
      }
    }
    forall x, s
      ensures |ChildrenAt(Marks(st', x), s)| <= 1 && forall c :: c in ChildrenAt(Marks(st', x), s) ==> Present(st', c)
    {
      assert |ChildrenAt(Marks(st, x), s)| <= 1;
    }
  }

  /** st' is st with cur closed as continued by run n. */
  ghost predicate Succession(st: State, st': State, cur: Run, n: nat)
  {
    && (forall x :: Find(st'.rows, x) == if x == cur.ref then Some(cur.(status := RunStatus.ContinuedAsNew))
          else Find(st.rows, x))
    && (forall x :: Marks(st', x) == if x == cur.ref then Marks(st, x) + [ContinuedAs(n)] else Marks(st, x))
  }

  lemma CloseIsSuccession(st: State, cur: Run, n: nat)
    requires Find(st.rows, cur.ref) == Some(cur) && IsOpen(cur)
    ensures Succession(st, Close(st, cur.ref, RunStatus.ContinuedAsNew, ContinuedAs(n)), cur, n)
  {
    var done, m := cur.(status := RunStatus.ContinuedAsNew), ContinuedAs(n);
    var mid := st.(rows := Put(st.rows, done));
    FindPut(st.rows, done, cur.ref);
    forall x ensures Find(mid.rows, x) == if x == cur.ref then Some(done) else Find(st.rows, x) {
      FindPut(st.rows, done, x);
    }
    forall x ensures Marks(Append(mid, cur.ref, m), x) == if x == cur.ref then Marks(st, x) + [m] else Marks(st, x) {
      MarksAppend(mid, cur.ref, m, x);
      assert Marks(mid, x) == Marks(st, x);
    }
  }

  lemma SuccessionNames(st: State, st': State, cur: Run, n: nat, x: Ref, k: nat)
    requires Succession(st, st', cur, n)
    ensures Names(st', x, k) <==> Names(st, x, k) || (x == cur.ref && k == n)
  {
    MarksSnoc(Marks(st, x), ContinuedAs(n), 0);
  }

  lemma SuccessionCounted(st: State, st': State, cur: Run, n: nat)
    requires Succession(st, st', cur, n) && Counted(st) && Find(st.rows, cur.ref) == Some(cur) && IsOpen(cur)
    ensures Counted(st')
  {
    forall x | Present(st', x)
      ensures |Nexts(Marks(st', x))| == if Find(st'.rows, x).value.status == RunStatus.ContinuedAsNew then 1 else 0
    {
      MarksSnoc(Marks(st, x), ContinuedAs(n), 0);
      assert Present(st, x);
    }
  }

  lemma SuccessionChildren(st: State, st': State, cur: Run, n: nat)
    requires Succession(st, st', cur, n) && ChildrenOnce(st)
    ensures ChildrenOnce(st')
  {
    forall x, s ensures ChildrenAt(Marks(st', x), s) == ChildrenAt(Marks(st, x), s) {
      MarksSnoc(Marks(st, x), ContinuedAs(n), s);
    }
    forall x ensures Present(st, x) ==> Present(st', x) {
    }
  }

  /** An open run closed as continued, naming a run that exists and that no run
      has named. */
  lemma TracedSucceed(st: State, cur: Run, n: nat)
    requires Traced(st) && Find(st.rows, cur.ref) == Some(cur) && IsOpen(cur)
    requires Present(st, Ref(cur.ref.wid, n))
    requires forall x: Ref :: x.wid == cur.ref.wid ==> !Names(st, x, n)
    ensures Traced(Close(st, cur.ref, RunStatus.ContinuedAsNew, ContinuedAs(n)))
  {
    var st' := Close(st, cur.ref, RunStatus.ContinuedAsNew, ContinuedAs(n));
    CloseIsSuccession(st, cur, n);
    SuccessionCounted(st, st', cur, n);
    SuccessionChildren(st, st', cur, n);
    SuccessionSucceeded(st, st', cur, n);
    assert Quiet(st') by {
      forall x | !Present(st', x) ensures Marks(st', x) == [] { assert !Present(st, x); }
    }
  }

  lemma SuccessionSucceeded(st: State, st': State, cur: Run, n: nat)
    requires Succession(st, st', cur, n) && Succeeded(st) && Present(st, Ref(cur.ref.wid, n))
    requires forall x: Ref :: x.wid == cur.ref.wid ==> !Names(st, x, n)
    ensures Succeeded(st')
  {
    forall x, k ensures Names(st', x, k) <==> Names(st, x, k) || (x == cur.ref && k == n) {
      SuccessionNames(st, st', cur, n, x, k);
    }
    forall x ensures Present(st, x) ==> Present(st', x) {
    }
  }

  // --------------------------------------------------------------- operations

  lemma TracedClose(st: State, ref: Ref, status: RunStatus)
    requires Traced(st) && status != RunStatus.ContinuedAsNew
    ensures Traced(Close(st, ref, status, Ended))
  {
    if Find(st.rows, ref).Some? {
      var r := Find(st.rows, ref).value;
      if IsOpen(r) {
        FindMember(st.rows, ref);
        TracedPut(st, r.(status := status), st.idem);
        TracedAppend(st.(rows := Put(st.rows, r.(status := status))), ref, Ended);
      }
    }
  }

  lemma TracedCreate(st: State, run: Run, requestId: string)
    requires Traced(st) && !Present(st, run.ref) && run.status == Running
    ensures Traced(Create(st, run, requestId)) && Present(Create(st, run, requestId), run.ref)
    ensures forall x, n :: Names(Create(st, run, requestId), x, n) ==> Names(st, x, n)
    ensures forall x :: Present(st, x) ==> Present(Create(st, run, requestId), x)
  {
    var idem := if requestId == "" then st.idem else st.idem[(run.ref.wid, requestId) := run.ref.id];
    var mid := State(Put(st.rows, run), idem, st.events);
    TracedPut(st, run, idem);
    TracedAppend(mid, run.ref, Begun);
    FindPut(st.rows, run, run.ref);
    forall x ensures Nexts(Marks(Append(mid, run.ref, Begun), x)) == Nexts(Marks(st, x)) {
      MarksAppend(mid, run.ref, Begun, x);
      MarksSnoc(Marks(st, x), Begun, 0);
      assert Marks(mid, x) == Marks(st, x);
    }
    forall x | Present(st, x) ensures Present(Append(mid, run.ref, Begun), x) {
      FindPut(st.rows, run, x);
    }
  }

  lemma ClosePresent(st: State, ref: Ref, status: RunStatus, m: Mark, x: Ref)
    ensures Present(Close(st, ref, status, m), x) == Present(st, x)
  {
    if Find(st.rows, ref).Some? {
      FindPut(st.rows, Find(st.rows, ref).value.(status := status), x);
      FindMember(st.rows, ref);
    }
  }

  /** A start hands back a run that exists. */
  lemma TracedStart(st: State, rq: Request)
    requires Traced(st) && NewRunId(st, rq)
    ensures Traced(Start(st, rq).0)
    ensures Start(st, rq).1.Some? ==> Present(Start(st, rq).0, Start(st, rq).1.value.ref)
    ensures forall x :: Present(st, x) ==> Present(Start(st, rq).0, x)
    ensures forall x :: Start(st, rq).1 != Some(NewRun(rq)) ==> Marks(Start(st, rq).0, x) == Marks(st, x)
  {
    var wid := WidOf(rq);
    if rq.typ != "" && Earlier(st, wid, rq.requestId).None? {
      CurrentFound(st, wid);
      match Resolve(st, wid, rq.policy) {
        case Reuse(r) =>
        case Conflict =>
        case Proceed(st') =>
          if st' != st {
            var r := Current(st.rows, wid).value;
            TracedClose(st, r.ref, Terminated);
            forall x ensures Present(st', x) == Present(st, x) { ClosePresent(st, r.ref, Terminated, Ended, x); }
          }
          TracedCreate(st', NewRun(rq), rq.requestId);
      }
    } else if rq.typ != "" {
      FindMember(st.rows, Ref(wid, st.idem[(wid, rq.requestId)]));
    }
  }

  lemma CurrentFound(st: State, wid: string)
    ensures Current(st.rows, wid).Some? ==> Present(st, Current(st.rows, wid).value.ref)
  {
    if Current(st.rows, wid).Some? {
      var r := Current(st.rows, wid).value;
      CurrentIsBest(st.rows, wid, r);
      FindMember(st.rows, r.ref);
    }
  }

  lemma TracedSignal(st: State, ref: Ref)
    requires Traced(st)
    ensures Traced(Signal(st, ref))
  {
    TracedAppend(st, ref, Signaled);
  }

  lemma TracedCancel(st: State, ref: Ref, subscribed: bool)
    requires Traced(st)
    ensures Traced(Cancel(st, ref, subscribed))
  {
    FindMember(st.rows, ref);
    TracedAppend(st, ref, CancelRequested);
    if Find(st.rows, ref).Some? && Find(st.rows, ref).value.status.Running? {
      var st' := Append(st, ref, CancelRequested);
      TracedPut(st', Find(st.rows, ref).value.(status := Canceling), st'.idem);
      TracedClose(st', ref, Canceled);
    }
  }

  /** Closing the run and then starting its successor ends where starting it
      first would. */
  lemma SuccessorFirst(st: State, cur: Run, run: Run)
    requires Find(st.rows, cur.ref) == Some(cur) && IsOpen(cur) && !Present(st, run.ref)
    ensures var m := ContinuedAs(run.ref.id);
            Create(Close(st, cur.ref, RunStatus.ContinuedAsNew, m), run, "")
                == Close(Create(st, run, ""), cur.ref, RunStatus.ContinuedAsNew, m)
  {
    var m, done := ContinuedAs(run.ref.id), cur.(status := RunStatus.ContinuedAsNew);
    FindMember(st.rows, run.ref);
    var i := IndexOf(st.rows, cur.ref);
    FindPut(st.rows, run, cur.ref);
    FindPut(st.rows, done, run.ref);
    FindPut(st.rows, done, cur.ref);
    FindPut(st.rows, run, run.ref);
    FindPut(Put(st.rows, done), run, run.ref);
    FindPut(Put(st.rows, run), done, cur.ref);
    PutsCommute(st.rows, done, run);
    assert st.events[cur.ref := Marks(st, cur.ref) + [m]][run.ref := Marks(st, run.ref) + [Begun]]
        == st.events[run.ref := Marks(st, run.ref) + [Begun]][cur.ref := Marks(st, cur.ref) + [m]];
  }

  lemma PutsCommute(rows: seq<Run>, done: Run, run: Run)
    requires Find(rows, done.ref).Some? && Find(rows, run.ref).None?
    ensures Put(Put(rows, done), run) == Put(Put(rows, run), done)
  {
    var i := IndexOf(rows, done.ref);
    FindPut(rows, done, run.ref);
    FindPut(rows, run, done.ref);
    FirstIndex(rows + [run], done.ref, i);
    FirstIndex(rows[i := done], run.ref, |rows|);
    assert rows[i := done] + [run] == (rows + [run])[i := done];
  }

  lemma ContinueIs(st: State, cur: Run, typ: string, newRun: nat, now: nat)
    requires Find(st.rows, cur.ref) == Some(cur) && IsOpen(cur) && cur.typ != "" && cur.ref.wid != ""
    ensures ContinueAsNew(st, cur.ref, typ, newRun, true, now)
         == Create(Close(st, cur.ref, RunStatus.ContinuedAsNew, ContinuedAs(newRun)),
             NewRun(Successor(cur, typ, newRun, now)), "")
  {
  }

  lemma TracedSuccessor(st: State, cur: Run, run: Run)
    requires Traced(st) && Find(st.rows, cur.ref) == Some(cur) && IsOpen(cur)
    requires !Present(st, run.ref) && run.status == Running && run.ref.wid == cur.ref.wid
    ensures Traced(Create(Close(st, cur.ref, RunStatus.ContinuedAsNew, ContinuedAs(run.ref.id)), run, ""))
  {
    SuccessorFirst(st, cur, run);
    TracedCreate(st, run, "");
    var st' := Create(st, run, "");
    FindPut(st.rows, run, cur.ref);
    forall x: Ref | x.wid == cur.ref.wid ensures !Names(st', x, run.ref.id) {
      assert Names(st', x, run.ref.id) ==> Names(st, x, run.ref.id);
      assert Names(st, x, run.ref.id) ==> Present(st, Ref(x.wid, run.ref.id));
    }
    TracedSucceed(st', cur, run.ref.id);
  }

  lemma TracedContinue(st: State, ref: Ref, typ: string, newRun: nat, decodes: bool, now: nat)
    requires Traced(st) && Keyed(st.rows) && !Present(st, Ref(ref.wid, newRun))
    ensures Traced(ContinueAsNew(st, ref, typ, newRun, decodes, now))
  {
    FindMember(st.rows, ref);
    if Find(st.rows, ref).Some? && IsOpen(Find(st.rows, ref).value) && decodes {
      var cur := Find(st.rows, ref).value;
      ContinueIs(st, cur, typ, newRun, now);
      TracedSuccessor(st, cur, NewRun(Successor(cur, typ, newRun, now)));
    }
  }

  lemma TracedChild(st: State, parent: Ref, s: int, rq: Request, decodes: bool)
    requires Traced(st) && NewRunId(st, rq.(requestId := ""))
    ensures Traced(StartChild(st, parent, s, rq, decodes))
  {
    if rq.typ != "" && ChildrenAt(Marks(st, parent), s) == [] && decodes {
      var full := rq.(requestId := "", policy := PREFIX + "USE_EXISTING");
      TracedStart(st, full);
      var (st', child) := Start(st, full);
      if child.Some? {
        ChildrenUnmoved(st, full, parent, s);
        TracedAppend(st', parent, ChildStarted(s, child.value.ref));
      }
    }
  }

  /** Starting with USE_EXISTING adds no child to any history. */
  lemma {:induction false} ChildrenUnmoved(st: State, rq: Request, parent: Ref, s: int)
    requires rq.policy == PREFIX + "USE_EXISTING"
    ensures ChildrenAt(Marks(Start(st, rq).0, parent), s) == ChildrenAt(Marks(st, parent), s)
  {
    UseExistingRecognised();
    var st' := Start(st, rq).0;
    if st' != st {
      var mid := State(Put(st.rows, NewRun(rq)), st'.idem, st.events);
      UseExistingIs();
      assert st' == Append(mid, NewRun(rq).ref, Begun);
      MarksAppend(mid, NewRun(rq).ref, Begun, parent);
      MarksSnoc(Marks(st, parent), Begun, s);
      assert Marks(mid, parent) == Marks(st, parent);
    }
  }

  lemma UseExistingIs()
    ensures NormalizePolicy(PREFIX + "USE_EXISTING") == "USE_EXISTING"
  {
    var p := PREFIX + "USE_EXISTING";
    assert p[|PREFIX|..] == "USE_EXISTING";
    UpperIsSame(p);
  }

  lemma UpperIsSame(p: string)
    requires forall i :: 0 <= i < |p| ==> 'A' <= p[i] <= 'Z' || p[i] == '_'
    ensures Upper(p) == p
  {
  }

  // ------------------------------------------------------------------- runs

  /** A run id that is generated or chosen for a new run is not in use. */
  ghost predicate NewRunId(st: State, rq: Request)
  {
    Earlier(st, WidOf(rq), rq.requestId).Some? || !Present(st, NewRun(rq).ref)
  }

  ghost predicate Fresh(st: State, step: Step)
  {
    match step
    case DoStart(rq) => NewRunId(st, rq)
    case DoSignalWithStart(rq) => NewRunId(st, rq)
    case DoStartChild(_, _, rq, _) => NewRunId(st, rq.(requestId := ""))
    case DoContinue(ref, _, newRun, _, _) => !Present(st, Ref(ref.wid, newRun))
    case _ => true
  }

  ghost predicate AllFresh(st: State, steps: seq<Step>)
  {
    steps == [] || (AllFresh(st, steps[..|steps| - 1]) && Fresh(After(st, steps[..|steps| - 1]), steps[|steps| - 1]))
  }

  lemma TracedStep(st: State, step: Step)
    requires Traced(st) && Keyed(st.rows) && Allowed(st, step) && Fresh(st, step)
    ensures Traced(Apply(st, step))
  {
    match step {
      case DoStart(rq) => TracedStart(st, rq);
      case DoSignalWithStart(rq) =>
        var live := Current(st.rows, rq.wid);
        if live.Some? && IsOpen(live.value) {
          TracedSignal(st, live.value.ref);
        } else {
          TracedStart(st, rq.(policy := ""));
          var (st', r) := Start(st, rq.(policy := ""));
          if r.Some? { TracedSignal(st', r.value.ref); }
        }
      case DoSignal(ref) => TracedSignal(st, ref);
      case DoCancel(ref, subscribed) => TracedCancel(st, ref, subscribed);
      case DoClose(ref, status) => TracedClose(st, ref, status);
      case DoContinue(ref, typ, newRun, decodes, now) => TracedContinue(st, ref, typ, newRun, decodes, now);
      case DoStartChild(parent, s, rq, decodes) => TracedChild(st, parent, s, rq, decodes);
    }
  }

  lemma {:induction false} RunsTraced(steps: seq<Step>)
    requires AllAllowed(INITIAL, steps) && AllFresh(INITIAL, steps)
    ensures Traced(After(INITIAL, steps))
  {
    if steps != [] {
      var before := steps[..|steps| - 1];
      RunsTraced(before);
      RunsKeep(before);
      TracedStep(After(INITIAL, before), steps[|steps| - 1]);
    }
  }

  /** In every reachable state a continued run has exactly one successor, which
      exists and succeeds no other run; no other run has one; and each sequence
      number of a run has at most one child, which exists. */
  lemma {:induction false} OneSuccessorOneChild(steps: seq<Step>, ref: Ref, s: int)
    requires AllAllowed(INITIAL, steps) && AllFresh(INITIAL, steps)
    ensures var st := After(INITIAL, steps);
            && (Present(st, ref) ==>
                  |Nexts(Marks(st, ref))|
                  == if Find(st.rows, ref).value.status == RunStatus.ContinuedAsNew then 1 else 0)
            && (forall n :: n in Nexts(Marks(st, ref)) ==>
                  && Present(st, Ref(ref.wid, n))
                  && (forall other :: n in Nexts(Marks(st, other)) && other.wid == ref.wid ==> other == ref))
            && |ChildrenAt(Marks(st, ref), s)| <= 1
            && (forall c :: c in ChildrenAt(Marks(st, ref), s) ==> Present(st, c))
  {
    RunsTraced(steps);
    var st := After(INITIAL, steps);
    forall n | n in Nexts(Marks(st, ref))
      ensures Present(st, Ref(ref.wid, n)) && forall other :: n in Nexts(Marks(st, other)) && other.wid == ref.wid ==>
              other == ref
    {
      assert Names(st, ref, n);
      assert forall other :: n in Nexts(Marks(st, other)) ==> Names(st, other, n);
    }
  }
}
