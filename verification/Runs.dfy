/** Starting, continuing and resolving the runs under a workflow id
    (pkg/tasks/engine.go, pkg/tasks/engine_commands.go), one namespace, each
    engine operation one atomic step. */
module Runs {
  import opened Basics
  import opened Statuses

  datatype Ref = Ref(wid: string, id: nat)

  datatype Run = Run(ref: Ref, typ: string, status: RunStatus, start: nat)

  /** The events of a run's history that matter here. */
  datatype Mark = Begun | Signaled | Ended | CancelRequested | ContinuedAs(next: nat)
      | ChildStarted(seq_: int, child: Ref)

  datatype State = State(rows: seq<Run>, idem: map<(string, string), nat>, events: map<Ref, seq<Mark>>)

  const INITIAL := State([], map[], map[])

  predicate IsOpen(r: Run) { !IsTerminal(r.status) }

  // -------------------------------------------------------------------- rows

  function IndexOf(rows: seq<Run>, ref: Ref): (i: nat)
    ensures i <= |rows|
    ensures i < |rows| ==> rows[i].ref == ref
    ensures forall k :: 0 <= k < i ==> rows[k].ref != ref
  {
    if rows == [] || rows[0].ref == ref then 0 else 1 + IndexOf(rows[1..], ref)
  }

  function Find(rows: seq<Run>, ref: Ref): Option<Run>
  {
    var i := IndexOf(rows, ref);
    if i < |rows| then Some(rows[i]) else None
  }

  function Put(rows: seq<Run>, run: Run): seq<Run>
  {
    var i := IndexOf(rows, run.ref);
    if i < |rows| then rows[i := run] else rows + [run]
  }

  /** The rows listed under one workflow id. */
  function Under(rows: seq<Run>, wid: string): seq<Run>
  {
    if rows == [] then []
    else Under(rows[..|rows| - 1], wid) + (if rows[|rows| - 1].ref.wid == wid then [rows[|rows| - 1]] else [])
  }

  /** Open before closed, continued runs last, then the later start, then the
      larger run id. */
  predicate MoreCurrent(a: Run, b: Run)
  {
    if IsTerminal(a.status) != IsTerminal(b.status) then !IsTerminal(a.status)
    else if a.status.ContinuedAsNew? != b.status.ContinuedAsNew? then !a.status.ContinuedAsNew?
    else if a.start != b.start then a.start > b.start
    else a.ref.id > b.ref.id
  }

  function Best(rows: seq<Run>): Run
    requires rows != []
  {
    if |rows| == 1 then rows[0]
    else
      var best := Best(rows[..|rows| - 1]);
      if MoreCurrent(rows[|rows| - 1], best) then rows[|rows| - 1] else best
  }

  /** What describe without a run id resolves to. */
  function Current(rows: seq<Run>, wid: string): Option<Run>
  {
    if Under(rows, wid) == [] then None else Some(Best(Under(rows, wid)))
  }

  lemma {:induction false} UnderMember(rows: seq<Run>, wid: string, r: Run)
    ensures r in Under(rows, wid) <==> r in rows && r.ref.wid == wid
  {
    if rows != [] {
      var n := |rows| - 1;
      UnderMember(rows[..n], wid, r);
      assert rows == rows[..n] + [rows[n]];
    }
  }

  lemma {:induction false} BestIsBest(rows: seq<Run>, r: Run)
    requires rows != []
    ensures Best(rows) in rows
    ensures r in rows ==> !MoreCurrent(r, Best(rows))
  {
    if |rows| > 1 {
      var n := |rows| - 1;
      BestIsBest(rows[..n], r);
      assert rows == rows[..n] + [rows[n]];
    }
  }

  /** Describe finds a run exactly when there is one under the id, and no run
      under it is more current than the one found. */
  lemma CurrentIsBest(rows: seq<Run>, wid: string, r: Run)
    ensures Current(rows, wid).Some? ==> Current(rows, wid).value in rows && Current(rows, wid).value.ref.wid == wid
    ensures r in rows && r.ref.wid == wid ==> Current(rows, wid).Some? && !MoreCurrent(r, Current(rows, wid).value)
  {
    UnderMember(rows, wid, r);
    if Under(rows, wid) != [] {
      BestIsBest(Under(rows, wid), r);
      UnderMember(rows, wid, Best(Under(rows, wid)));
    }
  }

  // ----------------------------------------------------------------- conflict

  const PREFIX := "WORKFLOW_ID_CONFLICT_POLICY_"

  function NormalizePolicy(p: string): string
  {
    var u := Upper(p);
    if PREFIX <= u then u[|PREFIX|..] else u
  }

  predicate Recognised(p: string) { NormalizePolicy(p) in ["USE_EXISTING", "TERMINATE_EXISTING", "FAIL"] }

  datatype Resolution = Reuse(run: Run) | Conflict | Proceed(st: State)

  function Resolve(st: State, wid: string, policy: string): Resolution
  {
    if policy == "" then Proceed(st)
    else
      match Current(st.rows, wid)
      case None => Proceed(st)
      case Some(r) =>
        if IsTerminal(r.status) then Proceed(st)
        else if NormalizePolicy(policy) == "USE_EXISTING" then Reuse(r)
        else if NormalizePolicy(policy) == "TERMINATE_EXISTING" then Proceed(Close(st, r.ref, Terminated, Ended))
        else if NormalizePolicy(policy) == "FAIL" then Conflict
        else Proceed(st)
  }

  // --------------------------------------------------------------- operations

  function Marks(st: State, ref: Ref): seq<Mark>
  {
    if ref in st.events then st.events[ref] else []
  }

  /** An event appended to a run's history; nothing when there is no such run. */
  function Append(st: State, ref: Ref, m: Mark): State
  {
    if Find(st.rows, ref).None? then st else st.(events := st.events[ref := Marks(st, ref) + [m]])
  }

  /** The terminal transition: nothing for a run that is missing or closed. */
  function Close(st: State, ref: Ref, status: RunStatus, m: Mark): State
  {
    match Find(st.rows, ref)
    case None => st
    case Some(r) =>
      if IsTerminal(r.status) then st
      else Append(st.(rows := Put(st.rows, r.(status := status))), ref, m)
  }

  /** A start request; newWid is the id generated when none is given. */
  datatype Request = Request(wid: string, newWid: string, id: nat, typ: string, requestId: string, policy: string,
      now: nat)

  function WidOf(rq: Request): string { if rq.wid == "" then rq.newWid else rq.wid }

  /** The run an earlier request with the same request id made. */
  function Earlier(st: State, wid: string, requestId: string): Option<Run>
  {
    if requestId != "" && (wid, requestId) in st.idem then Find(st.rows, Ref(wid, st.idem[(wid, requestId)])) else None
  }

  function Create(st: State, run: Run, requestId: string): State
  {
    var idem := if requestId == "" then st.idem else st.idem[(run.ref.wid, requestId) := run.ref.id];
    Append(State(Put(st.rows, run), idem, st.events), run.ref, Begun)
  }

  function NewRun(rq: Request): Run { Run(Ref(WidOf(rq), rq.id), rq.typ, Running, rq.now) }

  function Start(st: State, rq: Request): (State, Option<Run>)
  {
    if rq.typ == "" then (st, None)
    else
      match Earlier(st, WidOf(rq), rq.requestId)
      case Some(r) => (st, Some(r))
      case None =>
        match Resolve(st, WidOf(rq), rq.policy)
        case Reuse(r) => (st, Some(r))
        case Conflict => (st, None)
        case Proceed(st') => (Create(st', NewRun(rq), rq.requestId), Some(NewRun(rq)))
  }

  /** A signal reaches only an open run. */
  function Signal(st: State, ref: Ref): State
  {
    match Find(st.rows, ref)
    case None => st
    case Some(r) => if IsTerminal(r.status) then st else Append(st, ref, Signaled)
  }

  function SignalWithStart(st: State, rq: Request): State
  {
    var live := Current(st.rows, rq.wid);
    if live.Some? && IsOpen(live.value) then Signal(st, live.value.ref)
    else
      var (st', r) := Start(st, rq.(policy := ""));
      if r.None? then st' else Signal(st', r.value.ref)
  }

  /** A cancel request; with no worker to acknowledge it the run closes at once. */
  function Cancel(st: State, ref: Ref, subscribed: bool): State
  {
    match Find(st.rows, ref)
    case None => st
    case Some(r) =>
      if !r.status.Running? then st
      else
        var st' := Append(st, ref, CancelRequested);
        if subscribed then st'.(rows := Put(st'.rows, r.(status := Canceling))) else Close(st', ref, Canceled, Ended)
  }

  function Successor(cur: Run, typ: string, newRun: nat, now: nat): Request
  {
    Request(cur.ref.wid, "", newRun, if typ == "" then cur.typ else typ, "", "", now)
  }

  function ContinueAsNew(st: State, ref: Ref, typ: string, newRun: nat, decodes: bool, now: nat): State
  {
    match Find(st.rows, ref)
    case None => st
    case Some(cur) =>
      if IsTerminal(cur.status) || !decodes then st
      else Start(Close(st, ref, RunStatus.ContinuedAsNew, ContinuedAs(newRun)), Successor(cur, typ, newRun, now)).0
  }

  function ChildrenAt(ms: seq<Mark>, s: int): seq<Ref>
  {
    if ms == [] then []
    else ChildrenAt(ms[..|ms| - 1], s)
         + (if ms[|ms| - 1].ChildStarted? && ms[|ms| - 1].seq_ == s then [ms[|ms| - 1].child] else [])
  }

  /** A start-child command: once per parent run and sequence number. */
  function StartChild(st: State, parent: Ref, s: int, rq: Request, decodes: bool): State
  {
    if rq.typ == "" || ChildrenAt(Marks(st, parent), s) != [] || !decodes then st
    else
      var (st', child) := Start(st, rq.(requestId := "", policy := PREFIX + "USE_EXISTING"));
      if child.None? then st' else Append(st', parent, ChildStarted(s, child.value.ref))
  }

  datatype Step =
    | DoStart(rq: Request)
    | DoSignalWithStart(rq: Request)
    | DoSignal(ref: Ref)
    | DoCancel(ref: Ref, subscribed: bool)
    | DoClose(ref: Ref, status: RunStatus)
    | DoContinue(ref: Ref, typ: string, newRun: nat, decodes: bool, now: nat)
    | DoStartChild(parent: Ref, s: int, rq: Request, decodes: bool)

  function Apply(st: State, step: Step): State
  {
    match step
    case DoStart(rq) => Start(st, rq).0
    case DoSignalWithStart(rq) => SignalWithStart(st, rq)
    case DoSignal(ref) => Signal(st, ref)
    case DoCancel(ref, subscribed) => Cancel(st, ref, subscribed)
    case DoClose(ref, status) => Close(st, ref, status, Ended)
    case DoContinue(ref, typ, newRun, decodes, now) => ContinueAsNew(st, ref, typ, newRun, decodes, now)
    case DoStartChild(parent, s, rq, decodes) => StartChild(st, parent, s, rq, decodes)
  }

  /** Generated workflow ids are new. */
  ghost predicate NewWid(st: State, rq: Request)
  {
    rq.newWid != "" && (rq.wid == "" ==> forall i :: 0 <= i < |st.rows| ==> st.rows[i].ref.wid != rq.newWid)
  }

  /** The steps in question: every client start names a recognised policy, and
      only continue-as-new closes a run as continued. */
  ghost predicate Allowed(st: State, step: Step)
  {
    match step
    case DoStart(rq) => NewWid(st, rq) && Recognised(rq.policy)
    case DoSignalWithStart(rq) => NewWid(st, rq)
    case DoStartChild(_, _, rq, _) => NewWid(st, rq)
    case DoClose(_, status) => IsTerminal(status) && status != RunStatus.ContinuedAsNew
    case _ => true
  }

  ghost function After(st: State, steps: seq<Step>): State
  {
    if steps == [] then st else Apply(After(st, steps[..|steps| - 1]), steps[|steps| - 1])
  }

  ghost predicate AllAllowed(st: State, steps: seq<Step>)
  {
    steps == [] || (AllAllowed(st, steps[..|steps| - 1])
        && Allowed(After(st, steps[..|steps| - 1]), steps[|steps| - 1]))
  }

  // ---------------------------------------------------------- one open run

  ghost predicate Keyed(rows: seq<Run>)
  {
    && (forall i, j :: 0 <= i < j < |rows| ==> rows[i].ref != rows[j].ref)
    && (forall i :: 0 <= i < |rows| ==> rows[i].typ != "" && rows[i].ref.wid != "")
  }

  /** At most one open run under each workflow id. */
  ghost predicate SingleLive(rows: seq<Run>)
  {
    forall i, j :: 0 <= i < j < |rows| && rows[i].ref.wid == rows[j].ref.wid && IsOpen(rows[i]) ==> !IsOpen(rows[j])
  }

  ghost predicate NoneOpenBut(rows: seq<Run>, ref: Ref)
  {
    forall i :: 0 <= i < |rows| && rows[i].ref.wid == ref.wid && IsOpen(rows[i]) ==> rows[i].ref == ref
  }

  ghost predicate NoneOpen(rows: seq<Run>, wid: string)
  {
    forall i :: 0 <= i < |rows| && rows[i].ref.wid == wid ==> !IsOpen(rows[i])
  }

  ghost predicate Inv(rows: seq<Run>) { Keyed(rows) && SingleLive(rows) }

  lemma PutKeeps(rows: seq<Run>, run: Run)
    requires Keyed(rows) && run.typ != "" && run.ref.wid != ""
    ensures Keyed(Put(rows, run))
    ensures SingleLive(rows) && (!IsOpen(run) || NoneOpenBut(rows, run.ref)) ==> SingleLive(Put(rows, run))
  {
  }

  lemma FindMember(rows: seq<Run>, ref: Ref)
    ensures Find(rows, ref).Some? ==> Find(rows, ref).value in rows && Find(rows, ref).value.ref == ref
    ensures Find(rows, ref).None? ==> forall i :: 0 <= i < |rows| ==> rows[i].ref != ref
  {
  }

  /** The found run is the only open one, or none is. */
  lemma CurrentTells(rows: seq<Run>, wid: string)
    ensures Current(rows, wid).None? ==> NoneOpen(rows, wid)
    ensures Current(rows, wid).Some? && !IsOpen(Current(rows, wid).value) ==> NoneOpen(rows, wid)
  {
    forall i | 0 <= i < |rows| && rows[i].ref.wid == wid
        ensures Current(rows, wid).Some? && (IsOpen(rows[i]) ==> IsOpen(Current(rows, wid).value)) {
      CurrentIsBest(rows, wid, rows[i]);
    }
  }

  lemma OpenIsOnly(rows: seq<Run>, r: Run)
    requires Inv(rows) && r in rows && IsOpen(r)
    ensures NoneOpenBut(rows, r.ref)
  {
    var k :| 0 <= k < |rows| && rows[k] == r;
    assert forall i :: 0 <= i < |rows| && rows[i].ref.wid == rows[k].ref.wid && IsOpen(rows[i]) ==> i == k;
  }

  lemma ClosedRow(rows: seq<Run>, run: Run)
    requires Keyed(rows) && NoneOpenBut(rows, run.ref) && !IsOpen(run)
    ensures NoneOpen(Put(rows, run), run.ref.wid)
  {
  }

  lemma CloseKeeps(st: State, ref: Ref, status: RunStatus, m: Mark)
    requires Inv(st.rows) && IsTerminal(status)
    ensures Inv(Close(st, ref, status, m).rows)
    ensures NoneOpenBut(st.rows, ref) && Find(st.rows, ref).Some? ==> NoneOpen(Close(st, ref, status, m).rows, ref.wid)
  {
    FindMember(st.rows, ref);
    if Find(st.rows, ref).Some? {
      var done := Find(st.rows, ref).value.(status := status);
      PutKeeps(st.rows, done);
      if NoneOpenBut(st.rows, ref) { ClosedRow(st.rows, done); }
    }
  }

  lemma ResolveKeeps(st: State, wid: string, policy: string)
    requires Inv(st.rows)
    ensures Resolve(st, wid, policy).Proceed? ==> Inv(Resolve(st, wid, policy).st.rows)
    ensures Resolve(st, wid, policy).Proceed? && (Recognised(policy) || NoneOpen(st.rows, wid)) ==>
              NoneOpen(Resolve(st, wid, policy).st.rows, wid)
  {
    CurrentTells(st.rows, wid);
    if Current(st.rows, wid).Some? {
      var r := Current(st.rows, wid).value;
      CurrentIsBest(st.rows, wid, r);
      if IsOpen(r) { OpenIsOnly(st.rows, r); }
      CloseKeeps(st, r.ref, Terminated, Ended);
    }
    EmptyNotRecognised();
  }

  lemma EmptyNotRecognised()
    ensures !Recognised("")
  {
    assert Upper("") == "";
  }

  lemma StartKeeps(st: State, rq: Request)
    requires Inv(st.rows) && WidOf(rq) != ""
    requires Recognised(rq.policy) || NoneOpen(st.rows, WidOf(rq))
    ensures Inv(Start(st, rq).0.rows)
  {
    ResolveKeeps(st, WidOf(rq), rq.policy);
    var res := Resolve(st, WidOf(rq), rq.policy);
    if rq.typ != "" && res.Proceed? { PutKeeps(res.st.rows, NewRun(rq)); }
  }

  lemma SignalWithStartKeeps(st: State, rq: Request)
    requires Inv(st.rows) && NewWid(st, rq)
    ensures Inv(SignalWithStart(st, rq).rows)
  {
    CurrentTells(st.rows, rq.wid);
    var live := Current(st.rows, rq.wid);
    if live.None? || !IsOpen(live.value) { StartKeeps(st, rq.(policy := "")); }
  }

  lemma ContinueKeeps(st: State, ref: Ref, typ: string, newRun: nat, decodes: bool, now: nat)
    requires Inv(st.rows)
    ensures Inv(ContinueAsNew(st, ref, typ, newRun, decodes, now).rows)
  {
    FindMember(st.rows, ref);
    if Find(st.rows, ref).Some? {
      var cur := Find(st.rows, ref).value;
      if IsOpen(cur) && decodes {
        OpenIsOnly(st.rows, cur);
        CloseKeeps(st, ref, RunStatus.ContinuedAsNew, ContinuedAs(newRun));
        StartKeeps(Close(st, ref, RunStatus.ContinuedAsNew, ContinuedAs(newRun)), Successor(cur, typ, newRun, now));
      }
    }
  }

  lemma UseExistingRecognised()
    ensures Recognised(PREFIX + "USE_EXISTING")
  {
    var p := PREFIX + "USE_EXISTING";
    assert forall i :: 0 <= i < |p| ==> UpperChar(p[i]) == p[i];
    assert Upper(p) == p;
    assert p[|PREFIX|..] == "USE_EXISTING";
  }

  lemma StepKeeps(st: State, step: Step)
    requires Inv(st.rows) && Allowed(st, step)
    ensures Inv(Apply(st, step).rows)
  {
    match step {
      case DoStart(rq) => StartKeeps(st, rq);
      case DoSignalWithStart(rq) => SignalWithStartKeeps(st, rq);
      case DoSignal(ref) =>
      case DoCancel(ref, subscribed) => CancelKeeps(st, ref, subscribed);
      case DoClose(ref, status) => CloseKeeps(st, ref, status, Ended);
      case DoContinue(ref, typ, newRun, decodes, now) => ContinueKeeps(st, ref, typ, newRun, decodes, now);
      case DoStartChild(parent, s, rq, decodes) =>
        UseExistingRecognised();
        StartKeeps(st, rq.(requestId := "", policy := PREFIX + "USE_EXISTING"));
    }
  }

  lemma CancelKeeps(st: State, ref: Ref, subscribed: bool)
    requires Inv(st.rows)
    ensures Inv(Cancel(st, ref, subscribed).rows)
  {
    FindMember(st.rows, ref);
    if Find(st.rows, ref).Some? && Find(st.rows, ref).value.status.Running? {
      var r := Find(st.rows, ref).value;
      OpenIsOnly(st.rows, r);
      PutKeeps(st.rows, r.(status := Canceling));
      CloseKeeps(Append(st, ref, CancelRequested), ref, Canceled, Ended);
    }
  }

  lemma {:induction false} RunsKeep(steps: seq<Step>)
    requires AllAllowed(INITIAL, steps)
    ensures Inv(After(INITIAL, steps).rows)
  {
    if steps != [] {
      RunsKeep(steps[..|steps| - 1]);
      StepKeeps(After(INITIAL, steps[..|steps| - 1]), steps[|steps| - 1]);
    }
  }

  /** In every reachable state at most one run under a workflow id is open, and
      describe without a run id returns it. */
  lemma {:induction false} SingleLiveRun(steps: seq<Step>)
    requires AllAllowed(INITIAL, steps)
    ensures SingleLive(After(INITIAL, steps).rows)
    ensures forall r :: r in After(INITIAL, steps).rows && IsOpen(r) ==>
            Current(After(INITIAL, steps).rows, r.ref.wid) == Some(r)
  {
    RunsKeep(steps);
    var rows := After(INITIAL, steps).rows;
    forall r | r in rows && IsOpen(r) ensures Current(rows, r.ref.wid) == Some(r) {
      CurrentIsBest(rows, r.ref.wid, r);
      OpenIsOnly(rows, r);
      var best := Current(rows, r.ref.wid).value;
      var i :| 0 <= i < |rows| && rows[i] == best;
      var j :| 0 <= j < |rows| && rows[j] == r;
      assert rows[i].ref == rows[j].ref;
    }
  }

  /** Exactly which starts leave two open runs: those that reach the creation of
      a run under an id with another open one, for lack of a recognised policy. */
  lemma StartLeavesTwoIff(st: State, rq: Request)
    requires Inv(st.rows) && WidOf(rq) != ""
    ensures !SingleLive(Start(st, rq).0.rows) <==>
            && rq.typ != "" && Earlier(st, WidOf(rq), rq.requestId).None?
            && !Recognised(rq.policy) && !NoneOpenBut(st.rows, NewRun(rq).ref)
  {
    var wid, run := WidOf(rq), NewRun(rq);
    if Recognised(rq.policy) {
      StartKeeps(st, rq);
    } else if rq.typ != "" && Earlier(st, wid, rq.requestId).None? {
      assert Resolve(st, wid, rq.policy) == Proceed(st);
      PutKeeps(st.rows, run);
      if !NoneOpenBut(st.rows, run.ref) {
        var i :| 0 <= i < |st.rows| && st.rows[i].ref.wid == wid && IsOpen(st.rows[i]) && st.rows[i].ref != run.ref;
        TwoOpen(st.rows, run, i);
      }
    }
  }

  lemma TwoOpen(rows: seq<Run>, run: Run, i: nat)
    requires i < |rows| && rows[i].ref.wid == run.ref.wid && IsOpen(rows[i]) && rows[i].ref != run.ref && IsOpen(run)
    ensures !SingleLive(Put(rows, run))
  {
    var k := IndexOf(rows, run.ref);
    var after := Put(rows, run);
    assert after[i] == rows[i] && after[k] == run;
    if i < k { assert IsOpen(after[i]) && IsOpen(after[k]); } else { assert IsOpen(after[k]) && IsOpen(after[i]); }
  }

  /** Under a new id the policy does not matter: there is one open run. */
  lemma FirstStart(rq: Request)
    requires rq.typ != "" && rq.wid != ""
    ensures Start(INITIAL, rq).0.rows == [NewRun(rq)] && Inv(Start(INITIAL, rq).0.rows)
  {
    assert Under([], rq.wid) == [];
    assert Resolve(INITIAL, rq.wid, rq.policy) == Proceed(INITIAL);
    assert Put([], NewRun(rq)) == [NewRun(rq)];
  }

  /** Two starts under one id with a policy that is not recognised, the empty one
      for instance, leave two open runs. */
  lemma UnrecognisedLeavesTwo(rq: Request, id: nat)
    requires rq.typ != "" && rq.wid != "" && rq.requestId == "" && id != rq.id && !Recognised(rq.policy)
    ensures !SingleLive(Start(Start(INITIAL, rq).0, rq.(id := id)).0.rows)
  {
    FirstStart(rq);
    var st := Start(INITIAL, rq).0;
    assert st.rows[0].ref != NewRun(rq.(id := id)).ref;
    StartLeavesTwoIff(st, rq.(id := id));
  }

}
