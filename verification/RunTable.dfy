/** The run operations of pkg/tasks/engine.go and pkg/tasks/engine_commands.go
    as methods that change the store, each against its function in module Runs.
    Generated ids and the clock are parameters. */
module RunTable {
  import opened Basics
  import opened Runs
  import opened Lineage
  import L = RunLaws
  import opened Statuses

  class Engine {
    var rows: seq<Run>
    var idem: map<(string, string), nat>
    var events: map<Ref, seq<Mark>>

    ghost function Now(): State
      reads this
    {
      State(rows, idem, events)
    }

    constructor ()
      ensures Now() == INITIAL
    {
      rows, idem, events := [], map[], map[];
    }

    method List(wid: string) returns (l: seq<Run>)
      ensures l == Under(rows, wid)
    {
      l := [];
      for i := 0 to |rows|
        invariant l == Under(rows[..i], wid)
      {
        assert rows[..i + 1][..i] == rows[..i];
        if rows[i].ref.wid == wid { l := l + [rows[i]]; }
      }
      assert rows[..|rows|] == rows;
    }

    /** With a run id, that run; without, the most current one. */
    method DescribeWorkflow(wid: string, id: Option<nat>) returns (r: Option<Run>)
      ensures r == if id.Some? then Find(rows, Ref(wid, id.value)) else Current(rows, wid)
      ensures id.None? ==> L.MostCurrent(rows, wid, r)
      ensures id.Some? ==> (r.Some? ==> r.value in rows && r.value.ref == Ref(wid, id.value))
      ensures id.Some? && r.None? ==> forall i :: 0 <= i < |rows| ==> rows[i].ref != Ref(wid, id.value)
    {
      L.DescribeLaw(rows, wid);
      if id.Some? { FindMember(rows, Ref(wid, id.value)); }
      if id.Some? { return Find(rows, Ref(wid, id.value)); }
      var l := List(wid);
      if |l| == 0 { return None; }
      var best := 0;
      for i := 1 to |l|
        invariant 0 <= best < i && l[best] == Best(l[..i])
      {
        assert l[..i + 1][..i] == l[..i];
        if MoreCurrent(l[i], l[best]) { best := i; }
      }
      assert l[..|l|] == l;
      r := Some(l[best]);
    }

    method AppendHistory(ref: Ref, m: Mark) returns (ok: bool)
      modifies this
      ensures Now() == Append(old(Now()), ref, m) && ok == Find(old(rows), ref).Some?
    {
      var r := DescribeWorkflow(ref.wid, Some(ref.id));
      if r == None { return false; }
      events := events[ref := (if ref in events then events[ref] else []) + [m]];
      ok := true;
    }

    method TerminalTransition(ref: Ref, status: RunStatus, m: Mark)
      modifies this
      ensures Now() == Close(old(Now()), ref, status, m)
    {
      var r := DescribeWorkflow(ref.wid, Some(ref.id));
      if r == None || IsTerminal(r.value.status) { return; }
      rows := Put(rows, r.value.(status := status));
      var _ := AppendHistory(ref, m);
    }

    /** The run to reuse; or whether to go on and make one. */
    method ResolveWorkflowIdConflict(wid: string, policy: string) returns (existing: Option<Run>, proceed: bool)
      modifies this
      ensures match Resolve(old(Now()), wid, policy)
              case Reuse(r) => existing == Some(r) && !proceed && Now() == old(Now())
              case Conflict => existing == None && !proceed && Now() == old(Now())
              case Proceed(st) => existing == None && proceed && Now() == st
    {
      if policy == "" { return None, true; }
      var cur := DescribeWorkflow(wid, None);
      if cur == None || IsTerminal(cur.value.status) { return None, true; }
      var p := NormalizePolicy(policy);
      if p == "USE_EXISTING" {
        return cur, false;
      } else if p == "TERMINATE_EXISTING" {
        TerminalTransition(cur.value.ref, Terminated, Ended);
        return None, true;
      } else if p == "FAIL" {
        return None, false;
      }
      return None, true;
    }

    method StartWorkflowFull(rq: Request) returns (r: Option<Run>)
      modifies this
      ensures (Now(), r) == Start(old(Now()), rq)
    {
      if rq.typ == "" { return None; }
      var wid := if rq.wid == "" then rq.newWid else rq.wid;
      if rq.requestId != "" && (wid, rq.requestId) in idem {
        var earlier := DescribeWorkflow(wid, Some(idem[(wid, rq.requestId)]));
        if earlier.Some? { return earlier; }
      }
      var existing, proceed := ResolveWorkflowIdConflict(wid, rq.policy);
      if !proceed { return existing; }
      var run := Run(Ref(wid, rq.id), rq.typ, Running, rq.now);
      rows := Put(rows, run);
      if rq.requestId != "" { idem := idem[(wid, rq.requestId) := rq.id]; }
      var _ := AppendHistory(run.ref, Begun);
      r := Some(run);
    }

    method SignalWorkflow(ref: Ref) returns (ok: bool)
      modifies this
      ensures Now() == Signal(old(Now()), ref)
      ensures ok <==> Find(old(rows), ref).Some? && IsOpen(Find(old(rows), ref).value)
    {
      var r := DescribeWorkflow(ref.wid, Some(ref.id));
      if r == None || IsTerminal(r.value.status) { return false; }
      ok := AppendHistory(ref, Signaled);
    }

    method SignalWithStartFull(rq: Request)
      modifies this
      ensures Now() == SignalWithStart(old(Now()), rq)
    {
      var live := DescribeWorkflow(rq.wid, None);
      if live.Some? && !IsTerminal(live.value.status) {
        var _ := SignalWorkflow(live.value.ref);
      } else {
        var r := StartWorkflowFull(rq.(policy := ""));
        if r.Some? { var _ := SignalWorkflow(r.value.ref); }
      }
    }

    method CancelWorkflow(ref: Ref, subscribed: bool)
      modifies this
      ensures Now() == Cancel(old(Now()), ref, subscribed)
    {
      var r := DescribeWorkflow(ref.wid, Some(ref.id));
      if r == None || !r.value.status.Running? { return; }
      var _ := AppendHistory(ref, CancelRequested);
      if subscribed {
        rows := Put(rows, r.value.(status := Canceling));
      } else {
        TerminalTransition(ref, Canceled, Ended);
      }
    }

    method ApplyContinueAsNew(ref: Ref, typ: string, newRun: nat, decodes: bool, now: nat)
      modifies this
      ensures Now() == ContinueAsNew(old(Now()), ref, typ, newRun, decodes, now)
    {
      var cur := DescribeWorkflow(ref.wid, Some(ref.id));
      if cur == None || IsTerminal(cur.value.status) || !decodes { return; }
      assert cur.value.ref == ref;
      TerminalTransition(ref, RunStatus.ContinuedAsNew, ContinuedAs(newRun));
      var _ := StartWorkflowFull(Successor(cur.value, typ, newRun, now));
    }

    method ChildStartRecorded(parent: Ref, s: int) returns (found: bool)
      ensures found <==> ChildrenAt(Marks(Now(), parent), s) != []
    {
      var ms := if parent in events then events[parent] else [];
      for i := 0 to |ms|
        invariant ChildrenAt(ms[..i], s) == []
      {
        assert ms[..i + 1][..i] == ms[..i];
        if ms[i].ChildStarted? && ms[i].seq_ == s {
          ChildrenGrow(ms, s, i + 1);
          return true;
        }
      }
      assert ms[..|ms|] == ms;
      found := false;
    }

    method ApplyStartChild(parent: Ref, s: int, rq: Request, decodes: bool)
      modifies this
      ensures Now() == StartChild(old(Now()), parent, s, rq, decodes)
    {
      if rq.typ == "" { return; }
      var recorded := ChildStartRecorded(parent, s);
      if recorded || !decodes { return; }
      var child := StartWorkflowFull(rq.(requestId := "", policy := PREFIX + "USE_EXISTING"));
      if child == None { return; }
      var _ := AppendHistory(parent, ChildStarted(s, child.value.ref));
    }
  }

  method Handle(e: Engine, step: Step)
    modifies e
    ensures e.Now() == Apply(old(e.Now()), step)
  {
    match step {
      case DoStart(rq) => var _ := e.StartWorkflowFull(rq);
      case DoSignalWithStart(rq) => e.SignalWithStartFull(rq);
      case DoSignal(ref) => var _ := e.SignalWorkflow(ref);
      case DoCancel(ref, subscribed) => e.CancelWorkflow(ref, subscribed);
      case DoClose(ref, status) => e.TerminalTransition(ref, status, Ended);
      case DoContinue(ref, typ, newRun, decodes, now) => e.ApplyContinueAsNew(ref, typ, newRun, decodes, now);
      case DoStartChild(parent, s, rq, decodes) => e.ApplyStartChild(parent, s, rq, decodes);
    }
  }

  /** Any sequence of requests, from an empty store: at most one run under an id
      is open and describe returns it; a continued run has one successor, which
      exists and succeeds no other; a sequence number has at most one child, which
      exists. */
  method Serve(steps: seq<Step>) returns (e: Engine)
    requires AllAllowed(INITIAL, steps) && AllFresh(INITIAL, steps)
    ensures fresh(e) && e.Now() == After(INITIAL, steps) && SingleLive(e.rows)
    ensures forall r :: r in e.rows && IsOpen(r) ==> Current(e.rows, r.ref.wid) == Some(r)
    ensures Counted(e.Now()) && Succeeded(e.Now()) && ChildrenOnce(e.Now())
  {
    e := new Engine();
    for i := 0 to |steps|
      invariant fresh(e) && e.Now() == After(INITIAL, steps[..i])
    {
      assert steps[..i + 1][..i] == steps[..i];
      Handle(e, steps[i]);
    }
    assert steps[..|steps|] == steps;
    SingleLiveRun(steps);
    RunsTraced(steps);
  }

  lemma {:induction false} ChildrenGrow(ms: seq<Mark>, s: int, n: nat)
    requires n <= |ms| && ChildrenAt(ms[..n], s) != []
    ensures ChildrenAt(ms, s) != []
    decreases |ms|
  {
    if n == |ms| {
      assert ms[..n] == ms;
    } else {
      assert ms[..|ms| - 1][..n] == ms[..n];
      ChildrenGrow(ms[..|ms| - 1], s, n);
    }
  }
}
