/** What starting, signalling, cancelling, closing and continuing do to the runs
    under a workflow id, written out over their rows and histories. */
module RunLaws {
  import opened Basics
  import opened Runs
  import opened Statuses
  import opened Lineage

  /** st' is st with this row under ref, these marks added to its history, and
      nothing else changed. */
  ghost predicate Changes(st: State, st': State, ref: Ref, run: Run, gained: seq<Mark>)
  {
    && (forall x :: Find(st'.rows, x) == if x == ref then Some(run) else Find(st.rows, x))
    && (forall x :: Marks(st', x) == if x == ref then Marks(st, x) + gained else Marks(st, x))
    && st'.idem == st.idem
  }

  predicate Going(r: Run) { r.status == Running || r.status == Canceling }

  lemma ChangesTwice(a: State, b: State, c: State, ref: Ref, r: Run, r': Run, g: seq<Mark>, g': seq<Mark>)
    requires Changes(a, b, ref, r, g) && Changes(b, c, ref, r', g')
    ensures Changes(a, c, ref, r', g + g')
  {
    forall x ensures Marks(c, x) == if x == ref then Marks(a, x) + (g + g') else Marks(a, x) {
      assert Marks(a, ref) + g + g' == Marks(a, ref) + (g + g');
    }
  }

  lemma PutChanges(st: State, run: Run)
    ensures Changes(st, st.(rows := Put(st.rows, run)), run.ref, run, [])
  {
    var st' := st.(rows := Put(st.rows, run));
    forall x ensures Find(st'.rows, x) == if x == run.ref then Some(run) else Find(st.rows, x) {
      FindPut(st.rows, run, x);
    }
    forall x ensures Marks(st', x) == Marks(st, x) && Marks(st, x) + [] == Marks(st, x) {
    }
  }

  lemma AppendChanges(st: State, ref: Ref, r: Run, m: Mark)
    requires Find(st.rows, ref) == Some(r)
    ensures Changes(st, Append(st, ref, m), ref, r, [m])
  {
    forall x ensures Marks(Append(st, ref, m), x) == if x == ref then Marks(st, x) + [m] else Marks(st, x) {
      MarksAppend(st, ref, m, x);
    }
  }

  // ----------------------------------------------------------------- describing

  /** Going runs before ended ones, continued ones last. */
  function Rank(r: Run): nat
  {
    if r.status == Running || r.status == Canceling then 2 else if r.status == RunStatus.ContinuedAsNew then 0 else 1
  }

  /** There is a run exactly when there is one under the id; it has the highest
      rank, of those the latest start, and of those the largest run id. */
  ghost predicate MostCurrent(rows: seq<Run>, wid: string, found: Option<Run>)
  {
    && (found.None? <==> forall i :: 0 <= i < |rows| ==> rows[i].ref.wid != wid)
    && (found.Some? ==>
          && found.value in rows && found.value.ref.wid == wid
          && forall i :: 0 <= i < |rows| && rows[i].ref.wid == wid ==> NoLater(rows[i], found.value))
  }

  predicate NoLater(r: Run, best: Run)
  {
    || Rank(r) < Rank(best)
    || (Rank(r) == Rank(best) && (r.start < best.start || (r.start == best.start && r.ref.id <= best.ref.id)))
  }

  lemma DescribeLaw(rows: seq<Run>, wid: string)
    ensures MostCurrent(rows, wid, Current(rows, wid))
  {
    var found := Current(rows, wid);
    forall i | 0 <= i < |rows| && rows[i].ref.wid == wid ensures found.Some? && NoLater(rows[i], found.value) {
      CurrentIsBest(rows, wid, rows[i]);
    }
    if found.Some? {
      CurrentIsBest(rows, wid, found.value);
      var i :| 0 <= i < |rows| && rows[i] == found.value;
    }
  }

  // -------------------------------------------------- one run: close, signal, cancel

  /** A close gives a going run its status and its mark; any other run stays. */
  lemma CloseLaw(st: State, ref: Ref, status: RunStatus, m: Mark)
    ensures var st' := Close(st, ref, status, m);
            match Find(st.rows, ref)
            case None => st' == st
            case Some(r) => if Going(r) then Changes(st, st', ref, r.(status := status), [m]) else st' == st
  {
    FindMember(st.rows, ref);
    if Find(st.rows, ref).Some? && Going(Find(st.rows, ref).value) {
      var r := Find(st.rows, ref).value.(status := status);
      var mid := st.(rows := Put(st.rows, r));
      PutChanges(st, r);
      AppendChanges(mid, ref, r, m);
      ChangesTwice(st, mid, Append(mid, ref, m), ref, r, r, [], [m]);
      assert [] + [m] == [m];
    }
  }

  lemma SignalLaw(st: State, ref: Ref)
    ensures var st' := Signal(st, ref);
            match Find(st.rows, ref)
            case None => st' == st
            case Some(r) => if Going(r) then Changes(st, st', ref, r, [Signaled]) else st' == st
  {
    if Find(st.rows, ref).Some? { AppendChanges(st, ref, Find(st.rows, ref).value, Signaled); }
  }

  /** A running run is asked to cancel once: then canceling if somebody is
      subscribed, canceled and ended if nobody is. */
  lemma CancelLaw(st: State, ref: Ref, subscribed: bool)
    ensures var st' := Cancel(st, ref, subscribed);
            match Find(st.rows, ref)
            case None => st' == st
            case Some(r) =>
              if r.status != Running then st' == st
              else if subscribed then Changes(st, st', ref, r.(status := Canceling), [CancelRequested])
              else Changes(st, st', ref, r.(status := Canceled), [CancelRequested, Ended])
  {
    FindMember(st.rows, ref);
    if Find(st.rows, ref).Some? && Find(st.rows, ref).value.status == Running {
      var r := Find(st.rows, ref).value;
      var mid := Append(st, ref, CancelRequested);
      AppendChanges(st, ref, r, CancelRequested);
      if subscribed {
        PutChanges(mid, r.(status := Canceling));
        ChangesTwice(st, mid, Cancel(st, ref, true), ref, r, r.(status := Canceling), [CancelRequested], []);
        assert [CancelRequested] + [] == [CancelRequested];
      } else {
        CloseLaw(mid, ref, Canceled, Ended);
        ChangesTwice(st, mid, Cancel(st, ref, false), ref, r, r.(status := Canceled), [CancelRequested], [Ended]);
        assert [CancelRequested] + [Ended] == [CancelRequested, Ended];
      }
    }
  }

  // ------------------------------------------------------------------- starting

  /** The policy, by its short or its long name. */
  predicate Names(policy: string, q: string)
  {
    Spells(policy, q) || Spells(policy, "WORKFLOW_ID_CONFLICT_POLICY_" + q)
  }

  lemma NormalizeNames(p: string, q: string)
    requires Capitals(q) && !(PREFIX <= q)
    ensures NormalizePolicy(p) == q <==> Names(p, q)
  {
    var long := "WORKFLOW_ID_CONFLICT_POLICY_" + q;
    UpperSpells(p, q);
    assert Capitals(long);
    UpperSpells(p, long);
    assert long[|PREFIX|..] == q;
    if PREFIX <= Upper(p) { assert Upper(p) == PREFIX + Upper(p)[|PREFIX|..]; }
  }

  lemma ThreeNames(p: string)
    ensures NormalizePolicy(p) == "USE_EXISTING" <==> Names(p, "USE_EXISTING")
    ensures NormalizePolicy(p) == "TERMINATE_EXISTING" <==> Names(p, "TERMINATE_EXISTING")
    ensures NormalizePolicy(p) == "FAIL" <==> Names(p, "FAIL")
  {
    assert |PREFIX| == 28;
    NormalizeNames(p, "USE_EXISTING");
    NormalizeNames(p, "TERMINATE_EXISTING");
    NormalizeNames(p, "FAIL");
  }

  lemma EmptyNamesNothing()
    ensures !Names("", "USE_EXISTING") && !Names("", "TERMINATE_EXISTING") && !Names("", "FAIL")
  {
  }

  /** The workflow id a request is about, and the run it would make. */
  function Wid(rq: Request): string { if rq.wid != "" then rq.wid else rq.newWid }

  function Made(rq: Request): Run { Run(Ref(Wid(rq), rq.id), rq.typ, Running, rq.now) }

  /** No run was made by an earlier request of this id. */
  ghost predicate Unasked(st: State, rq: Request)
  {
    || rq.requestId == "" || (Wid(rq), rq.requestId) !in st.idem
    || Find(st.rows, Ref(Wid(rq), st.idem[(Wid(rq), rq.requestId)])) == None
  }

  /** st' is st with the request's run in it, begun, and its request id. */
  ghost predicate Begins(st: State, st': State, rq: Request)
  {
    && (forall x :: Find(st'.rows, x) == if x == Made(rq).ref then Some(Made(rq)) else Find(st.rows, x))
    && (forall x :: Marks(st', x) == if x == Made(rq).ref then Marks(st, x) + [Begun] else Marks(st, x))
    && st'.idem == if rq.requestId == "" then st.idem else st.idem[(Wid(rq), rq.requestId) := rq.id]
  }

  lemma CreateBegins(st: State, rq: Request)
    ensures Begins(st, Create(st, NewRun(rq), rq.requestId), rq)
  {
    var run := NewRun(rq);
    var idem := if rq.requestId == "" then st.idem else st.idem[(run.ref.wid, rq.requestId) := run.ref.id];
    var mid := State(Put(st.rows, run), idem, st.events);
    forall x ensures Find(mid.rows, x) == if x == run.ref then Some(run) else Find(st.rows, x) {
      FindPut(st.rows, run, x);
    }
    forall x ensures Marks(Append(mid, run.ref, Begun), x)
                     == if x == run.ref then Marks(st, x) + [Begun] else Marks(st, x) {
      MarksAppend(mid, run.ref, Begun, x);
      assert Marks(mid, x) == Marks(st, x);
    }
  }

  /** A repeated request returns the run it made and changes nothing; a request
      without a type is refused. */
  lemma RepeatLaw(st: State, rq: Request)
    ensures rq.typ == "" ==> Start(st, rq) == (st, None)
    ensures rq.typ != "" && !Unasked(st, rq) ==>
              Start(st, rq) == (st, Find(st.rows, Ref(Wid(rq), st.idem[(Wid(rq), rq.requestId)])))
  {
  }

  /** Once a request has begun its run, asking again returns that run and changes
      nothing. */
  lemma AskedAgain(st: State, st': State, rq: Request, again: Request)
    requires rq.requestId != "" && Begins(st, st', rq)
    requires again.typ != "" && Wid(again) == Wid(rq) && again.requestId == rq.requestId
    ensures Start(st', again) == (st', Some(Made(rq)))
  {
    assert Find(st'.rows, Made(rq).ref) == Some(Made(rq));
  }

  lemma OnlyOpen(st: State, r: Run)
    requires Inv(st.rows) && Find(st.rows, r.ref) == Some(r) && Going(r)
    ensures Current(st.rows, r.ref.wid) == Some(r)
  {
    FindMember(st.rows, r.ref);
    CurrentIsBest(st.rows, r.ref.wid, r);
    OpenIsOnly(st.rows, r);
    var best := Current(st.rows, r.ref.wid).value;
    var i :| 0 <= i < |st.rows| && st.rows[i] == best;
    var j :| 0 <= j < |st.rows| && st.rows[j] == r;
    assert st.rows[i].ref == st.rows[j].ref;
  }

  lemma FoundAgain(rows: seq<Run>, r: Run)
    requires Keyed(rows) && r in rows
    ensures Find(rows, r.ref) == Some(r)
  {
    FindMember(rows, r.ref);
    var i :| 0 <= i < |rows| && rows[i] == r;
    assert rows[IndexOf(rows, r.ref)].ref == rows[i].ref;
  }

  /** What a policy makes of the going run describe finds under the id. */
  lemma ResolveLaw(st: State, wid: string, policy: string, cur: Run)
    requires Keyed(st.rows) && Current(st.rows, wid) == Some(cur) && Going(cur)
    ensures var res := Resolve(st, wid, policy);
            && (Names(policy, "FAIL") ==> res == Conflict)
            && (Names(policy, "USE_EXISTING") ==> res == Reuse(cur))
            && (Names(policy, "TERMINATE_EXISTING") ==>
                  res.Proceed? && Changes(st, res.st, cur.ref, cur.(status := Terminated), [Ended]))
            && (Unnamed(policy) ==> res == Proceed(st))
  {
    ThreeNames(policy);
    EmptyNamesNothing();
    CurrentIsBest(st.rows, wid, cur);
    FoundAgain(st.rows, cur);
    CloseLaw(st, cur.ref, Terminated, Ended);
  }

  /** With no going run there is nothing to resolve. */
  lemma ResolveFree(st: State, wid: string, policy: string)
    requires var cur := Current(st.rows, wid); cur.None? || !Going(cur.value)
    ensures Resolve(st, wid, policy) == Proceed(st)
  {
  }

  predicate Unnamed(policy: string)
  {
    !Names(policy, "FAIL") && !Names(policy, "USE_EXISTING") && !Names(policy, "TERMINATE_EXISTING")
  }

  /** A first request under an id with a going run r. FAIL refuses it and changes
      nothing. USE_EXISTING returns r and changes nothing. TERMINATE_EXISTING
      terminates r, with its event, and begins the new run. Any other policy begins
      it beside r. */
  lemma ConflictLaw(st: State, rq: Request, r: Run)
    requires Inv(st.rows) && Find(st.rows, r.ref) == Some(r) && Going(r) && r.ref.wid == Wid(rq)
    requires rq.typ != "" && Unasked(st, rq)
    ensures Names(rq.policy, "FAIL") ==> Start(st, rq) == (st, None)
    ensures Names(rq.policy, "USE_EXISTING") ==> Start(st, rq) == (st, Some(r))
    ensures Names(rq.policy, "TERMINATE_EXISTING") ==>
              && Start(st, rq).1 == Some(Made(rq))
              && exists mid ::
                   Changes(st, mid, r.ref, r.(status := Terminated), [Ended]) && Begins(mid, Start(st, rq).0, rq)
    ensures Unnamed(rq.policy) ==>
              Start(st, rq).1 == Some(Made(rq)) && Begins(st, Start(st, rq).0, rq)
  {
    OnlyOpen(st, r);
    ResolveLaw(st, Wid(rq), rq.policy, r);
    var res := Resolve(st, Wid(rq), rq.policy);
    if res.Proceed? { CreateBegins(res.st, rq); }
  }

  /** After TERMINATE_EXISTING, with a run id that is new: r is terminated, the new
      run goes on, and every other row is as it was. */
  lemma Superseded(st: State, rq: Request, r: Run)
    requires Inv(st.rows) && Find(st.rows, r.ref) == Some(r) && Going(r) && r.ref.wid == Wid(rq)
    requires rq.typ != "" && Unasked(st, rq) && Names(rq.policy, "TERMINATE_EXISTING") && Made(rq).ref != r.ref
    ensures var rows := Start(st, rq).0.rows;
            && Find(rows, r.ref) == Some(r.(status := Terminated)) && Find(rows, Made(rq).ref) == Some(Made(rq))
            && forall x :: x != r.ref && x != Made(rq).ref ==> Find(rows, x) == Find(st.rows, x)
  {
    ConflictLaw(st, rq, r);
    var mid :| Changes(st, mid, r.ref, r.(status := Terminated), [Ended]) && Begins(mid, Start(st, rq).0, rq);
    forall x | x != r.ref && x != Made(rq).ref ensures Find(Start(st, rq).0.rows, x) == Find(st.rows, x) {
      assert Find(mid.rows, x) == Find(st.rows, x);
    }
    assert Find(mid.rows, r.ref) == Some(r.(status := Terminated));
  }

  /** Under an id with no going run any policy begins the new run. */
  lemma FreeLaw(st: State, rq: Request)
    requires rq.typ != "" && Unasked(st, rq)
    requires forall i :: 0 <= i < |st.rows| && st.rows[i].ref.wid == Wid(rq) ==> !Going(st.rows[i])
    ensures Start(st, rq).1 == Some(Made(rq)) && Begins(st, Start(st, rq).0, rq)
  {
    var cur := Current(st.rows, Wid(rq));
    if cur.Some? {
      CurrentIsBest(st.rows, Wid(rq), cur.value);
      var i :| 0 <= i < |st.rows| && st.rows[i] == cur.value;
      assert !Going(st.rows[i]);
    }
    assert Resolve(st, Wid(rq), rq.policy) == Proceed(st);
    CreateBegins(st, rq);
  }

  // ----------------------------------------------------------- signal with start

  /** A going run under the id is signalled and nothing is started. */
  lemma SignalGoing(st: State, rq: Request, r: Run)
    requires Inv(st.rows) && Find(st.rows, r.ref) == Some(r) && Going(r) && r.ref.wid == rq.wid
    ensures Changes(st, SignalWithStart(st, rq), r.ref, r, [Signaled])
  {
    OnlyOpen(st, r);
    SignalLaw(st, r.ref);
  }

  /** Otherwise a run is begun, whatever the policy, and signalled. */
  lemma SignalStarts(st: State, rq: Request)
    requires rq.typ != "" && Unasked(st, rq) && rq.wid != "" && Marks(st, Made(rq).ref) == []
    requires forall i :: 0 <= i < |st.rows| && st.rows[i].ref.wid == rq.wid ==> !Going(st.rows[i])
    ensures var st' := SignalWithStart(st, rq);
            && Find(st'.rows, Made(rq).ref) == Some(Made(rq)) && Marks(st', Made(rq).ref) == [Begun, Signaled]
            && forall x :: x != Made(rq).ref ==> Find(st'.rows, x) == Find(st.rows, x) && Marks(st', x) == Marks(st, x)
  {
    var live := Current(st.rows, rq.wid);
    if live.Some? {
      CurrentIsBest(st.rows, rq.wid, live.value);
      var i :| 0 <= i < |st.rows| && st.rows[i] == live.value;
      assert !Going(st.rows[i]);
    }
    var plain := rq.(policy := "");
    FreeLaw(st, plain);
    var st1 := Start(st, plain).0;
    assert Find(st1.rows, Made(rq).ref) == Some(Made(rq));
    SignalLaw(st1, Made(rq).ref);
    assert [Begun] + [Signaled] == [Begun, Signaled];
  }

  // ------------------------------------------------- continue-as-new and children

  /** A going run is closed as continued, naming its successor, and the successor
      begins under the same id, of the type asked for or else of the same type. */
  lemma ContinueLaw(st: State, cur: Run, typ: string, newRun: nat, now: nat)
    requires Find(st.rows, cur.ref) == Some(cur) && Going(cur) && cur.typ != "" && cur.ref.wid != ""
    requires Find(st.rows, Ref(cur.ref.wid, newRun)) == None
    ensures var st', next := ContinueAsNew(st, cur.ref, typ, newRun, true, now), Ref(cur.ref.wid, newRun);
            && Find(st'.rows, cur.ref) == Some(cur.(status := ContinuedAsNew))
            && Marks(st', cur.ref) == Marks(st, cur.ref) + [ContinuedAs(newRun)]
            && Find(st'.rows, next) == Some(Run(next, if typ == "" then cur.typ else typ, Running, now))
            && Marks(st', next) == Marks(st, next) + [Begun]
            && forall x :: x != cur.ref && x != next ==>
                 Find(st'.rows, x) == Find(st.rows, x) && Marks(st', x) == Marks(st, x)
  {
    var rq, next := Successor(cur, typ, newRun, now), Ref(cur.ref.wid, newRun);
    var mid := Close(st, cur.ref, RunStatus.ContinuedAsNew, ContinuedAs(newRun));
    CloseLaw(st, cur.ref, RunStatus.ContinuedAsNew, ContinuedAs(newRun));
    ContinueIs(st, cur, typ, newRun, now);
    CreateBegins(mid, rq);
  }

  /** A run that has ended, is missing or whose input does not decode is left. */
  lemma ContinueRefused(st: State, ref: Ref, typ: string, newRun: nat, decodes: bool, now: nat)
    requires !decodes || Find(st.rows, ref).None? || !Going(Find(st.rows, ref).value)
    ensures ContinueAsNew(st, ref, typ, newRun, decodes, now) == st
  {
  }

  /** A start-child under an id with a going run attaches to it; otherwise it begins
      one. Either way the parent records that run under the number. */
  lemma {:induction false} ChildLaw(st: State, parent: Ref, s: int, rq: Request)
    requires Inv(st.rows) && Find(st.rows, parent).Some? && rq.typ != "" && Wid(rq) != ""
    requires ChildrenAt(Marks(st, parent), s) == []
    ensures var st' := StartChild(st, parent, s, rq, true);
            && (forall r: Run :: Find(st.rows, r.ref) == Some(r) && Going(r) && r.ref.wid == Wid(rq) ==>
                  Changes(st, st', parent, Find(st.rows, parent).value, [ChildStarted(s, r.ref)]))
            && ((forall i :: 0 <= i < |st.rows| && st.rows[i].ref.wid == Wid(rq) ==> !Going(st.rows[i])) ==>
                  exists mid :: Begins(st, mid, rq.(requestId := "")) && Records(mid, st', parent, s, Made(rq).ref))
  {
    var full := rq.(requestId := "", policy := PREFIX + "USE_EXISTING");
    UseExistingIs();
    ThreeNames(full.policy);
    forall r: Run | Find(st.rows, r.ref) == Some(r) && Going(r) && r.ref.wid == Wid(rq)
      ensures Changes(st, StartChild(st, parent, s, rq, true), parent, Find(st.rows, parent).value,
                      [ChildStarted(s, r.ref)])
    {
      ConflictLaw(st, full, r);
      AppendChanges(st, parent, Find(st.rows, parent).value, ChildStarted(s, r.ref));
    }
    if forall i :: 0 <= i < |st.rows| && st.rows[i].ref.wid == Wid(rq) ==> !Going(st.rows[i]) {
      FreeLaw(st, full);
      var mid := Start(st, full).0;
      assert Begins(st, mid, rq.(requestId := ""));
      assert Find(mid.rows, parent).Some?;
      AppendChanges(mid, parent, Find(mid.rows, parent).value, ChildStarted(s, Made(rq).ref));
    }
  }

  ghost predicate Records(st: State, st': State, parent: Ref, s: int, child: Ref)
  {
    Find(st.rows, parent).Some? && Changes(st, st', parent, Find(st.rows, parent).value, [ChildStarted(s, child)])
  }

  lemma ChildRefused(st: State, parent: Ref, s: int, rq: Request, decodes: bool)
    requires rq.typ == "" || !decodes || exists i ::
               0 <= i < |Marks(st, parent)| && Marks(st, parent)[i].ChildStarted? && Marks(st, parent)[i].seq_ == s
    ensures StartChild(st, parent, s, rq, decodes) == st
  {
    if i :| 0 <= i < |Marks(st, parent)| && Marks(st, parent)[i].ChildStarted? && Marks(st, parent)[i].seq_ == s {
      ChildSeen(Marks(st, parent), s, i);
    }
  }

  lemma {:induction false} ChildSeen(ms: seq<Mark>, s: int, i: nat)
    requires i < |ms| && ms[i].ChildStarted? && ms[i].seq_ == s
    ensures ChildrenAt(ms, s) != []
  {
    if i < |ms| - 1 { ChildSeen(ms[..|ms| - 1], s, i); }
  }
}
