/** Bounded retries, and what a crash inside an operation can cost. */
module Attempts {
  import opened Basics
  import opened History
  import opened Durable
  import opened Ledger
  import opened Protocol
  import Retry

  // -------------------------------------------------------- bounded attempts

  /** Records only move forward. */
  ghost predicate Later(acts: map<nat, Record>, acts': map<nat, Record>)
  {
    forall k :: k in acts ==>
      && k in acts'
      && acts'[k].attempt >= acts[k].attempt
      && acts'[k].spec == acts[k].spec
      && (Done(acts[k]) ==> acts'[k] == acts[k])
  }

  lemma {:induction false} SafeLater(s: RunStore, ws: seq<Write>, n: nat)
    requires Safe(s, ws) && n <= |ws|
    ensures Later(s.acts, CommitAll(s, ws[..n]).acts)
    decreases n
  {
    if n > 0 {
      SafeLater(Commit(s, ws[0]), ws[1..], n - 1);
      assert ws[..n][1..] == ws[1..][..n - 1];
    }
  }

  /** Each failed response that was accepted used up an attempt; the last one
      finished the activity. */
  ghost predicate Counted(acts: map<nat, Record>, failures: map<nat, nat>)
  {
    forall k :: k in failures ==>
      && k in acts
      && failures[k] <= acts[k].attempt
      && (!Done(acts[k]) ==> failures[k] < acts[k].attempt)
  }

  lemma CountedLater(acts: map<nat, Record>, acts': map<nat, Record>, failures: map<nat, nat>)
    requires Counted(acts, failures) && Later(acts, acts')
    ensures Counted(acts', failures)
  {
  }

  lemma {:induction false} CompletionActs(s: RunStore, k: nat, resp: Response)
    requires Sound(s)
    ensures var v := Judge(s, k, resp);
            CommitAll(s, CompletionWrites(s, k, resp)).acts == if v.Ignored? then s.acts else s.acts[k := v.rec]
  {
    CompletionSafe(s, k, resp);
  }

  lemma RespondFields(st: State, k: nat, resp: Response)
    ensures Respond(st, k, resp).store == CommitAll(st.store, CompletionWrites(st.store, k, resp))
    ensures Respond(st, k, resp).failures == if Judge(st.store, k, resp).Ignored? || resp.failure.None? then st.failures
                                             else st.failures[k := FailuresOf(st, k) + 1]
  {
    DrivesApart(Recorded(st, k, resp), Timer(k));
  }

  lemma DrivesApart(st: State, d: Driver)
    ensures Drive(st, d).store == st.store && Drive(st, d).failures == st.failures
    ensures Enqueue(st).store == st.store && Enqueue(st).failures == st.failures
  {
  }

  lemma RespondCounts(st: State, k: nat, resp: Response)
    requires Sound(st.store) && Counted(st.store.acts, st.failures)
    ensures Counted(Respond(st, k, resp).store.acts, Respond(st, k, resp).failures)
  {
    CompletionActs(st.store, k, resp);
    RespondFields(st, k, resp);
    var v, acts := Judge(st.store, k, resp), st.store.acts;
    if !v.Ignored? {
      assert 1 <= acts[k].attempt;
      CountsOne(acts, st.failures, k, v.rec, FailuresOf(st, k));
    }
  }

  lemma CountsOne(acts: map<nat, Record>, failures: map<nat, nat>, k: nat, rec: Record, n: nat)
    requires Counted(acts, failures) && k in acts && n < acts[k].attempt && (k in failures ==> n == failures[k])
    requires rec.attempt >= acts[k].attempt && (!Done(rec) ==> rec.attempt > acts[k].attempt)
    ensures Counted(acts[k := rec], failures) && Counted(acts[k := rec], failures[k := n + 1])
  {
  }

  lemma {:induction false} CommandsFailures(st: State, cs: seq<Command>, m: Minted)
    ensures ApplyCommands(st, cs, m).failures == st.failures
    decreases |cs|
  {
    if cs != [] {
      CommandsFailures(ApplyCommand(st, cs[0], m), cs[1..], m);
    }
  }

  lemma StepCounts(st: State, step: Step)
    requires Sound(st.store) && Counted(st.store.acts, st.failures) && Possible(st, step.op)
    ensures Counted(Exec(st, step).store.acts, Exec(st, step).failures)
  {
    var op, ws := step.op, OpWrites(st, step.op);
    OpSafe(st, op);
    if step.Does? && op.RespondActivity? && op.token in st.drivers && st.drivers[op.token].Token? {
      RespondCounts(st.(drivers := st.drivers - {op.token}), st.drivers[op.token].seq_, op.response);
    } else {
      var n := if step.Does? || step.cut > |ws| then |ws| else step.cut;
      SafeLater(st.store, ws, n);
      CountedLater(st.store.acts, CommitAll(st.store, ws[..n]).acts, st.failures);
      if step.Does? {
        DoWrites(st, op);
        assert ws[..|ws|] == ws;
        DoFailures(st, op);
      }
    }
  }

  lemma DoFailures(st: State, op: Op)
    requires Possible(st, op)
    requires !(op.RespondActivity? && op.token in st.drivers && st.drivers[op.token].Token?)
    ensures Do(st, op).failures == st.failures
  {
    match op {
      case RespondWorkflow(token, cs, m) =>
        if token in st.tasks { CommandsFailures(st.(tasks := st.tasks - {token}), cs, m); }
      case Recover(order) => DriveAllKeeps(Store(st, OpWrites(st, op)).(recovered := true), order);
      case _ =>
    }
  }

  lemma {:induction false} RunCounts(st: State, steps: seq<Step>, st': State)
    requires Sound(st.store) && Counted(st.store.acts, st.failures) && Leads(AnyCut, st, steps, st')
    ensures Sound(st'.store) && Counted(st'.store.acts, st'.failures)
    decreases |steps|
  {
    if steps != [] {
      StepSound(st, steps[0]);
      StepCounts(st, steps[0]);
      RunCounts(Exec(st, steps[0]), steps[1..], st');
    }
  }

  /** In every reachable state, whatever crashes, an activity's attempt is
      within its effective maximum, and once that many failed responses were
      accepted the activity is resolved. */
  lemma {:induction false} RetriesAreBounded(steps: seq<Step>, st: State, k: nat)
    requires Leads(AnyCut, INITIAL, steps, st) && k in st.store.acts
    ensures 1 <= st.store.acts[k].attempt <= Retry.Effective(st.store.acts[k].spec.retry).maxAttempts
    ensures FailuresOf(st, k) <= Retry.Effective(st.store.acts[k].spec.retry).maxAttempts
    ensures FailuresOf(st, k) == Retry.Effective(st.store.acts[k].spec.retry).maxAttempts ==> Done(st.store.acts[k])
  {
    RunCounts(INITIAL, steps, st);
    TryAgainIsShouldRetry(st.store.acts[k], Retry.Failure("", "", false));
  }

  // -------------------------------------------- the cost of a cut completion

  predicate HasOutcome(h: seq<HistoryEvent>, k: nat)
  {
    exists i :: 0 <= i < |h| && IsOutcome(h[i].ev) && h[i].ev.seq_ == k
  }

  /** The record is closed, and history does not say how. */
  ghost predicate Lost(s: RunStore, k: nat)
  {
    k in s.acts && Done(s.acts[k]) && !HasOutcome(s.history, k)
  }

  /** Writes that say nothing about activity k. */
  ghost predicate Silent(ws: seq<Write>, k: nat)
  {
    forall i :: 0 <= i < |ws| ==>
      && (ws[i].PutAct? ==> ws[i].seq_ != k)
      && (ws[i].PutEvent? && IsOutcome(ws[i].ev) ==> ws[i].ev.seq_ != k)
  }

  lemma {:induction false} PutAtMembers(h: seq<HistoryEvent>, e: HistoryEvent, x: HistoryEvent)
    requires x in PutAt(h, e)
    ensures x in h || x == e
  {
    if h != [] && h[|h| - 1].id > e.id && x != h[|h| - 1] {
      PutAtMembers(h[..|h| - 1], e, x);
    }
  }

  lemma SilentWrite(s: RunStore, w: Write, k: nat)
    requires Lost(s, k) && Silent([w], k)
    ensures Lost(Commit(s, w), k)
  {
    assert [w][0] == w;
    var s' := Commit(s, w);
    forall i | 0 <= i < |s'.history| && IsOutcome(s'.history[i].ev) ensures s'.history[i].ev.seq_ != k {
      if w.PutEvent? {
        PutAtMembers(s.history, HistoryEvent(w.id, w.ev), s'.history[i]);
      }
      if s'.history[i] in s.history {
        var j :| 0 <= j < |s.history| && s.history[j] == s'.history[i];
      }
    }
  }

  lemma {:induction false} SilentWrites(s: RunStore, ws: seq<Write>, k: nat)
    requires Lost(s, k) && Silent(ws, k)
    ensures Lost(CommitAll(s, ws), k)
    decreases |ws|
  {
    if ws != [] {
      SilentWrite(s, ws[0], k);
      SilentWrites(Commit(s, ws[0]), ws[1..], k);
    }
  }

  lemma {:induction false} CommandsSilent(s: RunStore, cs: seq<Command>, m: Minted, k: nat)
    requires Lost(s, k)
    ensures Silent(CommandsWrites(s, cs, m), k)
    decreases |cs|
  {
    if cs != [] {
      var ws := CommandWrites(s, cs[0], m);
      assert Silent(ws, k);
      SilentWrites(s, ws, k);
      CommandsSilent(CommitAll(s, ws), cs[1..], m, k);
    }
  }

  lemma {:induction false} RestartsSilent(acts: map<nat, Record>, order: seq<nat>, k: nat)
    requires forall j :: j in order ==> j in acts && j != k
    ensures Silent(Restarts(acts, order), k)
    decreases |order|
  {
    if order != [] {
      assert forall j :: j in order[1..] ==> j in order;
      RestartsSilent(acts, order[1..], k);
      var rest, all := Restarts(acts, order[1..]), Restarts(acts, order);
      assert forall i :: 0 < i < |all| ==> all[i] == rest[i - 1];
    }
  }

  lemma OpSilent(st: State, op: Op, k: nat)
    requires Lost(st.store, k) && Possible(st, op)
    ensures Silent(OpWrites(st, op), k)
  {
    match op {
      case RespondWorkflow(token, cs, m) => if token in st.tasks { CommandsSilent(st.store, cs, m, k); }
      case Recover(order) => RestartsSilent(st.store.acts, order, k);
      case _ =>
    }
  }

  lemma StepStaysLost(st: State, step: Step, k: nat)
    requires Lost(st.store, k) && Possible(st, step.op)
    ensures Lost(Exec(st, step).store, k)
  {
    var ws := OpWrites(st, step.op);
    OpSilent(st, step.op, k);
    match step {
      case Does(op) =>
        DoWrites(st, op);
        SilentWrites(st.store, ws, k);
      case Crashes(_, cut) =>
        SilentWrites(st.store, ws[..if cut <= |ws| then cut else |ws|], k);
    }
  }

  /** A lost outcome stays lost: no response, recovery or replay ever puts it in
      history. */
  lemma {:induction false} LostForever(st: State, steps: seq<Step>, st': State, k: nat)
    requires Lost(st.store, k) && Leads(AnyCut, st, steps, st')
    ensures Lost(st'.store, k)
    decreases |steps|
  {
    if steps != [] {
      StepStaysLost(st, steps[0], k);
      LostForever(Exec(st, steps[0]), steps[1..], st', k);
    }
  }

  /** A crash inside the operation that finishes activity k loses its outcome at
      once exactly when it falls between the record and the event; if it falls
      between the event and the row, the next event appended to the run takes
      the outcome's place. Before the first or after the last write nothing is
      lost. */
  lemma {:induction false} CutCompletion(s: RunStore, k: nat, resp: Response, cut: nat)
    requires Tidy(s) && Judge(s, k, resp).Finished? && cut <= 3
    ensures |CompletionWrites(s, k, resp)| == 3
    ensures var s' := CommitAll(s, CompletionWrites(s, k, resp)[..cut]);
            && (Lost(s', k) <==> cut == 1)
            && (cut == 2 ==> forall ev :: !(IsOutcome(ev) && ev.seq_ == k) ==>
                  s'.row.Some? && Lost(CommitAll(s', AppendWrites(s'.row.value, ev)), k))
            && (cut == 3 ==>
                  && HasOutcome(s'.history, k) && s'.row == Some(Bump(s.row.value))
                  && |s'.history| == s.row.value.historyLen + 1)
  {
    var v := Judge(s, k, resp);
    var row := s.row.value;
    var ws := CompletionWrites(s, k, resp);
    var he := HistoryEvent(row.historyLen + 1, v.ev);
    assert ws == [PutAct(k, v.rec), PutEvent(row.historyLen + 1, v.ev), PutRow(Bump(row))];
    NoOutcomeYet(s, k);
    CutStores(s, ws, cut);
    PutAtEnd(s.history, he);
    assert s.history[..|s.history|] == s.history;
    var s2 := Commit(Commit(s, ws[0]), ws[1]);
    assert s2.history == s.history + [he];
    assert s2.history[|s.history|] == he;
    forall ev | !(IsOutcome(ev) && ev.seq_ == k)
      ensures Lost(CommitAll(s2, AppendWrites(row, ev)), k)
    {
      Overwritten(s, s2, row, k, he, ev);
    }
  }

  lemma NoOutcomeYet(s: RunStore, k: nat)
    requires Sound(s) && k in s.acts && !Done(s.acts[k])
    ensures !HasOutcome(s.history, k)
  {
    forall i | 0 <= i < |s.history| && IsOutcome(s.history[i].ev) ensures s.history[i].ev.seq_ != k {
      assert Backed(s, s.history[i].ev);
    }
  }

  lemma {:induction false} CutStores(s: RunStore, ws: seq<Write>, cut: nat)
    requires |ws| == 3 && cut <= 3
    ensures CommitAll(s, ws[..cut]) ==
            if cut == 0 then s
            else if cut == 1 then Commit(s, ws[0])
            else if cut == 2 then Commit(Commit(s, ws[0]), ws[1])
            else Commit(Commit(Commit(s, ws[0]), ws[1]), ws[2])
  {
    CommitOne(s, ws[0]);
    CommitOne(Commit(s, ws[0]), ws[1]);
    CommitOne(Commit(Commit(s, ws[0]), ws[1]), ws[2]);
    if cut == 1 {
      assert ws[..1] == [ws[0]];
    } else if cut >= 2 {
      CommitConcat(s, [ws[0]], [ws[1]]);
      assert ws[..2] == [ws[0]] + [ws[1]];
      if cut == 3 {
        CommitConcat(s, ws[..2], [ws[2]]);
        assert ws[..3] == ws[..2] + [ws[2]];
      }
    }
  }

  lemma {:induction false} CommitOne(s: RunStore, w: Write)
    ensures CommitAll(s, [w]) == Commit(s, w)
  {
    assert [w][1..] == [];
  }

  lemma {:induction false} Overwritten(s: RunStore, s2: RunStore, row: Row, k: nat, he: HistoryEvent, ev: Event)
    requires Numbered(s2.history) && s2.history == s.history + [he] && row.historyLen == |s.history|
    requires k in s2.acts && Done(s2.acts[k]) && !HasOutcome(s.history, k)
    requires !(IsOutcome(ev) && ev.seq_ == k)
    ensures Lost(CommitAll(s2, AppendWrites(row, ev)), k)
  {
    var e := HistoryEvent(row.historyLen + 1, ev);
    PutAtEnd(s2.history, e);
    var ws := AppendWrites(row, ev);
    assert ws[1..] == [PutRow(Bump(row))] && ws[1..][1..] == [];
    var s3 := CommitAll(s2, ws);
    assert CommitAll(Commit(s2, ws[0]), ws[1..]) == Commit(Commit(s2, ws[0]), ws[1]);
    assert s3.history == s.history + [e];
    forall i | 0 <= i < |s3.history| && IsOutcome(s3.history[i].ev) ensures s3.history[i].ev.seq_ != k {
      if i < |s.history| {
        assert s3.history[i] == s.history[i];
      }
    }
  }
}
