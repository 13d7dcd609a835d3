/** Standalone activities claimed under leases (pkg/tasks/activities.go), one
    namespace, each operation one atomic step. Times are nanoseconds. */
module Leases {
  import opened Basics

  datatype Status = Scheduled | Started | Completed | Failed | Canceled

  datatype Key = Key(id: string, run: string)

  /** The activity's own history. A hand-out carries the lease it granted, the one
      asked for and the clock it read, a reap the clock it read, and a heartbeat the
      lease it left in force and its clock. */
  datatype Event =
    | WasScheduled
    | HandedOut(identity: string, attempt: int, expiry: nat, asked: int, at: nat)
    | TimedOut(attempt: int, at: nat)
    | Heartbeat(lease: Option<nat>, at: nat)
    | Ended(status: Status)

  datatype Activity = Activity(key: Key, queue: string, status: Status, start: nat, identity: string,
                               attempt: int, maximum: int, heartbeatTimeout: int, lease: Option<nat>,
                               history: seq<Event>)

  const SECOND: nat := 1_000_000_000

  const DEFAULT_LEASE: nat := 60 * SECOND

  predicate IsTerminal(s: Status) { s.Completed? || s.Failed? || s.Canceled? }

  /** A time as a timestamp of whole seconds keeps it. */
  function Stamp(t: nat): (s: nat)
    ensures s <= t < s + SECOND
  {
    if t < SECOND then 0 else SECOND + Stamp(t - SECOND)
  }

  function LeaseTTL(a: Activity, fallback: int): (d: nat)
    ensures d > 0
  {
    if a.heartbeatTimeout > 0 then a.heartbeatTimeout else if fallback > 0 then fallback else DEFAULT_LEASE
  }

  // ------------------------------------------------------------- transitions

  predicate Expired(a: Activity, now: nat) { a.status.Started? && a.lease.Some? && now > a.lease.value }

  function Close(a: Activity, status: Status): Activity
  {
    if IsTerminal(a.status) then a else a.(status := status, history := a.history + [Ended(status)])
  }

  function Reap(a: Activity, now: nat): Activity
  {
    if !Expired(a, now) then a
    else if a.maximum > 0 && a.attempt >= a.maximum then Close(a, Failed)
    else a.(status := Scheduled, attempt := a.attempt + 1, identity := "", lease := None,
            history := a.history + [TimedOut(a.attempt + 1, now)])
  }

  function HandOut(a: Activity, identity: string, fallback: int, now: nat): Activity
  {
    Grant(a, identity, Stamp(now + LeaseTTL(a, fallback)), fallback, now)
  }

  function Grant(a: Activity, identity: string, expiry: nat, asked: int, at: nat): Activity
  {
    a.(status := Started, identity := identity, lease := Some(expiry),
       history := a.history + [HandedOut(identity, a.attempt, expiry, asked, at)])
  }

  function Beat(a: Activity, now: nat): Activity
  {
    if IsTerminal(a.status) then a
    else
      var lease := if a.lease.Some? then Some(Stamp(now + LeaseTTL(a, 0))) else None;
      a.(status := Started, lease := lease, history := a.history + [Heartbeat(lease, now)])
  }

  function Fresh(key: Key, queue: string, start: nat, identity: string, maximum: int, heartbeatTimeout: int): Activity
  {
    Activity(key, queue, Scheduled, start, identity, 1, maximum, heartbeatTimeout, None, [WasScheduled])
  }

  // ------------------------------------------------------------ per activity

  function HandOuts(h: seq<Event>): nat
  {
    if h == [] then 0 else HandOuts(h[..|h| - 1]) + (if h[|h| - 1].HandedOut? then 1 else 0)
  }

  /** The lease a history leaves in force. */
  function InForce(h: seq<Event>): Option<nat>
  {
    if h == [] then None
    else
      match h[|h| - 1]
      case HandedOut(_, _, expiry, _, _) => Some(expiry)
      case Heartbeat(lease, _) => lease
      case TimedOut(_, _) => None
      case _ => InForce(h[..|h| - 1])
  }

  /** Handed out and not reaped since. */
  predicate IsOut(h: seq<Event>)
  {
    h != [] && (h[|h| - 1].HandedOut? || (!h[|h| - 1].TimedOut? && IsOut(h[..|h| - 1])))
  }

  /** Every reap came after the lease then in force had passed. */
  ghost predicate ReapsLate(h: seq<Event>)
  {
    forall k :: 0 <= k < |h| && h[k].TimedOut? ==> InForce(h[..k]).Some? && h[k].at > InForce(h[..k]).value
  }

  /** Two hand-overs have a reap between them. */
  ghost predicate Separated(h: seq<Event>)
  {
    forall i, j :: 0 <= i < j < |h| && h[i].HandedOut? && h[j].HandedOut? ==> exists k :: i < k < j && h[k].TimedOut?
  }

  ghost predicate Good(a: Activity)
  {
    && InForce(a.history) == a.lease
    && ReapsLate(a.history) && Separated(a.history)
    && (a.status.Scheduled? ==> a.lease.None? && !IsOut(a.history))
    && HandOuts(a.history) + (if a.status.Scheduled? || (a.status.Started? && a.lease.None?) then 1 else 0) <= a.attempt
    && (a.maximum > 0 ==> a.attempt <= a.maximum)
  }

  lemma {:induction false} Snoc(h: seq<Event>, e: Event)
    ensures HandOuts(h + [e]) == HandOuts(h) + (if e.HandedOut? then 1 else 0)
    ensures InForce(h + [e]) ==
            match e
            case HandedOut(_, _, x, _, _) => Some(x) case Heartbeat(l, _) => l case TimedOut(_, _) => None
            case _ => InForce(h)
    ensures IsOut(h + [e]) <==> e.HandedOut? || (!e.TimedOut? && IsOut(h))
  {
    assert (h + [e])[..|h|] == h;
  }

  lemma {:induction false} ReapsLateSnoc(h: seq<Event>, e: Event)
    requires ReapsLate(h)
    requires e.TimedOut? ==> InForce(h).Some? && e.at > InForce(h).value
    ensures ReapsLate(h + [e])
  {
    forall k | 0 <= k < |h + [e]| && (h + [e])[k].TimedOut?
      ensures InForce((h + [e])[..k]).Some? && (h + [e])[k].at > InForce((h + [e])[..k]).value
    {
      assert (h + [e])[..k] == h[..k];
      assert h[..|h|] == h;
    }
  }

  /** A hand-over that is not out any more was reaped. */
  lemma {:induction false} ReapedSince(h: seq<Event>, i: nat)
    requires i < |h| && h[i].HandedOut? && !IsOut(h)
    ensures exists k :: i < k < |h| && h[k].TimedOut?
  {
    var n := |h| - 1;
    if h[n].TimedOut? {
      assert i < n;
    } else {
      assert h[..n][i] == h[i];
      ReapedSince(h[..n], i);
      var k :| i < k < n && h[..n][k].TimedOut?;
      assert h[k].TimedOut?;
    }
  }

  lemma {:induction false} SeparatedSnoc(h: seq<Event>, e: Event)
    requires Separated(h) && (e.HandedOut? ==> !IsOut(h))
    ensures Separated(h + [e])
  {
    var h' := h + [e];
    forall i, j | 0 <= i < j < |h'| && h'[i].HandedOut? && h'[j].HandedOut?
        ensures exists k :: i < k < j && h'[k].TimedOut? {
      if j < |h| {
        assert h[i].HandedOut? && h[j].HandedOut?;
        var k :| i < k < j && h[k].TimedOut?;
        assert h'[k].TimedOut?;
      } else {
        ReapedSince(h, i);
        var k :| i < k < |h| && h[k].TimedOut?;
        assert h'[k].TimedOut?;
      }
    }
  }

  lemma {:induction false} GoodSnoc(h: seq<Event>, e: Event)
    requires ReapsLate(h) && Separated(h)
    requires e.TimedOut? ==> InForce(h).Some? && e.at > InForce(h).value
    requires e.HandedOut? ==> !IsOut(h)
    ensures ReapsLate(h + [e]) && Separated(h + [e])
    ensures HandOuts(h + [e]) == HandOuts(h) + (if e.HandedOut? then 1 else 0)
    ensures InForce(h + [e]) ==
            match e
            case HandedOut(_, _, x, _, _) => Some(x) case Heartbeat(l, _) => l case TimedOut(_, _) => None
            case _ => InForce(h)
    ensures IsOut(h + [e]) <==> e.HandedOut? || (!e.TimedOut? && IsOut(h))
  {
    Snoc(h, e);
    ReapsLateSnoc(h, e);
    SeparatedSnoc(h, e);
  }

  lemma FreshGood(key: Key, queue: string, start: nat, identity: string, maximum: int, timeout: int)
    ensures Good(Fresh(key, queue, start, identity, maximum, timeout))
  {
    var h := [WasScheduled];
    assert h[..0] == [];
    assert HandOuts(h) == 0 && !IsOut(h);
  }

  lemma CloseGood(a: Activity, status: Status)
    requires Good(a) && IsTerminal(status)
    ensures Good(Close(a, status))
  {
    GoodSnoc(a.history, Ended(status));
  }

  lemma ReapGood(a: Activity, now: nat)
    requires Good(a)
    ensures Good(Reap(a, now))
  {
    CloseGood(a, Failed);
    if Expired(a, now) { GoodSnoc(a.history, TimedOut(a.attempt + 1, now)); }
  }

  lemma GrantGood(a: Activity, identity: string, expiry: nat, asked: int, at: nat)
    requires Good(a) && a.status.Scheduled?
    ensures Good(Grant(a, identity, expiry, asked, at))
  {
    GoodSnoc(a.history, HandedOut(identity, a.attempt, expiry, asked, at));
  }

  lemma BeatGood(a: Activity, now: nat)
    requires Good(a)
    ensures Good(Beat(a, now))
  {
    GoodSnoc(a.history, Heartbeat(if a.lease.Some? then Some(Stamp(now + LeaseTTL(a, 0))) else None, now));
  }

  // ------------------------------------------------------------------- table

  predicate Matches(a: Activity, queue: string) { a.status.Scheduled? && (queue == "" || a.queue == queue) }

  /** Byte order of the ids. */
  predicate IdBefore(a: string, b: string)
  {
    b != "" && (a == "" || a[0] < b[0] || (a[0] == b[0] && IdBefore(a[1..], b[1..])))
  }

  predicate Older(a: Activity, b: Activity)
  {
    if a.start == b.start then IdBefore(a.key.id, b.key.id) else a.start < b.start
  }

  /** The ids agree up to a place where a ends, or has the smaller byte. */
  predicate Splits(a: string, b: string, n: nat)
  {
    n <= |a| && n < |b| && a[..n] == b[..n] && (n == |a| || a[n] < b[n])
  }

  ghost predicate Precedes(a: string, b: string) { exists n :: Splits(a, b, n) }

  lemma {:induction false} IdOrder(a: string, b: string)
    ensures IdBefore(a, b) <==> Precedes(a, b)
    decreases |b|
  {
    if b != "" && a == "" {
      assert Splits(a, b, 0);
    } else if b != "" {
      IdOrder(a[1..], b[1..]);
      if IdBefore(a, b) {
        if a[0] < b[0] {
          assert Splits(a, b, 0);
        } else {
          var n: nat :| Splits(a[1..], b[1..], n);
          assert a[..n + 1] == [a[0]] + a[1..][..n] && b[..n + 1] == [b[0]] + b[1..][..n];
          assert Splits(a, b, n + 1);
        }
      }
      if n: nat :| Splits(a, b, n) {
        if n > 0 {
          assert a[0] == a[..n][0] == b[..n][0] == b[0];
          assert a[1..][..n - 1] == a[..n][1..] == b[..n][1..] == b[1..][..n - 1];
          assert Splits(a[1..], b[1..], n - 1);
        }
      }
    }
  }

  /** Row i is a scheduled activity of the queue and none is older. */
  ghost predicate Oldest(rows: seq<Activity>, queue: string, i: nat)
  {
    && i < |rows| && Matches(rows[i], queue)
    && forall j :: 0 <= j < |rows| && Matches(rows[j], queue) ==> !Older(rows[j], rows[i])
  }

  function ReapAll(rows: seq<Activity>, now: nat): (r: seq<Activity>)
    ensures |r| == |rows| && forall i :: 0 <= i < |rows| ==> r[i] == Reap(rows[i], now)
  {
    seq(|rows|, i requires 0 <= i < |rows| => Reap(rows[i], now))
  }

  function IndexOf(rows: seq<Activity>, key: Key): (i: nat)
    ensures i <= |rows|
    ensures i < |rows| ==> rows[i].key == key
    ensures forall k :: 0 <= k < i ==> rows[k].key != key
  {
    if rows == [] || rows[0].key == key then 0 else 1 + IndexOf(rows[1..], key)
  }

  /** A row put under its key: over the one there, or a new one. */
  function Place(rows: seq<Activity>, a: Activity): seq<Activity>
  {
    var i := IndexOf(rows, a.key);
    if i < |rows| then rows[i := a] else rows + [a]
  }

  datatype Step =
    | DoStart(a: Activity)
    | DoReap(now: nat)
    | DoHandOut(i: nat, queue: string, identity: string, fallback: int, now: nat)
    | DoBeat(key: Key, now: nat)
    | DoClose(key: Key, status: Status)

  function Apply(rows: seq<Activity>, step: Step): seq<Activity>
    requires step.DoHandOut? ==> step.i < |rows|
  {
    match step
    case DoStart(a) => Place(rows, a)
    case DoReap(now) => ReapAll(rows, now)
    case DoHandOut(i, _, identity, fallback, now) => rows[i := HandOut(rows[i], identity, fallback, now)]
    case DoBeat(key, now) =>
      var i := IndexOf(rows, key);
      if i < |rows| then rows[i := Beat(rows[i], now)] else rows
    case DoClose(key, status) =>
      var i := IndexOf(rows, key);
      if i < |rows| then rows[i := Close(rows[i], status)] else rows
  }

  ghost predicate Allowed(rows: seq<Activity>, step: Step)
  {
    match step
    case DoStart(a) => exists identity :: a == Fresh(a.key, a.queue, a.start, identity, a.maximum, a.heartbeatTimeout)
    case DoHandOut(i, queue, _, _, _) => Oldest(rows, queue, i)
    case DoClose(_, status) => IsTerminal(status)
    case _ => true
  }

  ghost predicate Leads(rows: seq<Activity>, steps: seq<Step>, rows': seq<Activity>)
    decreases |steps|
  {
    if steps == [] then rows' == rows
    else Allowed(rows, steps[0]) && Leads(Apply(rows, steps[0]), steps[1..], rows')
  }

  ghost predicate AllGood(rows: seq<Activity>) { forall i :: 0 <= i < |rows| ==> Good(rows[i]) }

  lemma OneGood(rows: seq<Activity>, i: nat, a: Activity)
    requires AllGood(rows) && i < |rows| && Good(a)
    ensures AllGood(rows[i := a])
  {
  }

  lemma ReapAllGood(rows: seq<Activity>, now: nat)
    requires AllGood(rows)
    ensures AllGood(ReapAll(rows, now))
  {
    forall i | 0 <= i < |rows| ensures Good(ReapAll(rows, now)[i]) { ReapGood(rows[i], now); }
  }

  lemma StartGood(rows: seq<Activity>, a: Activity)
    requires AllGood(rows) && Allowed(rows, DoStart(a))
    ensures AllGood(Place(rows, a))
  {
    var identity :| a == Fresh(a.key, a.queue, a.start, identity, a.maximum, a.heartbeatTimeout);
    FreshGood(a.key, a.queue, a.start, identity, a.maximum, a.heartbeatTimeout);
  }

  lemma StepGood(rows: seq<Activity>, step: Step)
    requires AllGood(rows) && Allowed(rows, step)
    ensures AllGood(Apply(rows, step))
  {
    match step {
      case DoStart(a) => StartGood(rows, a);
      case DoReap(now) => ReapAllGood(rows, now);
      case DoHandOut(i, _, identity, fallback, now) =>
        GrantGood(rows[i], identity, Stamp(now + LeaseTTL(rows[i], fallback)), fallback, now);
        OneGood(rows, i, HandOut(rows[i], identity, fallback, now));
      case DoBeat(key, now) =>
        var i := IndexOf(rows, key);
        if i < |rows| {
          BeatGood(rows[i], now);
          OneGood(rows, i, Beat(rows[i], now));
        }
      case DoClose(key, status) =>
        var i := IndexOf(rows, key);
        if i < |rows| {
          CloseGood(rows[i], status);
          OneGood(rows, i, Close(rows[i], status));
        }
    }
  }

  lemma {:induction false} RunGood(rows: seq<Activity>, steps: seq<Step>, rows': seq<Activity>)
    requires AllGood(rows) && Leads(rows, steps, rows')
    ensures AllGood(rows')
    decreases |steps|
  {
    if steps != [] {
      StepGood(rows, steps[0]);
      RunGood(Apply(rows, steps[0]), steps[1..], rows');
    }
  }

  /** Over any run of operations an activity with a positive attempt limit is
      handed out at most that many times; between two hand-overs it was reaped,
      after the lease then in force had passed. */
  lemma {:induction false} ClaimsAreBounded(steps: seq<Step>, rows: seq<Activity>, i: nat)
    requires Leads([], steps, rows) && i < |rows|
    ensures HandOuts(rows[i].history) <= rows[i].attempt
    ensures rows[i].maximum > 0 ==> HandOuts(rows[i].history) <= rows[i].maximum
    ensures Separated(rows[i].history) && ReapsLate(rows[i].history)
  {
    RunGood([], steps, rows);
    assert Good(rows[i]);
  }

  /** A start under the activity's own key, which a caller may choose. */
  predicate Restarts(step: Step, key: Key) { step.DoStart? && step.a.key == key }

  /** A step changes a terminal activity exactly when it starts one under its key,
      which replaces it. */
  lemma {:induction false} TerminalChangesIff(rows: seq<Activity>, step: Step, key: Key)
    requires Allowed(rows, step) && IndexOf(rows, key) < |rows| && IsTerminal(rows[IndexOf(rows, key)].status)
    ensures var i := IndexOf(rows, key);
            i < |Apply(rows, step)| && (Apply(rows, step)[i] != rows[i] <==> Restarts(step, key))
  {
  }

  /** Once terminal, an activity never changes again, unless one is started under
      its key. */
  lemma {:induction false} TerminalIsFinal(rows: seq<Activity>, steps: seq<Step>, rows': seq<Activity>, i: nat)
    requires Leads(rows, steps, rows') && i < |rows| && IsTerminal(rows[i].status)
    requires forall k :: 0 <= k < |steps| ==> !Restarts(steps[k], rows[i].key)
    ensures i < |rows'| && rows'[i] == rows[i]
    decreases |steps|
  {
    if steps != [] {
      assert !Restarts(steps[0], rows[i].key);
      assert Apply(rows, steps[0])[i] == rows[i];
      TerminalIsFinal(Apply(rows, steps[0]), steps[1..], rows', i);
    }
  }

  // --------------------------------------------------------- how long a lease is

  /** How long a lease lasts: the activity's heartbeat timeout, else the lease asked
      for, else a minute. */
  function Term(timeout: int, asked: int): int
  {
    if timeout > 0 then timeout else if asked > 0 then asked else 60_000_000_000
  }

  /** The lease ends a term after the clock, less what its timestamp drops. */
  predicate Lasts(lease: int, at: int, term: int) { at + term - 1_000_000_000 < lease <= at + term }

  predicate Grants(e: Event) { e.HandedOut? || e.Heartbeat? }

  /** Every lease a history grants lasts its term. */
  ghost predicate Timed(timeout: int, h: seq<Event>)
  {
    forall i :: 0 <= i < |h| ==>
      && (h[i].HandedOut? ==> Lasts(h[i].expiry, h[i].at, Term(timeout, h[i].asked)))
      && (h[i].Heartbeat? && h[i].lease.Some? ==> Lasts(h[i].lease.value, h[i].at, Term(timeout, 0)))
  }

  ghost predicate AllTimed(rows: seq<Activity>)
  {
    forall i :: 0 <= i < |rows| ==> Timed(rows[i].heartbeatTimeout, rows[i].history)
  }

  lemma HandOutTimed(a: Activity, identity: string, fallback: int, now: nat)
    requires Timed(a.heartbeatTimeout, a.history)
    ensures var a' := HandOut(a, identity, fallback, now);
            && Timed(a'.heartbeatTimeout, a'.history) && a'.heartbeatTimeout == a.heartbeatTimeout
            && a'.lease.Some? && Lasts(a'.lease.value, now, Term(a.heartbeatTimeout, fallback))
  {
  }

  lemma BeatTimed(a: Activity, now: nat)
    requires Timed(a.heartbeatTimeout, a.history)
    ensures var a' := Beat(a, now);
            && Timed(a'.heartbeatTimeout, a'.history)
            && (!IsTerminal(a.status) ==>
                  && (a'.lease.Some? <==> a.lease.Some?)
                  && (a'.lease.Some? ==> Lasts(a'.lease.value, now, Term(a.heartbeatTimeout, 0))))
  {
  }

  lemma StepTimed(rows: seq<Activity>, step: Step)
    requires AllTimed(rows) && Allowed(rows, step)
    ensures AllTimed(Apply(rows, step))
  {
    match step {
      case DoStart(a) =>
        var identity :| a == Fresh(a.key, a.queue, a.start, identity, a.maximum, a.heartbeatTimeout);
      case DoReap(now) =>
      case DoHandOut(i, _, identity, fallback, now) => HandOutTimed(rows[i], identity, fallback, now);
      case DoBeat(key, now) => if IndexOf(rows, key) < |rows| { BeatTimed(rows[IndexOf(rows, key)], now); }
      case DoClose(key, status) =>
    }
  }

  lemma {:induction false} RunTimed(rows: seq<Activity>, steps: seq<Step>, rows': seq<Activity>)
    requires AllTimed(rows) && Leads(rows, steps, rows')
    ensures AllTimed(rows')
    decreases |steps|
  {
    if steps != [] {
      StepTimed(rows, steps[0]);
      RunTimed(Apply(rows, steps[0]), steps[1..], rows');
    }
  }

  /** The lease in force was granted by the last hand-out or heartbeat. */
  lemma {:induction false} GrantedBy(h: seq<Event>) returns (j: nat)
    requires InForce(h).Some?
    ensures j < |h| && forall m :: j < m < |h| ==> !Grants(h[m]) && !h[m].TimedOut?
    ensures (h[j].HandedOut? && h[j].expiry == InForce(h).value) || (h[j].Heartbeat? && h[j].lease == InForce(h))
  {
    var n := |h| - 1;
    if Grants(h[n]) {
      j := n;
    } else {
      j := GrantedBy(h[..n]);
      forall m | j < m < |h| ensures !Grants(h[m]) && !h[m].TimedOut? {
        if m < n { assert h[m] == h[..n][m]; }
      }
    }
  }

  /** The last grant before a reap, whose term the reap outlasted. */
  ghost predicate Outlasted(timeout: int, h: seq<Event>, j: nat, k: nat)
  {
    && j < k < |h| && h[k].TimedOut? && Grants(h[j]) && (forall m :: j < m < k ==> !Grants(h[m]))
    && h[k].at > h[j].at + Term(timeout, if h[j].HandedOut? then h[j].asked else 0) - 1_000_000_000
  }

  /** Over any run of operations an activity is handed out a second time only after
      a reap that came more than a term, less a second, after the last hand-out or
      heartbeat before it, which is no earlier than the first hand-out. */
  lemma {:induction false} LeasesLast(steps: seq<Step>, rows: seq<Activity>, i: nat, p: nat, q: nat)
    returns (j: nat, k: nat)
    requires Leads([], steps, rows) && i < |rows| && p < q < |rows[i].history|
    requires rows[i].history[p].HandedOut? && rows[i].history[q].HandedOut?
    ensures p <= j < k < q && Outlasted(rows[i].heartbeatTimeout, rows[i].history, j, k)
  {
    RunGood([], steps, rows);
    RunTimed([], steps, rows);
    var h := rows[i].history;
    assert Good(rows[i]) && Timed(rows[i].heartbeatTimeout, h);
    k :| p < k < q && h[k].TimedOut?;
    j := GrantedBy(h[..k]);
    assert h[..k][p] == h[p] && h[..k][j] == h[j];
    forall m | j < m < k ensures !Grants(h[m]) { assert h[..k][m] == h[m]; }
  }

  // ---------------------------------------------------------- one row, written out

  /** What a reap makes of a row: nothing while its lease runs, a failure when it is
      out of attempts, and otherwise the next attempt, unclaimed. */
  ghost predicate Reaped(a: Activity, a': Activity, now: nat)
  {
    if a.status != Started || a.lease.None? || now <= a.lease.value then a' == a
    else if 0 < a.maximum <= a.attempt then a' == a.(status := Failed, history := a.history + [Ended(Failed)])
    else
      a' == a.(status := Scheduled, attempt := a.attempt + 1, identity := "", lease := None,
               history := a.history + [TimedOut(a.attempt + 1, now)])
  }

  /** What a hand-out makes of a row: started under the claimant, with a lease that
      lasts its term. */
  ghost predicate Claimed(a: Activity, a': Activity, identity: string, asked: int, now: nat)
  {
    && a'.lease.Some? && Lasts(a'.lease.value, now, Term(a.heartbeatTimeout, asked))
    && a' == a.(status := Started, identity := identity, lease := a'.lease,
                history := a.history + [HandedOut(identity, a.attempt, a'.lease.value, asked, now)])
  }

  /** What a heartbeat makes of a row: started, and a lease it has lasts a term more. */
  ghost predicate Renewed(a: Activity, a': Activity, now: nat)
  {
    && (a'.lease.Some? <==> a.lease.Some?)
    && (a'.lease.Some? ==> Lasts(a'.lease.value, now, Term(a.heartbeatTimeout, 0)))
    && a' == a.(status := Started, lease := a'.lease, history := a.history + [Heartbeat(a'.lease, now)])
  }

  predicate Waits(a: Activity, queue: string) { a.status == Scheduled && queue in ["", a.queue] }

  /** Row i waits on the queue and none that waits there started earlier, or at the
      same time under a smaller id. */
  ghost predicate Foremost(rows: seq<Activity>, queue: string, i: nat)
  {
    && i < |rows| && Waits(rows[i], queue)
    && forall j :: 0 <= j < |rows| && Waits(rows[j], queue) ==>
         rows[i].start < rows[j].start
         || (rows[i].start == rows[j].start && !Precedes(rows[j].key.id, rows[i].key.id))
  }

  lemma OldestForemost(rows: seq<Activity>, queue: string, i: nat)
    ensures Oldest(rows, queue, i) <==> Foremost(rows, queue, i)
  {
    forall a, b ensures IdBefore(a, b) <==> Precedes(a, b) { IdOrder(a, b); }
    assert forall a: Activity :: Matches(a, queue) <==> Waits(a, queue);
  }

  // --------------------------------------------------------------- parked work

  /** Started with no lease: the reaper passes over it and no claim takes it. */
  predicate Parked(a: Activity) { a.status.Started? && a.lease.None? }

  predicate Schedules(e: Event) { e.WasScheduled? || e.TimedOut? }

  /** The position after the last event that scheduled the activity. */
  function Since(h: seq<Event>): (n: nat)
    ensures n <= |h|
  {
    if h == [] then 0 else if Schedules(h[|h| - 1]) then |h| else Since(h[..|h| - 1])
  }

  /** A heartbeat came, since the activity was last scheduled, before any
      hand-out. */
  ghost predicate BeatFirst(h: seq<Event>)
  {
    exists k :: Since(h) <= k < |h| && h[k].Heartbeat? && forall m :: Since(h) <= m < k ==> !h[m].HandedOut?
  }

  ghost predicate HandedSince(h: seq<Event>)
  {
    exists m :: Since(h) <= m < |h| && h[m].HandedOut?
  }

  ghost predicate Untouched(h: seq<Event>)
  {
    forall m :: Since(h) <= m < |h| ==> !h[m].HandedOut? && !h[m].Heartbeat?
  }

  /** Which of the three an open activity is, read off its history. */
  ghost predicate Told(a: Activity)
  {
    && (a.status.Scheduled? ==> Untouched(a.history))
    && (a.status.Started? && a.lease.Some? ==> HandedSince(a.history) && !BeatFirst(a.history))
    && (Parked(a) ==> BeatFirst(a.history))
    && a.history != []
  }

  lemma {:induction false} SinceSnoc(h: seq<Event>, e: Event)
    ensures Since(h + [e]) == if Schedules(e) then |h| + 1 else Since(h)
  {
    assert (h + [e])[..|h|] == h;
  }

  lemma ToldSnoc(h: seq<Event>, e: Event)
    requires !Schedules(e)
    ensures e.HandedOut? && Untouched(h) ==> HandedSince(h + [e]) && !BeatFirst(h + [e])
    ensures e.Heartbeat? && (Untouched(h) || BeatFirst(h)) ==> BeatFirst(h + [e])
    ensures e.Heartbeat? && HandedSince(h) && !BeatFirst(h) ==> HandedSince(h + [e]) && !BeatFirst(h + [e])
  {
    var h' := h + [e];
    SinceSnoc(h, e);
    if e.HandedOut? && Untouched(h) {
      assert h'[|h|].HandedOut?;
      forall k | Since(h') <= k < |h'| ensures !h'[k].Heartbeat? { assert k < |h| ==> h'[k] == h[k]; }
    }
    if e.Heartbeat? && Untouched(h) {
      forall m | Since(h') <= m < |h| ensures !h'[m].HandedOut? { assert h'[m] == h[m]; }
      assert h'[|h|].Heartbeat?;
    }
    if e.Heartbeat? && BeatFirst(h) {
      var k :| Since(h) <= k < |h| && h[k].Heartbeat? && forall m :: Since(h) <= m < k ==> !h[m].HandedOut?;
      assert h'[k].Heartbeat?;
      forall m | Since(h') <= m < k ensures !h'[m].HandedOut? { assert h'[m] == h[m]; }
    }
    if e.Heartbeat? && HandedSince(h) && !BeatFirst(h) {
      LeasedBeat(h, e);
    }
  }

  lemma LeasedBeat(h: seq<Event>, e: Event)
    requires e.Heartbeat? && HandedSince(h) && !BeatFirst(h)
    ensures HandedSince(h + [e]) && !BeatFirst(h + [e])
  {
    var h' := h + [e];
    SinceSnoc(h, e);
    var m0 :| Since(h) <= m0 < |h| && h[m0].HandedOut?;
    assert h'[m0].HandedOut?;
    forall k | Since(h') <= k < |h'| && h'[k].Heartbeat? ensures exists m :: Since(h') <= m < k && h'[m].HandedOut? {
      if k < |h| {
        assert h[k].Heartbeat?;
        var m :| Since(h) <= m < k && h[m].HandedOut?;
        assert h'[m].HandedOut?;
      }
    }
  }

  lemma FreshTold(key: Key, queue: string, start: nat, identity: string, maximum: int, timeout: int)
    ensures Told(Fresh(key, queue, start, identity, maximum, timeout))
  {
  }

  lemma ReapTold(a: Activity, now: nat)
    requires Told(a)
    ensures Told(Reap(a, now))
  {
    SinceSnoc(a.history, TimedOut(a.attempt + 1, now));
  }

  lemma GrantTold(a: Activity, identity: string, expiry: nat, asked: int, at: nat)
    requires Told(a) && a.status.Scheduled?
    ensures Told(Grant(a, identity, expiry, asked, at))
  {
    ToldSnoc(a.history, HandedOut(identity, a.attempt, expiry, asked, at));
  }

  lemma BeatTold(a: Activity, lease: Option<nat>, at: nat)
    requires Told(a) && !IsTerminal(a.status) && (a.status.Scheduled? ==> a.lease.None?)
             && (lease.Some? <==> a.lease.Some?)
    ensures Told(a.(status := Started, lease := lease, history := a.history + [Heartbeat(lease, at)]))
  {
    ToldSnoc(a.history, Heartbeat(lease, at));
  }

  ghost predicate AllTold(rows: seq<Activity>) { forall i :: 0 <= i < |rows| ==> Told(rows[i]) }

  lemma ScheduledUnleased(a: Activity)
    requires Good(a) && a.status.Scheduled?
    ensures a.lease.None?
  {
  }

  lemma OneTold(rows: seq<Activity>, i: nat, a: Activity)
    requires AllTold(rows) && i < |rows| && Told(a)
    ensures AllTold(rows[i := a])
  {
  }

  lemma BeatKeepsTold(a: Activity, now: nat)
    requires Told(a) && (a.status.Scheduled? ==> a.lease.None?)
    ensures Told(Beat(a, now))
  {
    if !IsTerminal(a.status) { BeatTold(a, if a.lease.Some? then Some(Stamp(now + LeaseTTL(a, 0))) else None, now); }
  }

  lemma StepTold(rows: seq<Activity>, step: Step)
    requires AllGood(rows) && AllTold(rows) && Allowed(rows, step)
    ensures AllTold(Apply(rows, step))
  {
    match step {
      case DoStart(a) =>
        var identity :| a == Fresh(a.key, a.queue, a.start, identity, a.maximum, a.heartbeatTimeout);
        FreshTold(a.key, a.queue, a.start, identity, a.maximum, a.heartbeatTimeout);
      case DoReap(now) => forall i | 0 <= i < |rows| ensures Told(ReapAll(rows, now)[i]) { ReapTold(rows[i], now); }
      case DoHandOut(i, _, identity, fallback, now) =>
        GrantTold(rows[i], identity, Stamp(now + LeaseTTL(rows[i], fallback)), fallback, now);
        OneTold(rows, i, HandOut(rows[i], identity, fallback, now));
      case DoBeat(key, now) =>
        if IndexOf(rows, key) < |rows| {
          var a := rows[IndexOf(rows, key)];
          if a.status.Scheduled? { ScheduledUnleased(a); }
          BeatKeepsTold(a, now);
          OneTold(rows, IndexOf(rows, key), Beat(a, now));
        }
      case DoClose(key, status) =>
          if IndexOf(rows, key) < |rows| { OneTold(rows, IndexOf(rows, key), Close(rows[IndexOf(rows, key)], status)); }
    }
  }

  lemma {:induction false} RunTold(rows: seq<Activity>, steps: seq<Step>, rows': seq<Activity>)
    requires AllGood(rows) && AllTold(rows) && Leads(rows, steps, rows')
    ensures AllTold(rows')
    decreases |steps|
  {
    if steps != [] {
      StepGood(rows, steps[0]);
      StepTold(rows, steps[0]);
      RunTold(Apply(rows, steps[0]), steps[1..], rows');
    }
  }

  /** In every reachable state an open activity is parked exactly when its first
      heartbeat since it was last scheduled came before a hand-out. */
  lemma {:induction false} ParkedIffBeatFirst(steps: seq<Step>, rows: seq<Activity>, i: nat)
    requires Leads([], steps, rows) && i < |rows| && !IsTerminal(rows[i].status)
    ensures Parked(rows[i]) <==> BeatFirst(rows[i].history)
  {
    RunTold([], steps, rows);
    assert Told(rows[i]);
  }

  /** The next heartbeat parks an open activity exactly when it is scheduled or
      parked already. */
  lemma BeatParksIff(a: Activity, now: nat)
    requires Good(a) && !IsTerminal(a.status)
    ensures Parked(Beat(a, now)) <==> a.status.Scheduled? || Parked(a)
  {
  }

  /** The shortest run that parks an activity: started, then a heartbeat. */
  lemma HeartbeatFirstParks(key: Key, queue: string, start: nat, maximum: int, timeout: int, now: nat)
    ensures var a := Fresh(key, queue, start, "", maximum, timeout);
            && Leads([], [DoStart(a), DoBeat(key, now)], [Beat(a, now)])
            && Parked(Beat(a, now))
  {
    var a := Fresh(key, queue, start, "", maximum, timeout);
    var steps := [DoStart(a), DoBeat(key, now)];
    assert Apply([], steps[0]) == [a];
    assert steps[1..] == [DoBeat(key, now)] && [DoBeat(key, now)][1..] == [];
    assert Apply([a], DoBeat(key, now)) == [Beat(a, now)];
    assert Leads([a], [DoBeat(key, now)], [Beat(a, now)]);
  }

  lemma ParkedStep(rows: seq<Activity>, step: Step, i: nat)
    requires Allowed(rows, step) && i < |rows| && (Parked(rows[i]) || IsTerminal(rows[i].status))
             && !Restarts(step, rows[i].key)
    ensures var next := Apply(rows, step);
            i < |next| && next[i].key == rows[i].key && (Parked(next[i]) || IsTerminal(next[i].status))
                && HandOuts(next[i].history) == HandOuts(rows[i].history)
  {
    match step {
      case DoBeat(key, now) => if IndexOf(rows, key) == i { Snoc(rows[i].history, Heartbeat(None, now)); }
      case DoClose(key, status) => if IndexOf(rows, key) == i { Snoc(rows[i].history, Ended(status)); }
      case _ =>
    }
  }

  /** Once parked an activity is neither reaped nor handed out again by any run,
      only closed, or replaced by a start under its key. */
  lemma {:induction false} ParkedStays(rows: seq<Activity>, steps: seq<Step>, rows': seq<Activity>, i: nat)
    requires Leads(rows, steps, rows') && i < |rows| && (Parked(rows[i]) || IsTerminal(rows[i].status))
    requires forall k :: 0 <= k < |steps| ==> !Restarts(steps[k], rows[i].key)
    ensures i < |rows'| && (Parked(rows'[i]) || IsTerminal(rows'[i].status))
    ensures HandOuts(rows'[i].history) == HandOuts(rows[i].history)
    decreases |steps|
  {
    if steps != [] {
      assert !Restarts(steps[0], rows[i].key);
      ParkedStep(rows, steps[0], i);
      ParkedStays(Apply(rows, steps[0]), steps[1..], rows', i);
    }
  }
}
