/** The claim queue as written: rows updated in place by loops over the listed
    activities (pkg/tasks/activities.go). The clock readings are parameters. */
module ClaimQueue {
  import opened Basics
  import opened Leases

  /** Listed oldest first: no later row is older than an earlier one. */
  ghost predicate ByAge(l: seq<Activity>)
  {
    forall i, j :: 0 <= i < j < |l| ==> !Older(l[j], l[i])
  }

  lemma {:induction false} IdBeforeOrder(a: string, b: string, c: string)
    ensures !(IdBefore(a, b) && IdBefore(b, a))
    ensures IdBefore(a, c) ==> IdBefore(a, b) || IdBefore(b, c)
    decreases |a|
  {
    if a != "" && b != "" && c != "" { IdBeforeOrder(a[1..], b[1..], c[1..]); }
    if a != "" && b != "" && c == "" { IdBeforeOrder(a[1..], b[1..], ""); }
  }

  lemma OlderOrder(a: Activity, b: Activity, c: Activity)
    ensures !(Older(a, b) && Older(b, a))
    ensures Older(a, c) ==> Older(a, b) || Older(b, c)
  {
    IdBeforeOrder(a.key.id, b.key.id, c.key.id);
  }

  lemma InsertByAge(l: seq<Activity>, k: nat, a: Activity)
    requires ByAge(l) && k <= |l|
    requires k < |l| ==> Older(a, l[k])
    requires 0 < k ==> !Older(a, l[k - 1])
    ensures ByAge(l[..k] + [a] + l[k..])
  {
    forall i | 0 <= i < k ensures !Older(a, l[i]) {
      if i < k - 1 { OlderOrder(a, l[k - 1], l[i]); }
    }
    forall j | k <= j < |l| ensures !Older(l[j], a) {
      OlderOrder(a, l[j], l[k]);
      OlderOrder(l[j], l[j], l[j]);
    }
    var r := l[..k] + [a] + l[k..];
    forall i, j | 0 <= i < j < |r| ensures !Older(r[j], r[i]) {
      if i < k {
        if j > k { assert r[j] == l[j - 1] && r[i] == l[i]; }
      } else if i > k {
        assert r[j] == l[j - 1] && r[i] == l[i - 1];
      }
    }
  }

  lemma InsertKeeps(l: seq<Activity>, k: nat, a: Activity)
    requires k <= |l|
    ensures multiset(l[..k] + [a] + l[k..]) == multiset(l) + multiset{a}
  {
    assert l == l[..k] + l[k..];
  }

  /** One row put in its place among the sorted ones. */
  method Insert(l: seq<Activity>, a: Activity) returns (r: seq<Activity>)
    requires ByAge(l)
    ensures ByAge(r) && multiset(r) == multiset(l) + multiset{a}
  {
    var k := |l|;
    while k > 0 && Older(a, l[k - 1])
      invariant 0 <= k <= |l| && (k < |l| ==> Older(a, l[k]))
    {
      k := k - 1;
    }
    InsertByAge(l, k, a);
    InsertKeeps(l, k, a);
    r := l[..k] + [a] + l[k..];
  }

  /** The listed rows sorted by start time and id. */
  method SortByAge(rows: seq<Activity>) returns (l: seq<Activity>)
    ensures ByAge(l) && multiset(l) == multiset(rows)
  {
    l := [];
    for n := 0 to |rows|
      invariant ByAge(l) && multiset(l) == multiset(rows[..n])
    {
      assert rows[..n + 1] == rows[..n] + [rows[n]];
      l := Insert(l, rows[n]);
    }
    assert rows[..|rows|] == rows;
  }

  lemma PlaceFinds(rows: seq<Activity>, a: Activity)
    ensures IndexOf(Place(rows, a), a.key) < |Place(rows, a)|
  {
    assert Place(rows, a)[IndexOf(rows, a.key)].key == a.key;
  }

  /** The activity is there and has not ended. */
  predicate Live(rows: seq<Activity>, key: Key)
  {
    var i := IndexOf(rows, key);
    i < |rows| && rows[i].status in {Scheduled, Started}
  }

  /** A row replaced under its own key is found where it was. */
  lemma StillThere(rows: seq<Activity>, key: Key, a: Activity)
    requires IndexOf(rows, key) < |rows| && a.key == key
    ensures IndexOf(rows[IndexOf(rows, key) := a], key) == IndexOf(rows, key)
  {
    var i := IndexOf(rows, key);
    assert rows[i := a][i].key == key;
  }

  class Queue {
    var rows: seq<Activity>
    var idem: map<(string, string), string>

    constructor ()
      ensures rows == [] && idem == map[]
    {
      rows, idem := [], map[];
    }

    /** The activity an earlier request with the same request id made. */
    ghost function Earlier(id: string, requestId: string): Option<Key>
      reads this
    {
      if requestId != "" && (id, requestId) in idem && IndexOf(rows, Key(id, idem[(id, requestId)])) < |rows|
      then Some(Key(id, idem[(id, requestId)])) else None
    }

    /** Refused exactly without a namespace, a type or an id; a repeated request
        gets the activity it made before and changes nothing; any other puts a
        scheduled activity under its key, and repeated it would get that one. */
    method StartActivity(registered: bool, typ: string, key: Key, queue: string, start: nat, identity: string,
                         maximum: int, heartbeatTimeout: int, requestId: string) returns (r: Option<Key>)
      modifies this
      ensures r.None? <==> !registered || typ == "" || key.id == ""
      ensures r.None? || old(Earlier(key.id, requestId)).Some? ==> rows == old(rows) && idem == old(idem)
      ensures r.Some? ==> r == if old(Earlier(key.id, requestId)).Some? then old(Earlier(key.id, requestId))
              else Some(key)
      ensures r.Some? && old(Earlier(key.id, requestId)).None? ==>
                var named := if queue == "" then "default" else queue;
                var a := Fresh(key, named, start, identity, maximum, heartbeatTimeout);
                && a == Activity(key, named, Scheduled, start, identity, 1, maximum, heartbeatTimeout, None,
                                 [WasScheduled])
                && Leads(old(rows), [DoStart(a)], rows)
                && (var k := IndexOf(old(rows), key);
                    rows == if k < |old(rows)| then old(rows)[k := a] else old(rows) + [a])
                && idem == if requestId == "" then old(idem) else old(idem)[(key.id, requestId) := key.run]
      ensures r.Some? && requestId != "" ==> Earlier(key.id, requestId) == r
    {
      if !registered || typ == "" || key.id == "" { return None; }
      if requestId != "" && (key.id, requestId) in idem {
        var prev := Key(key.id, idem[(key.id, requestId)]);
        if IndexOf(rows, prev) < |rows| { return Some(prev); }
      }
      var a := Fresh(key, if queue == "" then "default" else queue, start, identity, maximum, heartbeatTimeout);
      PlaceFinds(rows, a);
      assert [DoStart(a)][1..] == [];
      rows := Place(rows, a);
      if requestId != "" { idem := idem[(key.id, requestId) := key.run]; }
      r := Some(key);
    }

    method ReapExpiredLeases(now: nat)
      modifies this`rows
      ensures rows == ReapAll(old(rows), now)
      ensures |rows| == |old(rows)| && forall i :: 0 <= i < |rows| ==> Reaped(old(rows)[i], rows[i], now)
    {
      var listed := rows;
      for i := 0 to |listed|
        invariant |rows| == |listed| && listed == old(rows)
        invariant forall k :: 0 <= k < i ==> rows[k] == Reap(listed[k], now)
        invariant forall k :: i <= k < |rows| ==> rows[k] == listed[k]
      {
        var a := listed[i];
        if a.status.Started? && a.lease.Some? && now > a.lease.value {
          if a.maximum > 0 && a.attempt >= a.maximum {
            rows := rows[i := Close(a, Failed)];
          } else {
            rows := rows[i := a.(status := Scheduled, attempt := a.attempt + 1, identity := "", lease := None,
                                 history := a.history + [TimedOut(a.attempt + 1, now)])];
          }
        }
      }
    }

    /** Reap, then hand out an oldest scheduled activity of the queue; nothing
        exactly when there is none. The lease lasts the heartbeat timeout, else the
        lease asked for, else a minute. */
    method ClaimNextActivity(registered: bool, queue: string, identity: string, lease: int, reapAt: nat, now: nat)
      returns (r: Option<Activity>, ghost i: nat)
      modifies this`rows
      ensures !registered ==> r == None && rows == old(rows)
      ensures registered && r.None? ==>
                rows == ReapAll(old(rows), reapAt) && forall j :: 0 <= j < |rows| ==> !Waits(rows[j], queue)
      ensures r.Some? ==>
                && registered && Oldest(ReapAll(old(rows), reapAt), queue, i)
                && rows == Apply(ReapAll(old(rows), reapAt), DoHandOut(i, queue, identity, lease, now))
                && r.value == rows[i]
      ensures r.Some? ==> var reaped := ReapAll(old(rows), reapAt);
                          && Foremost(reaped, queue, i) && Claimed(reaped[i], r.value, identity, lease, now)
                          && rows == reaped[i := r.value]
      ensures r.Some? ==> Leads(old(rows), [DoReap(reapAt), DoHandOut(i, queue, identity, lease, now)], rows)
    {
      i := 0;
      if !registered { return None, i; }
      ReapExpiredLeases(reapAt);
      var l := SortByAge(rows);
      SameMembers(l, rows);
      ghost var reaped := rows;
      for n := 0 to |l|
        invariant rows == reaped && forall k :: 0 <= k < n ==> !Matches(l[k], queue)
      {
        if l[n].status.Scheduled? && (queue == "" || l[n].queue == queue) {
          assert l[n] in rows;
          var at: nat :| at < |rows| && rows[at] == l[n];
          i := at;
          FirstMatchIsOldest(l, rows, queue, n, at);
          OldestForemost(rows, queue, at);
          rows := rows[at := HandOut(l[n], identity, lease, now)];
          ghost var second := [DoHandOut(at, queue, identity, lease, now)];
          assert [DoReap(reapAt), DoHandOut(at, queue, identity, lease, now)][1..] == second;
          assert Leads(rows, second[1..], rows);
          assert Leads(reaped, second, rows);
          return Some(rows[at]), i;
        }
      }
      assert forall j :: 0 <= j < |rows| ==> rows[j] in l;
      r := None;
    }

    method HeartbeatActivity(key: Key, now: nat) returns (ok: bool)
      modifies this`rows
      ensures rows == Apply(old(rows), DoBeat(key, now))
      ensures ok <==> Live(old(rows), key)
      ensures ok ==> var i := IndexOf(rows, key);
                     && i < |rows| && rows == old(rows)[i := rows[i]] && Renewed(old(rows)[i], rows[i], now)
      ensures !ok ==> rows == old(rows)
    {
      var i := IndexOf(rows, key);
      if i == |rows| { return false; }
      var a := rows[i];
      if IsTerminal(a.status) { return false; }
      if a.status.Scheduled? { a := a.(status := Started); }
      if a.lease.Some? { a := a.(lease := Some(Stamp(now + LeaseTTL(a, 0)))); }
      a := a.(history := a.history + [Heartbeat(a.lease, now)]);
      StillThere(rows, key, a);
      rows := rows[i := a];
      ok := true;
    }

    method ActivityTerminal(key: Key, status: Status) returns (ok: bool)
      modifies this`rows
      ensures rows == Apply(old(rows), DoClose(key, status))
      ensures ok <==> Live(old(rows), key)
      ensures ok ==> var i := IndexOf(rows, key);
                     && i < |rows| && rows == old(rows)[i := rows[i]]
                     && rows[i] == old(rows)[i].(status := status, history := old(rows)[i].history + [Ended(status)])
      ensures !ok ==> rows == old(rows)
    {
      var i := IndexOf(rows, key);
      if i == |rows| { return false; }
      var a := rows[i];
      if IsTerminal(a.status) { return false; }
      a := a.(status := status, history := a.history + [Ended(status)]);
      StillThere(rows, key, a);
      rows := rows[i := a];
      ok := true;
    }
  }

  lemma SameMembers(l: seq<Activity>, rows: seq<Activity>)
    requires multiset(l) == multiset(rows)
    ensures forall a :: a in l <==> a in rows
  {
    forall a ensures a in l <==> a in rows {
      assert a in multiset(l) <==> a in multiset(rows);
    }
  }

  lemma FirstMatchIsOldest(l: seq<Activity>, rows: seq<Activity>, queue: string, n: nat, at: nat)
    requires ByAge(l) && (forall a :: a in l <==> a in rows)
    requires n < |l| && Matches(l[n], queue) && forall k :: 0 <= k < n ==> !Matches(l[k], queue)
    requires at < |rows| && rows[at] == l[n]
    ensures Oldest(rows, queue, at)
  {
    forall j | 0 <= j < |rows| && Matches(rows[j], queue) ensures !Older(rows[j], rows[at]) {
      assert rows[j] in l;
      var k :| 0 <= k < |l| && l[k] == rows[j];
      if k == n { OlderOrder(l[n], l[n], l[n]); }
    }
  }
}
