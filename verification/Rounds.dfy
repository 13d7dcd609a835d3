/** Delivery round robin (pkg/tasks/dispatch.go): whose turn it is among the
    subscribers of a queue, over any number of sends. */
module Rounds {
  datatype Kind = WorkflowTasks | ActivityTasks
  datatype SubKey = SubKey(ns: string, queue: string, kind: Kind)
  datatype Sub = Sub(id: nat, peer: string, key: SubKey)

  ghost predicate Distinct(list: seq<Sub>)
  {
    forall i, j :: 0 <= i < j < |list| ==> list[i].id != list[j].id
  }

  /** A task offered to a subscriber, and whether the send succeeded. */
  datatype Sent<T> = Sent(sub: Sub, task: T, ok: bool)

  /** The place an index stands for in a list of n: its remainder. */
  function Turn(at: nat, n: nat): (i: nat)
    requires n > 0
    ensures i < n
  {
    if at < n then at else Turn(at - n, n)
  }

  lemma Multiple(k: int, n: int)
    requires n > 0
    ensures k > 0 ==> k * n >= n
    ensures k < 0 ==> k * n <= -n
  {
  }

  lemma NoMultiple(k: int, n: int, x: int, y: int)
    requires 0 <= x < n && 0 <= y < n && k * n == x - y
    ensures x == y
  {
    Multiple(k, n);
  }

  lemma {:induction false} TurnIsRemainder(at: nat, n: nat)
    requires n > 0
    ensures Turn(at, n) == at % n
    decreases at
  {
    if at >= n {
      TurnIsRemainder(at - n, n);
      var q, q' := at / n, (at - n) / n;
      assert at == q * n + at % n && at - n == q' * n + (at - n) % n;
      NoMultiple(q - q' - 1, n, (at - n) % n, at % n);
    }
  }

  /** The subscribers of a key and the stored index, perhaps left over from a
      longer list. */
  datatype Ring = Ring(list: seq<Sub>, at: nat)

  /** A send moves the index on, around the list, and a failed one takes its
      subscriber out. */
  function Move(r: Ring, ok: bool): Ring
  {
    if r.list == [] then r
    else
      var i := Turn(r.at, |r.list|);
      Ring(if ok then r.list else r.list[..i] + r.list[i + 1..], if i + 1 < |r.list| then i + 1 else 0)
  }

  /** What the sends from n up to m make of a ring. */
  function RingAt<T>(r: Ring, sends: seq<Sent<T>>, n: nat, m: nat): Ring
    requires m <= |sends|
  {
    if m <= n then r else Move(RingAt(r, sends, n, m - 1), sends[m - 1].ok)
  }

  /** The subscriber whose turn it is. */
  predicate Next(r: Ring, sub: Sub) { r.list != [] && sub == r.list[Turn(r.at, |r.list|)] }

  /** Each of the sends from n on went to the subscriber whose turn it was. */
  ghost predicate InTurn<T(!new)>(r: Ring, sends: seq<Sent<T>>, n: nat)
  {
    forall i {:trigger RingAt(r, sends, n, i)} :: n <= i < |sends| ==> Next(RingAt(r, sends, n, i), sends[i].sub)
  }

  lemma {:induction false} RingBefore<T>(r: Ring, sends: seq<Sent<T>>, more: seq<Sent<T>>, n: nat, m: nat)
    requires m <= |sends| && sends <= more
    ensures RingAt(r, sends, n, m) == RingAt(r, more, n, m)
    decreases m
  {
    if n < m { RingBefore(r, sends, more, n, m - 1); }
  }

  lemma {:induction false} RingJoin<T>(r: Ring, sends: seq<Sent<T>>, n: nat, k: nat, m: nat)
    requires n <= k <= m <= |sends|
    ensures RingAt(r, sends, n, m) == RingAt(RingAt(r, sends, n, k), sends, k, m)
    decreases m
  {
    if k < m {
      RingJoin(r, sends, n, k, m - 1);
      var p := RingAt(r, sends, n, k);
      assert RingAt(r, sends, n, m) == Move(RingAt(r, sends, n, m - 1), sends[m - 1].ok);
      assert RingAt(p, sends, k, m) == Move(RingAt(p, sends, k, m - 1), sends[m - 1].ok);
    }
  }

  /** One more send, to the next in turn. */
  lemma {:induction false} MoreTurns<T(!new)>(r: Ring, sends: seq<Sent<T>>, n: nat, x: Sent<T>)
    requires n <= |sends| && InTurn(r, sends, n) && Next(RingAt(r, sends, n, |sends|), x.sub)
    ensures InTurn(r, sends + [x], n)
    ensures RingAt(r, sends + [x], n, |sends| + 1) == Move(RingAt(r, sends, n, |sends|), x.ok)
  {
    var more := sends + [x];
    forall i | n <= i < |more| ensures Next(RingAt(r, more, n, i), more[i].sub) { RingBefore(r, sends, more, n, i); }
    RingBefore(r, sends, more, n, |sends|);
  }

  lemma {:induction false} TurnsOn<T(!new)>(r: Ring, sends: seq<Sent<T>>, more: seq<Sent<T>>, n: nat)
    requires n <= |sends| && sends <= more
    requires InTurn(r, sends, n) && InTurn(RingAt(r, sends, n, |sends|), more, |sends|)
    ensures InTurn(r, more, n)
    ensures RingAt(r, more, n, |more|) == RingAt(RingAt(r, sends, n, |sends|), more, |sends|, |more|)
  {
    RingBefore(r, sends, more, n, |sends|);
    forall i | n <= i < |more| ensures Next(RingAt(r, more, n, i), more[i].sub) {
      if i < |sends| {
        RingBefore(r, sends, more, n, i);
      } else {
        RingJoin(r, more, n, |sends|, i);
      }
    }
    RingJoin(r, more, n, |sends|, |more|);
  }

  /** The place j steps on from place i of n, around. */
  function Around(i: nat, j: nat, n: nat): (k: nat)
    requires i < n && j <= n
    ensures k < n
  {
    if i + j < n then i + j else i + j - n
  }

  ghost predicate AllTaken<T(!new)>(sends: seq<Sent<T>>, n: nat)
  {
    forall i :: n <= i < |sends| ==> sends[i].ok
  }

  lemma {:induction false} RingTaken<T(!new)>(r: Ring, sends: seq<Sent<T>>, n: nat, m: nat)
    requires r.list != [] && AllTaken(sends, n) && n <= m <= |sends| && m - n <= |r.list|
    ensures RingAt(r, sends, n, m).list == r.list
    ensures Turn(RingAt(r, sends, n, m).at, |r.list|) == Around(Turn(r.at, |r.list|), m - n, |r.list|)
    decreases m
  {
    if n < m { RingTaken(r, sends, n, m - 1); }
  }

  lemma {:induction false} ListKept<T(!new)>(r: Ring, sends: seq<Sent<T>>, n: nat, m: nat)
    requires AllTaken(sends, n) && m <= |sends|
    ensures RingAt(r, sends, n, m).list == r.list
    decreases m
  {
    if n < m { ListKept(r, sends, n, m - 1); }
  }

  /** Exactly one of the sends from n on went to sub. */
  ghost predicate Once<T(!new)>(sends: seq<Sent<T>>, n: nat, sub: Sub)
  {
    exists j :: n <= j < |sends| && sends[j].sub == sub &&
      forall k :: n <= k < |sends| && k != j ==> sends[k].sub != sub
  }

  lemma TakerAt<T(!new)>(r: Ring, sends: seq<Sent<T>>, n: nat, j: nat)
    requires j < |r.list| && n + j < |sends| && InTurn(r, sends, n) && AllTaken(sends, n)
    ensures sends[n + j].sub == r.list[Around(Turn(r.at, |r.list|), j, |r.list|)]
  {
    RingTaken(r, sends, n, n + j);
    assert Next(RingAt(r, sends, n, n + j), sends[n + j].sub);
  }

  /** As many sends in a row as there are subscribers, none failing, reach each of
      them once, also from an index left over from a longer list. */
  lemma EachTakesOne<T(!new)>(r: Ring, sends: seq<Sent<T>>, n: nat, sub: Sub)
    requires Distinct(r.list) && n + |r.list| == |sends| && sub in r.list
    requires InTurn(r, sends, n) && AllTaken(sends, n)
    ensures Once(sends, n, sub)
  {
    var l, i := |r.list|, Turn(r.at, |r.list|);
    var p :| 0 <= p < l && r.list[p] == sub;
    var j := if p >= i then p - i else p + l - i;
    TakerAt(r, sends, n, j);
    assert Around(i, j, l) == p;
    forall k | n <= k < |sends| && k != n + j ensures sends[k].sub != sub {
      TakerAt(r, sends, n, k - n);
      assert Around(i, k - n, l) != p;
    }
  }

  lemma NextAfterLoss(r: Ring, sub: Sub)
    requires |r.list| > 2 && Next(Move(r, false), sub)
    ensures var i, l := Turn(r.at, |r.list|), |r.list|;
            sub == if i == l - 1 || i == l - 2 then r.list[0] else r.list[i + 2]
  {
    var i, l := Turn(r.at, |r.list|), |r.list|;
    if i == l - 2 { assert Turn(i + 1, l - 1) == Turn(0, l - 1); }
  }

  /** A failed send passes over the subscriber after the failed one, unless the
      failed one was the last of the list: with three or more the next in turn is
      two places on. */
  lemma FailureSkips<T(!new)>(r: Ring, sends: seq<Sent<T>>, n: nat)
    requires InTurn(r, sends, n) && n + 2 <= |sends| && |r.list| > 2 && !sends[n].ok
    ensures var i, l := Turn(r.at, |r.list|), |r.list|;
            && sends[n].sub == r.list[i]
            && sends[n + 1].sub == if i == l - 1 || i == l - 2 then r.list[0] else r.list[i + 2]
  {
    assert Next(RingAt(r, sends, n, n), sends[n].sub) && Next(RingAt(r, sends, n, n + 1), sends[n + 1].sub);
    NextAfterLoss(r, sends[n + 1].sub);
  }
}
