/** The dispatcher (pkg/tasks/dispatch.go): who is subscribed to which queue,
    round-robin delivery that prunes unreachable peers, and a FIFO backlog per
    queue. Each operation runs under one mutex. The two task kinds have twin
    tables in the source; here the kind is part of the key. */
module Dispatcher {
  import opened Basics
  import opened Rounds

  type ByKey = map<SubKey, seq<Sub>>
  type ByPeer = map<string, seq<Sub>>

  /** A table read the way the source reads it: a missing entry is empty. */
  function Of<K, V>(m: map<K, seq<V>>, k: K): seq<V>
  {
    if k in m then m[k] else []
  }

  // ------------------------------------------------------- subscription lists

  /** The list without its first entry of that id. */
  function Remove(list: seq<Sub>, id: nat): seq<Sub>
  {
    if list == [] then []
    else if list[0].id == id then list[1..]
    else [list[0]] + Remove(list[1..], id)
  }

  lemma {:induction false} RemoveDrops(list: seq<Sub>, id: nat)
    requires Distinct(list)
    ensures Distinct(Remove(list, id))
    ensures forall s :: s in Remove(list, id) <==> s in list && s.id != id
    ensures (exists s :: s in list && s.id == id) ==> |Remove(list, id)| == |list| - 1
  {
    if list != [] {
      assert list == [list[0]] + list[1..];
      if list[0].id == id {
        forall s | s in list[1..] ensures s.id != id {
          var j :| 0 <= j < |list[1..]| && list[1..][j] == s;
          assert list[j + 1] == s;
        }
      } else {
        RemoveDrops(list[1..], id);
        var rest := Remove(list[1..], id);
        forall j | 0 <= j < |rest| ensures rest[j].id != list[0].id {
          assert rest[j] in list[1..];
          var i :| 0 <= i < |list[1..]| && list[1..][i] == rest[j];
          assert list[i + 1] == rest[j];
        }
      }
    }
  }

  lemma {:induction false} RemoveStep(list: seq<Sub>, id: nat, i: nat)
    requires i < |list| && Remove(list, id) == list[..i] + Remove(list[i..], id)
    ensures list[i].id == id ==> Remove(list, id) == list[..i] + list[i + 1..]
    ensures list[i].id != id ==> Remove(list, id) == list[..i + 1] + Remove(list[i + 1..], id)
  {
    assert list[i..][0] == list[i] && list[i..][1..] == list[i + 1..];
    assert list[..i] + ([list[i]] + Remove(list[i + 1..], id)) == list[..i + 1] + Remove(list[i + 1..], id);
  }

  /** In a list of distinct ids the one at place i is what goes. */
  lemma {:induction false} RemoveAt(list: seq<Sub>, i: nat)
    requires Distinct(list) && i < |list|
    ensures Remove(list, list[i].id) == list[..i] + list[i + 1..]
  {
    if i > 0 {
      assert list[0].id != list[i].id && list[1..][i - 1] == list[i];
      RemoveAt(list[1..], i - 1);
      assert [list[0]] + (list[1..][..i - 1] + list[1..][i..]) == list[..i] + list[i + 1..];
    }
  }

  method RemoveFrom(list: seq<Sub>, id: nat) returns (out: seq<Sub>)
    ensures out == Remove(list, id)
  {
    for i := 0 to |list|
      invariant Remove(list, id) == list[..i] + Remove(list[i..], id)
    {
      RemoveStep(list, id, i);
      if list[i].id == id {
        return list[..i] + list[i + 1..];
      }
    }
    assert list[..|list|] == list && list[|list|..] == [];
    out := list;
  }

  // ------------------------------------------------------- the two-way index

  ghost predicate UniqueIds(live: set<Sub>)
  {
    forall s, t :: s in live && t in live && s.id == t.id ==> s == t
  }

  /** list holds, once each, the live subscriptions of key k. */
  ghost predicate ListsKey(list: seq<Sub>, live: set<Sub>, k: SubKey)
  {
    Distinct(list) && forall s :: s in list <==> s in live && s.key == k
  }

  /** list holds, once each, the live subscriptions of peer p. */
  ghost predicate ListsPeer(list: seq<Sub>, live: set<Sub>, p: string)
  {
    Distinct(list) && forall s :: s in list <==> s in live && s.peer == p
  }

  ghost predicate KeyIndex(subs: ByKey, live: set<Sub>)
  {
    forall k {:trigger ListsKey(Of(subs, k), live, k)} :: ListsKey(Of(subs, k), live, k)
  }

  ghost predicate PeerIndex(byPeer: ByPeer, live: set<Sub>)
  {
    forall p {:trigger ListsPeer(Of(byPeer, p), live, p)} :: ListsPeer(Of(byPeer, p), live, p)
  }

  /** Both tables list the same subscriptions: each one once under its key and
      once under its peer. */
  ghost predicate IndexesAgree(subs: ByKey, byPeer: ByPeer, live: set<Sub>)
  {
    KeyIndex(subs, live) && PeerIndex(byPeer, live) && UniqueIds(live)
  }

  lemma KeyAdd(subs: ByKey, live: set<Sub>, sub: Sub)
    requires KeyIndex(subs, live) && forall s :: s in live ==> s.id != sub.id
    ensures KeyIndex(subs[sub.key := Of(subs, sub.key) + [sub]], live + {sub})
  {
    var subs', list := subs[sub.key := Of(subs, sub.key) + [sub]], Of(subs, sub.key);
    forall k ensures ListsKey(Of(subs', k), live + {sub}, k) {
      assert ListsKey(Of(subs, k), live, k);
      if k == sub.key {
        forall i | 0 <= i < |list| ensures list[i].id != sub.id { assert list[i] in list; }
      }
    }
  }

  lemma PeerAdd(byPeer: ByPeer, live: set<Sub>, sub: Sub)
    requires PeerIndex(byPeer, live) && forall s :: s in live ==> s.id != sub.id
    ensures PeerIndex(byPeer[sub.peer := Of(byPeer, sub.peer) + [sub]], live + {sub})
  {
    var byPeer', list := byPeer[sub.peer := Of(byPeer, sub.peer) + [sub]], Of(byPeer, sub.peer);
    forall p ensures ListsPeer(Of(byPeer', p), live + {sub}, p) {
      assert ListsPeer(Of(byPeer, p), live, p);
      if p == sub.peer {
        forall i | 0 <= i < |list| ensures list[i].id != sub.id { assert list[i] in list; }
      }
    }
  }

  lemma KeyDrop(subs: ByKey, subs': ByKey, live: set<Sub>, sub: Sub)
    requires KeyIndex(subs, live) && UniqueIds(live) && sub in live
    requires forall k :: Of(subs', k) == if k == sub.key then Remove(Of(subs, k), sub.id) else Of(subs, k)
    ensures KeyIndex(subs', live - {sub})
  {
    forall k ensures ListsKey(Of(subs', k), live - {sub}, k) {
      assert ListsKey(Of(subs, k), live, k);
      RemoveDrops(Of(subs, k), sub.id);
    }
  }

  /** list' is list without sub, the rest in the same order. */
  ghost predicate Without(list: seq<Sub>, list': seq<Sub>, sub: Sub)
  {
    exists i :: 0 <= i < |list| && list[i] == sub && list' == list[..i] + list[i + 1..]
  }

  lemma WithoutAt(list: seq<Sub>, list': seq<Sub>, i: nat)
    requires Distinct(list) && i < |list| && Without(list, list', list[i])
    ensures list' == list[..i] + list[i + 1..]
  {
  }

  lemma KeyDistinct(subs: ByKey, live: set<Sub>, key: SubKey)
    requires KeyIndex(subs, live)
    ensures Distinct(Of(subs, key))
  {
    assert ListsKey(Of(subs, key), live, key);
  }

  lemma KeyWithout(subs: ByKey, live: set<Sub>, sub: Sub)
    requires KeyIndex(subs, live) && sub in live
    ensures Without(Of(subs, sub.key), Remove(Of(subs, sub.key), sub.id), sub)
  {
    var list := Of(subs, sub.key);
    assert ListsKey(list, live, sub.key) && sub in list;
    var i :| 0 <= i < |list| && list[i] == sub;
    RemoveAt(list, i);
  }

  lemma PeerDrop(byPeer: ByPeer, byPeer': ByPeer, live: set<Sub>, sub: Sub)
    requires PeerIndex(byPeer, live) && UniqueIds(live) && sub in live
    requires forall p :: Of(byPeer', p) == if p == sub.peer then Remove(Of(byPeer, p), sub.id) else Of(byPeer, p)
    ensures PeerIndex(byPeer', live - {sub})
  {
    forall p ensures ListsPeer(Of(byPeer', p), live - {sub}, p) {
      assert ListsPeer(Of(byPeer, p), live, p);
      RemoveDrops(Of(byPeer, p), sub.id);
    }
  }

  lemma BothDrop(subs: ByKey, subs': ByKey, byPeer: ByPeer, byPeer': ByPeer, live: set<Sub>, sub: Sub, next: nat)
    requires IndexesAgree(subs, byPeer, live) && IdsBelow(live, next) && sub in live
    requires forall k :: Of(subs', k) == if k == sub.key then Remove(Of(subs, k), sub.id) else Of(subs, k)
    requires forall p :: Of(byPeer', p) == if p == sub.peer then Remove(Of(byPeer, p), sub.id) else Of(byPeer, p)
    ensures IndexesAgree(subs', byPeer', live - {sub}) && IdsBelow(live - {sub}, next)
    ensures Without(Of(subs, sub.key), Of(subs', sub.key), sub)
  {
    KeyDrop(subs, subs', live, sub);
    PeerDrop(byPeer, byPeer', live, sub);
    KeyWithout(subs, live, sub);
  }

  lemma OthersLeft(live: set<Sub>, sub: Sub)
    requires UniqueIds(live) && sub in live
    ensures live - {sub} == set s | s in live && s.id != sub.id
  {
  }

  /** A table with one entry replaced; an empty one is dropped. */
  function Prune<K(!new), V>(m: map<K, seq<V>>, k: K, list: seq<V>): (m': map<K, seq<V>>)
    ensures Of(m', k) == list && forall j :: j != k ==> Of(m', j) == Of(m, j)
  {
    if list == [] then m - {k} else m[k := list]
  }

  // ----------------------------------------------------------------- backlogs

  /** A backlog exists only where nobody is subscribed. */
  ghost predicate Conserving<T(!new)>(pending: map<SubKey, seq<T>>, subs: ByKey)
  {
    forall k :: Of(pending, k) != [] ==> Of(subs, k) == []
  }

  /** What was delivered, then what waits, is what was enqueued. */
  ghost predicate InOrder<T(!new)>(delivered: map<SubKey, seq<T>>, pending: map<SubKey, seq<T>>,
      enqueued: map<SubKey, seq<T>>)
  {
    forall k :: Of(delivered, k) + Of(pending, k) == Of(enqueued, k)
  }

  /** Conserving, one key aside. */
  ghost predicate ConservingBut<T(!new)>(pending: map<SubKey, seq<T>>, subs: ByKey, key: SubKey)
  {
    forall k :: k != key && Of(pending, k) != [] ==> Of(subs, k) == []
  }

  ghost predicate SameBut(subs: ByKey, subs': ByKey, key: SubKey)
  {
    forall k :: k != key ==> Of(subs', k) == Of(subs, k)
  }

  lemma StillConserving<T(!new)>(pending: map<SubKey, seq<T>>, pending': map<SubKey, seq<T>>, subs: ByKey, subs': ByKey,
      key: SubKey)
    requires ConservingBut(pending, subs, key) && SameBut(subs, subs', key)
    requires forall k :: k != key ==> Of(pending', k) == Of(pending, k)
    ensures ConservingBut(pending', subs', key)
    ensures Of(subs', key) == [] || Of(pending', key) == [] ==> Conserving(pending', subs')
  {
  }

  /** Where there was somebody to take a task there was no backlog. */
  lemma AfterDelivery<T(!new)>(pending: map<SubKey, seq<T>>, subs: ByKey, subs': ByKey, key: SubKey)
    requires Conserving(pending, subs) && SameBut(subs, subs', key)
    ensures ConservingBut(pending, subs', key) && (Of(subs, key) != [] ==> Of(pending, key) == [])
  {
  }

  lemma FewerConserving<T(!new)>(pending: map<SubKey, seq<T>>, subs: ByKey, subs': ByKey, key: SubKey)
    requires Conserving(pending, subs) && SameBut(subs, subs', key) && Of(subs, key) != []
    ensures Conserving(pending, subs')
  {
  }

  function Push<T>(m: map<SubKey, seq<T>>, k: SubKey, t: T): map<SubKey, seq<T>>
  {
    m[k := Of(m, k) + [t]]
  }

  lemma DeliveredInOrder<T(!new)>(delivered: map<SubKey, seq<T>>, pending: map<SubKey, seq<T>>,
      enqueued: map<SubKey, seq<T>>, key: SubKey, t: T)
    requires InOrder(delivered, pending, enqueued) && Of(pending, key) == []
    ensures InOrder(Push(delivered, key, t), pending, Push(enqueued, key, t))
  {
    assert Of(delivered, key) + [t] + [] == Of(delivered, key) + [] + [t];
    forall k ensures Of(Push(delivered, key, t), k) + Of(pending, k) == Of(Push(enqueued, key, t), k) {
      assert Of(delivered, k) + Of(pending, k) == Of(enqueued, k);
    }
  }

  lemma Associates<T>(a: seq<T>, b: seq<T>, c: seq<T>)
    ensures a + (b + c) == a + b + c
  {
  }

  lemma QueuedInOrder<T(!new)>(delivered: map<SubKey, seq<T>>, pending: map<SubKey, seq<T>>,
      enqueued: map<SubKey, seq<T>>, key: SubKey, t: T)
    requires InOrder(delivered, pending, enqueued)
    ensures InOrder(delivered, Push(pending, key, t), Push(enqueued, key, t))
  {
    forall k ensures Of(delivered, k) + Of(Push(pending, key, t), k) == Of(Push(enqueued, key, t), k) {
      assert Of(delivered, k) + Of(pending, k) == Of(enqueued, k);
      if k == key { Associates(Of(delivered, k), Of(pending, k), [t]); }
    }
  }

  lemma DrainedInOrder<T(!new)>(delivered: map<SubKey, seq<T>>, pending: map<SubKey, seq<T>>,
      enqueued: map<SubKey, seq<T>>, key: SubKey)
    requires InOrder(delivered, pending, enqueued) && Of(pending, key) != []
    ensures InOrder(Push(delivered, key, Of(pending, key)[0]), pending[key := Of(pending, key)[1..]], enqueued)
  {
    var waiting := Of(pending, key);
    var delivered', pending' := Push(delivered, key, waiting[0]), pending[key := waiting[1..]];
    forall k ensures Of(delivered', k) + Of(pending', k) == Of(enqueued, k) {
      assert Of(delivered, k) + Of(pending, k) == Of(enqueued, k);
      assert Of(delivered, key) + [waiting[0]] + waiting[1..] == Of(delivered, key) + waiting;
    }
  }

  // --------------------------------------------------------------------- sends

  /** The subscriptions with a failed send. */
  ghost function Failed<T(!new)>(sends: seq<Sent<T>>): set<Sub>
  {
    set x | x in sends && !x.ok :: x.sub
  }

  /** The tasks that subscribers of a key took, in order. */
  function Taken<T>(sends: seq<Sent<T>>, key: SubKey): seq<T>
  {
    if sends == [] then []
    else
      var last := sends[|sends| - 1];
      Taken(sends[..|sends| - 1], key) + (if last.ok && last.sub.key == key then [last.task] else [])
  }

  lemma {:induction false} SentSnoc<T(!new)>(sends: seq<Sent<T>>, x: Sent<T>)
    ensures Failed(sends + [x]) == Failed(sends) + (if x.ok then {} else {x.sub})
    ensures forall k :: Taken(sends + [x], k) == Taken(sends, k) + (if x.ok && x.sub.key == k then [x.task] else [])
  {
    assert (sends + [x])[..|sends|] == sends;
  }

  /** From `before` to `after`, task t was offered to subscribers of key one after
      another, in vain except perhaps for the last. */
  ghost predicate Tried<T(!new)>(before: seq<Sent<T>>, after: seq<Sent<T>>, key: SubKey, t: T, ok: bool)
  {
    && before <= after
    && (ok ==> |before| < |after|)
    && forall i :: |before| <= i < |after| ==>
         after[i].task == t && after[i].sub.key == key && (after[i].ok <==> ok && i == |after| - 1)
  }

  lemma TriedNext<T(!new)>(before: seq<Sent<T>>, after: seq<Sent<T>>, key: SubKey, t: T, x: Sent<T>)
    requires Tried(before, after, key, t, false) && x.sub.key == key && x.task == t
    ensures Tried(before, after + [x], key, t, x.ok)
  {
  }

  /** The subscriptions left are those there were, less those with a failed send. */
  ghost predicate Pruned(live: set<Sub>, live': set<Sub>, failed: set<Sub>, failed': set<Sub>)
  {
    live' == live - failed' && failed <= failed'
  }

  lemma PrunedNext(live: set<Sub>, live': set<Sub>, failed: set<Sub>, failed': set<Sub>, sub: Sub)
    requires Pruned(live, live', failed, failed')
    ensures Pruned(live, live' - {sub}, failed, failed' + {sub})
  {
  }

  lemma PrunedTwice(a: set<Sub>, b: set<Sub>, c: set<Sub>, fa: set<Sub>, fb: set<Sub>, fc: set<Sub>)
    requires Pruned(a, b, fa, fb) && Pruned(b, c, fb, fc)
    ensures Pruned(a, c, fa, fc)
  {
  }

  lemma PrunedNone(live: set<Sub>, failed: set<Sub>)
    requires live !! failed
    ensures Pruned(live, live, failed, failed)
  {
  }

  ghost predicate TakenIs<T(!new)>(delivered: map<SubKey, seq<T>>, sends: seq<Sent<T>>)
  {
    forall k :: Of(delivered, k) == Taken(sends, k)
  }

  /** The sends went as the transport had it, to subscriptions with ids handed
      out, and what failed and what was delivered is what they say. */
  ghost predicate SendsTell<T(!new)>(sends: seq<Sent<T>>, wired: bool, net: nat -> bool, next: nat, failed: set<Sub>,
      delivered: map<SubKey, seq<T>>)
  {
    && (forall i :: 0 <= i < |sends| ==> sends[i].ok == (!wired || net(i)))
    && (forall i :: 0 <= i < |sends| ==> sends[i].sub.id < next)
    && failed == Failed(sends)
    && TakenIs(delivered, sends)
  }

  ghost predicate TokensOnce<T(!new)>(inflight: map<nat, T>, resolved: set<nat>, next: nat)
  {
    && (forall t :: t in inflight ==> t < next && t !in resolved)
    && (forall t :: t in resolved ==> t < next)
  }

  ghost predicate IdsBelow(live: set<Sub>, next: nat) { forall s :: s in live ==> s.id < next }

  lemma TakenNext<T(!new)>(delivered: map<SubKey, seq<T>>, sends: seq<Sent<T>>, x: Sent<T>)
    requires TakenIs(delivered, sends)
    ensures TakenIs(if x.ok then Push(delivered, x.sub.key, x.task) else delivered, sends + [x])
  {
    SentSnoc(sends, x);
  }

  lemma SendsNext<T(!new)>(sends: seq<Sent<T>>, wired: bool, net: nat -> bool, next: nat, failed: set<Sub>,
      delivered: map<SubKey, seq<T>>, x: Sent<T>)
    requires SendsTell(sends, wired, net, next, failed, delivered) && x.ok == (!wired || net(|sends|))
             && x.sub.id < next
    ensures SendsTell(sends + [x], wired, net, next, failed + (if x.ok then {} else {x.sub}),
                      if x.ok then Push(delivered, x.sub.key, x.task) else delivered)
  {
    SentSnoc(sends, x);
    TakenNext(delivered, sends, x);
  }

  // ----------------------------------------------------------- the dispatcher

  class Dispatch<T(==,!new)> {
    const wired: bool                      // false when no transport is attached
    const net: nat -> bool                 // whether the n-th send reaches its peer
    var attempts: nat
    var subs: ByKey
    var byPeer: ByPeer
    var rrIdx: map<SubKey, nat>
    var pending: map<SubKey, seq<T>>
    var inflight: map<nat, T>
    var nextId: nat

    ghost var live: set<Sub>                   // the subscriptions that exist
    ghost var sends: seq<Sent<T>>              // every send, in order
    ghost var failed: set<Sub>                 // subscriptions with a failed send
    ghost var enqueued: map<SubKey, seq<T>>    // every task ever enqueued for a key
    ghost var delivered: map<SubKey, seq<T>>   // every task a peer accepted, in order
    ghost var resolved: set<nat>               // tokens already answered

    ghost predicate IndexOk()
      reads this`subs, this`byPeer, this`live, this`nextId
    {
      IndexesAgree(subs, byPeer, live) && IdsBelow(live, nextId)
    }

    ghost predicate SendsOk()
      reads this`attempts, this`sends, this`failed, this`delivered, this`nextId
    {
      attempts == |sends| && SendsTell(sends, wired, net, nextId, failed, delivered)
    }

    ghost predicate TokensOk()
      reads this`inflight, this`resolved, this`nextId
    {
      TokensOnce(inflight, resolved, nextId)
    }

    ghost predicate Valid()
      reads this
    {
      IndexOk() && SendsOk() && live !! failed && Conserving(pending, subs) && InOrder(delivered, pending, enqueued)
          && TokensOk()
    }

    constructor (transport: bool, net: nat -> bool)
      ensures Valid() && live == {} && failed == {} && nextId == 0 && pending == map[] && enqueued == map[]
      ensures wired == transport && this.net == net
    {
      wired, this.net, attempts := transport, net, 0;
      subs, byPeer, rrIdx, pending, inflight, nextId := map[], map[], map[], map[], map[], 0;
      live, sends, failed, enqueued, delivered, resolved := {}, [], {}, map[], map[], {};
    }

    ghost function RingOf(key: SubKey): Ring
      reads this`subs, this`rrIdx
    {
      Ring(Of(subs, key), if key in rrIdx then rrIdx[key] else 0)
    }

    /** The sends since the first n went to subscribers of key in turn, from r on,
        and left what there is now. */
    ghost predicate Turns(n: nat, key: SubKey, r: Ring)
      reads this`sends, this`subs, this`rrIdx
    {
      n <= |sends| && InTurn(r, sends, n) && RingAt(r, sends, n, |sends|) == RingOf(key)
    }

    /** The next subscriber of key, round robin. */
    method Pick(key: SubKey) returns (sub: Option<Sub>)
      requires IndexOk()
      modifies this`rrIdx
      ensures IndexOk() && (sub.Some? ==> sub.value in live && sub.value.key == key)
      ensures Of(subs, key) == [] ==> sub == None && rrIdx == old(rrIdx)
      ensures Of(subs, key) != [] ==>
                && sub.Some? && Next(old(RingOf(key)), sub.value)
                && rrIdx == old(rrIdx)[key := Move(old(RingOf(key)), true).at]
    {
      var list := if key in subs then subs[key] else [];
      if |list| == 0 {
        return None;
      }
      var rr := if key in rrIdx then rrIdx[key] else 0;
      var i := rr % |list|;
      TurnIsRemainder(rr, |list|);
      TurnIsRemainder(i + 1, |list|);
      rrIdx := rrIdx[key := (i + 1) % |list|];
      sub := Some(list[i]);
      assert ListsKey(Of(subs, key), live, key) && list[i] in Of(subs, key);
    }

    /** Takes sub out of both tables; an emptied entry goes with its index. */
    method RemoveSub(sub: Sub)
      requires IndexOk() && sub in live
      modifies this`subs, this`byPeer, this`rrIdx, this`live
      ensures IndexOk() && live == old(live) - {sub}
      ensures Without(Of(old(subs), sub.key), Of(subs, sub.key), sub)
      ensures rrIdx == if Of(subs, sub.key) == [] then old(rrIdx) - {sub.key} else old(rrIdx)
      ensures SameBut(old(subs), subs, sub.key)
    {
      var list := RemoveFrom(Of(subs, sub.key), sub.id);
      subs := Prune(subs, sub.key, list);
      if list == [] {
        rrIdx := rrIdx - {sub.key};
      }
      var peers := RemoveFrom(Of(byPeer, sub.peer), sub.id);
      byPeer := Prune(byPeer, sub.peer, peers);
      live := live - {sub};
      BothDrop(old(subs), subs, old(byPeer), byPeer, old(live), sub, nextId);
    }

    /** One send, logged. */
    method Send(sub: Sub, t: T) returns (ok: bool)
      requires SendsOk() && sub.id < nextId
      modifies this`attempts, this`sends, this`failed, this`delivered
      ensures SendsOk() && sends == old(sends) + [Sent(sub, t, ok)]
      ensures failed == old(failed) + (if ok then {} else {sub})
      ensures delivered == if ok then Push(old(delivered), sub.key, t) else old(delivered)
    {
      ok := !wired || net(attempts);
      attempts := attempts + 1;
      SendsNext(sends, wired, net, nextId, failed, delivered, Sent(sub, t, ok));
      sends := sends + [Sent(sub, t, ok)];
      if ok {
        delivered := Push(delivered, sub.key, t);
      } else {
        failed := failed + {sub};
      }
    }

    /** One send: taken, or the subscription is pruned. */
    method Offer(sub: Sub, t: T) returns (ok: bool)
      requires IndexOk() && SendsOk() && sub in live
      modifies this`subs, this`byPeer, this`rrIdx, this`attempts, this`live, this`sends, this`failed, this`delivered
      ensures IndexOk() && SendsOk() && sends == old(sends) + [Sent(sub, t, ok)]
      ensures failed == old(failed) + (if ok then {} else {sub})
      ensures ok ==> subs == old(subs) && rrIdx == old(rrIdx) && live == old(live)
                     && delivered == Push(old(delivered), sub.key, t)
      ensures !ok ==>
                && live == old(live) - {sub} && delivered == old(delivered)
                && Without(Of(old(subs), sub.key), Of(subs, sub.key), sub)
                && rrIdx == (if Of(subs, sub.key) == [] then old(rrIdx) - {sub.key} else old(rrIdx))
                && SameBut(old(subs), subs, sub.key)
    {
      ok := Send(sub, t);
      if !ok { RemoveSub(sub); }
    }

    /** The task offered to the next in turn, if there is one. */
    method Try(key: SubKey, t: T) returns (sub: Option<Sub>, ok: bool)
      requires IndexOk() && SendsOk()
      modifies this`subs, this`byPeer, this`rrIdx, this`attempts, this`live, this`sends, this`failed, this`delivered
      ensures IndexOk() && SendsOk()
      ensures sub.None? ==>
                && !ok && Of(subs, key) == [] && subs == old(subs) && rrIdx == old(rrIdx) && live == old(live)
                && sends == old(sends) && failed == old(failed) && delivered == old(delivered)
      ensures sub.Some? ==>
                && sub.value.key == key && Next(old(RingOf(key)), sub.value)
                && RingOf(key) == Move(old(RingOf(key)), ok) && SameBut(old(subs), subs, key)
                && sends == old(sends) + [Sent(sub.value, t, ok)]
      ensures sub.Some? && ok ==>
                live == old(live) && failed == old(failed) && delivered == Push(old(delivered), key, t)
      ensures sub.Some? && !ok ==>
                live == old(live) - {sub.value} && failed == old(failed) + {sub.value} && delivered == old(delivered)
    {
      sub := Pick(key);
      if sub.None? {
        return sub, false;
      }
      assert ListsKey(Of(subs, key), live, key);
      ok := Offer(sub.value, t);
      ghost var r := old(RingOf(key));
      if !ok {
        WithoutAt(r.list, Of(subs, key), Turn(r.at, |r.list|));
      }
    }

    /** One more try, in turn with those since the sends `before`. */
    method TryNext(key: SubKey, t: T, ghost before: seq<Sent<T>>, ghost r: Ring) returns (sub: Option<Sub>, ok: bool)
      requires IndexOk() && SendsOk() && Tried(before, sends, key, t, false) && Turns(|before|, key, r)
      modifies this`subs, this`byPeer, this`rrIdx, this`attempts, this`live, this`sends, this`failed, this`delivered
      ensures IndexOk() && SendsOk() && Tried(before, sends, key, t, ok) && Turns(|before|, key, r)
      ensures SameBut(old(subs), subs, key) && (sub.Some? ==> Of(old(subs), key) != [])
      ensures sub.None? ==>
                !ok && Of(subs, key) == [] && live == old(live) && failed == old(failed) && delivered == old(delivered)
      ensures sub.Some? && ok ==>
                live == old(live) && failed == old(failed) && delivered == Push(old(delivered), key, t)
      ensures sub.Some? && !ok ==>
                && live == old(live) - {sub.value} && failed == old(failed) + {sub.value}
                && delivered == old(delivered) && |Of(subs, key)| == |Of(old(subs), key)| - 1
    {
      sub, ok := Try(key, t);
      if sub.Some? {
        TriedNext(before, old(sends), key, t, Sent(sub.value, t, ok));
        MoreTurns(r, old(sends), |before|, Sent(sub.value, t, ok));
      }
    }

    /** Offers the task to the subscribers of key in turn, pruning each one that
        cannot be reached, until one takes it or none is left. No other
        subscription goes. */
    method Deliver(key: SubKey, t: T) returns (ok: bool)
      requires IndexOk() && SendsOk() && live !! failed
      modifies this`subs, this`byPeer, this`rrIdx, this`attempts, this`live, this`sends, this`failed, this`delivered
      ensures IndexOk() && SendsOk() && Pruned(old(live), live, old(failed), failed)
      ensures Tried(old(sends), sends, key, t, ok) && Turns(|old(sends)|, key, old(RingOf(key)))
      ensures SameBut(old(subs), subs, key)
      ensures ok ==> Of(old(subs), key) != [] && delivered == Push(old(delivered), key, t)
      ensures !ok ==> Of(subs, key) == [] && delivered == old(delivered)
    {
      PrunedNone(live, failed);
      while true
        invariant IndexOk() && SendsOk() && Pruned(old(live), live, old(failed), failed) && delivered == old(delivered)
        invariant Tried(old(sends), sends, key, t, false) && Turns(|old(sends)|, key, old(RingOf(key)))
        invariant SameBut(old(subs), subs, key)
        invariant |Of(subs, key)| <= |Of(old(subs), key)|
        decreases |Of(subs, key)|
      {
        ghost var sends', live', failed' := sends, live, failed;
        var sub, taken := TryNext(key, t, old(sends), old(RingOf(key)));
        if sub.None? {
          return false;
        }
        if taken {
          return true;
        }
        PrunedNext(old(live), live', old(failed), failed', sub.value);
      }
    }

    /** Hands the backlog of a key to whoever is subscribed. */
    method Drain(key: SubKey)
      requires IndexOk() && SendsOk() && live !! failed && InOrder(delivered, pending, enqueued) && TokensOk()
      requires ConservingBut(pending, subs, key)
      modifies this`subs, this`byPeer, this`rrIdx, this`attempts, this`live, this`sends, this`failed, this`delivered,
               this`pending
      ensures Valid() && Pruned(old(live), live, old(failed), failed)
      ensures old(sends) <= sends && Turns(|old(sends)|, key, old(RingOf(key)))
    {
      PrunedNone(live, failed);
      StillConserving(pending, pending, subs, subs, key);
      while key in pending && |pending[key]| > 0
        invariant IndexOk() && SendsOk() && Pruned(old(live), live, old(failed), failed)
        invariant InOrder(delivered, pending, enqueued) && TokensOk()
        invariant ConservingBut(pending, subs, key)
        invariant Of(pending, key) == [] ==> Conserving(pending, subs)
        invariant old(sends) <= sends && Turns(|old(sends)|, key, old(RingOf(key)))
        decreases |Of(pending, key)|
      {
        ghost var live', failed', sends' := live, failed, sends;
        var ok := DrainNext(key);
        TurnsOn(old(RingOf(key)), sends', sends, |old(sends)|);
        PrunedTwice(old(live), live', live, old(failed), failed', failed);
        StillConserving(pending, pending, subs, subs, key);
        if !ok {
          return;
        }
      }
    }

    /** The head of a backlog delivered and taken off, or nobody left to take it. */
    method DrainNext(key: SubKey) returns (ok: bool)
      requires IndexOk() && SendsOk() && live !! failed && InOrder(delivered, pending, enqueued)
      requires key in pending && pending[key] != []
      requires ConservingBut(pending, subs, key)
      modifies this`subs, this`byPeer, this`rrIdx, this`attempts, this`live, this`sends, this`failed, this`delivered,
               this`pending
      ensures IndexOk() && SendsOk() && Pruned(old(live), live, old(failed), failed)
      ensures InOrder(delivered, pending, enqueued)
      ensures ConservingBut(pending, subs, key)
      ensures old(sends) <= sends && Turns(|old(sends)|, key, old(RingOf(key)))
      ensures if ok then |Of(pending, key)| < |Of(old(pending), key)| else Of(subs, key) == []
    {
      DrainedInOrder(delivered, pending, enqueued, key);
      ok := Deliver(key, pending[key][0]);
      if ok { pending := pending[key := pending[key][1..]]; }
      StillConserving(old(pending), pending, old(subs), subs, key);
    }

    method AddSub(peer: string, key: SubKey) returns (sub: Sub)
      requires IndexOk()
      modifies this`subs, this`byPeer, this`live, this`nextId
      ensures IndexOk() && sub == Sub(old(nextId), peer, key) && live == old(live) + {sub} && nextId == old(nextId) + 1
      ensures SameBut(old(subs), subs, key) && Of(subs, key) == Of(old(subs), key) + [sub]
    {
      sub := Sub(nextId, peer, key);
      KeyAdd(subs, live, sub);
      PeerAdd(byPeer, live, sub);
      subs := subs[key := Of(subs, key) + [sub]];
      byPeer := byPeer[peer := Of(byPeer, peer) + [sub]];
      live := live + {sub};
      nextId := nextId + 1;
    }

    /** The subscription made, its backlog still to be handed out. */
    method Join(peer: string, key: SubKey) returns (sub: Sub)
      requires Valid()
      modifies this`subs, this`byPeer, this`live, this`nextId
      ensures IndexOk() && SendsOk() && TokensOk() && ConservingBut(pending, subs, key) && live !! failed
      ensures sub == Sub(old(nextId), peer, key) && live == old(live) + {sub} && nextId == old(nextId) + 1
      ensures Of(subs, key) == Of(old(subs), key) + [sub]
    {
      FailedIds(sends, nextId);
      sub := AddSub(peer, key);
      AfterDelivery(pending, old(subs), subs, key);
    }

    /** A subscription made and the backlog of its key handed out. */
    method Admit(peer: string, key: SubKey) returns (sub: Sub)
      requires Valid()
      modifies this`subs, this`byPeer, this`rrIdx, this`attempts, this`live, this`sends, this`failed, this`delivered,
               this`pending, this`nextId
      ensures Valid() && sub == Sub(old(nextId), peer, key) && nextId == old(nextId) + 1
      ensures Pruned(old(live) + {sub}, live, old(failed), failed)
      ensures Turns(|old(sends)|, key, old(RingOf(key)).(list := old(RingOf(key)).list + [sub]))
    {
      sub := Join(peer, key);
      Drain(key);
    }

    /** The new subscription is live unless a send to it failed; so are the old
        ones. */
    method Subscribe(peer: string, ns: string, queue: string, kind: Kind) returns (id: Option<nat>)
      requires Valid()
      modifies this
      ensures Valid() && enqueued == old(enqueued) && inflight == old(inflight) && resolved == old(resolved)
      ensures id == if peer == "" || ns == "" || queue == "" then None else Some(old(nextId))
      ensures id.None? ==>
                live == old(live) && failed == old(failed) && nextId == old(nextId) && pending == old(pending)
      ensures id.Some? ==>
                && live == old(live) + {Sub(id.value, peer, SubKey(ns, queue, kind))} - failed
                && old(failed) <= failed && nextId == old(nextId) + 1
      ensures id.Some? ==>
                var key, r := SubKey(ns, queue, kind), old(RingOf(SubKey(ns, queue, kind)));
                Turns(|old(sends)|, key, r.(list := r.list + [Sub(id.value, peer, key)]))
    {
      if peer == "" || ns == "" || queue == "" {
        return None;
      }
      var sub := Admit(peer, SubKey(ns, queue, kind));
      id := Some(sub.id);
    }

    /** Searches every list for the subscription and takes it out; the emptied
        list and its index stay behind. */
    method Unsubscribe(id: nat)
      requires Valid()
      modifies this`subs, this`byPeer, this`live
      ensures Valid() && live == set s | s in old(live) && s.id != id
      ensures forall s :: s in old(live) && s.id == id ==>
                Without(Of(old(subs), s.key), Of(subs, s.key), s) && SameBut(old(subs), subs, s.key)
    {
      var found := Find(id);
      if found.Some? {
        OthersLeft(live, found.value);
        TakeOut(found.value);
        FewerConserving(pending, old(subs), subs, found.value.key);
      } else {
        assert live == set s | s in live && s.id != id;
      }
    }

    method TakeOut(s: Sub)
      requires IndexOk() && s in live
      modifies this`subs, this`byPeer, this`live
      ensures IndexOk() && live == old(live) - {s}
      ensures Without(Of(old(subs), s.key), Of(subs, s.key), s) && SameBut(old(subs), subs, s.key)
    {
      var list := RemoveFrom(Of(subs, s.key), s.id);
      subs := subs[s.key := list];
      var peers := RemoveFrom(Of(byPeer, s.peer), s.id);
      byPeer := Prune(byPeer, s.peer, peers);
      live := live - {s};
      BothDrop(old(subs), subs, old(byPeer), byPeer, old(live), s, nextId);
    }

    method Find(id: nat) returns (found: Option<Sub>)
      requires IndexOk()
      ensures found.Some? ==> found.value in live && found.value.id == id
      ensures found.None? ==> forall s :: s in live ==> s.id != id
    {
      var keys := subs.Keys;
      forall s | s in live && s.id == id ensures s.key in keys {
        assert ListsKey(Of(subs, s.key), live, s.key);
      }
      while keys != {}
        invariant keys <= subs.Keys
        invariant forall s :: s in live && s.id == id ==> s.key in keys
        decreases |keys|
      {
        var k :| k in keys;
        keys := keys - {k};
        assert ListsKey(Of(subs, k), live, k);
        for i := 0 to |subs[k]|
          invariant forall j :: 0 <= j < i ==> subs[k][j].id != id
        {
          if subs[k][i].id == id {
            assert subs[k][i] in Of(subs, k);
            return Some(subs[k][i]);
          }
        }
      }
      found := None;
    }

    /** Drops every subscription of a peer. */
    method RemovePeer(peer: string)
      requires Valid()
      modifies this`subs, this`byPeer, this`rrIdx, this`live
      ensures Valid() && live == set s | s in old(live) && s.peer != peer
    {
      while peer in byPeer && |byPeer[peer]| > 0
        invariant Valid() && live <= old(live)
        invariant forall s :: s in old(live) && s.peer != peer ==> s in live
        decreases live
      {
        assert ListsPeer(Of(byPeer, peer), live, peer) && byPeer[peer][0] in Of(byPeer, peer);
        RemoveSub(byPeer[peer][0]);
      }
      assert ListsPeer(Of(byPeer, peer), live, peer) && Of(byPeer, peer) == [];
      ghost var before := byPeer;
      byPeer := byPeer - {peer};
      forall p ensures ListsPeer(Of(byPeer, p), live, p) {
        assert ListsPeer(Of(before, p), live, p) && Of(byPeer, p) == Of(before, p);
      }
    }

    /** A token never used before. */
    method Mint(t: T) returns (token: nat)
      requires IndexOk() && SendsOk() && TokensOk()
      modifies this`inflight, this`nextId
      ensures IndexOk() && SendsOk() && TokensOk()
      ensures token == old(nextId) && nextId == token + 1 && token !in old(inflight)
              && inflight == old(inflight)[token := t]
    {
      token := nextId;
      nextId := nextId + 1;
      inflight := inflight[token := t];
    }

    /** Creates a task, mints its token, and delivers it or, with every subscriber
        tried and gone, queues it. */
    method Enqueue(key: SubKey, t: T) returns (token: nat, ghost taken: bool)
      requires Valid()
      modifies this
      ensures Valid() && Pruned(old(live), live, old(failed), failed) && nextId == old(nextId) + 1
      ensures enqueued == Push(old(enqueued), key, t)
      ensures token !in old(inflight) && inflight == old(inflight)[token := t] && resolved == old(resolved)
      ensures Tried(old(sends), sends, key, t, taken) && Turns(|old(sends)|, key, old(RingOf(key)))
      ensures if taken then pending == old(pending) else Of(subs, key) == [] && pending == Push(old(pending), key, t)
    {
      token := Mint(t);
      taken := Hand(key, t);
    }

    /** A task delivered, or queued with nobody left to take it. */
    method Hand(key: SubKey, t: T) returns (ok: bool)
      requires IndexOk() && SendsOk() && live !! failed && Conserving(pending, subs)
               && InOrder(delivered, pending, enqueued)
      modifies this`subs, this`byPeer, this`rrIdx, this`attempts, this`live, this`sends, this`failed, this`delivered,
               this`pending, this`enqueued
      ensures IndexOk() && SendsOk() && Conserving(pending, subs) && InOrder(delivered, pending, enqueued)
      ensures Pruned(old(live), live, old(failed), failed) && enqueued == Push(old(enqueued), key, t)
      ensures Tried(old(sends), sends, key, t, ok) && Turns(|old(sends)|, key, old(RingOf(key)))
      ensures if ok then pending == old(pending) else Of(subs, key) == [] && pending == Push(old(pending), key, t)
    {
      ok := Deliver(key, t);
      AfterDelivery(pending, old(subs), subs, key);
      Shelve(key, t, ok, old(delivered));
    }

    /** A task not taken joins the backlog of its key. */
    method Shelve(key: SubKey, t: T, taken: bool, ghost before: map<SubKey, seq<T>>)
      requires InOrder(before, pending, enqueued) && ConservingBut(pending, subs, key)
      requires if taken then delivered == Push(before, key, t) && Of(pending, key) == []
               else delivered == before && Of(subs, key) == []
      modifies this`pending, this`enqueued
      ensures Conserving(pending, subs) && InOrder(delivered, pending, enqueued)
              && enqueued == Push(old(enqueued), key, t)
      ensures pending == if taken then old(pending) else Push(old(pending), key, t)
    {
      if taken {
        DeliveredInOrder(before, pending, enqueued, key, t);
      } else {
        QueuedInOrder(before, pending, enqueued, key, t);
        pending := Push(pending, key, t);
      }
      enqueued := Push(enqueued, key, t);
      StillConserving(old(pending), pending, subs, subs, key);
    }

    /** Consumes a token: it answers for the task it was minted for, once. */
    method Resolve(token: nat) returns (t: Option<T>)
      requires Valid()
      modifies this`inflight, this`resolved
      ensures Valid()
      ensures t == if token in old(inflight) then Some(old(inflight)[token]) else None
      ensures inflight == old(inflight) - {token}
      ensures token in old(resolved) ==> t == None
      ensures t.Some? ==> token in resolved
    {
      if token !in inflight {
        return None;
      }
      t := Some(inflight[token]);
      inflight := inflight - {token};
      resolved := resolved + {token};
    }
  }

  // ------------------------------------------------------------- fair delivery

  /** The sends from n on are of these tasks, one each, in order. */
  ghost predicate OneEach<T(!new)>(sends: seq<Sent<T>>, n: nat, tasks: seq<T>)
  {
    n + |tasks| == |sends| && forall i :: 0 <= i < |tasks| ==> sends[n + i].task == tasks[i]
  }

  ghost predicate Spread<T(!new)>(sends: seq<Sent<T>>, n: nat, tasks: seq<T>)
  {
    AllTaken(sends, n) ==> OneEach(sends, n, tasks)
  }

  lemma OneMore<T(!new)>(sends: seq<Sent<T>>, more: seq<Sent<T>>, n: nat, tasks: seq<T>, key: SubKey, t: T)
    requires n <= |sends| && Spread(sends, n, tasks)
    requires Tried(sends, more, key, t, true) && AllTaken(more, n)
    ensures OneEach(more, n, tasks + [t])
  {
    forall i | n <= i < |sends| ensures sends[i].ok { assert more[i] == sends[i]; }
    assert more[|sends|].ok;
    forall i | 0 <= i < |tasks| ensures more[n + i].task == tasks[i] { assert more[n + i] == sends[n + i]; }
  }

  ghost predicate AllOnce<T(!new)>(sends: seq<Sent<T>>, n: nat, list: seq<Sub>)
  {
    forall sub :: sub in list ==> Once(sends, n, sub)
  }

  lemma AllTakeOne<T(!new)>(r: Ring, sends: seq<Sent<T>>, n: nat)
    requires Distinct(r.list) && n + |r.list| == |sends| && InTurn(r, sends, n) && AllTaken(sends, n)
    ensures AllOnce(sends, n, r.list)
  {
    forall sub | sub in r.list ensures Once(sends, n, sub) { EachTakesOne(r, sends, n, sub); }
  }

  method EnqueueNext<T(==,!new)>(d: Dispatch<T>, key: SubKey, t: T, ghost n: nat, ghost r: Ring, ghost done: seq<T>)
    requires d.Valid() && d.Turns(n, key, r) && r.list != []
    requires Spread(d.sends, n, done)
    modifies d
    ensures d.Valid() && d.Turns(n, key, r)
    ensures Spread(d.sends, n, done + [t])
  {
    ghost var before := d.sends;
    var _, taken := d.Enqueue(key, t);
    TurnsOn(r, before, d.sends, n);
    if AllTaken(d.sends, n) {
      ListKept(r, d.sends, n, |d.sends|);
      OneMore(before, d.sends, n, done, key, t);
    }
  }

  /** Tasks enqueued one after another for a key with subscribers go out in turn,
      and while no send fails one send each; as many as there are subscribers give
      each subscriber one. */
  method EnqueueAll<T(==,!new)>(d: Dispatch<T>, key: SubKey, tasks: seq<T>)
    requires d.Valid() && Of(d.subs, key) != []
    modifies d
    ensures d.Valid() && d.Turns(|old(d.sends)|, key, old(d.RingOf(key)))
    ensures Spread(d.sends, |old(d.sends)|, tasks)
    ensures AllTaken(d.sends, |old(d.sends)|) && |tasks| == |Of(old(d.subs), key)| ==>
              AllOnce(d.sends, |old(d.sends)|, Of(old(d.subs), key))
  {
    ghost var n, r := |d.sends|, d.RingOf(key);
    KeyDistinct(d.subs, d.live, key);
    EnqueueEach(d, key, tasks, n, r);
    if AllTaken(d.sends, n) && |tasks| == |r.list| { AllTakeOne(r, d.sends, n); }
  }

  lemma FirstTasks<T>(tasks: seq<T>, i: nat)
    requires i <= |tasks|
    ensures if i < |tasks| then tasks[..i + 1] == tasks[..i] + [tasks[i]] else tasks[..i] == tasks
  {
  }

  method EnqueueEach<T(==,!new)>(d: Dispatch<T>, key: SubKey, tasks: seq<T>, ghost n: nat, ghost r: Ring)
    requires d.Valid() && r.list != [] && n == |d.sends| && r == d.RingOf(key)
    modifies d
    ensures d.Valid() && d.Turns(n, key, r)
    ensures Spread(d.sends, n, tasks)
  {
    for i := 0 to |tasks|
      invariant d.Valid() && d.Turns(n, key, r) && Spread(d.sends, n, tasks[..i])
    {
      FirstTasks(tasks, i);
      EnqueueNext(d, key, tasks[i], n, r, tasks[..i]);
    }
    FirstTasks(tasks, |tasks|);
  }

  // ---------------------------------------------------------------- every run

  datatype Request<T> =
    | Subscribing(peer: string, ns: string, queue: string, kind: Kind)
    | Unsubscribing(id: nat)
    | PeerGone(peer: string)
    | Enqueuing(key: SubKey, task: T)
    | Answering(token: nat)

  /** The tasks a run of requests enqueues for a key, in order. */
  function TasksFor<T>(requests: seq<Request<T>>, key: SubKey): seq<T>
  {
    if requests == [] then []
    else
      var last := requests[|requests| - 1];
      TasksFor(requests[..|requests| - 1], key) + (if last.Enqueuing? && last.key == key then [last.task] else [])
  }

  /** The subscriptions made and not given up, and the next id. */
  datatype Roster = Roster(members: set<Sub>, next: nat)

  function Enrol<T>(r: Roster, request: Request<T>): Roster
  {
    match request
    case Subscribing(peer, ns, queue, kind) =>
      if peer == "" || ns == "" || queue == "" then r
      else Roster(r.members + {Sub(r.next, peer, SubKey(ns, queue, kind))}, r.next + 1)
    case Unsubscribing(id) => r.(members := set s | s in r.members && s.id != id)
    case PeerGone(peer) => r.(members := set s | s in r.members && s.peer != peer)
    case Enqueuing(_, _) => r.(next := r.next + 1)
    case Answering(_) => r
  }

  function RosterOf<T>(requests: seq<Request<T>>): Roster
  {
    if requests == [] then Roster({}, 0) else Enrol(RosterOf(requests[..|requests| - 1]), requests[|requests| - 1])
  }

  /** One request served. */
  method ServeOne<T(==,!new)>(d: Dispatch<T>, request: Request<T>, ghost r: Roster)
    requires d.Valid() && d.live == r.members - d.failed && d.nextId == r.next
    modifies d
    ensures d.Valid() && d.live == Enrol(r, request).members - d.failed && d.nextId == Enrol(r, request).next
    ensures d.enqueued == if request.Enqueuing? then Push(old(d.enqueued), request.key, request.task)
            else old(d.enqueued)
  {
    match request {
      case Subscribing(peer, ns, queue, kind) => var _ := d.Subscribe(peer, ns, queue, kind);
      case Unsubscribing(id) => d.Unsubscribe(id);
      case PeerGone(peer) => d.RemovePeer(peer);
      case Enqueuing(key, task) => var _, _ := d.Enqueue(key, task);
      case Answering(token) => var _ := d.Resolve(token);
    }
  }

  ghost predicate Tracks<T(!new)>(enqueued: map<SubKey, seq<T>>, requests: seq<Request<T>>)
  {
    forall k :: Of(enqueued, k) == TasksFor(requests, k)
  }

  lemma TracksNext<T(!new)>(enqueued: map<SubKey, seq<T>>, requests: seq<Request<T>>, r: Request<T>)
    requires Tracks(enqueued, requests)
    ensures Tracks(if r.Enqueuing? then Push(enqueued, r.key, r.task) else enqueued, requests + [r])
  {
    forall k ensures TasksFor(requests + [r], k) == TasksFor(requests, k)
        + (if r.Enqueuing? && r.key == k then [r.task] else []) {
      assert (requests + [r])[..|requests|] == requests;
    }
    forall k ensures Of(enqueued, k) == TasksFor(requests, k) {
    }
  }

  /** A subscription with a failed send has an id handed out before. */
  lemma FailedIds<T(!new)>(sends: seq<Sent<T>>, next: nat)
    requires forall i :: 0 <= i < |sends| ==> sends[i].sub.id < next
    ensures IdsBelow(Failed(sends), next)
  {
  }

  lemma NoFailures<T(!new)>(sends: seq<Sent<T>>)
    requires forall i :: 0 <= i < |sends| ==> sends[i].ok
    ensures Failed(sends) == {}
  {
  }

  /** Any requests in any order, whatever sends fail: the tasks that subscribers
      of a key took and then its backlog are the tasks enqueued for it, in order;
      a key with a backlog has no subscriber; the subscriptions there are, in both
      tables, are those made, less those unsubscribed, those of departed peers and
      those with a failed send. */
  method Serve<T(==,!new)>(transport: bool, net: nat -> bool, requests: seq<Request<T>>) returns (d: Dispatch<T>)
    ensures forall k :: Taken(d.sends, k) + Of(d.pending, k) == TasksFor(requests, k)
    ensures forall k :: Of(d.pending, k) != [] ==> Of(d.subs, k) == []
    ensures IndexesAgree(d.subs, d.byPeer, d.live)
    ensures d.live == RosterOf(requests).members - Failed(d.sends)
    ensures forall i :: 0 <= i < |d.sends| ==> d.sends[i].ok == (!transport || net(i))
    ensures !transport ==> d.live == RosterOf(requests).members
  {
    d := new Dispatch(transport, net);
    for i := 0 to |requests|
      invariant fresh(d) && d.Valid() && d.wired == transport && d.net == net
      invariant Tracks(d.enqueued, requests[..i])
      invariant d.live == RosterOf(requests[..i]).members - d.failed && d.nextId == RosterOf(requests[..i]).next
    {
      TracksNext(d.enqueued, requests[..i], requests[i]);
      assert requests[..i + 1] == requests[..i] + [requests[i]] && requests[..i + 1][..i] == requests[..i];
      ServeOne(d, requests[i], RosterOf(requests[..i]));
    }
    assert requests[..|requests|] == requests;
    if !transport { NoFailures(d.sends); }
  }
}
