/** The retention purge as the source runs it: one pass is a loop over pages and
    one run's purge a loop over its keys. A pass is proved to be a path of the
    walk in module Retention, so what holds of every walk holds of it. */
module Purger {
  import opened Basics
  import opened ShardDb
  import opened Retention

  lemma {:induction false} LeadsSnoc(ps: Prefixes, st: State, steps: seq<Step>, mid: State, step: Step)
    requires Leads(ps, st, steps, mid) && Enabled(ps, mid, step)
    ensures Leads(ps, st, steps + [step], Next(ps, mid, step))
    decreases |steps|
  {
    if steps != [] {
      LeadsSnoc(ps, Next(ps, st, steps[0]), steps[1..], mid, step);
      assert (steps + [step])[1..] == steps[1..] + [step];
    }
  }

  lemma {:induction false} QueueStep(ph: Phase, page: seq<Row<RunRow>>, i: nat, cutoff: int)
    requires i < |page|
    ensures var queue, rest := ExpiredKeys(ph, page[i..], cutoff), ExpiredKeys(ph, page[i + 1..], cutoff);
            if Expired(page[i].value, cutoff) then queue == [Item(ph, page[i].key)] + rest else queue == rest
  {
    assert page[i..][0] == page[i] && page[i..][1..] == page[i + 1..];
  }

  lemma DeletedKeys(s: Store, ph: Phase, k: Key, row: RunRow, keys: seq<SubKey>)
    requires ListsKeys(s, ph, row, keys)
    ensures var subs := Deleted(s, ph, k, keys, |keys| + 1).subs;
            Bare(subs, ph, row) && forall j :: j in s.subs && j !in subs ==> Named(ph, row, j, s.subs[j])
  {
    var subs := Deleted(s, ph, k, keys, |keys| + 1).subs;
    BareIff(subs, ph, row);
    forall j | j in s.subs && j !in subs ensures Named(ph, row, j, s.subs[j]) {
      assert Belongs(ph, row, j, s.subs[j]);
    }
    forall j | j in s.subs && Belongs(ph, row, j, s.subs[j]) ensures j !in subs {
      var i :| 0 <= i < |keys| && keys[i] == j;
    }
  }

  class NamespaceShard {
    const ps: Prefixes
    var workflows: seq<Row<RunRow>>
    var activities: seq<Row<RunRow>>
    var subs: map<SubKey, Ref>
    var cursor: Key

    ghost function Keys(): Store
      reads this
    {
      Store(workflows, activities, subs, cursor)
    }

    constructor (prefixes: Prefixes, s: Store)
      ensures ps == prefixes && Keys() == s
    {
      ps := prefixes;
      workflows, activities, subs, cursor := s.workflows, s.activities, s.subs, s.cursor;
    }

    method RowsAt(ph: Phase) returns (rows: seq<Row<RunRow>>)
      ensures rows == RowsOf(Keys(), ph)
    {
      match ph {
        case Workflows => rows := workflows;
        case Activities => rows := activities;
      }
    }

    /** The keys of a run, its row excepted. */
    method Collect(ph: Phase, row: RunRow) returns (keys: seq<SubKey>)
      ensures ListsKeys(Keys(), ph, row, keys)
    {
      keys := [];
      var rest := subs.Keys;
      while rest != {}
        invariant rest <= subs.Keys
        invariant forall k :: k in keys ==> k in subs && Belongs(ph, row, k, subs[k])
        invariant forall k :: k in subs && k !in rest && Belongs(ph, row, k, subs[k]) ==> k in keys
        decreases |rest|
      {
        var k :| k in rest;
        rest := rest - {k};
        if Belongs(ph, row, k, subs[k]) {
          keys := keys + [k];
        }
      }
      if ph.Workflows? {
        keys := keys + [OpenKey(row.ref)];
      }
    }

    /** Removes the run at key k if its row, as it is now, is expired. */
    method PurgeRun(ph: Phase, k: Key, cutoff: int) returns (gone: bool, ghost keys: seq<SubKey>)
      modifies this`workflows, this`activities, this`subs
      ensures gone <==>
              var r := Find(RowsOf(old(Keys()), ph), k); r.Some? && r.value.terminal && r.value.closedAt <= cutoff
      ensures gone ==> ListsKeys(old(Keys()), ph, Find(RowsOf(old(Keys()), ph), k).value, keys)
      ensures gone ==> Keys() == Deleted(old(Keys()), ph, k, keys, |keys| + 1)
      ensures gone ==> var row := Find(RowsOf(old(Keys()), ph), k).value;
                       && Bare(subs, ph, row)
                       && forall j :: j in old(subs) && j !in subs ==> Named(ph, row, j, old(subs)[j])
      ensures !gone ==> Keys() == old(Keys())
    {
      keys := [];
      var rows := RowsAt(ph);
      var found := Find(rows, k);
      if found.None? || !Expired(found.value, cutoff) {
        return false, [];
      }
      var collected := Collect(ph, found.value);
      keys := collected;
      for i := 0 to |collected|
        invariant Keys() == Deleted(old(Keys()), ph, k, collected, i)
      {
        subs := subs - {collected[i]};
        assert (set j | 0 <= j < i + 1 :: collected[j]) == (set j | 0 <= j < i :: collected[j]) + {collected[i]};
      }
      match ph {
        case Workflows => workflows := Without(workflows, k);
        case Activities => activities := Without(activities, k);
      }
      gone := true;
      DeletedKeys(old(Keys()), ph, k, found.value, collected);
    }

    /** Purges the expired runs of a page. */
    method PurgePage(ph: Phase, page: seq<Row<RunRow>>, w: Pass, ghost from: State, ghost path: seq<Step>,
        ghost limit: nat)
      returns (purged: nat, ghost path': seq<Step>)
      requires w.queue == ExpiredKeys(ph, page, w.cutoff)
      requires Reached(ps, from, path, State(Keys(), Some(w), from.wrapped), limit, w.cutoff)
      modifies this`workflows, this`activities, this`subs
      ensures Reached(ps, from, path', State(Keys(), Some(w.(queue := [])), from.wrapped), limit, w.cutoff)
      ensures Size(Keys()) == Size(old(Keys())) - purged && NoneAhead(ps, old(Keys()), Keys())
    {
      purged, path' := 0, path;
      assert page[0..] == page;
      for i := 0 to |page|
        invariant Reached(ps, from, path', State(Keys(), Some(w.(queue := ExpiredKeys(ph, page[i..], w.cutoff))),
                  from.wrapped), limit, w.cutoff)
        invariant Size(Keys()) == Size(old(Keys())) - purged && NoneAhead(ps, old(Keys()), Keys())
      {
        QueueStep(ph, page, i, w.cutoff);
        if Expired(page[i].value, w.cutoff) {
          ghost var before := Keys();
          var gone;
          gone, path' := PurgeHead(ph, page[i].key, w.(queue := ExpiredKeys(ph, page[i..], w.cutoff)), from, path',
              limit);
          NoneAheadTwice(ps, old(Keys()), before, Keys());
          if gone {
            purged := purged + 1;
          }
        }
      }
      assert page[|page|..] == [];
    }

    /** Purges the run at the head of the pass's queue. */
    method PurgeHead(ph: Phase, k: Key, w: Pass, ghost from: State, ghost path: seq<Step>, ghost limit: nat)
      returns (gone: bool, ghost path': seq<Step>)
      requires w.queue != [] && w.queue[0] == Item(ph, k)
      requires Reached(ps, from, path, State(Keys(), Some(w), from.wrapped), limit, w.cutoff)
      modifies this`workflows, this`activities, this`subs
      ensures Reached(ps, from, path', State(Keys(), Some(w.(queue := w.queue[1..])), from.wrapped), limit, w.cutoff)
      ensures Size(Keys()) == Size(old(Keys())) - (if gone then 1 else 0) && NoneAhead(ps, old(Keys()), Keys())
    {
      ghost var mid := State(Keys(), Some(w), from.wrapped);
      ghost var keys;
      gone, keys := PurgeRun(ph, k, w.cutoff);
      ReachedNext(ps, from, path, mid, PurgeNext(keys), limit, w.cutoff);
      path' := path + [PurgeNext(keys)];
      if gone { DeletionSizes(ps, from, path, mid, ph, k, keys, limit, w.cutoff); }
    }

    /** One pass: reads up to `limit` rows from where the last pass stopped, and
        stores where it stops itself. Only runs expired at the cutoff are gone,
        counted, with their keys; and unless the walk wrapped there are fewer rows
        ahead of the cursor, by the limit. */
    method Purge(limit: nat, cutoff: int) returns (purged: nat, walked: bool, ghost path: seq<Step>)
      requires limit > 0 && GoodPrefixes(ps) && WellFormed(ps, Keys())
      modifies this
      ensures WellFormed(ps, Keys()) && OnlyExpiredGone(old(Keys()), Keys(), cutoff)
      ensures Size(Keys()) == Size(old(Keys())) - purged
      ensures Leads(ps, State(old(Keys()), None, false), path, State(Keys(), None, walked))
              && PassSteps(path, limit, cutoff)
      ensures walked ==> cursor == []
      ensures !walked ==> RowsLeft(ps, Keys()) <= RowsLeft(ps, old(Keys())) - limit
    {
      ghost var from := State(Keys(), None, false);
      var w := Pass(cursor, PhaseOf(ps, cursor), limit, [], false, cutoff);
      path := [];
      ReachedNext(ps, from, path, from, Begin(limit, cutoff), limit, cutoff);
      path := path + [Begin(limit, cutoff)];
      purged := 0;
      while w.left > 0 && !w.walked
        invariant w.queue == [] && w.cutoff == cutoff
                  && Reached(ps, from, path, State(Keys(), Some(w), false), limit, cutoff)
        invariant Size(Keys()) == Size(old(Keys())) - purged && cursor == old(cursor)
        invariant w.walked ==> w.at == []
        invariant !w.walked ==> RowsAhead(ps, Keys(), w.phase, w.at) - w.left <= RowsLeft(ps, old(Keys())) - limit
        decreases !w.walked, w.phase.Workflows?, w.left
      {
        var ph := w.phase;
        var rows := RowsAt(ph);
        var page := Page(rows, PrefixOf(ps, ph), w.at, w.left);
        ReachedPlaced(ps, from, path, State(Keys(), Some(w), false), limit, cutoff);
        PageAhead(ps, Keys(), w);
        ReachedNext(ps, from, path, State(Keys(), Some(w), false), ReadPage, limit, cutoff);
        path := path + [ReadPage];
        w := AfterPage(ps, w, page);
        var n;
        n, path := PurgePage(ph, page, w, from, path, limit);
        w := w.(queue := []);
        purged := purged + n;
      }
      ReachedPlaced(ps, from, path, State(Keys(), Some(w), false), limit, cutoff);
      ReachedNext(ps, from, path, State(Keys(), Some(w), false), Finish, limit, cutoff);
      path := path + [Finish];
      cursor := w.at;
      walked := w.walked;
      ReachedPlaced(ps, from, path, State(Keys(), None, walked), limit, cutoff);
    }

    /** Passes one after another until the walk wraps. Only runs expired at the
        latest cutoff are gone; a run that was expired at every cutoff is gone with
        its keys once the walk wraps; and it has wrapped if there were more passes
        than rows. */
    method PurgeUntilWrapped(passes: seq<(nat, int)>) returns (walked: bool)
      requires GoodPrefixes(ps) && WellFormed(ps, Keys()) && cursor == []
      requires forall i :: 0 <= i < |passes| ==> passes[i].0 > 0
      modifies this
      ensures WellFormed(ps, Keys()) && OnlyExpiredGone(old(Keys()), Keys(), Latest(passes))
      ensures walked ==> forall ph, k, row :: Doomed(old(Keys()), passes, ph, k, row) ==>
                          (forall v :: Row(k, v) !in RowsOf(Keys(), ph)) && Bare(subs, ph, row)
      ensures |passes| > Size(old(Keys())) ==> walked
    {
      walked := false;
      var i := 0;
      forall ph, k, row | Doomed(Keys(), passes, ph, k, row)
          ensures Progress(ps, State(Keys(), None, false), ph, k, row) {
        RangeIsPrefix(PrefixOf(ps, ph), k);
      }
      LeftAtMost(ps, Keys());
      SameGone(Keys(), Keys(), Latest(passes));
      while i < |passes| && !walked
        invariant 0 <= i <= |passes| && WellFormed(ps, Keys()) && OnlyExpiredGone(old(Keys()), Keys(), Latest(passes))
        invariant !walked ==> RowsLeft(ps, Keys()) <= Size(old(Keys())) - i
        invariant forall ph, k, row :: Doomed(old(Keys()), passes, ph, k, row) ==>
                  Progress(ps, State(Keys(), None, walked), ph, k, row)
      {
        ghost var before := Keys();
        var purged;
        ghost var path;
        purged, walked, path := Purge(passes[i].0, passes[i].1);
        LatestBounds(passes, i);
        GoneLater(before, Keys(), passes[i].1, Latest(passes));
        GoneTwice(old(Keys()), before, Keys(), Latest(passes));
        forall ph, k, row | Doomed(old(Keys()), passes, ph, k, row)
            ensures Progress(ps, State(Keys(), None, walked), ph, k, row) {
          PassMakesProgress(ps, State(before, None, false), path, State(Keys(), None, walked), passes[i].0, passes[i].1,
              ph, k, row);
        }
        i := i + 1;
      }
      forall ph, row { BareIff(subs, ph, row); }
    }

    /** A namespace's pass: none under a retention that cannot be read or is not
        positive; else one with its cutoff a retention ago, so that only runs that
        closed then or before are gone. */
    method PurgeNamespace(ttl: Ttl, now: int, limit: nat) returns (purged: Option<nat>, ghost path: seq<Step>)
      requires limit > 0 && GoodPrefixes(ps) && WellFormed(ps, Keys())
      modifies this
      ensures purged.None? <==> ttl.Unreadable? || (ttl.Lasts? && ttl.nanos <= 0)
      ensures purged.None? ==> Keys() == old(Keys())
      ensures purged.Some? ==>
                && WellFormed(ps, Keys()) && Size(Keys()) == Size(old(Keys())) - purged.value
                && forall ph, r :: r in RowsOf(old(Keys()), ph) && r !in RowsOf(Keys(), ph) ==>
                     r.value.terminal && r.value.closedAt + Kept(ttl) <= now
      ensures purged.Some? ==>
                exists walked :: Leads(ps, State(old(Keys()), None, false), path, State(Keys(), None, walked))
      ensures PassSteps(path, limit, now - Kept(ttl))
    {
      path := [];
      var keep := match ttl case Unset => DEFAULT_RETENTION case Unreadable => 0 case Lasts(d) => d;
      if keep <= 0 {
        return None, [];
      }
      var n, _, steps := Purge(limit, now - keep);
      purged, path := Some(n), steps;
    }
  }

  /** A namespace's retention as its row has it. */
  datatype Ttl = Unset | Unreadable | Lasts(nanos: int)

  /** 720 hours. */
  const DEFAULT_RETENTION: int := 2_592_000_000_000_000

  /** How long a run is kept. */
  function Kept(ttl: Ttl): int { if ttl.Lasts? then ttl.nanos else 720 * 60 * 60 * 1_000_000_000 }

  function Latest(passes: seq<(nat, int)>): int
  {
    if passes == [] then 0
    else if |passes| == 1 || passes[|passes| - 1].1 > Latest(passes[..|passes| - 1]) then passes[|passes| - 1].1
    else Latest(passes[..|passes| - 1])
  }

  lemma {:induction false} LatestBounds(passes: seq<(nat, int)>, i: nat)
    requires i < |passes|
    ensures passes[i].1 <= Latest(passes)
  {
    if i < |passes| - 1 { LatestBounds(passes[..|passes| - 1], i); }
  }

  lemma GoneLater(s: Store, s': Store, cutoff: int, later: int)
    requires OnlyExpiredGone(s, s', cutoff) && cutoff <= later
    ensures OnlyExpiredGone(s, s', later)
  {
  }

  /** A run there at the start and expired at every pass. */
  ghost predicate Doomed(s: Store, passes: seq<(nat, int)>, ph: Phase, k: Key, row: RunRow)
  {
    Row(k, row) in RowsOf(s, ph) && row.terminal && forall i :: 0 <= i < |passes| ==> row.closedAt <= passes[i].1
  }

  ghost function Size(s: Store): nat { |s.workflows| + |s.activities| }

  /** The rows ahead of the stored cursor. */
  ghost function RowsLeft(ps: Prefixes, s: Store): nat { RowsAhead(ps, s, PhaseOf(ps, s.cursor), s.cursor) }

  lemma LeftAtMost(ps: Prefixes, s: Store)
    ensures RowsLeft(ps, s) <= Size(s)
  {
    SelectShort(s.workflows, ps.workflows, s.cursor);
    SelectShort(s.activities, ps.activities, s.cursor);
  }

  /** No more rows are ahead of any position in s' than in s. */
  ghost predicate NoneAhead(ps: Prefixes, s: Store, s': Store)
  {
    forall phase, at :: RowsAhead(ps, s', phase, at) <= RowsAhead(ps, s, phase, at)
  }

  lemma NoneAheadTwice(ps: Prefixes, a: Store, b: Store, c: Store)
    requires NoneAhead(ps, a, b) && NoneAhead(ps, b, c)
    ensures NoneAhead(ps, a, c)
  {
    forall phase, at ensures RowsAhead(ps, c, phase, at) <= RowsAhead(ps, a, phase, at) {
      assert RowsAhead(ps, b, phase, at) <= RowsAhead(ps, a, phase, at);
    }
  }

  /** The path is that of one pass and leads here from a well-formed store. */
  ghost predicate Reached(ps: Prefixes, from: State, path: seq<Step>, st: State, limit: nat, cutoff: int)
  {
    && GoodPrefixes(ps) && WellFormed(ps, from.store) && from.pass.None?
    && Leads(ps, from, path, st) && PassSteps(path, limit, cutoff)
  }

  lemma ReachedNext(ps: Prefixes, from: State, path: seq<Step>, mid: State, step: Step, limit: nat, cutoff: int)
    requires Reached(ps, from, path, mid, limit, cutoff) && Enabled(ps, mid, step) && PassSteps([step], limit, cutoff)
    ensures Reached(ps, from, path + [step], Next(ps, mid, step), limit, cutoff)
  {
    assert [step][0] == step;
    LeadsSnoc(ps, from, path, mid, step);
  }

  lemma ReachedPlaced(ps: Prefixes, from: State, path: seq<Step>, st: State, limit: nat, cutoff: int)
    requires Reached(ps, from, path, st, limit, cutoff)
    ensures Placed(ps, st) && OnlyExpiredGone(from.store, st.store, cutoff)
  {
    PassTakesOnlyExpired(ps, from, path, st, limit, cutoff);
  }

  lemma {:induction false} DeletionSizes(ps: Prefixes, from: State, path: seq<Step>, mid: State, ph: Phase, k: Key,
      keys: seq<SubKey>,
      limit: nat, cutoff: int)
    requires Reached(ps, from, path, mid, limit, cutoff) && Find(RowsOf(mid.store, ph), k).Some?
    ensures var s' := Deleted(mid.store, ph, k, keys, |keys| + 1);
            Size(s') == Size(mid.store) - 1 && NoneAhead(ps, mid.store, s')
  {
    ReachedPlaced(ps, from, path, mid, limit, cutoff);
    WithoutOne(RowsOf(mid.store, ph), k);
    forall phase, at { DeletionAhead(ps, mid.store, ph, k, keys, phase, at); }
  }
}
