/** The retention purge (pkg/tasks/retention.go): a walk over a namespace's run
    rows, a bounded page per pass, resumed from a stored cursor, that removes
    every terminal run past its retention together with the keys that belong to
    it, the run's row last. Between any two steps of a pass the rest of the
    engine may change the store, and a crash may end the pass. */
module Retention {
  import opened Basics
  import opened ShardDb

  // ------------------------------------------------------------------ the store

  datatype Ref = Ref(id: string, run: string)

  /** What the purge reads of a run's row. */
  datatype RunRow = RunRow(ref: Ref, terminal: bool, closedAt: int, scheduleId: string)

  /** The keys of a run besides its row. Ids contain no separator, so a key names
      the parts it was built from. */
  datatype SubKey =
    | HistoryKey(ref: Ref, event: nat)            // wfh/
    | ActivityKey(ref: Ref, seq_: nat)            // wfact/
    | OpenKey(ref: Ref)                           // wfopen/
    | RequestKey(id: string, request: string)     // idem/, holds the run it started
    | TriggerKey(schedule: string, request: string) // sctrig/, holds the run it started
    | ActivityHistoryKey(ref: Ref, event: nat)    // ahist/
    | ActivityRequestKey(id: string, request: string) // aidem/, holds the run it started

  datatype Phase = Workflows | Activities

  datatype Store = Store(
    workflows: seq<Row<RunRow>>,
    activities: seq<Row<RunRow>>,
    subs: map<SubKey, Ref>,
    cursor: Key)

  function RowsOf(s: Store, ph: Phase): seq<Row<RunRow>>
  {
    match ph case Workflows => s.workflows case Activities => s.activities
  }

  function WithRows(s: Store, ph: Phase, rows: seq<Row<RunRow>>): Store
  {
    match ph case Workflows => s.(workflows := rows) case Activities => s.(activities := rows)
  }

  /** The key belongs to the run. */
  predicate Belongs(ph: Phase, row: RunRow, k: SubKey, v: Ref)
  {
    match k
    case HistoryKey(ref, _) => ph.Workflows? && ref == row.ref
    case ActivityKey(ref, _) => ph.Workflows? && ref == row.ref
    case OpenKey(ref) => ph.Workflows? && ref == row.ref
    case RequestKey(id, _) => ph.Workflows? && id == row.ref.id && v.run == row.ref.run
    case TriggerKey(schedule, _) => ph.Workflows? && row.scheduleId != "" && schedule == row.scheduleId && v == row.ref
    case ActivityHistoryKey(ref, _) => ph.Activities? && ref == row.ref
    case ActivityRequestKey(id, _) => ph.Activities? && id == row.ref.id && v.run == row.ref.run
  }

  /** Nothing of a run is left: no history, activity or open key under its ids, no
      request key of its id that names it, and no trigger key of its schedule that
      does. */
  ghost predicate Bare(subs: map<SubKey, Ref>, ph: Phase, row: RunRow)
  {
    match ph
    case Workflows =>
      && (forall e :: HistoryKey(row.ref, e) !in subs)
      && (forall n :: ActivityKey(row.ref, n) !in subs)
      && OpenKey(row.ref) !in subs
      && (forall q :: RequestKey(row.ref.id, q) in subs ==> subs[RequestKey(row.ref.id, q)].run != row.ref.run)
      && (forall q :: row.scheduleId != "" && TriggerKey(row.scheduleId, q) in subs ==>
            subs[TriggerKey(row.scheduleId, q)] != row.ref)
    case Activities =>
      && (forall e :: ActivityHistoryKey(row.ref, e) !in subs)
      && (forall q :: ActivityRequestKey(row.ref.id, q) in subs ==>
            subs[ActivityRequestKey(row.ref.id, q)].run != row.ref.run)
  }

  /** The key, by its name and what it holds, is one of a run. */
  predicate Named(ph: Phase, row: RunRow, k: SubKey, v: Ref)
  {
    || (ph == Workflows && (k.HistoryKey? || k.ActivityKey? || k.OpenKey?) && k.ref == row.ref)
    || (ph == Workflows && k.RequestKey? && Ref(k.id, v.run) == row.ref)
    || (ph == Workflows && k.TriggerKey? && v == row.ref && k.schedule == row.scheduleId != "")
    || (ph == Activities && k.ActivityHistoryKey? && k.ref == row.ref)
    || (ph == Activities && k.ActivityRequestKey? && Ref(k.id, v.run) == row.ref)
  }

  lemma BareIff(subs: map<SubKey, Ref>, ph: Phase, row: RunRow)
    ensures Bare(subs, ph, row) <==> forall j :: j in subs ==> !Belongs(ph, row, j, subs[j])
  {
    if Bare(subs, ph, row) {
      forall j | j in subs ensures !Belongs(ph, row, j, subs[j]) {
        match j {
          case HistoryKey(_, e) => assert HistoryKey(row.ref, e) !in subs || ph.Activities?;
          case ActivityKey(_, n) => assert ActivityKey(row.ref, n) !in subs || ph.Activities?;
          case _ =>
        }
      }
    }
  }

  /** A key belongs to one run at most. */
  lemma OneOwner(ph: Phase, row: RunRow, ph': Phase, row': RunRow, k: SubKey, v: Ref)
    requires Belongs(ph, row, k, v) && Belongs(ph', row', k, v)
    ensures ph == ph' && row.ref == row'.ref
  {
  }

  predicate Expired(row: RunRow, cutoff: int) { row.terminal && row.closedAt <= cutoff }

  // -------------------------------------------------------------- one run's purge

  function Without(rows: seq<Row<RunRow>>, k: Key): seq<Row<RunRow>>
  {
    if rows == [] then []
    else (if rows[0].key == k then [] else [rows[0]]) + Without(rows[1..], k)
  }

  function Find(rows: seq<Row<RunRow>>, k: Key): (r: Option<RunRow>)
    ensures r.Some? ==> Row(k, r.value) in rows
    ensures r.None? ==> forall v :: Row(k, v) !in rows
  {
    if rows == [] then None
    else if rows[0].key == k then Some(rows[0].value)
    else Find(rows[1..], k)
  }

  lemma {:induction false} WithoutMember(rows: seq<Row<RunRow>>, k: Key, r: Row<RunRow>)
    ensures r in Without(rows, k) <==> r in rows && r.key != k
  {
    if rows != [] {
      WithoutMember(rows[1..], k, r);
      assert rows == [rows[0]] + rows[1..];
    }
  }

  lemma {:induction false} WithoutSorted(rows: seq<Row<RunRow>>, k: Key)
    requires Sorted(rows)
    ensures Sorted(Without(rows, k))
  {
    if rows != [] {
      WithoutSorted(rows[1..], k);
      var rest := Without(rows[1..], k);
      forall i | 0 <= i < |rest| ensures Less(rows[0].key, rest[i].key) {
        WithoutMember(rows[1..], k, rest[i]);
        BelowTail(rows, rest[i]);
      }
    }
  }

  /** keys lists what belongs to the run: its own keys in any order, and its open
      entry whether present or not. */
  ghost predicate ListsKeys(s: Store, ph: Phase, row: RunRow, keys: seq<SubKey>)
  {
    && (forall k :: k in s.subs && Belongs(ph, row, k, s.subs[k]) ==> k in keys)
    && (forall k :: k in keys && k in s.subs ==> Belongs(ph, row, k, s.subs[k]))
  }

  /** The store after the first n deletions of a run's keys, its row being the
      last one. */
  function Deleted(s: Store, ph: Phase, k: Key, keys: seq<SubKey>, n: nat): Store
    requires n <= |keys| + 1
  {
    if n <= |keys| then s.(subs := s.subs - set j | 0 <= j < n :: keys[j])
    else WithRows(s, ph, Without(RowsOf(s, ph), k)).(subs := s.subs - set j | 0 <= j < |keys| :: keys[j])
  }

  /** A purge of one run, cut anywhere: other runs' rows and keys are untouched;
      the run's row is there until everything else of it is gone. */
  lemma PurgeDeletesOneRun(s: Store, ph: Phase, k: Key, row: RunRow, keys: seq<SubKey>, n: nat)
    requires ListsKeys(s, ph, row, keys) && n <= |keys| + 1
    requires Row(k, row) in RowsOf(s, ph) && Sorted(RowsOf(s, ph))
    ensures var s' := Deleted(s, ph, k, keys, n);
            && (forall q, r :: r in RowsOf(s', q) <==> r in RowsOf(s, q) && !(q == ph && r.key == k && n == |keys| + 1))
            && (forall j :: j in s.subs && !Belongs(ph, row, j, s.subs[j]) ==> j in s'.subs)
            && (forall j :: j in s'.subs ==> j in s.subs && s'.subs[j] == s.subs[j])
            && (n > |keys| ==> forall j :: j in s'.subs ==> !Belongs(ph, row, j, s'.subs[j]))
            && (forall q :: Sorted(RowsOf(s, q)) ==> Sorted(RowsOf(s', q)))
  {
    var s' := Deleted(s, ph, k, keys, n);
    forall q, r ensures r in RowsOf(s', q) <==> r in RowsOf(s, q) && !(q == ph && r.key == k && n == |keys| + 1) {
      WithoutMember(RowsOf(s, ph), k, r);
    }
    WithoutSorted(RowsOf(s, ph), k);
    forall j | j in s.subs && !Belongs(ph, row, j, s.subs[j]) ensures j in s'.subs {
      assert j !in keys;
    }
    if n > |keys| {
      forall j | j in s.subs && Belongs(ph, row, j, s.subs[j]) ensures j !in s'.subs {
        var i :| 0 <= i < |keys| && keys[i] == j;
      }
    }
  }

  // ----------------------------------------------------------------- the walk

  datatype Item = Item(phase: Phase, key: Key)

  /** A pass: where it stands, how many rows it may still read, the expired runs
      of the page it has yet to purge. */
  datatype Pass = Pass(at: Key, phase: Phase, left: nat, queue: seq<Item>, walked: bool, cutoff: int)

  datatype State = State(store: Store, pass: Option<Pass>, wrapped: bool)

  datatype Prefixes = Prefixes(workflows: Key, activities: Key)

  function PrefixOf(ps: Prefixes, ph: Phase): Key
  {
    match ph case Workflows => ps.workflows case Activities => ps.activities
  }

  /** The phase a cursor belongs to; an empty one starts the walk. */
  function PhaseOf(ps: Prefixes, at: Key): Phase
  {
    if ps.activities <= at then Activities else Workflows
  }

  function ExpiredKeys(ph: Phase, page: seq<Row<RunRow>>, cutoff: int): seq<Item>
  {
    if page == [] then []
    else (if Expired(page[0].value, cutoff) then [Item(ph, page[0].key)] else []) + ExpiredKeys(ph, page[1..], cutoff)
  }

  datatype Step =
    | Begin(limit: nat, cutoff: int)
    | ReadPage
    | PurgeNext(keys: seq<SubKey>)             // under the run's lock, against its current row
    | CrashIn(keys: seq<SubKey>, cut: nat)     // a crash after `cut` deletions of that purge
    | Finish
    | Crash
    | Elsewhere(store: Store)                  // the rest of the engine writes

  predicate MayPurge(st: State)
  {
    st.pass.Some? && st.pass.value.queue != []
  }

  /** The row the next purge finds. */
  function Current(st: State): Option<RunRow>
    requires MayPurge(st)
  {
    var item := st.pass.value.queue[0];
    Find(RowsOf(st.store, item.phase), item.key)
  }

  predicate Purges(st: State)
    requires MayPurge(st)
  {
    Current(st).Some? && Expired(Current(st).value, st.pass.value.cutoff)
  }

  ghost predicate Enabled(ps: Prefixes, st: State, step: Step)
  {
    match step
    case Begin(limit, _) => st.pass.None? && limit > 0
    case ReadPage => st.pass.Some? && st.pass.value.queue == [] && st.pass.value.left > 0 && !st.pass.value.walked
    case PurgeNext(keys) => MayPurge(st) && (Purges(st) ==>
        ListsKeys(st.store, st.pass.value.queue[0].phase, Current(st).value, keys))
    case CrashIn(keys, cut) =>
      MayPurge(st) && Purges(st) && cut <= |keys|
          && ListsKeys(st.store, st.pass.value.queue[0].phase, Current(st).value, keys)
    case Finish => st.pass.Some? && st.pass.value.queue == [] && (st.pass.value.left == 0 || st.pass.value.walked)
    case Crash => true
    case Elsewhere(store) => store.cursor == st.store.cursor && WellFormed(ps, store)
  }

  ghost predicate TableOk(p: Key, rows: seq<Row<RunRow>>)
  {
    Sorted(rows) && forall r :: r in rows ==> p <= r.key
  }

  /** Rows in key order under their own prefix. */
  ghost predicate WellFormed(ps: Prefixes, s: Store)
  {
    TableOk(ps.workflows, s.workflows) && TableOk(ps.activities, s.activities)
  }

  function AfterPage(ps: Prefixes, w: Pass, page: seq<Row<RunRow>>): Pass
    requires |page| <= w.left
  {
    var left := w.left - |page|;
    var at := if page == [] then w.at else page[|page| - 1].key;
    var queue := ExpiredKeys(w.phase, page, w.cutoff);
    if left == 0 then w.(at := at, left := 0, queue := queue)
    else if w.phase.Workflows? then w.(at := [], phase := Activities, left := left, queue := queue)
    else w.(at := [], left := left, queue := queue, walked := true)
  }

  ghost function Next(ps: Prefixes, st: State, step: Step): State
    requires Enabled(ps, st, step)
  {
    match step
    case Begin(limit, cutoff) =>
      var at := st.store.cursor;
      st.(pass := Some(Pass(at, PhaseOf(ps, at), limit, [], false, cutoff)))
    case ReadPage =>
      var w := st.pass.value;
      st.(pass := Some(AfterPage(ps, w, Page(RowsOf(st.store, w.phase), PrefixOf(ps, w.phase), w.at, w.left))))
    case PurgeNext(keys) =>
      var w := st.pass.value;
      var item := w.queue[0];
      State(if Purges(st) then Deleted(st.store, item.phase, item.key, keys, |keys| + 1) else st.store,
            Some(w.(queue := w.queue[1..])), st.wrapped)
    case CrashIn(keys, cut) =>
      var item := st.pass.value.queue[0];
      State(Deleted(st.store, item.phase, item.key, keys, cut), None, st.wrapped)
    case Finish =>
      State(st.store.(cursor := st.pass.value.at), None, st.wrapped || st.pass.value.walked)
    case Crash => st.(pass := None)
    case Elsewhere(store) => st.(store := store)
  }

  // ------------------------------------------------- one run through the walk

  /** The walk at (phase, at) has yet to come to this key. */
  predicate Coming(ps: Prefixes, phase: Phase, at: Key, ph: Phase, k: Key)
  {
    if ph == phase then Ahead(PrefixOf(ps, ph), at, k) else ph.Activities?
  }

  ghost predicate Gone(s: Store, ph: Phase, k: Key, row: RunRow)
  {
    && (forall v :: Row(k, v) !in RowsOf(s, ph))
    && (forall j :: j in s.subs ==> !Belongs(ph, row, j, s.subs[j]))
  }

  /** The run is purged, or the walk will still meet it, even from the stored
      cursor. */
  ghost predicate OnTheWay(ps: Prefixes, st: State, ph: Phase, k: Key, row: RunRow)
  {
    || Gone(st.store, ph, k, row)
    || (&& Row(k, row) in RowsOf(st.store, ph)
        && Coming(ps, PhaseOf(ps, st.store.cursor), st.store.cursor, ph, k)
        && (st.pass.Some? ==>
              var w := st.pass.value;
              Item(ph, k) in w.queue || (!w.walked && Coming(ps, w.phase, w.at, ph, k))))
  }

  /** The two prefixes cannot be confused. */
  ghost predicate GoodPrefixes(ps: Prefixes)
  {
    && HasRoom(ps.workflows) && HasRoom(ps.activities)
    && !(ps.workflows <= ps.activities) && !(ps.activities <= ps.workflows)
  }

  /** A pass stands on its own phase's keys. */
  ghost predicate PassOk(ps: Prefixes, w: Pass)
  {
    && (w.at != [] ==> PhaseOf(ps, w.at) == w.phase)
    && (w.left == 0 ==> w.at != [])
    && (w.walked ==> w.at == [])
  }

  ghost predicate Placed(ps: Prefixes, st: State)
  {
    WellFormed(ps, st.store) && (st.pass.Some? ==> PassOk(ps, st.pass.value))
  }

  /** The rest of the engine leaves an expired run alone: its row does not change
      while it is there, and once it is gone nothing of it comes back. */
  ghost predicate LeavesAlone(s: Store, s': Store, ph: Phase, k: Key, row: RunRow)
  {
    && (Row(k, row) in RowsOf(s, ph) ==> Row(k, row) in RowsOf(s', ph))
    && (Gone(s, ph, k, row) ==> Gone(s', ph, k, row))
  }

  ghost predicate Fair(st: State, step: Step, ph: Phase, k: Key, row: RunRow)
  {
    && (step.Begin? ==> row.closedAt <= step.cutoff)
    && (step.Elsewhere? ==> LeavesAlone(st.store, step.store, ph, k, row))
  }

  ghost predicate CutoffOk(st: State, row: RunRow)
  {
    st.pass.Some? ==> row.closedAt <= st.pass.value.cutoff
  }

  lemma {:induction false} ExpiredKeysMember(ph: Phase, page: seq<Row<RunRow>>, cutoff: int, item: Item)
    ensures item in ExpiredKeys(ph, page, cutoff) <==>
            item.phase == ph && exists v :: Row(item.key, v) in page && Expired(v, cutoff)
  {
    if page != [] {
      ExpiredKeysMember(ph, page[1..], cutoff, item);
      assert page == [page[0]] + page[1..];
      if v :| Row(item.key, v) in page && Expired(v, cutoff) {
        assert Row(item.key, v) == page[0] || Row(item.key, v) in page[1..];
      }
      if v :| Row(item.key, v) in page[1..] && Expired(v, cutoff) {
        assert Row(item.key, v) in page;
      }
      if Expired(page[0].value, cutoff) && item == Item(ph, page[0].key) {
        assert Row(item.key, page[0].value) in page;
      }
    }
  }

  lemma {:induction false} FindSame(rows: seq<Row<RunRow>>, k: Key, row: RunRow)
    requires Sorted(rows) && Row(k, row) in rows
    ensures Find(rows, k) == Some(row)
  {
    if rows[0].key == k {
      if rows[0] != Row(k, row) {
        BelowTail(rows, Row(k, row));
        LessIrreflexive(k);
      }
    } else {
      assert rows == [rows[0]] + rows[1..];
      FindSame(rows[1..], k, row);
    }
  }

  lemma {:induction false} SelectPrefixed(rows: seq<Row<RunRow>>, p: Key, after: Key)
    requires forall r :: r in rows ==> p <= r.key
    ensures forall i :: 0 <= i < |Select(rows, p, after)| ==> p <= Select(rows, p, after)[i].key
  {
    forall i | 0 <= i < |Select(rows, p, after)| ensures p <= Select(rows, p, after)[i].key {
      SelectMember(rows, p, after, Select(rows, p, after)[i]);
    }
  }

  lemma PrefixesOfOneKey(a: Key, b: Key, k: Key)
    requires a <= k && b <= k
    ensures a <= b || b <= a
  {
    if |a| <= |b| {
      assert a == k[..|a|] == k[..|b|][..|a|];
    } else {
      assert b == k[..|b|] == k[..|a|][..|b|];
    }
  }

  lemma PhaseOfPrefixed(ps: Prefixes, ph: Phase, k: Key)
    requires GoodPrefixes(ps) && PrefixOf(ps, ph) <= k
    ensures PhaseOf(ps, k) == ph && k != []
  {
    if ps.workflows <= k && ps.activities <= k {
      PrefixesOfOneKey(ps.workflows, ps.activities, k);
    }
  }

  lemma PagePlaced(ps: Prefixes, w: Pass, page: seq<Row<RunRow>>)
    requires GoodPrefixes(ps) && PassOk(ps, w) && w.left > 0 && |page| <= w.left && !w.walked
    requires forall i :: 0 <= i < |page| ==> PrefixOf(ps, w.phase) <= page[i].key
    ensures PassOk(ps, AfterPage(ps, w, page))
  {
    if page != [] { PhaseOfPrefixed(ps, w.phase, page[|page| - 1].key); }
  }

  lemma PlacedStep(ps: Prefixes, st: State, step: Step)
    requires GoodPrefixes(ps) && Placed(ps, st) && Enabled(ps, st, step)
    ensures Placed(ps, Next(ps, st, step))
  {
    match step {
      case ReadPage =>
        var w := st.pass.value;
        SelectPrefixed(RowsOf(st.store, w.phase), PrefixOf(ps, w.phase), w.at);
        PagePlaced(ps, w, Page(RowsOf(st.store, w.phase), PrefixOf(ps, w.phase), w.at, w.left));
      case PurgeNext(keys) => PurgeWellFormed(ps, st, keys, |keys| + 1);
      case CrashIn(keys, cut) => PurgeWellFormed(ps, st, keys, cut);
      case _ =>
    }
  }

  lemma PurgeWellFormed(ps: Prefixes, st: State, keys: seq<SubKey>, n: nat)
    requires WellFormed(ps, st.store) && MayPurge(st) && n <= |keys| + 1
    requires Purges(st) ==> ListsKeys(st.store, st.pass.value.queue[0].phase, Current(st).value, keys)
    ensures Purges(st) ==>
            WellFormed(ps, Deleted(st.store, st.pass.value.queue[0].phase, st.pass.value.queue[0].key, keys, n))
  {
    if Purges(st) {
      var item := st.pass.value.queue[0];
      PurgeDeletesOneRun(st.store, item.phase, item.key, Current(st).value, keys, n);
      var s' := Deleted(st.store, item.phase, item.key, keys, n);
      assert s'.workflows == RowsOf(s', Workflows) && s'.activities == RowsOf(s', Activities);
      assert st.store.workflows == RowsOf(st.store, Workflows) && st.store.activities == RowsOf(st.store, Activities);
    }
  }

  // -------------------------------------------------------- the run's progress

  lemma PageMeets(ps: Prefixes, st: State, ph: Phase, k: Key, row: RunRow)
    requires GoodPrefixes(ps) && Placed(ps, st) && Enabled(ps, st, ReadPage)
    requires row.terminal && row.closedAt <= st.pass.value.cutoff && Row(k, row) in RowsOf(st.store, ph)
    requires Coming(ps, st.pass.value.phase, st.pass.value.at, ph, k)
    ensures var w := Next(ps, st, ReadPage).pass.value;
            Item(ph, k) in w.queue || (!w.walked && Coming(ps, w.phase, w.at, ph, k))
  {
    var w := st.pass.value;
    var rows, p := RowsOf(st.store, w.phase), PrefixOf(ps, w.phase);
    var page := Page(rows, p, w.at, w.left);
    if ph == w.phase {
      PageReaches(rows, p, w.at, w.left, Row(k, row));
      if Row(k, row) in page {
        ExpiredKeysMember(ph, page, w.cutoff, Item(ph, k));
      }
    } else if w.left > |page| {
      ActivitiesComing(ps, st.store, k, row);
    }
  }

  lemma ActivitiesComing(ps: Prefixes, s: Store, k: Key, row: RunRow)
    requires GoodPrefixes(ps) && WellFormed(ps, s) && Row(k, row) in s.activities
    ensures Coming(ps, Activities, [], Activities, k)
  {
    RangeIsPrefix(ps.activities, k);
  }

  lemma SkipMeets(ps: Prefixes, st: State, keys: seq<SubKey>, ph: Phase, k: Key, row: RunRow)
    requires Placed(ps, st) && Enabled(ps, st, PurgeNext(keys)) && row.terminal && CutoffOk(st, row) && !Purges(st)
    requires OnTheWay(ps, st, ph, k, row)
    ensures OnTheWay(ps, Next(ps, st, PurgeNext(keys)), ph, k, row)
  {
    var w := st.pass.value;
    if !Gone(st.store, ph, k, row) {
      FindSame(RowsOf(st.store, ph), k, row);
      assert w.queue == [w.queue[0]] + w.queue[1..];
    }
  }

  lemma PurgedItself(ps: Prefixes, st: State, keys: seq<SubKey>, ph: Phase, k: Key, row: RunRow)
    requires Placed(ps, st) && Enabled(ps, st, PurgeNext(keys)) && Purges(st)
    requires st.pass.value.queue[0] == Item(ph, k) && Row(k, row) in RowsOf(st.store, ph)
    ensures Gone(Next(ps, st, PurgeNext(keys)).store, ph, k, row)
  {
    FindSame(RowsOf(st.store, ph), k, row);
    PurgeDeletesOneRun(st.store, ph, k, row, keys, |keys| + 1);
  }

  lemma PurgedAnother(ps: Prefixes, st: State, keys: seq<SubKey>, ph: Phase, k: Key, row: RunRow)
    requires Placed(ps, st) && Enabled(ps, st, PurgeNext(keys)) && Purges(st) && st.pass.value.queue[0] != Item(ph, k)
    ensures var s, s' := st.store, Next(ps, st, PurgeNext(keys)).store;
            && (forall v :: Row(k, v) in RowsOf(s', ph) <==> Row(k, v) in RowsOf(s, ph))
            && (Gone(s, ph, k, row) ==> Gone(s', ph, k, row)) && s'.cursor == s.cursor
  {
    var item := st.pass.value.queue[0];
    PurgeDeletesOneRun(st.store, item.phase, item.key, Current(st).value, keys, |keys| + 1);
  }

  lemma PurgedMeets(ps: Prefixes, st: State, keys: seq<SubKey>, ph: Phase, k: Key, row: RunRow)
    requires Placed(ps, st) && Enabled(ps, st, PurgeNext(keys)) && Purges(st) && OnTheWay(ps, st, ph, k, row)
    ensures OnTheWay(ps, Next(ps, st, PurgeNext(keys)), ph, k, row)
  {
    var queue := st.pass.value.queue;
    if queue[0] != Item(ph, k) {
      PurgedAnother(ps, st, keys, ph, k, row);
      assert queue == [queue[0]] + queue[1..];
    } else if Row(k, row) in RowsOf(st.store, ph) {
      PurgedItself(ps, st, keys, ph, k, row);
    } else {
      PurgedGone(ps, st, keys, ph, k, row);
    }
  }

  lemma PurgedGone(ps: Prefixes, st: State, keys: seq<SubKey>, ph: Phase, k: Key, row: RunRow)
    requires Placed(ps, st) && Enabled(ps, st, PurgeNext(keys)) && Purges(st) && Gone(st.store, ph, k, row)
    ensures Gone(Next(ps, st, PurgeNext(keys)).store, ph, k, row)
  {
    var item := st.pass.value.queue[0];
    PurgeDeletesOneRun(st.store, item.phase, item.key, Current(st).value, keys, |keys| + 1);
  }

  lemma PurgeMeets(ps: Prefixes, st: State, keys: seq<SubKey>, ph: Phase, k: Key, row: RunRow)
    requires Placed(ps, st) && Enabled(ps, st, PurgeNext(keys)) && row.terminal && CutoffOk(st, row)
    requires OnTheWay(ps, st, ph, k, row)
    ensures OnTheWay(ps, Next(ps, st, PurgeNext(keys)), ph, k, row)
  {
    if Purges(st) {
      PurgedMeets(ps, st, keys, ph, k, row);
    } else {
      SkipMeets(ps, st, keys, ph, k, row);
    }
  }

  lemma CrashMeets(ps: Prefixes, st: State, keys: seq<SubKey>, cut: nat, ph: Phase, k: Key, row: RunRow)
    requires Placed(ps, st) && Enabled(ps, st, CrashIn(keys, cut)) && OnTheWay(ps, st, ph, k, row)
    ensures OnTheWay(ps, Next(ps, st, CrashIn(keys, cut)), ph, k, row)
  {
    var item := st.pass.value.queue[0];
    PurgeDeletesOneRun(st.store, item.phase, item.key, Current(st).value, keys, cut);
  }

  /** A finished pass that did not wrap leaves the cursor where it stands. */
  lemma FinishMeets(ps: Prefixes, st: State, ph: Phase, k: Key, row: RunRow)
    requires Placed(ps, st) && Enabled(ps, st, Finish) && OnTheWay(ps, st, ph, k, row)
    ensures var st' := Next(ps, st, Finish);
            (st.pass.value.walked ==> Gone(st'.store, ph, k, row))
                && (!st.pass.value.walked ==> OnTheWay(ps, st', ph, k, row))
  {
    var s, s' := st.store, Next(ps, st, Finish).store;
    assert RowsOf(s', ph) == RowsOf(s, ph);
    assert Gone(s, ph, k, row) ==> Gone(s', ph, k, row);
  }

  /** Until the walk wraps the run is on the way; once it wraps, gone. */
  ghost predicate Progress(ps: Prefixes, st: State, ph: Phase, k: Key, row: RunRow)
  {
    && (!st.wrapped ==> OnTheWay(ps, st, ph, k, row))
    && (st.wrapped ==> Gone(st.store, ph, k, row))
  }

  lemma GoneStays(ps: Prefixes, st: State, step: Step, ph: Phase, k: Key, row: RunRow)
    requires Placed(ps, st) && Enabled(ps, st, step) && Fair(st, step, ph, k, row) && Gone(st.store, ph, k, row)
    ensures Gone(Next(ps, st, step).store, ph, k, row)
  {
    match step {
      case PurgeNext(keys) =>
        if Purges(st) {
          var item := st.pass.value.queue[0];
          PurgeDeletesOneRun(st.store, item.phase, item.key, Current(st).value, keys, |keys| + 1);
        }
      case CrashIn(keys, cut) =>
        var item := st.pass.value.queue[0];
        PurgeDeletesOneRun(st.store, item.phase, item.key, Current(st).value, keys, cut);
      case Finish => assert RowsOf(Next(ps, st, step).store, ph) == RowsOf(st.store, ph);
      case _ =>
    }
  }

  lemma StepMeets(ps: Prefixes, st: State, step: Step, ph: Phase, k: Key, row: RunRow)
    requires GoodPrefixes(ps) && Placed(ps, st) && Enabled(ps, st, step) && Fair(st, step, ph, k, row)
    requires row.terminal && CutoffOk(st, row) && !st.wrapped && OnTheWay(ps, st, ph, k, row)
    ensures Progress(ps, Next(ps, st, step), ph, k, row)
  {
    if Gone(st.store, ph, k, row) {
      GoneStays(ps, st, step, ph, k, row);
    } else {
      match step {
        case ReadPage =>
          var w := st.pass.value;
          if !w.walked && Coming(ps, w.phase, w.at, ph, k) { PageMeets(ps, st, ph, k, row); }
        case PurgeNext(keys) => PurgeMeets(ps, st, keys, ph, k, row);
        case CrashIn(keys, cut) => CrashMeets(ps, st, keys, cut, ph, k, row);
        case Finish => FinishMeets(ps, st, ph, k, row);
        case _ =>
      }
    }
  }

  // ---------------------------------------------------------------- every walk

  ghost predicate Leads(ps: Prefixes, st: State, steps: seq<Step>, st': State)
    decreases |steps|
  {
    if steps == [] then st' == st
    else Enabled(ps, st, steps[0]) && Leads(ps, Next(ps, st, steps[0]), steps[1..], st')
  }

  ghost predicate AllFair(ps: Prefixes, st: State, steps: seq<Step>, ph: Phase, k: Key, row: RunRow)
    decreases |steps|
  {
    steps == [] ||
    (Enabled(ps, st, steps[0]) && Fair(st, steps[0], ph, k, row)
        && AllFair(ps, Next(ps, st, steps[0]), steps[1..], ph, k, row))
  }

  lemma {:induction false} RunMeets(ps: Prefixes, st: State, steps: seq<Step>, st': State, ph: Phase, k: Key,
      row: RunRow)
    requires GoodPrefixes(ps) && Placed(ps, st) && Leads(ps, st, steps, st') && AllFair(ps, st, steps, ph, k, row)
    requires row.terminal && CutoffOk(st, row) && Progress(ps, st, ph, k, row)
    ensures Progress(ps, st', ph, k, row)
    decreases |steps|
  {
    if steps != [] {
      var mid := Next(ps, st, steps[0]);
      PlacedStep(ps, st, steps[0]);
      if st.wrapped {
        GoneStays(ps, st, steps[0], ph, k, row);
      } else {
        StepMeets(ps, st, steps[0], ph, k, row);
      }
      RunMeets(ps, mid, steps[1..], st', ph, k, row);
    }
  }

  /** The walk reaches every run: from a fresh cursor, through passes of any
      limits, crashes anywhere and changes by the rest of the engine in between,
      once the walk has wrapped a run that was terminal and expired throughout is
      gone, row and keys. */
  lemma {:induction false} WalkRemovesExpired(ps: Prefixes, st: State, steps: seq<Step>, st': State, ph: Phase, k: Key,
      row: RunRow)
    requires GoodPrefixes(ps) && WellFormed(ps, st.store) && st.store.cursor == [] && st.pass.None? && !st.wrapped
    requires Row(k, row) in RowsOf(st.store, ph) && row.terminal
    requires Leads(ps, st, steps, st') && AllFair(ps, st, steps, ph, k, row) && st'.wrapped
    ensures (forall v :: Row(k, v) !in RowsOf(st'.store, ph)) && Bare(st'.store.subs, ph, row)
  {
    BareIff(st'.store.subs, ph, row);
    RangeIsPrefix(PrefixOf(ps, ph), k);
    RunMeets(ps, st, steps, st', ph, k, row);
  }

  /** The run is next to purge, and its row as it is now is terminal and closed by
      the cutoff. */
  ghost predicate UnderPurge(st: State, ph: Phase, r: Row<RunRow>)
  {
    && st.pass.Some? && st.pass.value.queue != [] && st.pass.value.queue[0] == Item(ph, r.key)
    && r in RowsOf(st.store, ph) && r.value.terminal && r.value.closedAt <= st.pass.value.cutoff
  }

  /** What is taken away is nothing but a row under purge and the keys of its
      run. */
  ghost predicate OnlyTakes(st: State, s': Store)
  {
    && (forall ph, r :: r in RowsOf(s', ph) ==> r in RowsOf(st.store, ph))
    && (forall ph, r :: r in RowsOf(st.store, ph) && r !in RowsOf(s', ph) ==> UnderPurge(st, ph, r))
    && (forall j :: j in st.store.subs && j !in s'.subs ==>
          exists ph, r :: UnderPurge(st, ph, r) && Named(ph, r.value, j, st.store.subs[j]))
    && (forall j :: j in s'.subs ==> j in st.store.subs && s'.subs[j] == st.store.subs[j])
  }

  lemma TakesNothing(st: State, s': Store)
    requires s'.workflows == st.store.workflows && s'.activities == st.store.activities && s'.subs == st.store.subs
    ensures OnlyTakes(st, s')
  {
    forall ph ensures RowsOf(s', ph) == RowsOf(st.store, ph) {
    }
  }

  lemma DeletionTakes(ps: Prefixes, st: State, keys: seq<SubKey>, n: nat)
    requires Placed(ps, st) && MayPurge(st) && Purges(st) && n <= |keys| + 1
    requires ListsKeys(st.store, st.pass.value.queue[0].phase, Current(st).value, keys)
    ensures var item := st.pass.value.queue[0]; OnlyTakes(st, Deleted(st.store, item.phase, item.key, keys, n))
  {
    var item := st.pass.value.queue[0];
    PurgeDeletesOneRun(st.store, item.phase, item.key, Current(st).value, keys, n);
    var s' := Deleted(st.store, item.phase, item.key, keys, n);
    var head := Row(item.key, Current(st).value);
    assert UnderPurge(st, item.phase, head);
    forall ph, r | r in RowsOf(st.store, ph) && r !in RowsOf(s', ph) ensures UnderPurge(st, ph, r) {
      FindSame(RowsOf(st.store, ph), r.key, r.value);
    }
    forall j | j in st.store.subs && j !in s'.subs
        ensures exists ph, r :: UnderPurge(st, ph, r) && Named(ph, r.value, j, st.store.subs[j]) {
      assert Belongs(item.phase, head.value, j, st.store.subs[j]);
      assert Named(item.phase, head.value, j, st.store.subs[j]);
    }
  }

  /** What a step of the purge may take away: nothing, unless it is the purge of
      a run whose current row is terminal and expired, and then only that run's
      row and keys. */
  lemma PurgeTouchesOnlyExpired(ps: Prefixes, st: State, step: Step)
    requires Placed(ps, st) && Enabled(ps, st, step) && !step.Elsewhere?
    ensures OnlyTakes(st, Next(ps, st, step).store)
  {
    match step {
      case PurgeNext(keys) => if Purges(st) { DeletionTakes(ps, st, keys, |keys| + 1); }
          else { TakesNothing(st, st.store); }
      case CrashIn(keys, cut) => DeletionTakes(ps, st, keys, cut);
      case Finish => TakesNothing(st, st.store.(cursor := st.pass.value.at));
      case Begin(_, _) => TakesNothing(st, st.store);
      case ReadPage => TakesNothing(st, st.store);
      case Crash => TakesNothing(st, st.store);
      case Elsewhere(_) =>
    }
  }

  // ------------------------------------------------------------------ one pass

  /** The steps one pass takes by itself: no crash, and nothing by the rest of the
      engine. */
  ghost predicate PassSteps(path: seq<Step>, limit: nat, cutoff: int)
  {
    forall i :: 0 <= i < |path| ==>
      path[i] == Begin(limit, cutoff) || path[i].ReadPage? || path[i].PurgeNext? || path[i].Finish?
  }

  /** From s to s' nothing appeared or changed; a row that went was expired at the
      cutoff; and a key that went belonged to a row that went. */
  ghost predicate OnlyExpiredGone(s: Store, s': Store, cutoff: int)
  {
    && (forall ph, r :: r in RowsOf(s', ph) ==> r in RowsOf(s, ph))
    && (forall ph, r :: r in RowsOf(s, ph) && r !in RowsOf(s', ph) ==> r.value.terminal && r.value.closedAt <= cutoff)
    && (forall j :: j in s'.subs ==> j in s.subs && s'.subs[j] == s.subs[j])
    && (forall j :: j in s.subs && j !in s'.subs ==> exists ph, r :: Took(s, s', j, ph, r))
  }

  ghost predicate Took(s: Store, s': Store, j: SubKey, ph: Phase, r: Row<RunRow>)
    requires j in s.subs
  {
    r in RowsOf(s, ph) && r !in RowsOf(s', ph) && Named(ph, r.value, j, s.subs[j])
  }

  lemma SameGone(s: Store, s': Store, cutoff: int)
    requires s'.workflows == s.workflows && s'.activities == s.activities && s'.subs == s.subs
    ensures OnlyExpiredGone(s, s', cutoff)
  {
    forall ph ensures RowsOf(s', ph) == RowsOf(s, ph) {
    }
  }

  lemma DeletionGone(s: Store, ph: Phase, k: Key, row: RunRow, keys: seq<SubKey>, cutoff: int)
    requires ListsKeys(s, ph, row, keys) && Row(k, row) in RowsOf(s, ph) && Sorted(RowsOf(s, ph))
             && Expired(row, cutoff)
    ensures OnlyExpiredGone(s, Deleted(s, ph, k, keys, |keys| + 1), cutoff)
  {
    var s' := Deleted(s, ph, k, keys, |keys| + 1);
    PurgeDeletesOneRun(s, ph, k, row, keys, |keys| + 1);
    forall q, r | r in RowsOf(s, q) && r !in RowsOf(s', q) ensures Expired(r.value, cutoff) {
      FindSame(RowsOf(s, ph), k, row);
      FindSame(RowsOf(s, ph), r.key, r.value);
    }
    forall j | j in s.subs && j !in s'.subs ensures exists q, r :: Took(s, s', j, q, r) {
      assert Took(s, s', j, ph, Row(k, row));
    }
  }

  lemma StepGone(ps: Prefixes, st: State, step: Step, limit: nat, cutoff: int)
    requires Placed(ps, st) && Enabled(ps, st, step) && PassSteps([step], limit, cutoff)
    requires st.pass.Some? ==> st.pass.value.cutoff == cutoff
    ensures OnlyExpiredGone(st.store, Next(ps, st, step).store, cutoff)
    ensures Next(ps, st, step).pass.Some? ==> Next(ps, st, step).pass.value.cutoff == cutoff
  {
    assert [step][0] == step;
    if step.PurgeNext? && Purges(st) {
      var item := st.pass.value.queue[0];
      DeletionGone(st.store, item.phase, item.key, Current(st).value, step.keys, cutoff);
    } else {
      SameGone(st.store, Next(ps, st, step).store, cutoff);
    }
  }

  lemma GoneTwice(a: Store, b: Store, c: Store, cutoff: int)
    requires OnlyExpiredGone(a, b, cutoff) && OnlyExpiredGone(b, c, cutoff)
    ensures OnlyExpiredGone(a, c, cutoff)
  {
    forall j | j in a.subs && j !in c.subs ensures exists ph, r :: Took(a, c, j, ph, r) {
      if j in b.subs {
        var ph, r :| Took(b, c, j, ph, r);
        assert Took(a, c, j, ph, r);
      } else {
        var ph, r :| Took(a, b, j, ph, r);
        assert Took(a, c, j, ph, r);
      }
    }
  }

  /** One pass, whatever it reads: only runs expired at its cutoff are gone, with
      their keys, and nothing else has changed. */
  lemma {:induction false} PassTakesOnlyExpired(ps: Prefixes, st: State, path: seq<Step>, st': State, limit: nat,
      cutoff: int)
    requires GoodPrefixes(ps) && Placed(ps, st) && Leads(ps, st, path, st') && PassSteps(path, limit, cutoff)
    requires st.pass.Some? ==> st.pass.value.cutoff == cutoff
    ensures OnlyExpiredGone(st.store, st'.store, cutoff) && Placed(ps, st')
    decreases |path|
  {
    if path == [] {
      SameGone(st.store, st'.store, cutoff);
    } else {
      var mid := Next(ps, st, path[0]);
      PlacedStep(ps, st, path[0]);
      StepGone(ps, st, path[0], limit, cutoff);
      PassTakesOnlyExpired(ps, mid, path[1..], st', limit, cutoff);
      GoneTwice(st.store, mid.store, st'.store, cutoff);
    }
  }

  /** A pass whose cutoff the run has passed is fair to it. */
  lemma {:induction false} PassIsFair(ps: Prefixes, st: State, path: seq<Step>, st': State, limit: nat, cutoff: int,
      ph: Phase, k: Key, row: RunRow)
    requires Leads(ps, st, path, st') && PassSteps(path, limit, cutoff) && row.closedAt <= cutoff
    ensures AllFair(ps, st, path, ph, k, row)
    decreases |path|
  {
    if path != [] { PassIsFair(ps, Next(ps, st, path[0]), path[1..], st', limit, cutoff, ph, k, row); }
  }

  /** A pass brings every run expired at its cutoff nearer: still on the way, or
      gone once the walk has wrapped. */
  lemma {:induction false} PassMakesProgress(ps: Prefixes, st: State, path: seq<Step>, st': State, limit: nat,
      cutoff: int, ph: Phase,
      k: Key, row: RunRow)
    requires GoodPrefixes(ps) && WellFormed(ps, st.store) && st.pass.None? && Leads(ps, st, path, st')
             && PassSteps(path, limit, cutoff)
    requires Expired(row, cutoff) && Progress(ps, st, ph, k, row)
    ensures Progress(ps, st', ph, k, row)
  {
    PassIsFair(ps, st, path, st', limit, cutoff, ph, k, row);
    RunMeets(ps, st, path, st', ph, k, row);
  }

  lemma {:induction false} WithoutOne(rows: seq<Row<RunRow>>, k: Key)
    requires Sorted(rows)
    ensures |Without(rows, k)| == |rows| - if Find(rows, k).Some? then 1 else 0
  {
    if rows != [] {
      WithoutOne(rows[1..], k);
      if rows[0].key == k && Find(rows[1..], k).Some? {
        BelowTail(rows, Row(k, Find(rows[1..], k).value));
        LessIrreflexive(k);
      }
    }
  }

  // ------------------------------------------------------------ passes wrap

  /** The rows a walk at (phase, at) has yet to read, at most. */
  function RowsAhead(ps: Prefixes, s: Store, phase: Phase, at: Key): nat
  {
    match phase
    case Workflows => |Select(s.workflows, ps.workflows, at)| + |s.activities|
    case Activities => |Select(s.activities, ps.activities, at)|
  }

  lemma {:induction false} SelectShort(rows: seq<Row<RunRow>>, p: Key, at: Key)
    ensures |Select(rows, p, at)| <= |rows|
  {
    if rows != [] { SelectShort(rows[1..], p, at); }
  }

  lemma {:induction false} SelectWithout(rows: seq<Row<RunRow>>, p: Key, at: Key, k: Key)
    ensures |Select(Without(rows, k), p, at)| <= |Select(rows, p, at)| && |Without(rows, k)| <= |rows|
  {
    if rows != [] {
      SelectWithout(rows[1..], p, at, k);
      var rest := Without(rows[1..], k);
      if rows[0].key != k {
        assert Without(rows, k) == [rows[0]] + rest && ([rows[0]] + rest)[1..] == rest;
      } else {
        assert Without(rows, k) == rest;
      }
    }
  }

  /** Purging a run puts no row ahead. */
  lemma DeletionAhead(ps: Prefixes, s: Store, ph: Phase, k: Key, keys: seq<SubKey>, phase: Phase, at: Key)
    ensures RowsAhead(ps, Deleted(s, ph, k, keys, |keys| + 1), phase, at) <= RowsAhead(ps, s, phase, at)
  {
    SelectWithout(RowsOf(s, ph), PrefixOf(ps, ph), at, k);
  }

  /** A page read takes its rows off those ahead. */
  lemma PageAhead(ps: Prefixes, s: Store, w: Pass)
    requires w.left > 0 && TableOk(PrefixOf(ps, w.phase), RowsOf(s, w.phase))
    ensures var page := Page(RowsOf(s, w.phase), PrefixOf(ps, w.phase), w.at, w.left);
            && |page| <= w.left
            && var w' := AfterPage(ps, w, page);
               !w'.walked ==> RowsAhead(ps, s, w'.phase, w'.at) - w'.left <= RowsAhead(ps, s, w.phase, w.at) - w.left
  {
    var rows, p := RowsOf(s, w.phase), PrefixOf(ps, w.phase);
    var sel := Select(rows, p, w.at);
    if |sel| >= w.left { SelectResumes(rows, p, w.at, w.left - 1); }
    SelectShort(s.activities, ps.activities, []);
  }
}
