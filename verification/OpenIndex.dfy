/** The open-run index of a namespace (pkg/tasks/durable.go): an entry is put
    before a run's first row and deleted after its terminal row, a shard from
    before the index is walked once to build it, and recovery goes by the
    entries. Every step below is one write or one page read, so operations
    interleave and a crash may fall between any two of them. */
module OpenIndex {
  import opened Basics
  import opened ShardDb

  /** A run's row, as far as the index cares: whether the run has closed. */
  type Rows = seq<Row<bool>>

  /** The build walk: where it stands, the open runs of the page it read that
      still have to be entered, and whether that page was the last. */
  datatype Build = Build(after: Key, queue: seq<Key>, last: bool)

  datatype State = State(
    rows: Rows,
    entries: set<Key>,
    marker: bool,
    starting: set<Key>,      // starts between their entry and their row (lost in a crash)
    closing: set<Key>,       // closes between their row and their entry (lost in a crash)
    build: Option<Build>)    // lost in a crash

  datatype Step =
    | PutEntry(key: Key)
    | PutFirstRow(key: Key)
    | PutTerminalRow(key: Key)
    | DelEntry(key: Key)
    | BeginBuild
    | ReadPage(limit: nat)
    | EnterNext
    | FinishBuild
    | RecoverDrops(key: Key)     // recoverRun on an entry its row contradicts
    | Crash

  predicate IsOpen(rows: Rows, k: Key) { Row(k, false) in rows }

  predicate HasRow(rows: Rows, k: Key) { Row(k, false) in rows || Row(k, true) in rows }

  /** rows with k's value set, in key order. */
  function Insert(rows: Rows, k: Key, v: bool): Rows
  {
    if rows == [] then [Row(k, v)]
    else if Less(rows[0].key, k) then [rows[0]] + Insert(rows[1..], k, v)
    else if rows[0].key == k then [Row(k, v)] + rows[1..]
    else [Row(k, v)] + rows
  }

  function OpenKeys(page: Rows): seq<Key>
  {
    if page == [] then []
    else (if page[0].value then [] else [page[0].key]) + OpenKeys(page[1..])
  }

  /** Run ids are fresh, and keys are in the namespace's prefix. */
  predicate Enabled(p: Key, st: State, step: Step)
  {
    match step
    case PutEntry(k) => p <= k && !HasRow(st.rows, k) && k !in st.starting
    case PutFirstRow(k) => k in st.starting
    case PutTerminalRow(k) => IsOpen(st.rows, k)
    case DelEntry(k) => k in st.closing
    case BeginBuild => !st.marker && st.build.None?
    case ReadPage(limit) => limit > 0 && st.build.Some? && st.build.value.queue == [] && !st.build.value.last
    case EnterNext => st.build.Some? && st.build.value.queue != []
    case FinishBuild => st.build.Some? && st.build.value.queue == [] && st.build.value.last
    case RecoverDrops(k) => k in st.entries && !IsOpen(st.rows, k)
    case Crash => true
  }

  function Next(p: Key, st: State, step: Step): State
    requires Enabled(p, st, step)
  {
    match step
    case PutEntry(k) => st.(entries := st.entries + {k}, starting := st.starting + {k})
    case PutFirstRow(k) => st.(rows := Insert(st.rows, k, false), starting := st.starting - {k})
    case PutTerminalRow(k) => st.(rows := Insert(st.rows, k, true), closing := st.closing + {k})
    case DelEntry(k) => st.(entries := st.entries - {k}, closing := st.closing - {k})
    case BeginBuild => st.(build := Some(Build([], [], false)))
    case ReadPage(limit) =>
      var page := Page(st.rows, p, st.build.value.after, limit);
      var after := if page == [] then st.build.value.after else page[|page| - 1].key;
      st.(build := Some(Build(after, OpenKeys(page), |page| < limit)))
    case EnterNext =>
      var b := st.build.value;
      st.(entries := st.entries + {b.queue[0]}, build := Some(b.(queue := b.queue[1..])))
    case FinishBuild => st.(marker := true, build := None)
    case RecoverDrops(k) => st.(entries := st.entries - {k})
    case Crash => st.(starting := {}, closing := {}, build := None)
  }

  // ------------------------------------------------------------- the invariant

  /** The run is entered, about to be entered, or still ahead of the build. */
  predicate Tracked(p: Key, st: State, k: Key)
  {
    || k in st.entries
    || (st.build.Some? && k in st.build.value.queue)
    || (!st.marker && (st.build.None? || (!st.build.value.last && Ahead(p, st.build.value.after, k))))
  }

  ghost predicate Inv(p: Key, st: State)
  {
    && HasRoom(p)
    && Sorted(st.rows)
    && (st.marker ==> st.build.None?)
    && (forall r :: r in st.rows ==> p <= r.key)
    && (forall k :: k in st.starting ==> p <= k && k in st.entries && !HasRow(st.rows, k))
    && (forall k :: k in st.closing ==> Row(k, true) in st.rows)
    && (forall k :: IsOpen(st.rows, k) ==> Tracked(p, st, k))
  }

  lemma {:induction false} InsertMember(rows: Rows, k: Key, v: bool, r: Row<bool>)
    requires Sorted(rows)
    ensures r in Insert(rows, k, v) <==> r == Row(k, v) || (r in rows && r.key != k)
  {
    if rows != [] {
      LessIrreflexive(k);
      assert rows == [rows[0]] + rows[1..];
      if Less(rows[0].key, k) {
        InsertMember(rows[1..], k, v, r);
      } else {
        if r in rows[1..] { BelowTail(rows, r); }
        if Less(rows[0].key, r.key) { LessMixed(k, rows[0].key, r.key); }
        LessTotal(rows[0].key, k);
      }
    }
  }

  lemma {:induction false} InsertSorted(rows: Rows, k: Key, v: bool)
    requires Sorted(rows)
    ensures Sorted(Insert(rows, k, v))
  {
    if rows != [] {
      var out := Insert(rows, k, v);
      if Less(rows[0].key, k) {
        InsertSorted(rows[1..], k, v);
        forall i | 0 < i < |out| ensures Less(out[0].key, out[i].key) {
          assert out[i] == Insert(rows[1..], k, v)[i - 1];
          InsertMember(rows[1..], k, v, out[i]);
          if out[i] in rows[1..] { BelowTail(rows, out[i]); }
        }
      } else if rows[0].key != k {
        LessTotal(rows[0].key, k);
        forall i | 0 < i < |out| ensures Less(k, out[i].key) {
          assert out[i] == rows[i - 1];
          LessMixed(k, rows[0].key, out[i].key);
        }
      }
    }
  }

  lemma {:induction false} OpenKeysMember(page: Rows, k: Key)
    ensures k in OpenKeys(page) <==> Row(k, false) in page
  {
    if page != [] {
      OpenKeysMember(page[1..], k);
      assert page == [page[0]] + page[1..];
    }
  }

  /** Two rows never share a key. */
  lemma OneRowPerKey(rows: Rows, k: Key)
    requires Sorted(rows)
    ensures !(Row(k, false) in rows && Row(k, true) in rows)
  {
    if Row(k, false) in rows && Row(k, true) in rows {
      var i :| 0 <= i < |rows| && rows[i] == Row(k, false);
      var j :| 0 <= j < |rows| && rows[j] == Row(k, true);
      LessIrreflexive(k);
      assert false;
    }
  }

  lemma PageTracks(p: Key, st: State, limit: nat, k: Key)
    requires Inv(p, st) && Enabled(p, st, ReadPage(limit)) && IsOpen(st.rows, k)
    ensures Tracked(p, Next(p, st, ReadPage(limit)), k)
  {
    var b := st.build.value;
    var page := Page(st.rows, p, b.after, limit);
    OpenKeysMember(page, k);
    if k !in st.entries {
      assert Tracked(p, st, k);
      PageReaches(st.rows, p, b.after, limit, Row(k, false));
    }
  }

  lemma PutRowKeeps(p: Key, st: State, k: Key, v: bool, step: Step)
    requires Inv(p, st) && Enabled(p, st, step)
    requires (step == PutFirstRow(k) && !v) || (step == PutTerminalRow(k) && v)
    ensures Inv(p, Next(p, st, step))
  {
    var st' := Next(p, st, step);
    InsertSorted(st.rows, k, v);
    OneRowPerKey(st.rows, k);
    forall r ensures r in st'.rows <==> r == Row(k, v) || (r in st.rows && r.key != k) {
      InsertMember(st.rows, k, v, r);
    }
    assert p <= k by {
      if v { assert Row(k, false) in st.rows; }
    }
    forall j | IsOpen(st'.rows, j) ensures Tracked(p, st', j) {
      if j != k { assert IsOpen(st.rows, j); }
    }
  }

  /** Every step keeps the invariant, except a recovery that drops the entry of
      a start still between its two writes. */
  lemma StepKeeps(p: Key, st: State, step: Step)
    requires Inv(p, st) && Enabled(p, st, step)
    requires step.RecoverDrops? ==> step.key !in st.starting
    ensures Inv(p, Next(p, st, step))
  {
    var st' := Next(p, st, step);
    match step {
      case PutFirstRow(k) => PutRowKeeps(p, st, k, false, step);
      case PutTerminalRow(k) => PutRowKeeps(p, st, k, true, step);
      case DelEntry(k) =>
        OneRowPerKey(st.rows, k);
        forall j | IsOpen(st.rows, j) ensures Tracked(p, st', j) { assert Tracked(p, st, j); }
      case ReadPage(limit) =>
        forall j | IsOpen(st.rows, j) ensures Tracked(p, st', j) { PageTracks(p, st, limit, j); }
      case BeginBuild =>
        forall j | IsOpen(st.rows, j) ensures Tracked(p, st', j) {
          assert Row(j, false) in st.rows;
          RangeIsPrefix(p, j);
        }
      case _ =>
        forall j | IsOpen(st.rows, j) ensures Tracked(p, st', j) { assert Tracked(p, st, j); }
    }
  }

  /** Dropping a contradicted entry is right exactly when no start is between
      writing that entry and its row; the next write of that start would leave an
      open run the index misses. */
  lemma RecoveryRace(p: Key, st: State, k: Key)
    requires Inv(p, st) && Enabled(p, st, RecoverDrops(k))
    ensures Inv(p, Next(p, st, RecoverDrops(k))) <==> k !in st.starting
    ensures k in st.starting ==>
              var st1 := Next(p, st, RecoverDrops(k));
              Enabled(p, st1, PutFirstRow(k)) &&
              var st2 := Next(p, st1, PutFirstRow(k));
              IsOpen(st2.rows, k) && k !in st2.entries
  {
    if k !in st.starting {
      StepKeeps(p, st, RecoverDrops(k));
    } else {
      InsertMember(st.rows, k, false, Row(k, false));
    }
  }

  /** st' is reached from st, recoveries and starts interleaving at will. */
  ghost predicate Interleaves(p: Key, st: State, steps: seq<Step>, st': State)
    decreases |steps|
  {
    if steps == [] then st' == st
    else Enabled(p, st, steps[0]) && Interleaves(p, Next(p, st, steps[0]), steps[1..], st')
  }

  lemma {:induction false} InterleavesFirst(p: Key, st: State, step: Step, steps: seq<Step>, st': State)
    requires Enabled(p, st, step) && Interleaves(p, Next(p, st, step), steps, st')
    ensures Interleaves(p, st, [step] + steps, st')
  {
    assert ([step] + steps)[1..] == steps;
  }

  /** The race is reachable: an empty shard is marked, a start puts its entry,
      recovery drops it as contradicted, and the first row follows. */
  lemma RaceReachable(p: Key, k: Key) returns (steps: seq<Step>, st: State)
    requires HasRoom(p) && p <= k
    ensures Legacy(p, State([], {}, false, {}, {}, None))
            && Interleaves(p, State([], {}, false, {}, {}, None), steps, st)
    ensures st.marker && IsOpen(st.rows, k) && k !in st.entries
  {
    var built := State([], {}, false, {}, {}, Some(Build([], [], true)));
    var marked := State([], {}, true, {}, {}, None);
    var entered := marked.(entries := {k}, starting := {k});
    st := State([Row(k, false)], {}, true, {}, {}, None);
    assert Row(k, false) in st.rows;
    steps := [PutEntry(k)] + ([RecoverDrops(k)] + ([PutFirstRow(k)] + []));
    InterleavesFirst(p, entered.(entries := {}), PutFirstRow(k), [], st);
    InterleavesFirst(p, entered, RecoverDrops(k), [PutFirstRow(k)] + [], st);
    InterleavesFirst(p, marked, PutEntry(k), [RecoverDrops(k)] + ([PutFirstRow(k)] + []), st);
    InterleavesFirst(p, built, FinishBuild, steps, st);
    InterleavesFirst(p, built.(build := Some(Build([], [], false))), ReadPage(1), [FinishBuild] + steps, st);
    InterleavesFirst(p, State([], {}, false, {}, {}, None), BeginBuild, [ReadPage(1)] + ([FinishBuild] + steps), st);
    steps := [BeginBuild] + ([ReadPage(1)] + ([FinishBuild] + steps));
  }

  ghost predicate Leads(p: Key, st: State, steps: seq<Step>, st': State)
    decreases |steps|
  {
    if steps == [] then st' == st
    else
      && Enabled(p, st, steps[0])
      && (steps[0].RecoverDrops? ==> steps[0].key !in st.starting)
      && Leads(p, Next(p, st, steps[0]), steps[1..], st')
  }

  /** Before the index existed: any rows, no entries, no marker. */
  ghost predicate Legacy(p: Key, st: State)
  {
    && HasRoom(p) && Sorted(st.rows) && (forall r :: r in st.rows ==> p <= r.key)
    && st == State(st.rows, {}, false, {}, {}, None)
  }

  lemma {:induction false} RunKeeps(p: Key, st: State, steps: seq<Step>, st': State)
    requires Inv(p, st) && Leads(p, st, steps, st')
    ensures Inv(p, st')
    decreases |steps|
  {
    if steps != [] {
      StepKeeps(p, st, steps[0]);
      RunKeeps(p, Next(p, st, steps[0]), steps[1..], st');
    }
  }

  /** Index safety: from any shard written before the index, through any
      interleaving of starts, closes, build pages of any size, recoveries and
      crashes between any two writes, once the marker is set no open run lacks an
      entry. */
  lemma {:induction false} MarkedIndexIsComplete(p: Key, st: State, steps: seq<Step>, st': State)
    requires Legacy(p, st) && Leads(p, st, steps, st') && st'.marker
    ensures forall k :: IsOpen(st'.rows, k) ==> k in st'.entries
  {
    RunKeeps(p, st, steps, st');
    forall k | IsOpen(st'.rows, k) ensures k in st'.entries {
      assert Tracked(p, st', k);
    }
  }

  // --------------------------------------------------------------- recovery

  class Namespace {
    const prefix: Key
    var rows: Rows
    var entries: set<Key>
    var marker: bool
    /** The runs recovery drove again. */
    ghost var driven: set<Key>

    ghost function Now(): State
      reads this
    {
      State(rows, entries, marker, {}, {}, None)
    }

    constructor (p: Key, written: Rows, indexed: set<Key>, marked: bool)
      requires Inv(p, State(written, indexed, marked, {}, {}, None))
      ensures prefix == p && rows == written && entries == indexed && marker == marked
      ensures Inv(prefix, Now()) && driven == {}
    {
      prefix, rows, entries, marker := p, written, indexed, marked;
      driven := {};
    }

    /** The open rows of one page given their entries. */
    method IndexPage(after: Key, page: seq<Row<bool>>)
      requires !marker && page <= Select(rows, prefix, after)
      modifies this`entries
      ensures old(entries) <= entries
      ensures forall j :: 0 <= j < |page| && !page[j].value ==> page[j].key in entries
      ensures forall k :: k in entries ==> k in old(entries) || IsOpen(rows, k)
    {
      for i := 0 to |page|
        invariant old(entries) <= entries
        invariant forall j :: 0 <= j < i && !page[j].value ==> page[j].key in entries
        invariant forall k :: k in entries ==> k in old(entries) || IsOpen(rows, k)
      {
        SelectMember(rows, prefix, after, page[i]);
        if !page[i].value {
          entries := entries + {page[i].key};
        }
      }
    }

    /** One walk over the rows, a page at a time, unless the marker says it is
        done. */
    method IndexOpenRuns(pageSize: nat)
      requires Inv(prefix, Now()) && pageSize > 0
      modifies this`entries, this`marker
      ensures Inv(prefix, Now()) && marker && old(entries) <= entries
      ensures forall k :: IsOpen(rows, k) ==> k in entries
      ensures forall k :: k in entries ==> k in old(entries) || IsOpen(rows, k)
    {
      if marker {
        forall k | IsOpen(rows, k) ensures k in entries { assert Tracked(prefix, Now(), k); }
        return;
      }
      var after: Key := [];
      var last := false;
      forall k | IsOpen(rows, k) ensures Ahead(prefix, [], k) {
        assert Row(k, false) in rows;
        RangeIsPrefix(prefix, k);
      }
      while !last
        invariant !marker && old(entries) <= entries
        invariant forall k :: IsOpen(rows, k) ==> k in entries || (!last && Ahead(prefix, after, k))
        invariant forall k :: k in entries ==> k in old(entries) || IsOpen(rows, k)
        decreases !last, |Select(rows, prefix, after)|
      {
        var page := Page(rows, prefix, after, pageSize);
        IndexPage(after, page);
        forall k | IsOpen(rows, k) && k !in entries
            ensures |page| == pageSize && Ahead(prefix, page[pageSize - 1].key, k) {
          PageReaches(rows, prefix, after, pageSize, Row(k, false));
        }
        last := |page| < pageSize;
        if !last {
          SelectResumes(rows, prefix, after, pageSize - 1);
          after := page[|page| - 1].key;
        }
      }
      marker := true;
    }

    /** Boot-time recovery: afterwards the entries are exactly the open rows, and
        exactly those runs were driven again. */
    method Recover(pageSize: nat)
      requires Inv(prefix, Now()) && pageSize > 0 && driven == {}
      modifies this`entries, this`marker, this`driven
      ensures Inv(prefix, Now()) && marker
      ensures forall k :: k in entries <==> IsOpen(rows, k)
      ensures driven == entries
    {
      IndexOpenRuns(pageSize);
      var listed := entries;
      while listed != {}
        invariant forall k :: IsOpen(rows, k) ==> k in entries
        invariant forall k :: k in entries ==> k in listed || IsOpen(rows, k)
        invariant forall k :: k in driven <==> k in entries && k !in listed
        invariant listed <= entries && marker
        decreases listed
      {
        var k :| k in listed;
        if Row(k, false) in rows {
          driven := driven + {k};
        } else {
          entries := entries - {k};
        }
        listed := listed - {k};
      }
    }
  }
}
