/** One shard as an ordered key/value table (pkg/tasks/store/shard_db.go): keys
    are byte strings in lexicographic order, and a prefix is scanned through a
    half-open range, a page at a time. */
module ShardDb {
  import opened Basics

  type Key = seq<Byte>

  // ------------------------------------------------------------------- order

  predicate Less(a: Key, b: Key)
  {
    b != [] && (a == [] || a[0] < b[0] || (a[0] == b[0] && Less(a[1..], b[1..])))
  }

  lemma {:induction false} LessIrreflexive(a: Key)
    ensures !Less(a, a)
  {
    if a != [] { LessIrreflexive(a[1..]); }
  }

  lemma {:induction false} LessTransitive(a: Key, b: Key, c: Key)
    requires Less(a, b) && Less(b, c)
    ensures Less(a, c)
  {
    if a != [] && a[0] == b[0] == c[0] { LessTransitive(a[1..], b[1..], c[1..]); }
  }

  lemma {:induction false} LessTotal(a: Key, b: Key)
    ensures Less(a, b) || Less(b, a) || a == b
  {
    if a != [] && b != [] && a[0] == b[0] {
      LessTotal(a[1..], b[1..]);
      assert a == [a[0]] + a[1..] && b == [b[0]] + b[1..];
    }
  }

  /** a <= b < c gives a < c, in either grouping. */
  lemma {:induction false} LessMixed(a: Key, b: Key, c: Key)
    ensures !Less(b, a) && Less(b, c) ==> Less(a, c)
    ensures Less(a, b) && !Less(c, b) ==> Less(a, c)
  {
    LessTotal(a, b);
    LessTotal(b, c);
    if Less(a, b) && Less(b, c) { LessTransitive(a, b, c); }
  }

  // ------------------------------------------------------ prefix upper bound

  predicate HasRoom(p: Key) { exists i :: 0 <= i < |p| && p[i] < 255 }

  /** Cut at the last byte that can go up, and take it up by one. */
  function Bumped(p: Key): Key
    requires HasRoom(p)
  {
    var n := |p| - 1;
    if p[n] < 255 then p[..n] + [p[n] + 1] else Bumped(p[..n])
  }

  function UpperBound(p: Key): Key
  {
    if p == [] then [255, 255, 255, 255]
    else if HasRoom(p) then Bumped(p)
    else p + [255]
  }

  /** The loop that edits a copy of the prefix from its end. */
  method PrefixUpperBound(prefix: Key) returns (bound: Key)
    ensures bound == UpperBound(prefix)
  {
    if prefix == [] {
      return [255, 255, 255, 255];
    }
    var b := new Byte[|prefix|](i requires 0 <= i < |prefix| => prefix[i]);
    assert b[..] == prefix && prefix[..|prefix|] == prefix;
    var i := |prefix| - 1;
    while i >= 0
      invariant -1 <= i < |prefix|
      invariant b[..] == prefix
      invariant forall j :: i < j < |prefix| ==> prefix[j] == 255
      invariant HasRoom(prefix) ==> HasRoom(prefix[..i + 1]) && Bumped(prefix) == Bumped(prefix[..i + 1])
    {
      if b[i] < 255 {
        assert prefix[i] < 255 && prefix[..i + 1][..i] == prefix[..i];
        b[i] := b[i] + 1;
        bound := b[..i + 1];
        assert bound == prefix[..i] + [prefix[i] + 1];
        return;
      }
      assert HasRoom(prefix) ==> prefix[..i + 1][..i] == prefix[..i];
      if HasRoom(prefix) {
        var j :| 0 <= j < i + 1 && prefix[..i + 1][j] < 255;
        assert prefix[..i][j] < 255;
      }
      i := i - 1;
    }
    bound := b[..] + [255];
  }

  /** The range a prefix scan reads. */
  predicate InRange(p: Key, k: Key) { !Less(k, p) && Less(k, UpperBound(p)) }

  lemma {:induction false} BumpedTail(p: Key)
    requires p != [] && HasRoom(p[1..])
    ensures HasRoom(p) && Bumped(p) == [p[0]] + Bumped(p[1..])
  {
    var j :| 0 <= j < |p[1..]| && p[1..][j] < 255;
    assert p[j + 1] < 255;
    var n := |p| - 1;
    if p[n] < 255 {
      assert p[..n] == [p[0]] + p[1..][..n - 1];
    } else {
      assert p[..n][1..] == p[1..][..n - 1];
      assert p[1..][..n - 1][j] < 255;
      BumpedTail(p[..n]);
    }
  }

  lemma {:induction false} BumpedHead(p: Key)
    requires p != [] && p[0] < 255 && !HasRoom(p[1..])
    ensures HasRoom(p) && Bumped(p) == [p[0] + 1]
  {
    var n := |p| - 1;
    if n > 0 {
      assert p[n] == p[1..][n - 1];
      assert p[..n][1..] == p[1..][..n - 1];
      forall i | 0 <= i < n - 1 ensures p[..n][1..][i] == 255 {
        assert p[1..][i] == 255;
      }
      BumpedHead(p[..n]);
    }
  }

  /** Nothing sorts between a run of 0xff bytes and its extensions. */
  lemma {:induction false} AboveAllOnes(p: Key, k: Key)
    requires !HasRoom(p)
    ensures !Less(k, p) <==> p <= k
  {
    if p != [] {
      assert p[0] == 255;
      forall i | 0 <= i < |p[1..]| ensures p[1..][i] == 255 { assert p[i + 1] == 255; }
      if k != [] {
        AboveAllOnes(p[1..], k[1..]);
        assert p == [p[0]] + p[1..] && k == [k[0]] + k[1..];
      }
    }
  }

  lemma RoomSplit(p: Key)
    requires p != []
    ensures HasRoom(p) ==> p[0] < 255 || HasRoom(p[1..])
  {
    if i :| 0 <= i < |p| && p[i] < 255 {
      assert i > 0 ==> p[1..][i - 1] < 255;
    }
  }

  /** A key is in the range exactly when it starts with the prefix. */
  lemma {:induction false} RangeIsPrefix(p: Key, k: Key)
    requires HasRoom(p)
    ensures InRange(p, k) <==> p <= k
  {
    if k != [] {
      assert p == [p[0]] + p[1..] && k == [k[0]] + k[1..];
      if HasRoom(p[1..]) {
        BumpedTail(p);
        var ub := Bumped(p[1..]);
        assert UpperBound(p)[1..] == ub == UpperBound(p[1..]);
        RangeIsPrefix(p[1..], k[1..]);
      } else {
        RoomSplit(p);
        BumpedHead(p);
        AboveAllOnes(p[1..], k[1..]);
        assert UpperBound(p) == [p[0] + 1] && UpperBound(p)[1..] == [];
        assert !Less(k[1..], UpperBound(p)[1..]);
        assert Less(k, UpperBound(p)) <==> k[0] <= p[0];
        assert p <= k <==> p[0] == k[0] && p[1..] <= k[1..];
      }
    }
  }

  /** The range is the prefix exactly when some byte of the prefix is below
      0xff: otherwise a key beyond the bound carries the prefix too. */
  lemma RangeIsPrefixIff(p: Key)
    ensures (forall k :: InRange(p, k) <==> p <= k) <==> HasRoom(p)
  {
    if HasRoom(p) {
      forall k ensures InRange(p, k) <==> p <= k { RangeIsPrefix(p, k); }
    } else {
      LessIrreflexive(UpperBound(p));
      assert p <= UpperBound(p) && !InRange(p, UpperBound(p));
    }
  }

  // ----------------------------------------------------------------- the table

  datatype Row<V> = Row(key: Key, value: V)

  ghost predicate Sorted<V>(rows: seq<Row<V>>)
  {
    forall i, j :: 0 <= i < j < |rows| ==> Less(rows[i].key, rows[j].key)
  }

  /** Where a scan of prefix p resumed after `after` still has to go. */
  predicate Ahead(p: Key, after: Key, k: Key)
  {
    && (if Less(after, p) then !Less(k, p) else Less(after, k))
    && Less(k, UpperBound(p))
  }

  function Select<V>(rows: seq<Row<V>>, p: Key, after: Key): seq<Row<V>>
  {
    if rows == [] then []
    else (if Ahead(p, after, rows[0].key) then [rows[0]] else []) + Select(rows[1..], p, after)
  }

  function Take<V>(rows: seq<V>, n: int): seq<V>
  {
    if n <= 0 || n >= |rows| then rows else rows[..n]
  }

  lemma {:induction false} SelectNext<V>(rows: seq<Row<V>>, p: Key, after: Key, i: nat)
    requires i < |rows|
    ensures Select(rows[i..], p, after) == (if Ahead(p, after, rows[i].key) then [rows[i]] else [])
            + Select(rows[i + 1..], p, after)
  {
    assert rows[i..][0] == rows[i] && rows[i..][1..] == rows[i + 1..];
  }

  /** What Scan returns: the first `limit` rows still ahead, all when limit <= 0. */
  function Page<V>(rows: seq<Row<V>>, p: Key, after: Key, limit: int): seq<Row<V>>
  {
    Take(Select(rows, p, after), limit)
  }

  function Listing<V>(rows: seq<Row<V>>, p: Key): seq<Row<V>>
  {
    Page(rows, p, [], 0)
  }

  lemma {:induction false} SelectMember<V>(rows: seq<Row<V>>, p: Key, after: Key, r: Row<V>)
    ensures r in Select(rows, p, after) <==> r in rows && Ahead(p, after, r.key)
  {
    if rows != [] {
      SelectMember(rows[1..], p, after, r);
      assert rows == [rows[0]] + rows[1..];
    }
  }

  lemma {:induction false} SelectSorted<V>(rows: seq<Row<V>>, p: Key, after: Key)
    requires Sorted(rows)
    ensures Sorted(Select(rows, p, after))
  {
    if rows != [] {
      SelectSorted(rows[1..], p, after);
      var rest := Select(rows[1..], p, after);
      forall i | 0 <= i < |rest| ensures Less(rows[0].key, rest[i].key) {
        SelectMember(rows[1..], p, after, rest[i]);
        BelowTail(rows, rest[i]);
      }
    }
  }

  lemma BelowTail<V>(rows: seq<Row<V>>, r: Row<V>)
    requires Sorted(rows) && rows != [] && r in rows[1..]
    ensures Less(rows[0].key, r.key)
  {
    var j :| 0 <= j < |rows[1..]| && rows[1..][j] == r;
    assert rows[j + 1] == r;
  }

  lemma {:induction false} ResumeFirst<V>(rows: seq<Row<V>>, p: Key, after: Key)
    requires Sorted(rows) && rows != [] && Ahead(p, after, rows[0].key)
    ensures Select(rows, p, rows[0].key) == Select(rows[1..], p, after)
  {
    LessIrreflexive(rows[0].key);
    ResumeSame(rows[1..], p, after, rows[0].key);
  }

  /** Resuming after a later row skips the first one. */
  lemma {:induction false} ResumeLater<V>(rows: seq<Row<V>>, p: Key, after: Key, r: Row<V>)
    requires Sorted(rows) && rows != [] && r in Select(rows[1..], p, after)
    ensures Select(rows, p, r.key) == Select(rows[1..], p, r.key)
  {
    SelectMember(rows[1..], p, after, r);
    BelowTail(rows, r);
    NotAheadOfItself(p, after, rows[0].key, r.key);
    SelectHead(rows, p, r.key);
  }

  /** Resuming after a row of the selection leaves exactly the rows behind it. */
  lemma {:induction false} SelectResumes<V>(rows: seq<Row<V>>, p: Key, after: Key, n: nat)
    requires Sorted(rows) && n < |Select(rows, p, after)|
    ensures Select(rows, p, Select(rows, p, after)[n].key) == Select(rows, p, after)[n + 1..]
  {
    var tail := Select(rows[1..], p, after);
    SelectHead(rows, p, after);
    if !Ahead(p, after, rows[0].key) {
      ResumeLater(rows, p, after, tail[n]);
      SelectResumes(rows[1..], p, after, n);
    } else if n == 0 {
      ResumeFirst(rows, p, after);
    } else {
      Dropped(rows[0], tail, n);
      ResumeLater(rows, p, after, tail[n - 1]);
      SelectResumes(rows[1..], p, after, n - 1);
    }
  }

  lemma {:induction false} SelectHead<V>(rows: seq<Row<V>>, p: Key, after: Key)
    requires rows != []
    ensures Ahead(p, after, rows[0].key) ==> Select(rows, p, after) == [rows[0]] + Select(rows[1..], p, after)
    ensures !Ahead(p, after, rows[0].key) ==> Select(rows, p, after) == Select(rows[1..], p, after)
  {
  }

  lemma Dropped<T>(head: T, tail: seq<T>, n: nat)
    requires 1 <= n < 1 + |tail|
    ensures ([head] + tail)[n] == tail[n - 1] && ([head] + tail)[n + 1..] == tail[n..]
  {
  }

  /** Behind a row that is itself ahead, both starting points select alike. */
  lemma {:induction false} ResumeSame<V>(rows: seq<Row<V>>, p: Key, after: Key, last: Key)
    requires Ahead(p, after, last)
    requires forall i :: 0 <= i < |rows| ==> Less(last, rows[i].key)
    ensures Select(rows, p, last) == Select(rows, p, after)
  {
    if rows != [] {
      ResumeSame(rows[1..], p, after, last);
      var k := rows[0].key;
      LessMixed(p, last, k);
      AheadOrder(p, after, last, k);
    }
  }

  lemma {:induction false} NotAheadOfItself(p: Key, after: Key, k: Key, last: Key)
    requires Ahead(p, after, last) && Less(k, last)
    ensures !Ahead(p, last, k)
  {
    if !Less(after, p) && Less(last, p) { LessTransitive(after, last, p); }
    if Less(last, k) { LessTransitive(k, last, k); }
    LessIrreflexive(k);
  }

  lemma {:induction false} AheadOrder(p: Key, after: Key, last: Key, k: Key)
    requires Ahead(p, after, last) && Less(last, k)
    ensures !Less(last, p)
    ensures Ahead(p, after, k) <==> Ahead(p, last, k)
  {
    if Less(after, p) {
      LessMixed(p, last, k);
      LessMixed(last, p, k);
      if Less(k, p) { LessTransitive(last, k, p); }
    } else {
      if Less(last, p) { LessTransitive(after, last, p); }
      LessTransitive(after, last, k);
    }
  }

  // ------------------------------------------------------------- paged walks

  /** Walk a prefix in pages, each resumed after the last key of the one before,
      until a page comes back short. */
  ghost function Walk<V>(rows: seq<Row<V>>, p: Key, after: Key, limit: nat): seq<Row<V>>
    requires limit > 0 && Sorted(rows)
    decreases |Select(rows, p, after)|
  {
    var page := Page(rows, p, after, limit);
    if |page| < limit then page
    else
      SelectResumes(rows, p, after, limit - 1);
      page + Walk(rows, p, page[limit - 1].key, limit)
  }

  lemma {:induction false} WalkIsSelection<V>(rows: seq<Row<V>>, p: Key, after: Key, limit: nat)
    requires limit > 0 && Sorted(rows)
    ensures Walk(rows, p, after, limit) == Select(rows, p, after)
    decreases |Select(rows, p, after)|
  {
    var sel, page := Select(rows, p, after), Page(rows, p, after, limit);
    if |page| == limit {
      SelectResumes(rows, p, after, limit - 1);
      assert page[limit - 1] == sel[limit - 1];
      WalkIsSelection(rows, p, page[limit - 1].key, limit);
      assert sel == sel[..limit] + sel[limit..];
      assert page == sel[..limit];
    }
  }

  /** The pages of a walk with any positive limit, put together, are the full
      listing: every row once, in order. */
  lemma {:induction false} PagedScanIsListing<V>(rows: seq<Row<V>>, p: Key, limit: nat)
    requires limit > 0 && Sorted(rows)
    ensures Walk(rows, p, [], limit) == Listing(rows, p)
    ensures Sorted(Listing(rows, p))
    ensures HasRoom(p) ==> forall r :: r in Listing(rows, p) <==> r in rows && p <= r.key
  {
    WalkIsSelection(rows, p, [], limit);
    SelectSorted(rows, p, []);
    if HasRoom(p) {
      forall r ensures r in Listing(rows, p) <==> r in rows && p <= r.key {
        SelectMember(rows, p, [], r);
        RangeIsPrefix(p, r.key);
      }
    }
  }

  /** A row that is ahead is in the page, or still ahead of the page's end. */
  lemma PageReaches<V>(rows: seq<Row<V>>, p: Key, after: Key, limit: nat, r: Row<V>)
    requires Sorted(rows) && limit > 0 && r in rows && Ahead(p, after, r.key)
    ensures var page := Page(rows, p, after, limit);
            r in page || (|page| == limit && Ahead(p, page[limit - 1].key, r.key))
  {
    var sel, page := Select(rows, p, after), Page(rows, p, after, limit);
    SelectMember(rows, p, after, r);
    var i :| 0 <= i < |sel| && sel[i] == r;
    if i < |page| {
      assert page[i] == r;
    } else {
      SelectResumes(rows, p, after, limit - 1);
      assert sel[limit..][i - limit] == r;
      assert r in Select(rows, p, page[limit - 1].key);
      SelectMember(rows, p, page[limit - 1].key, r);
    }
  }

  // --------------------------------------------------------------- the shard

  class Shard<V(==)> {
    /** The kv rows in key order. */
    var rows: seq<Row<V>>

    ghost predicate Valid()
      reads this
    {
      Sorted(rows)
    }

    constructor ()
      ensures Valid() && rows == []
    {
      rows := [];
    }

    /** Index of the first row not below key. */
    method Seek(key: Key) returns (i: nat)
      requires Valid()
      ensures i <= |rows|
      ensures forall j :: 0 <= j < i ==> Less(rows[j].key, key)
      ensures forall j :: i <= j < |rows| ==> !Less(rows[j].key, key)
    {
      i := 0;
      while i < |rows| && Less(rows[i].key, key)
        invariant i <= |rows|
        invariant forall j :: 0 <= j < i ==> Less(rows[j].key, key)
      {
        i := i + 1;
      }
      forall j | i <= j < |rows| ensures !Less(rows[j].key, key) {
        if j > i && Less(rows[j].key, key) {
          LessTransitive(rows[i].key, rows[j].key, key);
        }
      }
    }

    /** Inserts or replaces. */
    method Put(key: Key, value: V)
      requires Valid()
      modifies this
      ensures Valid()
      ensures forall r :: r in rows <==> r == Row(key, value) || (r in old(rows) && r.key != key)
    {
      var i := Seek(key);
      LessIrreflexive(key);
      forall j | 0 <= j < |rows| ensures j < i ==> rows[j].key != key { }
      var n := if i < |rows| && rows[i].key == key then i + 1 else i;
      forall j | n <= j < |rows| ensures Less(key, rows[j].key) && rows[j].key != key {
        LessTotal(rows[j].key, key);
        assert j > i ==> Less(rows[i].key, rows[j].key);
      }
      rows := rows[..i] + [Row(key, value)] + rows[n..];
      MembersAround(old(rows), i, n, Row(key, value));
    }

    /** No-op when missing. */
    method Del(key: Key)
      requires Valid()
      modifies this
      ensures Valid()
      ensures forall r :: r in rows <==> r in old(rows) && r.key != key
    {
      var i := Seek(key);
      LessIrreflexive(key);
      if i < |rows| && rows[i].key == key {
        ghost var gone := rows[i];
        forall j | i < j < |rows| ensures rows[j].key != key {
          assert Less(rows[i].key, rows[j].key);
        }
        rows := rows[..i] + rows[i + 1..];
        MembersAround(old(rows), i, i + 1, gone);
      } else {
        forall j | i <= j < |rows| ensures rows[j].key != key {
          assert j > i ==> Less(rows[i].key, rows[j].key);
        }
      }
    }

    /** One page of a prefix: rows with key in the range and past `after`, in key
        order, at most `limit` of them. */
    method Scan(prefix: Key, after: Key, limit: int) returns (page: seq<Row<V>>)
      requires Valid()
      ensures page == Page(rows, prefix, after, limit)
    {
      var bound := PrefixUpperBound(prefix);
      page := [];
      ghost var sel := Select(rows, prefix, after);
      for i := 0 to |rows|
        invariant sel == page + Select(rows[i..], prefix, after)
        invariant limit > 0 ==> |page| < limit
      {
        var k := rows[i].key;
        SelectNext(rows, prefix, after, i);
        ghost var rest := Select(rows[i + 1..], prefix, after);
        var past := if Less(after, prefix) then !Less(k, prefix) else Less(after, k);
        if past && Less(k, bound) {
          Shifted(page, rows[i], rest);
          page := page + [rows[i]];
          if |page| == limit {
            assert sel[..limit] == page;
            return;
          }
        }
      }
      assert rows[|rows|..] == [];
    }

    method List(prefix: Key) returns (all: seq<Row<V>>)
      requires Valid()
      ensures all == Listing(rows, prefix)
    {
      all := Scan(prefix, [], 0);
    }
  }

  lemma Shifted<V>(page: seq<Row<V>>, r: Row<V>, rest: seq<Row<V>>)
    ensures page + ([r] + rest) == page + [r] + rest
  {
  }

  /** Membership after replacing rows[i..n] by one row, or dropping them. */
  lemma MembersAround<V>(rows: seq<Row<V>>, i: nat, n: nat, x: Row<V>)
    requires i <= n <= i + 1 && n <= |rows|
    ensures forall r :: r in rows[..i] + [x] + rows[n..] <==> r == x || r in rows[..i] || r in rows[n..]
    ensures forall r :: r in rows <==> r in rows[..i] || (n > i && r == rows[i]) || r in rows[n..]
    ensures forall r :: r in rows[..i] + rows[n..] <==> r in rows[..i] || r in rows[n..]
  {
    forall r | r in rows ensures r in rows[..i] || (n > i && r == rows[i]) || r in rows[n..] {
      var j :| 0 <= j < |rows| && rows[j] == r;
      if j < i { assert rows[..i][j] == r; } else if j >= n { assert rows[n..][j - n] == r; }
    }
  }
}
