/** Paging through a run's history (GetWorkflowHistory, pkg/tasks/engine.go). */
module HistoryPages {
  import opened Basics
  import opened History
  import opened Ledger

  // --------------------------------------------------------------- one page

  function Size(pageSize: int): (n: nat)
    ensures n > 0
  {
    if pageSize <= 0 then 100 else pageSize
  }

  function Reversed(es: seq<HistoryEvent>): (r: seq<HistoryEvent>)
    ensures |r| == |es| && forall i :: 0 <= i < |es| ==> r[i] == es[|es| - 1 - i]
  {
    seq(|es|, i requires 0 <= i < |es| => es[|es| - 1 - i])
  }

  function Ordered(es: seq<HistoryEvent>, reverse: bool): seq<HistoryEvent>
  {
    if reverse then Reversed(es) else es
  }

  /** Whether an event lies past the cursor; zero is the start in both directions. */
  predicate Past(e: HistoryEvent, after: int, reverse: bool)
  {
    if reverse then after <= 0 || e.id < after else e.id > after
  }

  function Rest(es: seq<HistoryEvent>, after: int, reverse: bool): seq<HistoryEvent>
  {
    if es == [] then []
    else (if Past(es[0], after, reverse) then [es[0]] else []) + Rest(es[1..], after, reverse)
  }

  function AtMost(es: seq<HistoryEvent>, n: nat): seq<HistoryEvent>
  {
    if |es| <= n then es else es[..n]
  }

  function Page(es: seq<HistoryEvent>, after: int, pageSize: int, reverse: bool): seq<HistoryEvent>
  {
    AtMost(Rest(Ordered(es, reverse), after, reverse), Size(pageSize))
  }

  function NextCursor(page: seq<HistoryEvent>, pageSize: int): nat
  {
    if |page| == Size(pageSize) then page[|page| - 1].id else 0
  }

  lemma {:induction false} RestGrows(a: seq<HistoryEvent>, b: seq<HistoryEvent>, after: int, reverse: bool)
    ensures Rest(a + b, after, reverse) == Rest(a, after, reverse) + Rest(b, after, reverse)
  {
    if a == [] {
      assert a + b == b;
    } else {
      RestGrows(a[1..], b, after, reverse);
      assert (a + b)[1..] == a[1..] + b;
      var head := if Past(a[0], after, reverse) then [a[0]] else [];
      var more, rest := Rest(a[1..], after, reverse), Rest(b, after, reverse);
      assert head + (more + rest) == head + more + rest;
    }
  }

  lemma {:induction false} RestMember(es: seq<HistoryEvent>, after: int, reverse: bool, e: HistoryEvent)
    ensures e in Rest(es, after, reverse) <==> e in es && Past(e, after, reverse)
  {
    if es != [] {
      RestMember(es[1..], after, reverse, e);
      assert es == [es[0]] + es[1..];
    }
  }

  /** A page has at most the size asked for, a hundred if none is; it holds only events
      past the cursor, and all of them unless it is full; and it names the id to go on
      from exactly when it is full. */
  lemma PageLaw(es: seq<HistoryEvent>, after: int, pageSize: int, reverse: bool, e: HistoryEvent)
    ensures var page, size := Page(es, after, pageSize, reverse), if pageSize <= 0 then 100 else pageSize;
            && |page| <= size
            && (e in page ==> e in es && (if reverse && after > 0 then e.id < after else reverse || e.id > after))
            && (e in es && (if reverse && after > 0 then e.id < after else reverse || e.id > after) ==>
                  e in page || |page| == size)
            && NextCursor(page, pageSize) == if |page| == size then page[size - 1].id else 0
  {
    var rest := Rest(Ordered(es, reverse), after, reverse);
    RestMember(Ordered(es, reverse), after, reverse, e);
    if reverse {
      if e in es {
        var i :| 0 <= i < |es| && es[i] == e;
        assert Reversed(es)[|es| - 1 - i] == e;
      }
    }
  }

  method ReverseInPlace(all: array<HistoryEvent>)
    modifies all
    ensures all[..] == Reversed(old(all[..]))
  {
    var i, j := 0, all.Length - 1;
    while i < j
      invariant 0 <= i <= all.Length && j == all.Length - 1 - i && i <= j + 1
      invariant forall k :: 0 <= k < i || j < k < all.Length ==> all[k] == old(all[all.Length - 1 - k])
      invariant forall k :: i <= k <= j ==> all[k] == old(all[k])
    {
      all[i], all[j] := all[j], all[i];
      i, j := i + 1, j - 1;
    }
  }

  /** The loop that skips to the cursor and stops when the page is full. */
  method Collect(all: array<HistoryEvent>, after: int, size: nat, reverse: bool) returns (out: seq<HistoryEvent>)
    ensures out == AtMost(Rest(all[..], after, reverse), size)
  {
    ghost var es := all[..];
    out := [];
    var i := 0;
    while i < all.Length && |out| < size
      invariant 0 <= i <= all.Length
      invariant out == Rest(es[..i], after, reverse) && |out| <= size
    {
      assert es[..i + 1] == es[..i] + [es[i]];
      RestGrows(es[..i], [es[i]], after, reverse);
      if Past(all[i], after, reverse) { out := out + [all[i]]; }
      i := i + 1;
    }
    assert es == es[..i] + es[i..];
    RestGrows(es[..i], es[i..], after, reverse);
  }

  /** One page of the listed events and the cursor of the next, or an error when
      the run is not found. */
  method GetWorkflowHistory(found: bool, all: array<HistoryEvent>, after: int, pageSize: int, reverse: bool)
    returns (r: Option<(seq<HistoryEvent>, nat)>)
    modifies all
    ensures r.None? <==> !found
    ensures found ==> r.value.0 == Page(old(all[..]), after, pageSize, reverse)
    ensures found ==> r.value.1 == NextCursor(r.value.0, pageSize)
  {
    var size := if pageSize <= 0 then 100 else pageSize;
    if !found { return None; }
    if reverse { ReverseInPlace(all); }
    var out := Collect(all, after, size, reverse);
    var next := if |out| == size then out[|out| - 1].id else 0;
    r := Some((out, next));
  }

  // --------------------------------------------------------------- all pages

  /** The pages a reader gets who starts at the cursor and asks for the given
      sizes in turn, until a page comes back without a next cursor. */
  function Pages(es: seq<HistoryEvent>, after: int, sizes: seq<int>, reverse: bool): seq<HistoryEvent>
    decreases |sizes|
  {
    if sizes == [] then []
    else
      var page := Page(es, after, sizes[0], reverse);
      var next := NextCursor(page, sizes[0]);
      if next == 0 then page else page + Pages(es, next, sizes[1..], reverse)
  }

  /** Ids strictly grow and start above zero. */
  ghost predicate Ascending(es: seq<HistoryEvent>)
  {
    && (forall i :: 0 <= i < |es| ==> es[i].id > 0)
    && (forall i, j :: 0 <= i < j < |es| ==> es[i].id < es[j].id)
  }

  /** Everything from index m on is past the cursor and nothing before it is. */
  lemma {:induction false} RestIsSuffix(es: seq<HistoryEvent>, m: nat, after: int, reverse: bool)
    requires m <= |es|
    requires forall i :: 0 <= i < m ==> !Past(es[i], after, reverse)
    requires forall i :: m <= i < |es| ==> Past(es[i], after, reverse)
    ensures Rest(es, after, reverse) == es[m..]
  {
    if es != [] {
      RestIsSuffix(es[1..], if m == 0 then 0 else m - 1, after, reverse);
    }
  }

  /** In a properly ordered listing, what lies past a cursor is a suffix. */
  lemma {:induction false} SuffixStart(es: seq<HistoryEvent>, after: int, reverse: bool) returns (m: nat)
    requires Ascending(es)
    ensures m <= |es|
    ensures var o := Ordered(es, reverse);
            && (forall i :: 0 <= i < m ==> !Past(o[i], after, reverse))
            && (forall i :: m <= i < |es| ==> Past(o[i], after, reverse))
  {
    var o := Ordered(es, reverse);
    m := 0;
    while m < |o| && !Past(o[m], after, reverse)
      invariant m <= |o| && forall i :: 0 <= i < m ==> !Past(o[i], after, reverse)
    {
      m := m + 1;
    }
    forall i | m < i < |o| ensures Past(o[i], after, reverse) {
      assert if reverse then o[i].id < o[m].id else o[m].id < o[i].id;
    }
  }

  /** The cursor of a page is exactly where the next page picks up. */
  lemma NextPageResumes(es: seq<HistoryEvent>, after: int, n: nat, reverse: bool)
    requires Ascending(es) && 0 < n <= |Rest(Ordered(es, reverse), after, reverse)|
    ensures var rest := Rest(Ordered(es, reverse), after, reverse);
            Rest(Ordered(es, reverse), rest[n - 1].id, reverse) == rest[n..]
  {
    var o := Ordered(es, reverse);
    var m := SuffixStart(es, after, reverse);
    RestIsSuffix(o, m, after, reverse);
    var rest := o[m..];
    var last := rest[n - 1].id;
    assert rest[n - 1] == o[m + n - 1];
    forall i | 0 <= i < |o| ensures Past(o[i], last, reverse) <==> i >= m + n {
      if i < m + n - 1 {
        assert if reverse then o[i].id > last else o[i].id < last;
      } else if i > m + n - 1 {
        assert if reverse then o[i].id < last else o[i].id > last;
      }
    }
    RestIsSuffix(o, m + n, last, reverse);
    assert o[m + n..] == rest[n..];
  }

  /** With enough requests, the pages from a cursor together are what lies past
      it, whatever the page sizes. */
  lemma {:induction false} PagesAreRest(es: seq<HistoryEvent>, after: int, sizes: seq<int>, reverse: bool)
    requires Ascending(es)
    requires |sizes| > |Rest(Ordered(es, reverse), after, reverse)|
    ensures Pages(es, after, sizes, reverse) == Rest(Ordered(es, reverse), after, reverse)
    decreases |sizes|
  {
    var rest := Rest(Ordered(es, reverse), after, reverse);
    var n := Size(sizes[0]);
    var page := Page(es, after, sizes[0], reverse);
    if |rest| >= n {
      assert page == rest[..n];
      NextPageResumes(es, after, n, reverse);
      var next := NextCursor(page, sizes[0]);
      assert next == rest[n - 1].id;
      RestIsPositive(es, after, reverse);
      PagesAreRest(es, next, sizes[1..], reverse);
      assert rest == rest[..n] + rest[n..];
    }
  }

  lemma {:induction false} RestIsPositive(es: seq<HistoryEvent>, after: int, reverse: bool)
    requires Ascending(es)
    ensures forall i :: 0 <= i < |Rest(Ordered(es, reverse), after, reverse)| ==>
            Rest(Ordered(es, reverse), after, reverse)[i].id > 0
  {
    var m := SuffixStart(es, after, reverse);
    RestIsSuffix(Ordered(es, reverse), m, after, reverse);
  }

  /** Reading a history whose ids are 1, 2, ... from cursor zero, with any page
      sizes, returns every event once: oldest first forward, newest first
      backward. */
  lemma {:induction false} PagingReturnsHistory(h: seq<HistoryEvent>, sizes: seq<int>)
    requires Numbered(h) && |sizes| > |h|
    ensures Pages(h, 0, sizes, false) == h
    ensures Pages(h, 0, sizes, true) == Reversed(h)
  {
    RestIsSuffix(h, 0, 0, false);
    RestIsSuffix(Reversed(h), 0, 0, true);
    PagesAreRest(h, 0, sizes, false);
    PagesAreRest(h, 0, sizes, true);
  }
}
