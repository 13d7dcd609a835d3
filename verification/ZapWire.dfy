/** The ZAP message format (sdk/typescript/src/zap/wire.ts, envelope.ts): what
    the builder's calls leave in the buffer, what the reader reads back, and that
    the one undoes the other for every layout of separate fields. */
module ZapWire {
  import opened Basics

  const WORD := 0x1_0000_0000

  // ------------------------------------------------------------ little endian

  /** How many values n bytes can hold. */
  function Limit(n: nat): (l: nat)
    ensures l > 0
  {
    if n == 0 then 1 else 256 * Limit(n - 1)
  }

  /** A number as n bytes, the lowest first. */
  function LE(v: nat, n: nat): (s: seq<Byte>)
    ensures |s| == n
    decreases n
  {
    if n == 0 then [] else [v % 256] + LE(v / 256, n - 1)
  }

  function FromLE(s: seq<Byte>): nat
  {
    if s == [] then 0 else s[0] as nat + 256 * FromLE(s[1..])
  }

  lemma {:induction false} FromLEInverse(v: nat, n: nat)
    requires v < Limit(n)
    ensures FromLE(LE(v, n)) == v
    decreases n
  {
    if n > 0 {
      FromLEInverse(v / 256, n - 1);
      assert LE(v, n)[1..] == LE(v / 256, n - 1);
    }
  }

  lemma {:induction false} FromLEBound(s: seq<Byte>)
    ensures FromLE(s) < Limit(|s|)
  {
    if s != [] { FromLEBound(s[1..]); }
  }

  lemma Limits()
    ensures Limit(2) == 0x1_0000 && Limit(4) == WORD
  {
    assert Limit(1) == 256 && Limit(2) == 256 * Limit(1) && Limit(3) == 256 * Limit(2);
  }

  function U16(v: nat): (s: seq<Byte>)
    requires v < 0x1_0000
    ensures |s| == 2
  {
    LE(v, 2)
  }

  function U32(v: nat): (s: seq<Byte>)
    requires v < WORD
    ensures |s| == 4
  {
    LE(v, 4)
  }

  function Read16(s: seq<Byte>, p: nat): nat
    requires p + 2 <= |s|
  {
    FromLE(s[p..p + 2])
  }

  function Read32(s: seq<Byte>, p: nat): (v: nat)
    requires p + 4 <= |s|
    ensures v < WORD
  {
    FromLEBound(s[p..p + 4]);
    Limits();
    FromLE(s[p..p + 4])
  }

  /** A word read as a signed number. */
  function Signed(v: nat): int { if v < 0x8000_0000 then v else v - WORD }

  // ------------------------------------------------------------------- bytes

  function Zeros(n: nat): (s: seq<Byte>)
    ensures |s| == n && forall i :: 0 <= i < n ==> s[i] == 0
  {
    seq(n, i => 0)
  }

  /** Bytes written over others at a position. */
  function Splice(s: seq<Byte>, p: nat, w: seq<Byte>): (r: seq<Byte>)
    requires p + |w| <= |s|
    ensures |r| == |s|
  {
    s[..p] + w + s[p + |w|..]
  }

  /** Zero-filled so that it reaches an absolute position. */
  function Cover(s: seq<Byte>, needed: nat): (r: seq<Byte>)
    ensures |r| == (if needed > |s| then needed else |s|)
  {
    if needed > |s| then s + Zeros(needed - |s|) else s
  }

  lemma ReadWritten(s: seq<Byte>, p: nat, v: nat)
    requires p + 4 <= |s| && v < WORD
    ensures Read32(Splice(s, p, U32(v)), p) == v
  {
    assert Splice(s, p, U32(v))[p..p + 4] == U32(v);
    Limits();
    FromLEInverse(v, 4);
  }

  /** r, at least as long as s, agrees with it on a range. */
  ghost predicate SameOn(s: seq<Byte>, r: seq<Byte>, lo: nat, hi: nat)
  {
    hi <= |s| <= |r| && forall k {:trigger r[k]} :: lo <= k < hi ==> r[k] == s[k]
  }

  lemma ReadSame(s: seq<Byte>, r: seq<Byte>, p: nat)
    requires SameOn(s, r, p, p + 4)
    ensures Read32(r, p) == Read32(s, p)
  {
    assert r[p..p + 4] == s[p..p + 4];
  }

  // ----------------------------------------------------------------- building

  /** A field set on an object: one byte, one word, or a byte string. */
  datatype Field = Octet(off: nat, v: nat) | Word(off: nat, v: nat) | Blob(off: nat, data: seq<Byte>)

  function Width(f: Field): nat { match f case Octet(_, _) => 1 case Word(_, _) => 4 case Blob(_, _) => 8 }

  predicate FieldOk(f: Field)
  {
    match f case Octet(_, v) => v < 256 case Word(_, v) => v < WORD case Blob(_, d) => |d| < 0x8000_0000
  }

  /** An object under construction: the buffer so far and the byte strings whose
      contents are still to be appended. */
  datatype Draft = Draft(bytes: seq<Byte>, deferred: seq<Field>)

  function Set(d: Draft, start: nat, f: Field): (r: Draft)
    requires FieldOk(f)
    ensures |r.bytes| >= |d.bytes| && |r.bytes| >= start + f.off + Width(f)
  {
    var p := start + f.off;
    var c := Cover(d.bytes, p + Width(f));
    match f
    case Octet(_, v) => d.(bytes := Splice(c, p, [v]))
    case Word(_, v) => d.(bytes := Splice(c, p, U32(v)))
    case Blob(_, data) =>
      if data == [] then d.(bytes := Splice(Splice(c, p, U32(0)), p + 4, U32(0)))
      else Draft(Splice(c, p + 4, U32(|data|)), d.deferred + [f])
  }

  predicate FieldsOk(fs: seq<Field>) { forall i :: 0 <= i < |fs| ==> FieldOk(fs[i]) }

  function SetAll(d: Draft, start: nat, fs: seq<Field>): (r: Draft)
    requires FieldsOk(fs)
    ensures |r.bytes| >= |d.bytes|
  {
    if fs == [] then d else Set(SetAll(d, start, fs[..|fs| - 1]), start, fs[|fs| - 1])
  }

  /** Byte strings whose words lie below a position. */
  predicate Deferrable(start: nat, end: nat, es: seq<Field>)
  {
    forall i :: 0 <= i < |es| ==> es[i].Blob? && start + es[i].off + 8 <= end
  }

  function Total(es: seq<Field>): nat
    requires forall i :: 0 <= i < |es| ==> es[i].Blob?
  {
    if es == [] then 0 else Total(es[..|es| - 1]) + |es[|es| - 1].data|
  }

  /** The contents of a byte string appended, and its offset written. */
  function Place(bytes: seq<Byte>, start: nat, e: Field): (r: seq<Byte>)
    requires e.Blob? && start + e.off + 8 <= |bytes| && |bytes| < WORD
    ensures |r| == |bytes| + |e.data|
  {
    Splice(bytes + e.data, start + e.off, U32(|bytes| - (start + e.off)))
  }

  function PlaceAll(bytes: seq<Byte>, start: nat, es: seq<Field>): (r: seq<Byte>)
    requires Deferrable(start, |bytes|, es) && |bytes| + Total(es) < WORD
    ensures |r| == |bytes| + Total(es)
  {
    if es == [] then bytes else Place(PlaceAll(bytes, start, es[..|es| - 1]), start, es[|es| - 1])
  }

  const HEADER_SIZE := 16

  const HEADER: seq<Byte> := [0x5a, 0x41, 0x50, 0x00, 1, 0, 0, 0, 0, 0, 0, 0, 0, 0, 0, 0]

  /** The closing of the header: flags, root offset and total size. */
  function Stamp(bytes: seq<Byte>, flags: nat, root: nat): (r: seq<Byte>)
    requires HEADER_SIZE <= |bytes| < WORD && flags < 0x1_0000 && root < WORD
    ensures |r| == |bytes|
  {
    Splice(Splice(Splice(bytes, 6, U16(flags)), 8, U32(root)), 12, U32(|bytes|))
  }

  /** Fields inside the object, none over another. */
  ghost predicate Layout(size: nat, fs: seq<Field>)
  {
    && FieldsOk(fs)
    && (forall i :: 0 <= i < |fs| ==> fs[i].off + Width(fs[i]) <= size)
    && (forall i, j :: 0 <= i < j < |fs| ==> Apart(fs[i], fs[j]))
  }

  predicate Apart(f: Field, g: Field) { f.off + Width(f) <= g.off || g.off + Width(g) <= f.off }

  function Blobs(fs: seq<Field>): (es: seq<Field>)
    ensures forall i :: 0 <= i < |es| ==> es[i].Blob? && es[i] in fs && es[i].data != []
  {
    if fs == [] then []
    else
      var init := Blobs(fs[..|fs| - 1]);
      if fs[|fs| - 1].Blob? && fs[|fs| - 1].data != [] then init + [fs[|fs| - 1]] else init
  }

  // --------------------------------------------------------------- first pass

  /** The part of a field that is written when it is set. */
  ghost predicate Kept(s: seq<Byte>, start: nat, f: Field)
  {
    && start + f.off + Width(f) <= |s|
    && match f
       case Octet(_, v) => s[start + f.off] == v
       case Word(_, v) => Read32(s, start + f.off) == v
       case Blob(_, d) => Read32(s, start + f.off + 4) == |d| && (d == [] ==> Read32(s, start + f.off) == 0)
  }

  /** What a field says survives any change outside its own bytes. */
  lemma KeptOutside(s: seq<Byte>, r: seq<Byte>, start: nat, f: Field)
    requires Kept(s, start, f) && SameOn(s, r, start + f.off, start + f.off + Width(f))
    ensures Kept(r, start, f)
  {
    var p := start + f.off;
    if f.Word? {
      ReadSame(s, r, p);
    } else if f.Blob? {
      assert SameOn(s, r, p, p + 4) && SameOn(s, r, p + 4, p + 8);
      ReadSame(s, r, p);
      ReadSame(s, r, p + 4);
    }
  }

  lemma TwoZeros(s: seq<Byte>, p: nat)
    requires p + 8 <= |s|
    ensures var r := Splice(Splice(s, p, U32(0)), p + 4, U32(0)); Read32(r, p) == 0 && Read32(r, p + 4) == 0
  {
    var once := Splice(s, p, U32(0));
    var r := Splice(once, p + 4, U32(0));
    ReadWritten(s, p, 0);
    ReadWritten(once, p + 4, 0);
    assert SameOn(once, r, p, p + 4);
    ReadSame(once, r, p);
  }

  lemma SetKeepsOwn(d: Draft, start: nat, f: Field)
    requires FieldOk(f)
    ensures Kept(Set(d, start, f).bytes, start, f)
  {
    var p := start + f.off;
    var c := Cover(d.bytes, p + Width(f));
    match f {
      case Octet(_, v) =>
      case Word(_, v) => ReadWritten(c, p, v);
      case Blob(_, data) =>
        if data == [] {
          TwoZeros(c, p);
        } else {
          ReadWritten(c, p + 4, |data|);
        }
    }
  }

  /** Setting a field touches its own bytes, and zero-fills past the end. */
  lemma SetElsewhere(d: Draft, start: nat, f: Field, k: nat)
    requires FieldOk(f) && k < |Set(d, start, f).bytes| && !(start + f.off <= k < start + f.off + Width(f))
    ensures Set(d, start, f).bytes[k] == if k < |d.bytes| then d.bytes[k] else 0
  {
  }

  lemma SetSize(d: Draft, start: nat, f: Field)
    requires FieldOk(f)
    ensures |Set(d, start, f).bytes| == if start + f.off + Width(f) > |d.bytes| then start + f.off + Width(f)
            else |d.bytes|
  {
  }

  lemma SetKeepsOthers(d: Draft, start: nat, f: Field, g: Field)
    requires FieldOk(f) && Kept(d.bytes, start, g) && Apart(f, g)
    ensures Kept(Set(d, start, f).bytes, start, g)
  {
    var lo, hi := start + g.off, start + g.off + Width(g);
    forall k | lo <= k < hi ensures Set(d, start, f).bytes[k] == d.bytes[k] {
      SetElsewhere(d, start, f, k);
    }
    KeptOutside(d.bytes, Set(d, start, f).bytes, start, g);
  }

  /** The byte strings wait in the order they were set. */
  lemma {:induction false} SetAllDefers(start: nat, fs: seq<Field>, bytes: seq<Byte>)
    requires FieldsOk(fs)
    ensures SetAll(Draft(bytes, []), start, fs).deferred == Blobs(fs)
  {
    if fs != [] { SetAllDefers(start, fs[..|fs| - 1], bytes); }
  }

  lemma {:induction false} SetAllSize(start: nat, size: nat, fs: seq<Field>, bytes: seq<Byte>)
    requires Layout(size, fs) && |bytes| == start
    ensures var r := SetAll(Draft(bytes, []), start, fs).bytes; |r| <= start + size && SameOn(bytes, r, 0, start)
  {
    if fs != [] {
      var n := |fs| - 1;
      SetAllSize(start, size, fs[..n], bytes);
      var d := SetAll(Draft(bytes, []), start, fs[..n]);
      SetSize(d, start, fs[n]);
      forall k | 0 <= k < start ensures Set(d, start, fs[n]).bytes[k] == bytes[k] {
        SetElsewhere(d, start, fs[n], k);
      }
    }
  }

  /** After the calls every field set is in the buffer. */
  lemma {:induction false} SetAllKeeps(start: nat, size: nat, fs: seq<Field>, bytes: seq<Byte>, i: nat)
    requires Layout(size, fs) && i < |fs|
    ensures Kept(SetAll(Draft(bytes, []), start, fs).bytes, start, fs[i])
  {
    var n := |fs| - 1;
    var d := SetAll(Draft(bytes, []), start, fs[..n]);
    if i == n {
      SetKeepsOwn(d, start, fs[n]);
    } else {
      SetAllKeeps(start, size, fs[..n], bytes, i);
      assert Apart(fs[i], fs[n]);
      SetKeepsOthers(d, start, fs[n], fs[i]);
    }
  }

  // -------------------------------------------------------------- second pass

  /** A byte string is where its offset says, behind the fixed section. */
  ghost predicate Placed(s: seq<Byte>, start: nat, size: nat, f: Field)
  {
    && f.Blob? && start + f.off + 8 <= |s|
    && var abs := start + f.off + Read32(s, start + f.off);
       start + size <= abs && abs + |f.data| <= |s| && s[abs..abs + |f.data|] == f.data
  }

  lemma PlacedOutside(s: seq<Byte>, r: seq<Byte>, start: nat, size: nat, f: Field)
    requires Placed(s, start, size, f)
    requires SameOn(s, r, start + f.off, start + f.off + 4) && SameOn(s, r, start + size, |s|)
    ensures Placed(r, start, size, f)
  {
    ReadSame(s, r, start + f.off);
    var abs := start + f.off + Read32(s, start + f.off);
    assert r[abs..abs + |f.data|] == s[abs..abs + |f.data|];
  }

  lemma SpliceTail(s: seq<Byte>, d: seq<Byte>, p: nat, w: seq<Byte>)
    requires p + |w| <= |s|
    ensures Splice(s + d, p, w)[|s|..|s| + |d|] == d
  {
  }

  lemma PlaceOwn(s: seq<Byte>, start: nat, size: nat, e: Field)
    requires e.Blob? && e.off + 8 <= size && start + size <= |s| < WORD
    ensures Placed(Place(s, start, e), start, size, e)
  {
    var p := start + e.off;
    ReadWritten(s + e.data, p, |s| - p);
    SpliceTail(s, e.data, p, U32(|s| - p));
    PlacedAt(Place(s, start, e), start, size, e, |s|);
  }

  lemma PlacedAt(r: seq<Byte>, start: nat, size: nat, e: Field, abs: nat)
    requires e.Blob? && start + e.off + 8 <= |r| && start + e.off <= start + size <= abs && abs + |e.data| <= |r|
    requires Read32(r, start + e.off) == abs - (start + e.off) && r[abs..abs + |e.data|] == e.data
    ensures Placed(r, start, size, e)
  {
  }

  lemma PlaceSame(s: seq<Byte>, start: nat, size: nat, f: Field, e: Field)
    requires e.Blob? && f.Blob? && Apart(f, e) && e.off + 8 <= size && f.off + 8 <= size && start + size <= |s| < WORD
    ensures SameOn(s, Place(s, start, e), start + f.off, start + f.off + 4)
            && SameOn(s, Place(s, start, e), start + size, |s|)
  {
  }

  lemma {:induction false} BlobsOf(size: nat, fs: seq<Field>)
    requires Layout(size, fs)
    ensures Deferrable(HEADER_SIZE, HEADER_SIZE + size, Blobs(fs))
    ensures forall i, j :: 0 <= i < j < |Blobs(fs)| ==> Apart(Blobs(fs)[i], Blobs(fs)[j])
  {
    if fs != [] {
      var n := |fs| - 1;
      BlobsOf(size, fs[..n]);
      forall i | 0 <= i < |Blobs(fs[..n])| ensures Apart(Blobs(fs[..n])[i], fs[n]) {
        var k :| 0 <= k < n && fs[k] == Blobs(fs[..n])[i];
      }
    }
  }

  lemma PlaceKeepsPlaced(s: seq<Byte>, start: nat, size: nat, f: Field, e: Field)
    requires e.Blob? && f.Blob? && Apart(f, e) && e.off + 8 <= size && f.off + 8 <= size && start + size <= |s| < WORD
    requires Placed(s, start, size, f)
    ensures Placed(Place(s, start, e), start, size, f)
  {
    PlaceSame(s, start, size, f, e);
    PlacedOutside(s, Place(s, start, e), start, size, f);
  }

  lemma {:induction false} PlaceAllPlaces(s: seq<Byte>, start: nat, size: nat, es: seq<Field>)
    requires Deferrable(start, start + size, es) && start + size <= |s| && |s| + Total(es) < WORD
    requires forall i, j :: 0 <= i < j < |es| ==> Apart(es[i], es[j])
    ensures forall i :: 0 <= i < |es| ==> Placed(PlaceAll(s, start, es), start, size, es[i])
  {
    if es != [] {
      var n := |es| - 1;
      PlaceAllPlaces(s, start, size, es[..n]);
      var mid := PlaceAll(s, start, es[..n]);
      PlaceOwn(mid, start, size, es[n]);
      forall i | 0 <= i < n ensures Placed(Place(mid, start, es[n]), start, size, es[i]) {
        assert es[..n][i] == es[i];
        PlaceKeepsPlaced(mid, start, size, es[i], es[n]);
      }
    }
  }

  lemma PlaceElsewhere(s: seq<Byte>, start: nat, e: Field, k: nat)
    requires e.Blob? && start + e.off + 8 <= |s| && |s| < WORD && k < |s| && !(start + e.off <= k < start + e.off + 4)
    ensures Place(s, start, e)[k] == s[k]
  {
  }

  /** Placing changes only the offset words of the fixed section. */
  lemma {:induction false} PlaceAllElsewhere(s: seq<Byte>, start: nat, es: seq<Field>, k: nat)
    requires Deferrable(start, |s|, es) && |s| + Total(es) < WORD
    requires k < |s| && forall i :: 0 <= i < |es| ==> !(start + es[i].off <= k < start + es[i].off + 4)
    ensures PlaceAll(s, start, es)[k] == s[k]
  {
    if es != [] {
      var n := |es| - 1;
      assert forall i :: 0 <= i < n ==> es[..n][i] == es[i];
      PlaceAllElsewhere(s, start, es[..n], k);
      PlaceElsewhere(PlaceAll(s, start, es[..n]), start, es[n], k);
    }
  }

  // ----------------------------------------------------------------- messages

  ghost predicate Fits(size: nat, fs: seq<Field>)
  {
    Layout(size, fs) && HEADER_SIZE + size + Total(Blobs(fs)) < 0x8000_0000
  }

  ghost function Covered(size: nat, fs: seq<Field>): (r: seq<Byte>)
    requires Layout(size, fs)
    ensures |r| == HEADER_SIZE + size
  {
    SetAllSize(HEADER_SIZE, size, fs, HEADER);
    Cover(SetAll(Draft(HEADER, []), HEADER_SIZE, fs).bytes, HEADER_SIZE + size)
  }

  /** The buffer when the object is finished, before the header is closed. */
  ghost function Body(size: nat, fs: seq<Field>): (r: seq<Byte>)
    requires Fits(size, fs)
    ensures |r| == HEADER_SIZE + size + Total(Blobs(fs))
  {
    BlobsOf(size, fs);
    PlaceAll(Covered(size, fs), HEADER_SIZE, Blobs(fs))
  }

  /** The finished message: one object with the given fields as its root. */
  ghost function Built(flags: nat, size: nat, fs: seq<Field>): (r: seq<Byte>)
    requires Fits(size, fs) && flags < 0x1_0000
    ensures |r| == HEADER_SIZE + size + Total(Blobs(fs))
  {
    Stamp(Body(size, fs), flags, HEADER_SIZE)
  }

  function Parse(data: seq<Byte>): (m: Option<seq<Byte>>)
    ensures m.Some? ==> |data| >= HEADER_SIZE && m.value <= data
  {
    if |data| < HEADER_SIZE then None
    else if data[..4] != [0x5a, 0x41, 0x50, 0x00] then None
    else if Read16(data, 4) != 1 && Read16(data, 4) != 2 then None
    else if Read32(data, 12) > |data| then None
    else Some(data[..Read32(data, 12)])
  }

  function Flags(m: seq<Byte>): nat
    requires |m| >= 8
  {
    Read16(m, 6)
  }

  function Opcode(m: seq<Byte>): nat
    requires |m| >= 8
  {
    Flags(m) / 256
  }

  function Root(m: seq<Byte>): nat
    requires |m| >= 12
  {
    Read32(m, 8)
  }

  function OctetAt(m: seq<Byte>, root: nat, off: nat): nat
  {
    if root + off >= |m| then 0 else m[root + off]
  }

  function WordAt(m: seq<Byte>, root: nat, off: nat): nat
  {
    if root + off + 4 > |m| then 0 else Read32(m, root + off)
  }

  function BytesAt(m: seq<Byte>, root: nat, off: nat): seq<Byte>
  {
    var p := root + off;
    if p + 4 > |m| then []
    else
      var rel := Signed(Read32(m, p));
      if rel == 0 || p + 8 > |m| then []
      else
        var length, abs := Read32(m, p + 4), p + rel;
        if abs < 0 || abs + length > |m| then [] else m[abs..abs + length]
  }

  predicate Reads(m: seq<Byte>, root: nat, f: Field)
  {
    match f
    case Octet(off, v) => OctetAt(m, root, off) == v
    case Word(off, v) => WordAt(m, root, off) == v
    case Blob(off, data) => BytesAt(m, root, off) == data
  }

  // --------------------------------------------------------------- round trip

  lemma StampSame(s: seq<Byte>, flags: nat, root: nat)
    requires HEADER_SIZE <= |s| < WORD && flags < 0x1_0000 && root < WORD
    ensures SameOn(s, Stamp(s, flags, root), 0, 6) && SameOn(s, Stamp(s, flags, root), HEADER_SIZE, |s|)
  {
  }

  lemma ReadFlags(s: seq<Byte>, flags: nat)
    requires 8 <= |s| && flags < 0x1_0000
    ensures Read16(Splice(s, 6, U16(flags)), 6) == flags
  {
    assert Splice(s, 6, U16(flags))[6..8] == U16(flags);
    Limits();
    FromLEInverse(flags, 2);
  }

  /** The header reads back: flags, root and the whole length. */
  lemma StampReads(s: seq<Byte>, flags: nat, root: nat)
    requires HEADER_SIZE <= |s| < WORD && flags < 0x1_0000 && root < WORD
    ensures var m := Stamp(s, flags, root); Flags(m) == flags && Root(m) == root && Read32(m, 12) == |s|
  {
    var a := Splice(s, 6, U16(flags));
    var b := Splice(a, 8, U32(root));
    var m := Splice(b, 12, U32(|s|));
    ReadFlags(s, flags);
    ReadWritten(a, 8, root);
    ReadWritten(b, 12, |s|);
    assert m[6..8] == a[6..8];
    assert SameOn(b, m, 8, 12);
    ReadSame(b, m, 8);
  }

  /** Outside the offset words of byte strings, the second pass changes nothing. */
  lemma BodyElsewhere(size: nat, fs: seq<Field>, k: nat)
    requires Fits(size, fs) && k < HEADER_SIZE + size
    requires forall x :: 0 <= x < |fs| && fs[x].Blob? && fs[x].data != [] ==>
               !(HEADER_SIZE + fs[x].off <= k < HEADER_SIZE + fs[x].off + 4)
    ensures Body(size, fs)[k] == Covered(size, fs)[k]
  {
    BlobsOf(size, fs);
    PlaceAllElsewhere(Covered(size, fs), HEADER_SIZE, Blobs(fs), k);
  }

  /** Neither pass touches the header. */
  lemma BodyHeader(size: nat, fs: seq<Field>)
    requires Fits(size, fs)
    ensures Body(size, fs)[..HEADER_SIZE] == HEADER
  {
    SetAllSize(HEADER_SIZE, size, fs, HEADER);
    forall k | 0 <= k < HEADER_SIZE ensures Body(size, fs)[k] == HEADER[k] {
      BodyElsewhere(size, fs, k);
    }
  }

  lemma VersionOne()
    ensures FromLE([1, 0]) == 1
  {
    assert [1, 0][1..] == [0] && [0][1..] == [];
    assert FromLE([0]) == 0;
  }

  lemma ParsesWhole(m: seq<Byte>)
    requires |m| >= HEADER_SIZE && m[..6] == HEADER[..6] && Read32(m, 12) == |m|
    ensures Parse(m) == Some(m)
  {
    assert m[..4] == m[..6][..4] == HEADER[..4];
    assert m[4..6] == m[..6][4..6] == [1, 0];
    VersionOne();
    assert m[..|m|] == m;
  }

  lemma BuiltParses(flags: nat, size: nat, fs: seq<Field>)
    requires Fits(size, fs) && flags < 0x1_0000
    ensures var m := Built(flags, size, fs); Parse(m) == Some(m) && Flags(m) == flags && Root(m) == HEADER_SIZE
  {
    var s := Body(size, fs);
    var m := Built(flags, size, fs);
    BodyHeader(size, fs);
    StampReads(s, flags, HEADER_SIZE);
    StampSame(s, flags, HEADER_SIZE);
    assert m[..6] == s[..HEADER_SIZE][..6];
    ParsesWhole(m);
  }

  lemma OwnByte(size: nat, fs: seq<Field>, i: nat, k: nat)
    requires Fits(size, fs) && i < |fs| && HEADER_SIZE + fs[i].off <= k < HEADER_SIZE + fs[i].off + Width(fs[i])
    requires fs[i].Blob? && fs[i].data != [] ==> HEADER_SIZE + fs[i].off + 4 <= k
    ensures Body(size, fs)[k] == Covered(size, fs)[k]
  {
    forall x | 0 <= x < |fs| && fs[x].Blob? && fs[x].data != []
      ensures !(HEADER_SIZE + fs[x].off <= k < HEADER_SIZE + fs[x].off + 4)
    {
      if x < i { assert Apart(fs[x], fs[i]); } else if i < x { assert Apart(fs[i], fs[x]); }
    }
    BodyElsewhere(size, fs, k);
  }

  lemma OwnBytes(size: nat, fs: seq<Field>, i: nat)
    requires Fits(size, fs) && i < |fs|
    ensures var p := HEADER_SIZE + fs[i].off;
            SameOn(Covered(size, fs), Body(size, fs),
                   if fs[i].Blob? && fs[i].data != [] then p + 4 else p, p + Width(fs[i]))
  {
    var p := HEADER_SIZE + fs[i].off;
    var lo := if fs[i].Blob? && fs[i].data != [] then p + 4 else p;
    forall k | lo <= k < p + Width(fs[i]) ensures Body(size, fs)[k] == Covered(size, fs)[k] {
      OwnByte(size, fs, i, k);
    }
  }

  lemma CoveredKept(size: nat, fs: seq<Field>, i: nat)
    requires Layout(size, fs) && i < |fs|
    ensures Kept(Covered(size, fs), HEADER_SIZE, fs[i])
  {
    SetAllKeeps(HEADER_SIZE, size, fs, HEADER, i);
    SetAllSize(HEADER_SIZE, size, fs, HEADER);
    var s, p := SetAll(Draft(HEADER, []), HEADER_SIZE, fs).bytes, HEADER_SIZE + fs[i].off;
    assert SameOn(s, Covered(size, fs), p, p + Width(fs[i]));
    KeptOutside(s, Covered(size, fs), HEADER_SIZE, fs[i]);
  }

  lemma KeptCarried(c: seq<Byte>, b: seq<Byte>, start: nat, f: Field)
    requires Kept(c, start, f)
    requires SameOn(c, b, if f.Blob? && f.data != [] then start + f.off + 4 else start + f.off,
                    start + f.off + Width(f))
    ensures !(f.Blob? && f.data != []) ==> Kept(b, start, f)
    ensures f.Blob? ==> Read32(b, start + f.off + 4) == |f.data|
  {
    if f.Blob? && f.data != [] {
      ReadSame(c, b, start + f.off + 4);
    } else {
      KeptOutside(c, b, start, f);
    }
  }

  /** Every field set is still in the fixed section when the object is done. */
  lemma BodyKept(size: nat, fs: seq<Field>, i: nat)
    requires Fits(size, fs) && i < |fs|
    ensures !(fs[i].Blob? && fs[i].data != []) ==> Kept(Body(size, fs), HEADER_SIZE, fs[i])
    ensures fs[i].Blob? ==> Read32(Body(size, fs), HEADER_SIZE + fs[i].off + 4) == |fs[i].data|
  {
    CoveredKept(size, fs, i);
    OwnBytes(size, fs, i);
    KeptCarried(Covered(size, fs), Body(size, fs), HEADER_SIZE, fs[i]);
  }

  lemma {:induction false} InBlobs(fs: seq<Field>, i: nat) returns (j: nat)
    requires i < |fs| && fs[i].Blob? && fs[i].data != []
    ensures j < |Blobs(fs)| && Blobs(fs)[j] == fs[i]
  {
    var n := |fs| - 1;
    if i == n {
      j := |Blobs(fs)| - 1;
    } else {
      j := InBlobs(fs[..n], i);
    }
  }

  lemma BodyPlaced(size: nat, fs: seq<Field>, i: nat)
    requires Fits(size, fs) && i < |fs| && fs[i].Blob? && fs[i].data != []
    ensures Placed(Body(size, fs), HEADER_SIZE, size, fs[i])
  {
    BlobsOf(size, fs);
    PlaceAllPlaces(Covered(size, fs), HEADER_SIZE, size, Blobs(fs));
    var j := InBlobs(fs, i);
  }

  lemma BlobReads(m: seq<Byte>, start: nat, size: nat, f: Field)
    requires f.Blob? && f.data != [] && f.off + 8 <= size && start + size <= |m| < 0x8000_0000
    requires Placed(m, start, size, f) && Read32(m, start + f.off + 4) == |f.data|
    ensures BytesAt(m, start, f.off) == f.data
  {
    var rel := Read32(m, start + f.off);
    assert Signed(rel) == rel > 0;
  }

  /** The finished object holds the field: its contents placed and its length set,
      or its bytes as they were set. */
  ghost predicate Held(s: seq<Byte>, size: nat, f: Field)
    requires f.off + Width(f) <= size && HEADER_SIZE + size <= |s|
  {
    if f.Blob? && f.data != [] then Placed(s, HEADER_SIZE, size, f) && Read32(s, HEADER_SIZE + f.off + 4) == |f.data|
    else Kept(s, HEADER_SIZE, f)
  }

  lemma BodyHolds(size: nat, fs: seq<Field>, i: nat)
    requires Fits(size, fs) && i < |fs|
    ensures Held(Body(size, fs), size, fs[i])
  {
    BodyKept(size, fs, i);
    if fs[i].Blob? && fs[i].data != [] { BodyPlaced(size, fs, i); }
  }

  /** What holds of the finished object is read from the message. */
  lemma StampedReads(s: seq<Byte>, m: seq<Byte>, size: nat, f: Field)
    requires SameOn(s, m, HEADER_SIZE, |s|) && |m| == |s| < 0x8000_0000 && f.off + Width(f) <= size
             && HEADER_SIZE + size <= |s|
    requires Held(s, size, f)
    ensures Reads(m, HEADER_SIZE, f)
  {
    var p := HEADER_SIZE + f.off;
    if f.Blob? && f.data != [] {
      assert SameOn(s, m, p, p + 4) && SameOn(s, m, p + 4, p + 8) && SameOn(s, m, HEADER_SIZE + size, |s|);
      PlacedOutside(s, m, HEADER_SIZE, size, f);
      ReadSame(s, m, p + 4);
      BlobReads(m, HEADER_SIZE, size, f);
    } else {
      assert SameOn(s, m, p, p + Width(f));
      KeptOutside(s, m, HEADER_SIZE, f);
    }
  }

  lemma StampReadsField(s: seq<Byte>, flags: nat, size: nat, f: Field)
    requires HEADER_SIZE + size <= |s| < 0x8000_0000 && flags < 0x1_0000 && f.off + Width(f) <= size
    requires Held(s, size, f)
    ensures Reads(Stamp(s, flags, HEADER_SIZE), HEADER_SIZE, f)
  {
    StampSame(s, flags, HEADER_SIZE);
    StampedReads(s, Stamp(s, flags, HEADER_SIZE), size, f);
  }

  /** A message built from any separate fields of an object reads every one of
      them back. */
  lemma BuiltReads(flags: nat, size: nat, fs: seq<Field>, i: nat)
    requires Fits(size, fs) && flags < 0x1_0000 && i < |fs|
    ensures Reads(Built(flags, size, fs), HEADER_SIZE, fs[i])
  {
    BodyHolds(size, fs, i);
    StampReadsField(Body(size, fs), flags, size, fs[i]);
  }

  /** Bytes of the object that no field covers are zero. */
  lemma {:induction false} SetAllUnset(start: nat, fs: seq<Field>, bytes: seq<Byte>, k: nat)
    requires FieldsOk(fs) && |bytes| == start <= k
    requires forall i :: 0 <= i < |fs| ==> !(start + fs[i].off <= k < start + fs[i].off + Width(fs[i]))
    ensures var r := SetAll(Draft(bytes, []), start, fs).bytes; k < |r| ==> r[k] == 0
  {
    if fs != [] {
      var n := |fs| - 1;
      assert forall i :: 0 <= i < n ==> fs[..n][i] == fs[i];
      SetAllUnset(start, fs[..n], bytes, k);
      var d := SetAll(Draft(bytes, []), start, fs[..n]);
      if k < |Set(d, start, fs[n]).bytes| { SetElsewhere(d, start, fs[n], k); }
    }
  }

  lemma BodyUnset(size: nat, fs: seq<Field>, k: nat)
    requires Fits(size, fs) && HEADER_SIZE <= k < HEADER_SIZE + size
    requires forall i :: 0 <= i < |fs| ==> !(HEADER_SIZE + fs[i].off <= k < HEADER_SIZE + fs[i].off + Width(fs[i]))
    ensures Body(size, fs)[k] == 0
  {
    SetAllUnset(HEADER_SIZE, fs, HEADER, k);
    BodyElsewhere(size, fs, k);
  }

  lemma WordUnset(size: nat, fs: seq<Field>, off: nat, k: nat)
    requires Fits(size, fs) && HEADER_SIZE + off <= k < HEADER_SIZE + off + 4 <= HEADER_SIZE + size
    requires forall i :: 0 <= i < |fs| ==> Apart(fs[i], Word(off, 0))
    ensures Body(size, fs)[k] == 0
  {
    forall i | 0 <= i < |fs| ensures !(HEADER_SIZE + fs[i].off <= k < HEADER_SIZE + fs[i].off + Width(fs[i])) {
      assert Apart(fs[i], Word(off, 0));
    }
    BodyUnset(size, fs, k);
  }

  /** A word that was never set reads as zero. */
  lemma UnsetWordIsZero(flags: nat, size: nat, fs: seq<Field>, off: nat)
    requires Fits(size, fs) && flags < 0x1_0000 && off + 4 <= size
    requires forall i :: 0 <= i < |fs| ==> Apart(fs[i], Word(off, 0))
    ensures WordAt(Built(flags, size, fs), HEADER_SIZE, off) == 0
  {
    var s, p := Body(size, fs), HEADER_SIZE + off;
    forall k | p <= k < p + 4 ensures s[k] == 0 {
      WordUnset(size, fs, off, k);
    }
    StampSame(s, flags, HEADER_SIZE);
    ZeroAt(s, Built(flags, size, fs), p);
  }

  lemma ZeroAt(s: seq<Byte>, m: seq<Byte>, p: nat)
    requires p + 4 <= |s| == |m| && HEADER_SIZE <= p && SameOn(s, m, HEADER_SIZE, |s|)
    requires forall k :: p <= k < p + 4 ==> s[k] == 0
    ensures Read32(m, p) == 0
  {
    assert m[p..p + 4] == [0, 0, 0, 0];
    ZeroWord();
  }

  lemma ZeroWord()
    ensures FromLE([0, 0, 0, 0]) == 0
  {
    assert [0, 0, 0, 0][1..] == [0, 0, 0] && [0, 0, 0][1..] == [0, 0] && [0, 0][1..] == [0] && [0][1..] == [];
    assert FromLE([0]) == 0;
    assert FromLE([0, 0]) == 0;
    assert FromLE([0, 0, 0]) == 0;
  }
}
