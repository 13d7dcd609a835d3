/** The ZAP bytes themselves (sdk/typescript/src/zap/wire.ts, envelope.ts, node.ts):
    every byte of a built message, of the frames made of it, and what a reader
    makes of any bytes, without reference to how either is computed. */
module ZapFormat {
  import opened Basics
  import opened ZapWire
  import opened Envelope

  // ------------------------------------------------------------------- numbers

  /** A 32-bit number, little endian. */
  function Bytes32(v: nat): (s: seq<Byte>)
    requires v < 0x1_0000_0000
  {
    [v % 256, v / 256 % 256, v / 65536 % 256, v / 16777216]
  }

  /** The number four bytes make at a position. */
  function Number32(s: seq<Byte>, p: nat): nat
    requires p + 4 <= |s|
  {
    s[p] as nat + 256 * s[p + 1] as nat + 65536 * s[p + 2] as nat + 16777216 * s[p + 3] as nat
  }

  lemma Halves(v: nat)
    ensures v / 256 / 256 == v / 65536 && v / 65536 / 256 == v / 16777216
  {
  }

  lemma WordBytes(v: nat)
    requires v < WORD
    ensures U32(v) == Bytes32(v)
  {
    Halves(v);
    assert LE(v, 4) == [v % 256] + LE(v / 256, 3);
    assert LE(v / 256, 3) == [v / 256 % 256] + LE(v / 65536, 2);
    assert LE(v / 65536, 2) == [v / 65536 % 256] + LE(v / 16777216, 1);
    assert LE(v / 16777216, 1) == [v / 16777216 % 256] + LE(v / 16777216 / 256, 0);
  }

  lemma HalfBytes(v: nat)
    requires v < 0x1_0000
    ensures U16(v) == [v % 256, v / 256]
  {
    assert LE(v, 2) == [v % 256] + LE(v / 256, 1);
    assert LE(v / 256, 1) == [v / 256 % 256] + LE(v / 256 / 256, 0);
  }

  lemma ReadNumber(s: seq<Byte>, p: nat)
    requires p + 4 <= |s|
    ensures Read32(s, p) == Number32(s, p)
  {
    var w := s[p..p + 4];
    assert w[1..] == s[p + 1..p + 4] && w[1..][1..] == s[p + 2..p + 4] && w[1..][1..][1..] == [s[p + 3]];
    assert FromLE([s[p + 3]]) == s[p + 3] as nat + 256 * FromLE([]);
    assert FromLE(s[p + 2..p + 4]) == s[p + 2] as nat + 256 * FromLE([s[p + 3]]);
    assert FromLE(s[p + 1..p + 4]) == s[p + 1] as nat + 256 * FromLE(s[p + 2..p + 4]);
  }

  lemma ReadHalf(s: seq<Byte>, p: nat)
    requires p + 2 <= |s|
    ensures Read16(s, p) == s[p] as nat + 256 * s[p + 1] as nat
  {
    var w := s[p..p + 2];
    assert w[1..] == [s[p + 1]] && [s[p + 1]][1..] == [];
    assert FromLE([s[p + 1]]) == s[p + 1] as nat;
  }

  lemma {:induction false} BytesOfNumber(s: seq<Byte>)
    ensures LE(FromLE(s), |s|) == s
    decreases |s|
  {
    if s != [] {
      BytesOfNumber(s[1..]);
      var v := FromLE(s);
      assert v % 256 == s[0] && v / 256 == FromLE(s[1..]);
      assert s == [s[0]] + s[1..];
    }
  }

  // ---------------------------------------------------------------------- places

  /** The bytes w stand at p. */
  predicate At(m: seq<Byte>, p: nat, w: seq<Byte>) { p + |w| <= |m| && m[p..p + |w|] == w }

  lemma AtJoin(m: seq<Byte>, p: nat, a: seq<Byte>, b: seq<Byte>)
    requires At(m, p, a) && At(m, p + |a|, b)
    ensures At(m, p, a + b)
  {
    assert m[p..p + |a + b|] == m[p..p + |a|] + m[p + |a|..p + |a| + |b|];
  }

  lemma WordStands(m: seq<Byte>, p: nat, v: nat)
    requires p + 4 <= |m| && Read32(m, p) == v
    ensures v < WORD && At(m, p, Bytes32(v))
  {
    BytesOfNumber(m[p..p + 4]);
    WordBytes(v);
  }

  lemma HalfStands(m: seq<Byte>, p: nat, v: nat)
    requires p + 2 <= |m| && Read16(m, p) == v && v < 0x1_0000
    ensures At(m, p, [v % 256, v / 256])
  {
    BytesOfNumber(m[p..p + 2]);
    HalfBytes(v);
  }

  // ------------------------------------------------------- where byte strings lie

  /** How many bytes the byte strings among some fields have. */
  function Lengths(fs: seq<Field>): nat
  {
    if fs == [] then 0
    else Lengths(fs[..|fs| - 1]) + (if fs[|fs| - 1].Blob? then |fs[|fs| - 1].data| else 0)
  }

  lemma {:induction false} TotalSnoc(es: seq<Field>, e: Field)
    requires e.Blob? && forall i :: 0 <= i < |es| ==> es[i].Blob?
    ensures Total(es + [e]) == Total(es) + |e.data|
  {
    assert (es + [e])[..|es|] == es;
  }

  lemma {:induction false} LengthsAre(fs: seq<Field>)
    ensures Total(Blobs(fs)) == Lengths(fs)
  {
    if fs != [] {
      var n := |fs| - 1;
      LengthsAre(fs[..n]);
      if fs[n].Blob? && fs[n].data != [] { TotalSnoc(Blobs(fs[..n]), fs[n]); }
    }
  }

  lemma {:induction false} BlobsPrefix(fs: seq<Field>, i: nat)
    requires i <= |fs|
    ensures Blobs(fs[..i]) <= Blobs(fs)
    decreases |fs|
  {
    var n := |fs| - 1;
    if i <= n {
      BlobsPrefix(fs[..n], i);
      assert fs[..n][..i] == fs[..i];
    } else {
      assert fs[..i] == fs;
    }
  }

  /** The byte string lies at abs, and its offset word says so. */
  ghost predicate Lies(s: seq<Byte>, start: nat, f: Field, abs: nat)
  {
    && f.Blob? && start + f.off + 8 <= |s| && start + f.off <= abs && At(s, abs, f.data)
    && Read32(s, start + f.off) == abs - (start + f.off)
  }

  ghost predicate Points(s: seq<Byte>, p: nat, v: nat) { p + 4 <= |s| && Read32(s, p) == v }

  lemma PlacePoints(s: seq<Byte>, start: nat, e: Field)
    requires e.Blob? && start + e.off + 8 <= |s| < WORD
    ensures Points(Place(s, start, e), start + e.off, |s| - (start + e.off))
  {
    ReadWritten(s + e.data, start + e.off, |s| - (start + e.off));
  }

  lemma PlaceKeepsPoints(s: seq<Byte>, start: nat, e: Field, p: nat, v: nat)
    requires e.Blob? && start + e.off + 8 <= |s| < WORD && Points(s, p, v)
    requires p + 4 <= start + e.off || start + e.off + 4 <= p
    ensures Points(Place(s, start, e), p, v)
  {
    assert SameOn(s, Place(s, start, e), p, p + 4);
    ReadSame(s, Place(s, start, e), p);
  }

  /** Room for the contents of byte strings. */
  ghost predicate Roomy(s: seq<Byte>, start: nat, es: seq<Field>)
  {
    Deferrable(start, |s|, es) && |s| + Total(es) < WORD
  }

  lemma {:induction false} LastPlaced(s: seq<Byte>, start: nat, es: seq<Field>)
    requires Roomy(s, start, es) && es != []
    ensures var n := |es| - 1;
            && Roomy(s, start, es[..n]) && es[n].Blob? && start + es[n].off + 8 <= |s|
            && |PlaceAll(s, start, es[..n])| == |s| + Total(es[..n]) < WORD
            && PlaceAll(s, start, es) == Place(PlaceAll(s, start, es[..n]), start, es[n])
  {
  }

  lemma {:induction false} RoomyPrefix(s: seq<Byte>, start: nat, es: seq<Field>, k: nat)
    requires Roomy(s, start, es) && k <= |es|
    ensures Roomy(s, start, es[..k])
    decreases |es|
  {
    if k == |es| {
      assert es[..k] == es;
    } else {
      LastPlaced(s, start, es);
      RoomyPrefix(s, start, es[..|es| - 1], k);
      assert es[..|es| - 1][..k] == es[..k];
    }
  }

  /** An offset word stays as it is, whatever is placed after it. */
  lemma {:induction false} StillPoints(s: seq<Byte>, start: nat, es: seq<Field>, k: nat, p: nat, v: nat)
    requires Roomy(s, start, es) && k <= |es| && Roomy(s, start, es[..k])
    requires forall i :: k <= i < |es| ==> p + 4 <= start + es[i].off || start + es[i].off + 4 <= p
    requires Points(PlaceAll(s, start, es[..k]), p, v)
    ensures Points(PlaceAll(s, start, es), p, v)
    decreases |es|
  {
    if k == |es| {
      assert es[..k] == es;
    } else {
      var n := |es| - 1;
      LastPlaced(s, start, es);
      assert es[..n][..k] == es[..k];
      StillPoints(s, start, es[..n], k, p, v);
      PlaceKeepsPoints(PlaceAll(s, start, es[..n]), start, es[n], p, v);
    }
  }

  lemma {:induction false} FirstPoints(s: seq<Byte>, start: nat, es: seq<Field>, i: nat)
    requires Roomy(s, start, es) && i < |es|
    ensures Roomy(s, start, es[..i]) && Roomy(s, start, es[..i + 1])
    ensures Points(PlaceAll(s, start, es[..i + 1]), start + es[i].off, |s| + Total(es[..i]) - (start + es[i].off))
  {
    RoomyPrefix(s, start, es, i);
    RoomyPrefix(s, start, es, i + 1);
    LastPlaced(s, start, es[..i + 1]);
    assert es[..i + 1][..i] == es[..i];
    PlacePoints(PlaceAll(s, start, es[..i]), start, es[i]);
  }

  lemma {:induction false} PlaceAllPoints(s: seq<Byte>, start: nat, es: seq<Field>, i: nat)
    requires Roomy(s, start, es) && i < |es| && forall j :: i < j < |es| ==> Apart(es[i], es[j])
    ensures Points(PlaceAll(s, start, es), start + es[i].off, |s| + Total(es[..i]) - (start + es[i].off))
  {
    FirstPoints(s, start, es, i);
    StillPoints(s, start, es, i + 1, start + es[i].off, |s| + Total(es[..i]) - (start + es[i].off));
  }

  lemma BlobIndex(fs: seq<Field>, i: nat) returns (j: nat)
    requires i < |fs| && fs[i].Blob? && fs[i].data != []
    ensures j < |Blobs(fs)| && Blobs(fs)[j] == fs[i] && Blobs(fs)[..j] == Blobs(fs[..i])
  {
    j := |Blobs(fs[..i])|;
    BlobsPrefix(fs, i + 1);
    assert fs[..i + 1][..i] == fs[..i];
    assert Blobs(fs[..i + 1]) == Blobs(fs[..i]) + [fs[i]];
  }

  lemma BodyPoints(size: nat, fs: seq<Field>, i: nat)
    requires Fits(size, fs) && i < |fs| && fs[i].Blob? && fs[i].data != []
    ensures Points(Body(size, fs), HEADER_SIZE + fs[i].off, size + Lengths(fs[..i]) - fs[i].off)
  {
    BlobsOf(size, fs);
    LengthsAre(fs[..i]);
    var j := BlobIndex(fs, i);
    PlaceAllPoints(Covered(size, fs), HEADER_SIZE, Blobs(fs), j);
  }

  lemma BodyLies(size: nat, fs: seq<Field>, i: nat)
    requires Fits(size, fs) && i < |fs| && fs[i].Blob? && fs[i].data != []
    ensures Lies(Body(size, fs), HEADER_SIZE, fs[i], HEADER_SIZE + size + Lengths(fs[..i]))
  {
    BodyPlaced(size, fs, i);
    BodyPoints(size, fs, i);
  }

  // ------------------------------------------------------------ a built message

  /** Sixteen bytes: the magic, version 1, flags, the root's offset, the size. */
  function Header(flags: nat, size: nat): seq<Byte>
    requires flags < 0x1_0000 && size < WORD
  {
    [0x5A, 0x41, 0x50, 0x00, 1, 0, flags % 256, flags / 256, 16, 0, 0, 0] + Bytes32(size)
  }

  /** Field i in the bytes: a byte or a word in its place; a byte string as the
      distance from its place to its contents and their length, the contents behind
      the object and those of the fields before it. */
  ghost predicate Stands(m: seq<Byte>, size: nat, fs: seq<Field>, i: nat)
  {
    && i < |fs| && FieldOk(fs[i]) && fs[i].off <= size && 16 + size + Lengths(fs[..i]) < WORD
    && var p, abs := 16 + fs[i].off, 16 + size + Lengths(fs[..i]);
       match fs[i]
       case Octet(_, v) => At(m, p, [v])
       case Word(_, v) => At(m, p, Bytes32(v))
       case Blob(_, d) => At(m, p, Pair(abs - p, d)) && At(m, abs, d)
  }

  /** A byte string's two words: how far to its contents, zero if there are none, and
      how many. */
  function Pair(rel: nat, data: seq<Byte>): seq<Byte>
    requires rel < WORD && |data| < WORD
  {
    Bytes32(if data == [] then 0 else rel) + Bytes32(|data|)
  }

  lemma {:induction false} LengthsGrow(fs: seq<Field>, i: nat)
    requires i <= |fs|
    ensures Lengths(fs[..i]) <= Lengths(fs)
    decreases |fs|
  {
    var n := |fs| - 1;
    if i <= n {
      LengthsGrow(fs[..n], i);
      assert fs[..n][..i] == fs[..i];
    } else {
      assert fs[..i] == fs;
    }
  }

  lemma HeaderJoin(m: seq<Byte>, flags: nat)
    requires 16 <= |m| < WORD && flags < 0x1_0000 && At(m, 0, [0x5A, 0x41, 0x50, 0x00, 1, 0])
    requires At(m, 6, [flags % 256, flags / 256]) && At(m, 8, Bytes32(16)) && At(m, 12, Bytes32(|m|))
    ensures At(m, 0, Header(flags, |m|))
  {
    var a: seq<Byte>, b: seq<Byte> := [0x5A, 0x41, 0x50, 0x00, 1, 0], [flags % 256, flags / 256];
    AtJoin(m, 0, a, b);
    AtJoin(m, 0, a + b, Bytes32(16));
    AtJoin(m, 0, a + b + Bytes32(16), Bytes32(|m|));
    assert a + b + Bytes32(16) + Bytes32(|m|) == Header(flags, |m|);
  }

  lemma StampStands(s: seq<Byte>, flags: nat)
    requires HEADER_SIZE <= |s| < WORD && flags < 0x1_0000 && s[..HEADER_SIZE] == HEADER
    ensures var m := Stamp(s, flags, HEADER_SIZE); At(m, 0, Header(flags, |m|))
  {
    var m := Stamp(s, flags, HEADER_SIZE);
    StampSame(s, flags, HEADER_SIZE);
    StampReads(s, flags, HEADER_SIZE);
    forall k | 0 <= k < 6 ensures m[k] == HEADER[k] { assert m[k] == s[k] == s[..HEADER_SIZE][k]; }
    assert m[0..6] == [0x5A, 0x41, 0x50, 0x00, 1, 0];
    HalfStands(m, 6, flags);
    WordStands(m, 8, HEADER_SIZE);
    WordStands(m, 12, |m|);
    HeaderJoin(m, flags);
  }

  lemma CarriedWord(s: seq<Byte>, m: seq<Byte>, p: nat, v: nat)
    requires SameOn(s, m, HEADER_SIZE, |s|) && |m| == |s| && HEADER_SIZE <= p && p + 4 <= |s| && Read32(s, p) == v
    ensures v < WORD && At(m, p, Bytes32(v))
  {
    ReadSame(s, m, p);
    WordStands(m, p, v);
  }

  lemma NoBytesStand(s: seq<Byte>, m: seq<Byte>, p: nat)
    requires SameOn(s, m, HEADER_SIZE, |s|) && |m| == |s| && HEADER_SIZE <= p && p + 8 <= |s|
    requires Read32(s, p) == 0 && Read32(s, p + 4) == 0
    ensures At(m, p, Bytes32(0) + Bytes32(0))
  {
    CarriedWord(s, m, p, 0);
    CarriedWord(s, m, p + 4, 0);
    AtJoin(m, p, Bytes32(0), Bytes32(0));
  }

  lemma BlobStands(s: seq<Byte>, m: seq<Byte>, f: Field, abs: nat)
    requires SameOn(s, m, HEADER_SIZE, |s|) && |m| == |s| && Lies(s, HEADER_SIZE, f, abs)
    requires Read32(s, HEADER_SIZE + f.off + 4) == |f.data| < WORD
    ensures abs - (16 + f.off) < WORD && At(m, 16 + f.off, Bytes32(abs - (16 + f.off)) + Bytes32(|f.data|))
    ensures At(m, abs, f.data)
  {
    var p := HEADER_SIZE + f.off;
    CarriedWord(s, m, p, abs - p);
    CarriedWord(s, m, p + 4, |f.data|);
    AtJoin(m, p, Bytes32(abs - p), Bytes32(|f.data|));
    assert m[abs..abs + |f.data|] == s[abs..abs + |f.data|];
  }

  /** What holds of the fields before the header is closed stands after it. */
  lemma HeldStands(s: seq<Byte>, m: seq<Byte>, size: nat, fs: seq<Field>, i: nat)
    requires i < |fs| && FieldOk(fs[i]) && 16 + size + Lengths(fs[..i]) < WORD && fs[i].off + Width(fs[i]) <= size
    requires SameOn(s, m, HEADER_SIZE, |s|) && |m| == |s| && HEADER_SIZE + size <= |s|
    requires 16 + size + Lengths(fs[..i]) <= |s|
    requires !(fs[i].Blob? && fs[i].data != []) ==> Kept(s, HEADER_SIZE, fs[i])
    requires fs[i].Blob? ==> Read32(s, HEADER_SIZE + fs[i].off + 4) == |fs[i].data|
    requires fs[i].Blob? && fs[i].data != [] ==> Lies(s, HEADER_SIZE, fs[i], HEADER_SIZE + size + Lengths(fs[..i]))
    ensures Stands(m, size, fs, i)
  {
    var f, p := fs[i], HEADER_SIZE + fs[i].off;
    match f {
      case Octet(_, v) => assert m[p] == s[p] == v && m[p..p + 1] == [v];
      case Word(_, v) => CarriedWord(s, m, p, v);
      case Blob(_, d) =>
        if d == [] { NoBytesStand(s, m, p); } else { BlobStands(s, m, f, HEADER_SIZE + size + Lengths(fs[..i])); }
    }
  }

  lemma FieldStands(flags: nat, size: nat, fs: seq<Field>, i: nat)
    requires Fits(size, fs) && flags < 0x1_0000 && i < |fs|
    ensures Stands(Built(flags, size, fs), size, fs, i)
  {
    LengthsAre(fs);
    LengthsGrow(fs, i);
    StampSame(Body(size, fs), flags, HEADER_SIZE);
    BodyKept(size, fs, i);
    if fs[i].Blob? && fs[i].data != [] { BodyLies(size, fs, i); }
    HeldStands(Body(size, fs), Built(flags, size, fs), size, fs, i);
  }

  predicate Covers(f: Field, k: nat)
  {
    16 + f.off <= k < 16 + f.off + (match f case Octet(_, _) => 1 case Word(_, _) => 4 case Blob(_, _) => 8)
  }

  predicate Free(fs: seq<Field>, k: nat) { forall i :: 0 <= i < |fs| ==> !Covers(fs[i], k) }

  ghost predicate Blank(m: seq<Byte>, size: nat, fs: seq<Field>)
  {
    forall k :: 16 <= k < 16 + size <= |m| && Free(fs, k) ==> m[k] == 0
  }

  /** Every byte of a message: the header, each field and the contents of each byte
      string in its place, zeros where no field is. */
  ghost predicate Laid(m: seq<Byte>, flags: nat, size: nat, fs: seq<Field>)
  {
    && flags < 0x1_0000 && |m| == 16 + size + Lengths(fs) < 0x8000_0000 && At(m, 0, Header(flags, |m|))
    && (forall i :: 0 <= i < |fs| ==> Stands(m, size, fs, i))
    && Blank(m, size, fs)
  }

  lemma BlankBody(flags: nat, size: nat, fs: seq<Field>)
    requires Fits(size, fs) && flags < 0x1_0000
    ensures Blank(Built(flags, size, fs), size, fs)
  {
    var m, s := Built(flags, size, fs), Body(size, fs);
    StampSame(s, flags, HEADER_SIZE);
    forall k | 16 <= k < 16 + size <= |m| && Free(fs, k) ensures m[k] == 0 {
      forall i | 0 <= i < |fs| ensures !(HEADER_SIZE + fs[i].off <= k < HEADER_SIZE + fs[i].off + Width(fs[i])) {
        assert !Covers(fs[i], k);
      }
      BodyUnset(size, fs, k);
    }
  }

  lemma BuiltBytes(flags: nat, size: nat, fs: seq<Field>)
    requires Fits(size, fs) && flags < 0x1_0000
    ensures Laid(Built(flags, size, fs), flags, size, fs)
  {
    LengthsAre(fs);
    BodyHeader(size, fs);
    StampStands(Body(size, fs), flags);
    BlankBody(flags, size, fs);
    forall i | 0 <= i < |fs| ensures Stands(Built(flags, size, fs), size, fs, i) { FieldStands(flags, size, fs, i); }
  }

  // -------------------------------------------------------------------- frames

  lemma ZerosStand(m: seq<Byte>, size: nat, fs: seq<Field>, p: nat, n: nat)
    requires Blank(m, size, fs) && 16 <= p && p + n <= 16 + size <= |m| && forall k :: p <= k < p + n ==> Free(fs, k)
    ensures At(m, p, Zeros(n))
  {
    forall k | p <= k < p + n ensures m[k] == 0 { assert Free(fs, k); }
    assert m[p..p + n] == Zeros(n);
  }

  lemma EnvelopeLengths(body: seq<Byte>, status: nat, detail: seq<Byte>)
    ensures var fs := EnvelopeFields(body, status, detail);
            && fs[0] == Blob(0, body) && Lengths(fs[..0]) == 0
            && (status != 0 ==> fs[1] == Word(8, status))
            && (detail != [] ==> var n := |fs| - 1; 0 < n && fs[n] == Blob(12, detail) && Lengths(fs[..n]) == |body|)
  {
    var fs := EnvelopeFields(body, status, detail);
    assert fs[..1] == [Blob(0, body)] && fs[..1][..0] == [] && Lengths(fs[..1]) == |body|;
    if status != 0 { assert fs[..2][..1] == fs[..1] && Lengths(fs[..2]) == |body|; }
  }

  lemma EnvelopeFixed(m: seq<Byte>, body: seq<Byte>, status: nat, detail: seq<Byte>)
    requires status < WORD && 40 + |body| + |detail| < 0x8000_0000 && |m| >= 40
    requires var fs := EnvelopeFields(body, status, detail);
             Blank(m, 24, fs) && forall i :: 0 <= i < |fs| ==> Stands(m, 24, fs, i)
    ensures At(m, 16, Pair(24, body)) && At(m, 40, body) && At(m, 24, Bytes32(status))
    ensures detail != [] ==> At(m, 28, Pair(12 + |body|, detail)) && At(m, 40 + |body|, detail)
  {
    var fs := EnvelopeFields(body, status, detail);
    EnvelopeLengths(body, status, detail);
    assert Stands(m, 24, fs, 0);
    if detail != [] { assert Stands(m, 24, fs, |fs| - 1); }
    if status != 0 {
      assert Stands(m, 24, fs, 1);
    } else {
      ZerosStand(m, 24, fs, 24, 4);
      assert Zeros(4) == Bytes32(0);
    }
  }

  lemma EnvelopeBlank(m: seq<Byte>, body: seq<Byte>, status: nat, detail: seq<Byte>)
    requires |m| >= 40 && Blank(m, 24, EnvelopeFields(body, status, detail))
    ensures At(m, 36, [0, 0, 0, 0]) && (detail == [] ==> At(m, 28, Bytes32(0) + Bytes32(0)))
  {
    var fs := EnvelopeFields(body, status, detail);
    ZerosStand(m, 24, fs, 36, 4);
    assert Zeros(4) == [0, 0, 0, 0];
    if detail == [] {
      ZerosStand(m, 24, fs, 28, 8);
      assert Zeros(8) == Bytes32(0) + Bytes32(0);
    }
  }

  /** An envelope: the opcode in the eighth byte, the places of body, status and
      error, then body and error. */
  function EnvelopeShape(opcode: nat, body: seq<Byte>, status: nat, detail: seq<Byte>): seq<Byte>
    requires status < WORD && 40 + |body| + |detail| < 0x8000_0000
  {
    [0x5A, 0x41, 0x50, 0x00, 1, 0, 0, opcode % 256, 16, 0, 0, 0] + Bytes32(40 + |body| + |detail|)
    + Pair(24, body) + Bytes32(status) + Pair(12 + |body|, detail) + [0, 0, 0, 0] + body + detail
  }

  lemma EnvelopeJoin(m: seq<Byte>, opcode: nat, body: seq<Byte>, status: nat, detail: seq<Byte>)
    requires status < WORD && |m| == 40 + |body| + |detail| < 0x8000_0000
    requires At(m, 0, Header(opcode % 256 * 256, |m|)) && At(m, 16, Pair(24, body)) && At(m, 24, Bytes32(status))
    requires At(m, 28, Pair(12 + |body|, detail)) && At(m, 36, [0, 0, 0, 0]) && At(m, 40, body)
             && At(m, 40 + |body|, detail)
    ensures m == EnvelopeShape(opcode, body, status, detail)
  {
    var h := [0x5A, 0x41, 0x50, 0x00, 1, 0, 0, opcode % 256, 16, 0, 0, 0] + Bytes32(40 + |body| + |detail|);
    assert h == Header(opcode % 256 * 256, |m|);
    AtJoin(m, 0, h, Pair(24, body));
    AtJoin(m, 0, h + Pair(24, body), Bytes32(status));
    var front := h + Pair(24, body) + Bytes32(status);
    AtJoin(m, 0, front, Pair(12 + |body|, detail));
    AtJoin(m, 0, front + Pair(12 + |body|, detail), [0, 0, 0, 0]);
    var fixed := front + Pair(12 + |body|, detail) + [0, 0, 0, 0];
    AtJoin(m, 0, fixed, body);
    AtJoin(m, 0, fixed + body, detail);
    assert m[0..|m|] == m;
  }

  lemma EnvelopeLaid(m: seq<Byte>, opcode: nat, body: seq<Byte>, status: nat, detail: seq<Byte>)
    requires status < WORD && 40 + |body| + |detail| < 0x8000_0000 && |m| == 40 + |body| + |detail|
    requires Laid(m, opcode % 256 * 256, 24, EnvelopeFields(body, status, detail))
    ensures m == EnvelopeShape(opcode, body, status, detail)
  {
    EnvelopeFixed(m, body, status, detail);
    EnvelopeBlank(m, body, status, detail);
    if detail == [] { assert m[40 + |body|..40 + |body|] == detail; }
    EnvelopeJoin(m, opcode, body, status, detail);
  }

  /** Envelopes are laid out so, byte for byte. */
  lemma EnvelopeBytes(opcode: nat, body: seq<Byte>, status: nat, detail: seq<Byte>)
    requires status < WORD && 40 + |body| + |detail| < 0x8000_0000
    ensures EnvelopeFrame(opcode, body, status, detail) == EnvelopeShape(opcode, body, status, detail)
  {
    EnvelopeFits(body, status, detail);
    BuiltBytes(OpcodeFlags(opcode), ENVELOPE_SIZE, EnvelopeFields(body, status, detail));
    EnvelopeLaid(EnvelopeFrame(opcode, body, status, detail), opcode, body, status, detail);
  }

  /** A field object: the places of token and payload, sixteen zeros, then both. */
  function FieldShape(token: seq<Byte>, payload: seq<Byte>): seq<Byte>
    requires 48 + |token| + |payload| < 0x8000_0000
  {
    [0x5A, 0x41, 0x50, 0x00, 1, 0, 0, 0, 16, 0, 0, 0] + Bytes32(48 + |token| + |payload|)
    + Pair(32, token) + Pair(24 + |token|, payload) + Zeros(16) + token + payload
  }

  lemma FieldObjectJoin(m: seq<Byte>, token: seq<Byte>, payload: seq<Byte>)
    requires |m| == 48 + |token| + |payload| < 0x8000_0000 && At(m, 0, Header(0, |m|)) && At(m, 16, Pair(32, token))
    requires At(m, 24, Pair(24 + |token|, payload)) && At(m, 32, Zeros(16))
    requires At(m, 48, token) && At(m, 48 + |token|, payload)
    ensures m == FieldShape(token, payload)
  {
    var h := [0x5A, 0x41, 0x50, 0x00, 1, 0, 0, 0, 16, 0, 0, 0] + Bytes32(48 + |token| + |payload|);
    assert h == Header(0, |m|);
    AtJoin(m, 0, h, Pair(32, token));
    AtJoin(m, 0, h + Pair(32, token), Pair(24 + |token|, payload));
    var front := h + Pair(32, token) + Pair(24 + |token|, payload);
    AtJoin(m, 0, front, Zeros(16));
    AtJoin(m, 0, front + Zeros(16), token);
    AtJoin(m, 0, front + Zeros(16) + token, payload);
    assert m[0..|m|] == m;
  }

  lemma FieldObjectLaid(m: seq<Byte>, token: seq<Byte>, payload: seq<Byte>)
    requires |m| == 48 + |token| + |payload| < 0x8000_0000 && Laid(m, 0, 32, TokenFields(token, payload))
    ensures m == FieldShape(token, payload)
  {
    var fs := TokenFields(token, payload);
    assert fs[..1] == [Blob(0, token)] && fs[..1][..0] == [] && Lengths(fs[..1]) == |token|;
    assert Stands(m, 32, fs, 0) && Stands(m, 32, fs, 1);
    ZerosStand(m, 32, fs, 32, 16);
    FieldObjectJoin(m, token, payload);
  }

  /** Field objects are laid out so, byte for byte. */
  lemma FieldObjectBytes(token: seq<Byte>, payload: seq<Byte>)
    requires 48 + |token| + |payload| < 0x8000_0000
    ensures FieldFrame(token, payload) == FieldShape(token, payload)
  {
    TokenFits(token, payload);
    BuiltBytes(0, FIELD_SIZE, TokenFields(token, payload));
    FieldObjectLaid(FieldFrame(token, payload), token, payload);
  }

  lemma HandshakeJoin(m: seq<Byte>, kept: seq<Byte>, length: nat)
    requires |m| == 80 && |kept| <= 60 && length < WORD && At(m, 0, Header(0, 80)) && At(m, 16, kept)
    requires At(m, 16 + |kept|, Zeros(60 - |kept|)) && At(m, 76, Bytes32(length))
    ensures m == [0x5A, 0x41, 0x50, 0x00, 1, 0, 0, 0, 16, 0, 0, 0, 80, 0, 0, 0] + kept + Zeros(60 - |kept|)
                 + Bytes32(length)
  {
    var h := [0x5A, 0x41, 0x50, 0x00, 1, 0, 0, 0, 16, 0, 0, 0, 80, 0, 0, 0];
    assert h == Header(0, 80);
    AtJoin(m, 0, h, kept);
    AtJoin(m, 0, h + kept, Zeros(60 - |kept|));
    AtJoin(m, 0, h + kept + Zeros(60 - |kept|), Bytes32(length));
    assert m[0..|m|] == m;
  }

  lemma HandshakeLaid(m: seq<Byte>, id: seq<Byte>, n: nat)
    requires |id| < WORD && n == Least(|id|, 60) && |m| == 80 && Laid(m, 0, 64, HandshakeFields(id))
    ensures At(m, 16, id[..n]) && At(m, 16 + n, Zeros(60 - n)) && At(m, 76, Bytes32(|id|)) && At(m, 0, Header(0, 80))
  {
    var fs := HandshakeFields(id);
    forall i | 0 <= i < n ensures m[16 + i] == id[i] {
      assert fs[i] == Octet(i, id[i]) && Stands(m, 64, fs, i);
      assert m[16 + i..16 + i + 1][0] == id[i];
    }
    assert m[16..16 + n] == id[..n];
    forall k | 16 + n <= k < 76 ensures Free(fs, k) {
      forall i | 0 <= i < |fs| ensures !Covers(fs[i], k) { if i < n { assert fs[i] == Octet(i, id[i]); } }
    }
    ZerosStand(m, 64, fs, 16 + n, 60 - n);
    assert fs[n] == Word(60, |id|) && Stands(m, 64, fs, n);
  }

  lemma HandshakeIsLaid(id: seq<Byte>)
    requires |id| < WORD
    ensures |HandshakeFrame(id)| == 80 && Laid(HandshakeFrame(id), 0, 64, HandshakeFields(id))
  {
    HandshakeFits(id);
    NoBlobs(HandshakeFields(id));
    BuiltBytes(0, HANDSHAKE_SIZE, HandshakeFields(id));
  }

  /** A handshake, byte for byte: up to sixty bytes of the id, zeros up to the
      sixtieth, and the length of the whole id. */
  lemma HandshakeBytes(id: seq<Byte>)
    requires |id| < WORD
    ensures var kept := if |id| <= 60 then id else id[..60];
            HandshakeFrame(id) == [0x5A, 0x41, 0x50, 0x00, 1, 0, 0, 0, 16, 0, 0, 0, 80, 0, 0, 0]
                                  + kept + Zeros(60 - |kept|) + Bytes32(|id|)
  {
    HandshakeIsLaid(id);
    var m, n := HandshakeFrame(id), Least(|id|, 60);
    HandshakeLaid(m, id, n);
    HandshakeJoin(m, id[..n], |id|);
    assert |id| <= 60 ==> id[..n] == id;
  }

  // -------------------------------------------------------------------- reading

  /** Which bytes parse: sixteen or more, with the magic, version one or two, and a
      size no larger than they are; what is parsed is that many of them. */
  lemma ParseIff(data: seq<Byte>)
    ensures Parse(data).Some? <==>
            |data| >= 16 && data[..4] == [0x5A, 0x41, 0x50, 0x00] && data[4] in {1, 2} && data[5] == 0
                && Number32(data, 12) <= |data|
    ensures Parse(data).Some? ==> Parse(data).value == data[..Number32(data, 12)]
  {
    if |data| >= 16 {
      ReadHalf(data, 4);
      ReadNumber(data, 12);
    }
  }

  /** A word of an object: four bytes, or zero past the end. */
  lemma WordLaw(m: seq<Byte>, root: nat, off: nat)
    ensures WordAt(m, root, off) == if root + off + 4 <= |m| then Number32(m, root + off) else 0
  {
    if root + off + 4 <= |m| { ReadNumber(m, root + off); }
  }

  /** The place a byte string's two words say, counted from the field, back when the
      distance has its top bit set. */
  function Target(m: seq<Byte>, p: nat): int
    requires p + 4 <= |m|
  {
    if m[p + 3] < 128 then p + Number32(m, p) else p + Number32(m, p) - 0x1_0000_0000
  }

  /** A byte string of an object: what its two words say, and nothing when they are
      not there, when the distance is zero, or when it is not all there. */
  lemma BytesLaw(m: seq<Byte>, root: nat, off: nat)
    ensures var p := root + off;
            BytesAt(m, root, off) ==
            if p + 8 <= |m| && Number32(m, p) != 0 && 0 <= Target(m, p) && Target(m, p) + Number32(m, p + 4) <= |m|
            then m[Target(m, p)..Target(m, p) + Number32(m, p + 4)] else []
  {
    var p := root + off;
    if p + 4 <= |m| { ReadNumber(m, p); }
    if p + 8 <= |m| { ReadNumber(m, p + 4); }
  }

  /** The opcode a message carries is its eighth byte, its root the number at the
      ninth. */
  lemma HeaderLaw(m: seq<Byte>)
    requires |m| >= 12
    ensures Opcode(m) == m[7] && Root(m) == Number32(m, 8) && Flags(m) == m[6] as nat + 256 * m[7] as nat
  {
    ReadHalf(m, 6);
    ReadNumber(m, 8);
  }

  /** What the three decoders read out of any message: status at 8, error at 12 and
      body at 0; token at 0 and payload at 8; the id's length at 60. */
  lemma DecodersRead(frame: seq<Byte>)
    requires Parse(frame).Some? && |Parse(frame).value| >= 12
    ensures var m := Parse(frame).value;
            var root := Number32(m, 8);
            && DecodeEnvelope(frame) == Some(Decoded(WordAt(m, root, 8), BytesAt(m, root, 12), BytesAt(m, root, 0)))
            && DecodeFieldObject(frame) == Some(FieldObject(BytesAt(m, root, 0), BytesAt(m, root, 8)))
            && var n := WordAt(m, root, 60);
               DecodePeer(frame) == Some(if 0 < n <= 60 then Octets(m, root, n) else [])
  {
    HeaderLaw(Parse(frame).value);
  }
}
