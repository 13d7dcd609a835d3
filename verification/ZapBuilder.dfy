/** The builder as written: a buffer that grows, a position, and objects whose
    fields are written through it (sdk/typescript/src/zap/wire.ts, envelope.ts). */
module ZapBuilder {
  import opened Basics
  import opened ZapWire
  import opened Envelope

  class Builder {
    var buf: array<Byte>
    var pos: nat
    var rootOffset: nat

    ghost predicate Valid()
      reads this
    {
      HEADER_SIZE <= pos <= buf.Length
    }

    ghost function Contents(): seq<Byte>
      requires Valid()
      reads this, buf
    {
      buf[..pos]
    }

    constructor (capacity: nat)
      ensures Valid() && fresh(buf) && Contents() == HEADER && rootOffset == 0
    {
      var n := if capacity < HEADER_SIZE then 256 else capacity;
      buf := new Byte[n](_ => 0);
      pos := HEADER_SIZE;
      rootOffset := 0;
      new;
      buf[0], buf[1], buf[2], buf[3] := 0x5a, 0x41, 0x50, 0x00;
      buf[4], buf[5] := 1, 0;
    }

    /** Room for n more bytes, in a buffer at least twice as long. */
    method Grow(n: nat)
      requires Valid()
      modifies this`buf
      ensures Valid() && pos + n <= buf.Length && Contents() == old(Contents())
      ensures buf == old(buf) || fresh(buf)
    {
      if pos + n <= buf.Length { return; }
      var cap := buf.Length * 2;
      if cap < pos + n { cap := pos + n; }
      var nb := new Byte[cap](_ => 0);
      for i := 0 to pos
        invariant fresh(nb) && nb.Length == cap && nb[..i] == old(buf[..i])
        modifies nb
      {
        nb[i] := buf[i];
      }
      buf := nb;
    }

    /** Bytes appended at the position. */
    method Append(w: seq<Byte>)
      requires Valid()
      modifies this`buf, this`pos, buf
      ensures Valid() && Contents() == old(Contents()) + w
      ensures buf == old(buf) || fresh(buf)
    {
      Grow(|w|);
      ghost var before := Contents();
      for i := 0 to |w|
        invariant Valid() && pos == old(pos) + i && pos - i + |w| <= buf.Length && (buf == old(buf) || fresh(buf))
        invariant Contents() == before + w[..i]
        modifies this`pos, buf
      {
        buf[pos] := w[i];
        pos := pos + 1;
      }
      assert w[..|w|] == w;
    }

    method EnsureAbs(needed: nat)
      requires Valid()
      modifies this`buf, this`pos, buf
      ensures Valid() && Contents() == Cover(old(Contents()), needed)
      ensures buf == old(buf) || fresh(buf)
    {
      if needed > pos { Append(Zeros(needed - pos)); }
    }

    method Align(a: nat)
      requires Valid() && a > 0
      modifies this`buf, this`pos, buf
      ensures Valid() && Contents() == old(Contents()) + Zeros((a - old(pos) % a) % a)
      ensures pos % a == 0 && pos - old(pos) < a
      ensures buf == old(buf) || fresh(buf)
    {
      Padded(pos, a);
      Append(Zeros((a - pos % a) % a));
    }

    method SetRoot(off: nat)
      requires Valid()
      modifies this`rootOffset
      ensures Valid() && Contents() == old(Contents()) && rootOffset == off
    {
      rootOffset := off;
    }

    /** Bytes written in place, below the position. */
    method Write(p: nat, w: seq<Byte>)
      requires Valid() && p + |w| <= pos
      modifies buf
      ensures Contents() == Splice(old(Contents()), p, w)
    {
      ghost var before := Contents();
      for i := 0 to |w|
        invariant forall k :: 0 <= k < buf.Length ==> buf[k] == if p <= k < p + i then w[k - p] else old(buf[k])
        modifies buf
      {
        buf[p + i] := w[i];
      }
    }

    method FinishWithFlags(flags: nat) returns (out: seq<Byte>)
      requires Valid() && flags < 0x1_0000 && rootOffset < WORD && pos < WORD
      modifies buf
      ensures out == Stamp(old(Contents()), flags, rootOffset)
    {
      Write(6, U16(flags));
      Write(8, U32(rootOffset));
      Write(12, U32(pos));
      out := buf[..pos];
    }
  }

  class ObjectBuilder {
    const b: Builder
    const startPos: nat
    const dataSize: nat
    var deferred: seq<Field>

    ghost predicate Valid()
      reads this, b
    {
      b.Valid() && Deferrable(startPos, b.pos, deferred)
    }

    ghost function State(): Draft
      requires Valid()
      reads this, b, b.buf
    {
      Draft(b.Contents(), deferred)
    }

    /** Start an object at the next multiple of eight. */
    constructor (b: Builder, dataSize: nat)
      requires b.Valid()
      modifies b`buf, b`pos, b.buf
      ensures Valid() && this.b == b && this.dataSize == dataSize && deferred == []
      ensures b.Contents() == old(b.Contents()) + Zeros((8 - old(b.pos) % 8) % 8) && startPos == |b.Contents()|
      ensures b.buf == old(b.buf) || fresh(b.buf)
    {
      b.Align(8);
      this.b, this.startPos, this.dataSize := b, b.pos, dataSize;
      deferred := [];
    }

    method SetUint8(off: nat, v: nat)
      requires Valid() && v < 256
      modifies b`buf, b`pos, b.buf
      ensures Valid() && State() == Set(old(State()), startPos, Octet(off, v))
      ensures b.buf == old(b.buf) || fresh(b.buf)
    {
      b.EnsureAbs(startPos + off + 1);
      b.Write(startPos + off, [v]);
    }

    method SetUint32(off: nat, v: nat)
      requires Valid() && v < WORD
      modifies b`buf, b`pos, b.buf
      ensures Valid() && State() == Set(old(State()), startPos, Word(off, v))
      ensures b.buf == old(b.buf) || fresh(b.buf)
    {
      b.EnsureAbs(startPos + off + 4);
      b.Write(startPos + off, U32(v));
    }

    method SetBytes(off: nat, v: seq<Byte>)
      requires Valid() && |v| < 0x8000_0000
      modifies this`deferred, b`buf, b`pos, b.buf
      ensures Valid() && State() == Set(old(State()), startPos, Blob(off, v))
      ensures b.buf == old(b.buf) || fresh(b.buf)
    {
      if |v| == 0 {
        SetNoBytes(off);
      } else {
        DeferBytes(off, v);
      }
    }

    method DeferBytes(off: nat, v: seq<Byte>)
      requires Valid() && 0 < |v| < 0x8000_0000
      modifies this`deferred, b`buf, b`pos, b.buf
      ensures Valid() && State() == Set(old(State()), startPos, Blob(off, v))
      ensures b.buf == old(b.buf) || fresh(b.buf)
    {
      b.EnsureAbs(startPos + off + 8);
      deferred := deferred + [Blob(off, v)];
      b.Write(startPos + off + 4, U32(|v|));
    }

    method SetNoBytes(off: nat)
      requires Valid()
      modifies b`buf, b`pos, b.buf
      ensures Valid() && State() == Set(old(State()), startPos, Blob(off, []))
      ensures b.buf == old(b.buf) || fresh(b.buf)
    {
      b.EnsureAbs(startPos + off + 8);
      WriteZeros(startPos + off);
    }

    method WriteZeros(p: nat)
      requires Valid() && p + 8 <= b.pos
      modifies b.buf
      ensures Valid() && b.Contents() == Splice(Splice(old(b.Contents()), p, U32(0)), p + 4, U32(0))
    {
      b.Write(p, U32(0));
      b.Write(p + 4, U32(0));
    }

    /** One payload appended, and its offset written. */
    method PlaceNext(e: Field)
      requires Valid() && e.Blob? && startPos + e.off + 8 <= b.pos < WORD
      modifies b`buf, b`pos, b.buf
      ensures Valid() && b.Contents() == Place(old(b.Contents()), startPos, e)
      ensures b.buf == old(b.buf) || fresh(b.buf)
    {
      var dataPos, at := b.pos, startPos + e.off;
      b.Append(e.data);
      b.Write(at, U32(dataPos - at));
    }

    /** The payloads appended in turn, each with its offset. */
    method PlaceDeferred()
      requires Valid() && b.pos + Total(deferred) < WORD
      modifies b`buf, b`pos, b.buf
      ensures Valid() && b.Contents() == PlaceAll(old(b.Contents()), startPos, deferred)
      ensures b.buf == old(b.buf) || fresh(b.buf)
    {
      ghost var base := b.Contents();
      assert deferred[..0] == [];
      for i := 0 to |deferred|
        invariant Valid() && (b.buf == old(b.buf) || fresh(b.buf))
        invariant |base| + Total(deferred[..i]) < WORD
        invariant b.Contents() == PlaceAll(base, startPos, deferred[..i])
        modifies b`buf, b`pos, b.buf
      {
        PlaceAllNext(base, startPos, deferred, i);
        PlaceNext(deferred[i]);
      }
      assert deferred[..|deferred|] == deferred;
    }

    method FinishAsRoot()
      requires Valid() && |Cover(State().bytes, startPos + dataSize)| + Total(deferred) < WORD
      modifies b`buf, b`pos, b`rootOffset, b.buf
      ensures b.Valid() && b.rootOffset == startPos
      ensures b.Contents() == PlaceAll(Cover(old(State()).bytes, startPos + dataSize), startPos, deferred)
      ensures b.buf == old(b.buf) || fresh(b.buf)
    {
      b.EnsureAbs(startPos + dataSize);
      PlaceDeferred();
      b.SetRoot(startPos);
    }
  }

  lemma Product(x: int, y: int)
    requires x >= 0 && y >= 0
    ensures x * y >= 0
  {
  }

  lemma AtLeast(a: int, d: int)
    requires a > 0 && d >= 1
    ensures a * d >= a
  {
    Product(a, d - 1);
    assert a * d == a * (d - 1) + a;
  }

  lemma OnlyZero(a: int, d: int, r: int)
    requires a > 0 && a * d == r && 0 <= r < a
    ensures r == 0
  {
    if d >= 1 {
      AtLeast(a, d);
    } else if d <= -1 {
      assert a * -d == -(a * d);
      AtLeast(a, -d);
    }
  }

  lemma Divides(y: int, q: int, a: int)
    requires a > 0 && y == a * q
    ensures y % a == 0
  {
    var q', r := y / a, y % a;
    assert y == a * q' + r;
    assert a * (q - q') == a * q - a * q';
    OnlyZero(a, q - q', r);
  }

  lemma Small(x: nat, a: nat)
    requires x < a
    ensures x % a == x
  {
  }

  /** The padding reaches the next multiple and no further. */
  lemma Padded(pos: nat, a: nat)
    requires a > 0
    ensures var pad := (a - pos % a) % a; pad < a && (pos + pad) % a == 0
  {
    var q, r := pos / a, pos % a;
    assert pos == a * q + r;
    if r == 0 {
      Divides(a, 1, a);
    } else {
      Small(a - r, a);
      assert a * (q + 1) == a * q + a;
      Divides(pos + (a - r), q + 1, a);
    }
  }

  lemma {:induction false} TotalPrefix(es: seq<Field>, n: nat)
    requires n <= |es| && forall i :: 0 <= i < |es| ==> es[i].Blob?
    ensures Total(es[..n]) <= Total(es)
    decreases |es|
  {
    if n == |es| {
      assert es[..n] == es;
    } else {
      assert es[..|es| - 1][..n] == es[..n];
      TotalPrefix(es[..|es| - 1], n);
    }
  }

  lemma {:induction false} PlaceAllNext(base: seq<Byte>, start: nat, es: seq<Field>, i: nat)
    requires Deferrable(start, |base|, es) && |base| + Total(es) < WORD && i < |es|
    ensures |base| + Total(es[..i]) < WORD && |base| + Total(es[..i + 1]) < WORD
    ensures PlaceAll(base, start, es[..i + 1]) == Place(PlaceAll(base, start, es[..i]), start, es[i])
  {
    TotalPrefix(es, i);
    TotalPrefix(es, i + 1);
    assert es[..i + 1][..i] == es[..i];
  }

  /** A builder holding an object with the given fields set. */
  ghost predicate Holds(o: ObjectBuilder, size: nat, fs: seq<Field>)
    requires FieldsOk(fs)
    reads o, o.b, o.b.buf
  {
    o.Valid() && o.startPos == HEADER_SIZE && o.dataSize == size
        && o.State() == SetAll(Draft(HEADER, []), HEADER_SIZE, fs)
  }

  /** One more field set, by the call for its kind. */
  method Add(o: ObjectBuilder, size: nat, ghost fs: seq<Field>, f: Field)
    requires FieldsOk(fs) && FieldOk(f) && f.off + Width(f) <= size && Holds(o, size, fs)
    modifies o`deferred, o.b`buf, o.b`pos, o.b.buf
    ensures FieldsOk(fs + [f]) && Holds(o, size, fs + [f])
    ensures o.b.buf == old(o.b.buf) || fresh(o.b.buf)
  {
    assert (fs + [f])[..|fs|] == fs;
    match f {
      case Octet(off, v) => o.SetUint8(off, v);
      case Word(off, v) => o.SetUint32(off, v);
      case Blob(off, data) => o.SetBytes(off, data);
    }
  }

  method NewObject(capacity: nat, size: nat) returns (o: ObjectBuilder)
    ensures fresh(o) && fresh(o.b) && fresh(o.b.buf) && Holds(o, size, [])
  {
    var b := new Builder(capacity);
    o := new ObjectBuilder(b, size);
    assert HEADER + Zeros(0) == HEADER;
  }

  /** Closing an object that holds fields fs gives the message built from them. */
  method Finish(o: ObjectBuilder, size: nat, fs: seq<Field>, flags: nat) returns (out: seq<Byte>)
    requires Fits(size, fs) && flags < 0x1_0000 && Holds(o, size, fs)
    modifies o.b, o.b.buf
    ensures out == Built(flags, size, fs)
  {
    SetAllDefers(HEADER_SIZE, fs, HEADER);
    SetAllSize(HEADER_SIZE, size, fs, HEADER);
    BlobsOf(size, fs);
    o.FinishAsRoot();
    out := o.b.FinishWithFlags(flags);
  }

  /** An envelope object with its body set. */
  method BodyObject(capacity: nat, body: seq<Byte>) returns (o: ObjectBuilder)
    requires |body| < 0x8000_0000
    ensures fresh(o) && fresh(o.b) && fresh(o.b.buf) && Holds(o, ENVELOPE_SIZE, [Blob(0, body)])
  {
    o := NewObject(capacity, ENVELOPE_SIZE);
    Add(o, ENVELOPE_SIZE, [], Blob(0, body));
    assert [] + [Blob(0, body)] == [Blob(0, body)];
  }

  /** A field that is left unset when it has its default. */
  method AddUnless(o: ObjectBuilder, size: nat, ghost fs: seq<Field>, f: Field, default: bool)
    requires FieldsOk(fs) && FieldOk(f) && f.off + Width(f) <= size && Holds(o, size, fs)
    modifies o`deferred, o.b`buf, o.b`pos, o.b.buf
    ensures var fs' := fs + (if default then [] else [f]); FieldsOk(fs') && Holds(o, size, fs')
    ensures o.b.buf == old(o.b.buf) || fresh(o.b.buf)
  {
    assert fs + [] == fs;
    if !default { Add(o, size, fs, f); }
  }

  /** Whatever the initial capacity, the frame is the one specified. */
  method EncodeResponseEnvelope(capacity: nat, opcode: nat, body: seq<Byte>, status: nat, detail: seq<Byte>)
      returns (out: seq<Byte>)
    requires status < WORD && HEADER_SIZE + ENVELOPE_SIZE + |body| + |detail| < 0x8000_0000
    ensures out == EnvelopeFrame(opcode, body, status, detail)
  {
    var o := BodyObject(capacity, body);
    ghost var fs := [Blob(0, body)];
    AddUnless(o, ENVELOPE_SIZE, fs, Word(8, status), status == 0);
    fs := fs + if status != 0 then [Word(8, status)] else [];
    AddUnless(o, ENVELOPE_SIZE, fs, Blob(12, detail), |detail| == 0);
    EnvelopeFits(body, status, detail);
    out := Finish(o, ENVELOPE_SIZE, EnvelopeFields(body, status, detail), OpcodeFlags(opcode));
  }

  /** The request form: no status and no error, room for exactly the body. */
  method EncodeEnvelope(opcode: nat, body: seq<Byte>) returns (out: seq<Byte>)
    requires HEADER_SIZE + ENVELOPE_SIZE + |body| < 0x8000_0000
    ensures out == EnvelopeFrame(opcode, body, 0, [])
  {
    var o := BodyObject(|body| + ENVELOPE_SIZE + 32, body);
    EnvelopeFits(body, 0, []);
    assert EnvelopeFields(body, 0, []) == [Blob(0, body)];
    out := Finish(o, ENVELOPE_SIZE, EnvelopeFields(body, 0, []), OpcodeFlags(opcode));
  }

  method EncodeFieldObject(capacity: nat, token: seq<Byte>, payload: seq<Byte>) returns (out: seq<Byte>)
    requires HEADER_SIZE + FIELD_SIZE + |token| + |payload| < 0x8000_0000
    ensures out == FieldFrame(token, payload)
  {
    TokenFits(token, payload);
    var o := NewObject(capacity, FIELD_SIZE);
    Add(o, FIELD_SIZE, [], Blob(0, token));
    assert [] + [Blob(0, token)] == [Blob(0, token)];
    Add(o, FIELD_SIZE, [Blob(0, token)], Blob(8, payload));
    assert [Blob(0, token)] + [Blob(8, payload)] == TokenFields(token, payload);
    out := Finish(o, FIELD_SIZE, TokenFields(token, payload), 0);
  }

  /** The bytes of the node id, one call each. */
  method AddOctets(o: ObjectBuilder, size: nat, id: seq<Byte>, n: nat)
    requires n <= |id| && n <= size && Holds(o, size, [])
    modifies o`deferred, o.b`buf, o.b`pos, o.b.buf
    ensures Holds(o, size, OctetFields(id, n))
    ensures o.b.buf == old(o.b.buf) || fresh(o.b.buf)
  {
    assert OctetFields(id, 0) == [];
    for i := 0 to n
      invariant Holds(o, size, OctetFields(id, i)) && (o.b.buf == old(o.b.buf) || fresh(o.b.buf))
      modifies o`deferred, o.b`buf, o.b`pos, o.b.buf
    {
      assert OctetFields(id, i + 1) == OctetFields(id, i) + [Octet(i, id[i])];
      Add(o, size, OctetFields(id, i), Octet(i, id[i]));
    }
  }

  method EncodeHandshake(capacity: nat, id: seq<Byte>) returns (out: seq<Byte>)
    requires |id| < WORD
    ensures out == HandshakeFrame(id)
  {
    HandshakeFits(id);
    var o := NewObject(capacity, HANDSHAKE_SIZE);
    var n := if |id| < 60 then |id| else 60;
    AddOctets(o, HANDSHAKE_SIZE, id, n);
    Add(o, HANDSHAKE_SIZE, OctetFields(id, n), Word(60, |id|));
    out := Finish(o, HANDSHAKE_SIZE, HandshakeFields(id), 0);
  }

  /** A framed body gets the opcode in place; any other is wrapped. */
  method EncodeFrameBody(opcode: nat, body: seq<Byte>) returns (out: seq<Byte>)
    requires HEADER_SIZE + ENVELOPE_SIZE + |body| < 0x8000_0000
    ensures out == FrameBody(opcode, body)
  {
    if |body| >= 8 && body[..4] == [0x5a, 0x41, 0x50, 0x00] {
      out := Splice(body, 6, U16(OpcodeFlags(opcode)));
    } else {
      out := EncodeEnvelope(opcode, body);
    }
  }
}
