/** The frames exchanged with the server: JSON envelopes, field objects and the
    handshake (sdk/typescript/src/zap/envelope.ts, node.ts). */
module Envelope {
  import opened Basics
  import opened ZapWire

  const ENVELOPE_SIZE := 24
  const FIELD_SIZE := 32
  const HANDSHAKE_SIZE := 64

  /** The opcode byte in the high half of the flags. */
  function OpcodeFlags(opcode: nat): (f: nat)
    ensures f < 0x1_0000 && f / 256 == opcode % 256
  {
    opcode % 256 * 256
  }

  // ---------------------------------------------------------------- envelopes

  function EnvelopeFields(body: seq<Byte>, status: nat, detail: seq<Byte>): seq<Field>
  {
    [Blob(0, body)] + (if status != 0 then [Word(8, status)] else [])
        + (if detail != [] then [Blob(12, detail)] else [])
  }

  ghost function EnvelopeFrame(opcode: nat, body: seq<Byte>, status: nat, detail: seq<Byte>): (m: seq<Byte>)
    requires status < WORD && HEADER_SIZE + ENVELOPE_SIZE + |body| + |detail| < 0x8000_0000
    ensures |m| == HEADER_SIZE + ENVELOPE_SIZE + |body| + |detail|
  {
    EnvelopeFits(body, status, detail);
    Built(OpcodeFlags(opcode), ENVELOPE_SIZE, EnvelopeFields(body, status, detail))
  }

  datatype Decoded = Decoded(status: nat, detail: seq<Byte>, body: seq<Byte>)

  function DecodeEnvelope(frame: seq<Byte>): Option<Decoded>
  {
    match Parse(frame)
    case None => None
    case Some(m) =>
      if |m| < 12 then None
      else Some(Decoded(WordAt(m, Root(m), 8), BytesAt(m, Root(m), 12), BytesAt(m, Root(m), 0)))
  }

  lemma {:induction false} BlobsSnoc(fs: seq<Field>, f: Field)
    ensures Blobs(fs + [f]) == if f.Blob? && f.data != [] then Blobs(fs) + [f] else Blobs(fs)
    ensures Total(Blobs(fs + [f])) == Total(Blobs(fs)) + if f.Blob? then |f.data| else 0
  {
    assert (fs + [f])[..|fs|] == fs;
    if f.Blob? && f.data != [] { assert (Blobs(fs) + [f])[..|Blobs(fs)|] == Blobs(fs); }
  }

  lemma EnvelopeTotal(body: seq<Byte>, status: nat, detail: seq<Byte>)
    ensures Total(Blobs(EnvelopeFields(body, status, detail))) == |body| + |detail|
  {
    var a := [Blob(0, body)];
    OneBlob(Blob(0, body));
    var b := a + (if status != 0 then [Word(8, status)] else []);
    assert Total(Blobs(b)) == |body| by {
      if status != 0 { BlobsSnoc(a, Word(8, status)); } else { assert b == a; }
    }
    if detail != [] {
      BlobsSnoc(b, Blob(12, detail));
    } else {
      assert b + [] == b;
    }
  }

  lemma OneBlob(f: Field)
    requires f.Blob?
    ensures Total(Blobs([f])) == |f.data|
  {
    BlobsSnoc([], f);
    assert [] + [f] == [f];
  }

  lemma EnvelopeLayout(body: seq<Byte>, status: nat, detail: seq<Byte>)
    requires status < WORD && |body| < 0x8000_0000 && |detail| < 0x8000_0000
    ensures Layout(ENVELOPE_SIZE, EnvelopeFields(body, status, detail))
  {
  }

  lemma EnvelopeFits(body: seq<Byte>, status: nat, detail: seq<Byte>)
    requires status < WORD && HEADER_SIZE + ENVELOPE_SIZE + |body| + |detail| < 0x8000_0000
    ensures Fits(ENVELOPE_SIZE, EnvelopeFields(body, status, detail))
    ensures Total(Blobs(EnvelopeFields(body, status, detail))) == |body| + |detail|
  {
    EnvelopeTotal(body, status, detail);
    EnvelopeLayout(body, status, detail);
  }

  /** Decoding a built envelope gives back body, status and error detail, and its
      flags the opcode byte. */
  lemma EnvelopeRoundTrip(opcode: nat, body: seq<Byte>, status: nat, detail: seq<Byte>)
    requires status < WORD && HEADER_SIZE + ENVELOPE_SIZE + |body| + |detail| < 0x8000_0000
    ensures DecodeEnvelope(EnvelopeFrame(opcode, body, status, detail)) == Some(Decoded(status, detail, body))
    ensures Opcode(EnvelopeFrame(opcode, body, status, detail)) == opcode % 256
  {
    var fs, flags := EnvelopeFields(body, status, detail), OpcodeFlags(opcode);
    var m := EnvelopeFrame(opcode, body, status, detail);
    EnvelopeFits(body, status, detail);
    BuiltParses(flags, ENVELOPE_SIZE, fs);
    EnvelopeBody(flags, body, status, detail);
    EnvelopeStatus(flags, body, status, detail);
    EnvelopeDetail(flags, body, status, detail);
  }

  lemma EnvelopeBody(flags: nat, body: seq<Byte>, status: nat, detail: seq<Byte>)
    requires flags < 0x1_0000 && Fits(ENVELOPE_SIZE, EnvelopeFields(body, status, detail))
    ensures BytesAt(Built(flags, ENVELOPE_SIZE, EnvelopeFields(body, status, detail)), HEADER_SIZE, 0) == body
  {
    var fs := EnvelopeFields(body, status, detail);
    assert fs[0] == Blob(0, body);
    BuiltReads(flags, ENVELOPE_SIZE, fs, 0);
  }

  lemma EnvelopeStatus(flags: nat, body: seq<Byte>, status: nat, detail: seq<Byte>)
    requires flags < 0x1_0000 && Fits(ENVELOPE_SIZE, EnvelopeFields(body, status, detail))
    ensures WordAt(Built(flags, ENVELOPE_SIZE, EnvelopeFields(body, status, detail)), HEADER_SIZE, 8) == status
  {
    var fs := EnvelopeFields(body, status, detail);
    if status != 0 {
      assert fs[1] == Word(8, status);
      BuiltReads(flags, ENVELOPE_SIZE, fs, 1);
    } else {
      UnsetWordIsZero(flags, ENVELOPE_SIZE, fs, 8);
    }
  }

  lemma EnvelopeDetail(flags: nat, body: seq<Byte>, status: nat, detail: seq<Byte>)
    requires flags < 0x1_0000 && Fits(ENVELOPE_SIZE, EnvelopeFields(body, status, detail))
    ensures BytesAt(Built(flags, ENVELOPE_SIZE, EnvelopeFields(body, status, detail)), HEADER_SIZE, 12) == detail
  {
    var fs := EnvelopeFields(body, status, detail);
    if detail != [] {
      assert fs[|fs| - 1] == Blob(12, detail);
      BuiltReads(flags, ENVELOPE_SIZE, fs, |fs| - 1);
    } else {
      UnsetWordIsZero(flags, ENVELOPE_SIZE, fs, 12);
      NoBytes(Built(flags, ENVELOPE_SIZE, fs), HEADER_SIZE, 12);
    }
  }

  lemma NoBytes(m: seq<Byte>, root: nat, off: nat)
    requires WordAt(m, root, off) == 0
    ensures BytesAt(m, root, off) == []
  {
  }

  // ------------------------------------------------------------ field objects

  function TokenFields(token: seq<Byte>, payload: seq<Byte>): seq<Field> { [Blob(0, token), Blob(8, payload)] }

  ghost function FieldFrame(token: seq<Byte>, payload: seq<Byte>): (m: seq<Byte>)
    requires HEADER_SIZE + FIELD_SIZE + |token| + |payload| < 0x8000_0000
    ensures |m| == HEADER_SIZE + FIELD_SIZE + |token| + |payload|
  {
    TokenFits(token, payload);
    Built(0, FIELD_SIZE, TokenFields(token, payload))
  }

  datatype FieldObject = FieldObject(token: seq<Byte>, payload: seq<Byte>)

  function DecodeFieldObject(frame: seq<Byte>): Option<FieldObject>
  {
    match Parse(frame)
    case None => None
    case Some(m) => if |m| < 12 then None else Some(FieldObject(BytesAt(m, Root(m), 0), BytesAt(m, Root(m), 8)))
  }

  lemma TokenTotal(token: seq<Byte>, payload: seq<Byte>)
    ensures Total(Blobs(TokenFields(token, payload))) == |token| + |payload|
  {
    OneBlob(Blob(0, token));
    BlobsSnoc([Blob(0, token)], Blob(8, payload));
    assert [Blob(0, token)] + [Blob(8, payload)] == TokenFields(token, payload);
  }

  lemma TokenFits(token: seq<Byte>, payload: seq<Byte>)
    requires HEADER_SIZE + FIELD_SIZE + |token| + |payload| < 0x8000_0000
    ensures Fits(FIELD_SIZE, TokenFields(token, payload))
            && Total(Blobs(TokenFields(token, payload))) == |token| + |payload|
  {
    TokenTotal(token, payload);
    TokenLayout(token, payload);
  }

  lemma TokenLayout(token: seq<Byte>, payload: seq<Byte>)
    requires |token| < 0x8000_0000 && |payload| < 0x8000_0000
    ensures Layout(FIELD_SIZE, TokenFields(token, payload))
  {
  }

  lemma FieldObjectReads(flags: nat, token: seq<Byte>, payload: seq<Byte>)
    requires flags < 0x1_0000 && HEADER_SIZE + FIELD_SIZE + |token| + |payload| < 0x8000_0000
    ensures Fits(FIELD_SIZE, TokenFields(token, payload))
    ensures var m := Built(flags, FIELD_SIZE, TokenFields(token, payload));
            DecodeFieldObject(m) == Some(FieldObject(token, payload)) && Flags(m) == flags
  {
    TokenFits(token, payload);
    var fs := TokenFields(token, payload);
    BuiltParses(flags, FIELD_SIZE, fs);
    BuiltReads(flags, FIELD_SIZE, fs, 0);
    BuiltReads(flags, FIELD_SIZE, fs, 1);
  }

  // --------------------------------------------------------------- frame body

  /** A body that is a frame already is only given the opcode; any other body is
      wrapped in an envelope. */
  ghost function FrameBody(opcode: nat, body: seq<Byte>): seq<Byte>
    requires HEADER_SIZE + ENVELOPE_SIZE + |body| < 0x8000_0000
  {
    if |body| >= 8 && body[..4] == HEADER[..4] then Splice(body, 6, U16(OpcodeFlags(opcode)))
    else EnvelopeFrame(opcode, body, 0, [])
  }

  /** Giving a finished message other flags is building it with them. */
  lemma Restamped(flags: nat, flags': nat, size: nat, fs: seq<Field>)
    requires Fits(size, fs) && flags < 0x1_0000 && flags' < 0x1_0000
    ensures Splice(Built(flags, size, fs), 6, U16(flags')) == Built(flags', size, fs)
  {
    RestampedHeader(Body(size, fs), flags, flags', HEADER_SIZE);
  }

  lemma RestampedHeader(s: seq<Byte>, flags: nat, flags': nat, root: nat)
    requires HEADER_SIZE <= |s| < WORD && flags < 0x1_0000 && flags' < 0x1_0000 && root < WORD
    ensures Splice(Stamp(s, flags, root), 6, U16(flags')) == Stamp(s, flags', root)
  {
  }

  /** A body that does not start as a frame comes back from its envelope, and a
      field object comes back with token and payload; both under the opcode. */
  lemma FrameBodyRoundTrip(opcode: nat, body: seq<Byte>)
    requires HEADER_SIZE + ENVELOPE_SIZE + |body| < 0x8000_0000 && !(|body| >= 8 && body[..4] == HEADER[..4])
    ensures DecodeEnvelope(FrameBody(opcode, body)) == Some(Decoded(0, [], body))
    ensures |FrameBody(opcode, body)| >= 8 && Opcode(FrameBody(opcode, body)) == opcode % 256
  {
    EnvelopeRoundTrip(opcode, body, 0, []);
  }

  lemma FrameBodyKeepsFields(opcode: nat, token: seq<Byte>, payload: seq<Byte>)
    requires HEADER_SIZE + FIELD_SIZE + |token| + |payload| + 40 < 0x8000_0000
    ensures var m := FrameBody(opcode, FieldFrame(token, payload));
            DecodeFieldObject(m) == Some(FieldObject(token, payload)) && |m| >= 8 && Opcode(m) == opcode % 256
  {
    TokenFits(token, payload);
    BuiltParses(0, FIELD_SIZE, TokenFields(token, payload));
    ParsedStarts(FieldFrame(token, payload));
    Restamped(0, OpcodeFlags(opcode), FIELD_SIZE, TokenFields(token, payload));
    FieldObjectReads(OpcodeFlags(opcode), token, payload);
  }

  lemma ParsedStarts(m: seq<Byte>)
    requires Parse(m).Some?
    ensures |m| >= 8 && m[..4] == HEADER[..4]
  {
  }

  // ---------------------------------------------------------------- handshake

  function Least(a: nat, b: nat): nat { if a < b then a else b }

  /** The first sixty bytes of the node id, one field each, and its length. */
  function HandshakeFields(id: seq<Byte>): seq<Field>
    requires |id| < WORD
  {
    OctetFields(id, Least(|id|, 60)) + [Word(60, |id|)]
  }

  function OctetFields(id: seq<Byte>, n: nat): (fs: seq<Field>)
    requires n <= |id|
    ensures |fs| == n && forall i :: 0 <= i < n ==> fs[i] == Octet(i, id[i])
  {
    seq(n, i requires 0 <= i < n => Octet(i, id[i]))
  }

  ghost function HandshakeFrame(id: seq<Byte>): seq<Byte>
    requires |id| < WORD
  {
    HandshakeFits(id);
    Built(0, HANDSHAKE_SIZE, HandshakeFields(id))
  }

  function Octets(m: seq<Byte>, root: nat, n: nat): seq<nat>
  {
    seq(n, i requires 0 <= i < n => OctetAt(m, root, i))
  }

  /** The peer's id, or nothing when the length is out of range. */
  function DecodePeer(frame: seq<Byte>): Option<seq<nat>>
  {
    match Parse(frame)
    case None => None
    case Some(m) =>
      if |m| < 12 then None
      else
        var n := WordAt(m, Root(m), 60);
        Some(if n == 0 || n > 60 then [] else Octets(m, Root(m), n))
  }

  lemma {:induction false} NoBlobs(fs: seq<Field>)
    requires forall i :: 0 <= i < |fs| ==> !fs[i].Blob?
    ensures Blobs(fs) == []
  {
    if fs != [] { NoBlobs(fs[..|fs| - 1]); }
  }

  lemma HandshakeFits(id: seq<Byte>)
    requires |id| < WORD
    ensures Fits(HANDSHAKE_SIZE, HandshakeFields(id))
  {
    NoBlobs(HandshakeFields(id));
  }

  /** The handshake carries the node id exactly when it has at most sixty bytes;
      a longer one is read as no id at all. */
  lemma HandshakeRoundTrip(id: seq<Byte>)
    requires |id| < WORD
    ensures DecodePeer(HandshakeFrame(id)) == Some(if |id| <= 60 then id else [])
    ensures DecodePeer(HandshakeFrame(id)) == Some(id) <==> |id| <= 60
  {
    HandshakeFits(id);
    var fs := HandshakeFields(id);
    var m := HandshakeFrame(id);
    BuiltParses(0, HANDSHAKE_SIZE, fs);
    BuiltReads(0, HANDSHAKE_SIZE, fs, |fs| - 1);
    assert fs[|fs| - 1] == Word(60, |id|);
    if |id| <= 60 { HandshakeOctets(id); }
  }

  lemma HandshakeOctets(id: seq<Byte>)
    requires |id| <= 60
    ensures Octets(HandshakeFrame(id), HEADER_SIZE, |id|) == id
  {
    forall i | 0 <= i < |id| ensures OctetAt(HandshakeFrame(id), HEADER_SIZE, i) == id[i] {
      HandshakeOctet(id, i);
    }
  }

  lemma HandshakeOctet(id: seq<Byte>, i: nat)
    requires i < |id| <= 60
    ensures OctetAt(HandshakeFrame(id), HEADER_SIZE, i) == id[i]
  {
    HandshakeFits(id);
    var fs := HandshakeFields(id);
    assert fs[i] == Octet(i, id[i]);
    BuiltReads(0, HANDSHAKE_SIZE, fs, i);
  }
}
