/** Length-prefixed frames over a byte stream, and where each goes
    (sdk/typescript/src/zap/node.ts). */
module ZapStream {
  import opened Basics
  import opened ZapWire
  import opened Envelope
  import F = ZapFormat

  const MAX_MESSAGE := 10 * 1024 * 1024

  // ----------------------------------------------------------------- deframing

  /** The frames taken off the front, what is left, and whether a length over
      the limit stopped it. */
  datatype Deframed = Deframed(frames: seq<seq<Byte>>, rest: seq<Byte>, dead: bool)

  /** What the front of the buffer holds: not enough yet, a length over the
      limit, or a whole frame. */
  datatype Head = Short | TooLong | Whole(payload: seq<Byte>, rest: seq<Byte>)

  function HeadOf(acc: seq<Byte>): (h: Head)
    ensures h.Whole? ==> |h.rest| < |acc|
  {
    if |acc| < 4 then Short
    else
      var len := Read32(acc, 0);
      if len > MAX_MESSAGE then TooLong
      else if |acc| < 4 + len then Short
      else Whole(acc[4..4 + len], acc[4 + len..])
  }

  function Deframe(acc: seq<Byte>): Deframed
    decreases |acc|
  {
    match HeadOf(acc)
    case Short => Deframed([], acc, false)
    case TooLong => Deframed([], acc, true)
    case Whole(payload, rest) => After([payload], Deframe(rest))
  }

  function After(frames: seq<seq<Byte>>, d: Deframed): Deframed { d.(frames := frames + d.frames) }

  lemma AfterTwice(a: seq<seq<Byte>>, b: seq<seq<Byte>>, d: Deframed)
    ensures After(a, After(b, d)) == After(a + b, d) && After([], d) == d
  {
    assert a + (b + d.frames) == a + b + d.frames && [] + d.frames == d.frames;
  }

  /** The frames seen when the stream arrives in the given chunks. */
  function Stream(chunks: seq<seq<Byte>>): Deframed
  {
    if chunks == [] then Deframed([], [], false)
    else Feed(Stream(chunks[..|chunks| - 1]), chunks[|chunks| - 1])
  }

  function Feed(d: Deframed, chunk: seq<Byte>): Deframed
  {
    if d.dead then d else After(d.frames, Deframe(d.rest + chunk))
  }

  function Join(chunks: seq<seq<Byte>>): seq<Byte>
  {
    if chunks == [] then [] else Join(chunks[..|chunks| - 1]) + chunks[|chunks| - 1]
  }

  function Framed(m: seq<Byte>): seq<Byte>
    requires |m| < WORD
  {
    U32(|m|) + m
  }

  function Wire(ms: seq<seq<Byte>>): seq<Byte>
    requires forall i :: 0 <= i < |ms| ==> |ms[i]| < WORD
  {
    if ms == [] then [] else Framed(ms[0]) + Wire(ms[1..])
  }

  lemma HeadMore(a: seq<Byte>, b: seq<Byte>)
    ensures HeadOf(a).TooLong? ==> HeadOf(a + b).TooLong?
    ensures HeadOf(a).Whole? ==> HeadOf(a + b) == Whole(HeadOf(a).payload, HeadOf(a).rest + b)
  {
    if |a| >= 4 {
      assert SameOn(a, a + b, 0, 4);
      ReadSame(a, a + b, 0);
      var len := Read32(a, 0);
      if |a| >= 4 + len {
        assert (a + b)[4..4 + len] == a[4..4 + len] && (a + b)[4 + len..] == a[4 + len..] + b;
      }
    }
  }

  lemma HeadFramed(m: seq<Byte>, rest: seq<Byte>)
    requires |m| <= MAX_MESSAGE
    ensures HeadOf(Framed(m) + rest) == Whole(m, rest)
  {
    var w, n := Framed(m) + rest, |m|;
    assert w[0..4] == U32(n);
    Limits();
    FromLEInverse(n, 4);
    assert w[4..4 + n] == m && w[4 + n..] == rest;
  }

  /** More bytes only add frames after those already complete. */
  lemma {:induction false} DeframeMore(a: seq<Byte>, b: seq<Byte>)
    ensures var d, e := Deframe(a), Deframe(a + b);
            if d.dead then e.dead && e.frames == d.frames else e == After(d.frames, Deframe(d.rest + b))
    decreases |a|
  {
    HeadMore(a, b);
    match HeadOf(a) {
      case Short => AfterTwice([], [], Deframe(a + b));
      case TooLong =>
      case Whole(payload, rest) =>
        DeframeMore(rest, b);
        AfterTwice([payload], Deframe(rest).frames, Deframe(Deframe(rest).rest + b));
    }
  }

  /** How the stream is cut into chunks makes no difference. */
  lemma {:induction false} ChunksDoNotMatter(chunks: seq<seq<Byte>>)
    ensures var s, d := Stream(chunks), Deframe(Join(chunks));
            s.frames == d.frames && s.dead == d.dead && (!d.dead ==> s.rest == d.rest)
  {
    if chunks != [] {
      var n := |chunks| - 1;
      ChunksDoNotMatter(chunks[..n]);
      DeframeMore(Join(chunks[..n]), chunks[n]);
    }
  }

  lemma {:induction false} DeframeWire(ms: seq<seq<Byte>>)
    requires forall i :: 0 <= i < |ms| ==> |ms[i]| <= MAX_MESSAGE
    ensures Deframe(Wire(ms)) == Deframed(ms, [], false)
  {
    if ms != [] {
      DeframeWire(ms[1..]);
      HeadFramed(ms[0], Wire(ms[1..]));
      assert ms == [ms[0]] + ms[1..];
    }
  }

  /** Frames written one after another and received in any chunks are the frames
      written. */
  lemma {:induction false} StreamRoundTrip(ms: seq<seq<Byte>>, chunks: seq<seq<Byte>>)
    requires forall i :: 0 <= i < |ms| ==> |ms[i]| <= MAX_MESSAGE
    requires Join(chunks) == Wire(ms)
    ensures Stream(chunks) == Deframed(ms, [], false)
  {
    ChunksDoNotMatter(chunks);
    DeframeWire(ms);
  }

  // ------------------------------------------------------------------- routing

  const REQUEST := 1
  const RESPONSE := 2

  /** An answer to a call of ours, a call to answer, or a bare push. */
  datatype Routed = Answer(id: nat, frame: seq<Byte>) | Call(id: nat, frame: seq<Byte>) | Push(frame: seq<Byte>)

  function Route(data: seq<Byte>): Routed
  {
    if |data| >= 8 && Read32(data, 4) == RESPONSE then Answer(Read32(data, 0), data[8..])
    else if |data| >= 8 && Read32(data, 4) == REQUEST then Call(Read32(data, 0), data[8..])
    else Push(data)
  }

  function Correlated(id: nat, flag: nat, frame: seq<Byte>): seq<Byte>
    requires id < WORD && flag < WORD
  {
    U32(id) + U32(flag) + frame
  }

  /** A correlated frame is routed by its flag, under its id, with the frame. */
  lemma CorrelatedRoutes(id: nat, frame: seq<Byte>)
    requires id < WORD
    ensures Route(Correlated(id, REQUEST, frame)) == Call(id, frame)
    ensures Route(Correlated(id, RESPONSE, frame)) == Answer(id, frame)
  {
    CorrelatedReads(id, REQUEST, frame);
    CorrelatedReads(id, RESPONSE, frame);
  }

  lemma CorrelatedReads(id: nat, flag: nat, frame: seq<Byte>)
    requires id < WORD && flag < WORD
    ensures var w := Correlated(id, flag, frame);
            |w| >= 8 && Read32(w, 0) == id && Read32(w, 4) == flag && w[8..] == frame
  {
    var w := Correlated(id, flag, frame);
    assert w[0..4] == U32(id) && w[4..8] == U32(flag);
    Limits();
    FromLEInverse(id, 4);
    FromLEInverse(flag, 4);
  }

  /** Where any bytes go: with 2 in the second word an answer, with 1 a call, under
      the number in the first; anything else is a push. */
  lemma RouteLaw(data: seq<Byte>)
    ensures |data| >= 8 && data[4..8] == [2, 0, 0, 0] ==> Route(data) == Answer(F.Number32(data, 0), data[8..])
    ensures |data| >= 8 && data[4..8] == [1, 0, 0, 0] ==> Route(data) == Call(F.Number32(data, 0), data[8..])
    ensures |data| < 8 || data[4..8] !in {[1, 0, 0, 0], [2, 0, 0, 0]} ==> Route(data) == Push(data)
  {
    if |data| >= 8 {
      F.ReadNumber(data, 0);
      F.ReadNumber(data, 4);
      assert data[4..8] == [data[4], data[5], data[6], data[7]];
    }
  }

  /** What the front of any buffer holds: a length in four bytes, over ten mebibytes
      or not, and a frame when that many bytes follow. */
  lemma HeadLaw(acc: seq<Byte>)
    ensures HeadOf(acc).TooLong? <==> |acc| >= 4 && F.Number32(acc, 0) > 10_485_760
    ensures HeadOf(acc).Whole? <==> |acc| >= 4 && F.Number32(acc, 0) <= 10_485_760 && 4 + F.Number32(acc, 0) <= |acc|
    ensures HeadOf(acc).Whole? ==>
              HeadOf(acc).payload == acc[4..4 + F.Number32(acc, 0)] && HeadOf(acc).rest == acc[4 + F.Number32(acc, 0)..]
  {
    if |acc| >= 4 { F.ReadNumber(acc, 0); }
  }

  /** The second word of a message is its version and its flags. */
  lemma SecondWord(m: seq<Byte>)
    requires |m| >= 8
    ensures Read32(m, 4) == Read16(m, 4) + 65536 * Read16(m, 6)
  {
    var s := m[4..8];
    assert s[1..] == m[5..8] && m[5..8][1..] == m[6..8] && m[6..8][1..] == m[7..8] && m[7..8][1..] == [];
    assert m[4..6][1..] == m[5..6] && m[5..6][1..] == [];
    assert FromLE(m[5..6]) == m[5];
    assert FromLE(m[4..6]) == m[4] as int + 256 * m[5] as int;
    assert FromLE(m[6..8]) == m[6] as int + 256 * FromLE(m[7..8]);
    assert FromLE(m[5..8]) == m[5] as int + 256 * FromLE(m[6..8]);
  }

  /** A bare message is routed as a push exactly when its flags are not zero;
      with zero flags its version reads as the mark of a call or an answer. */
  lemma BareIff(m: seq<Byte>)
    requires Parse(m).Some?
    ensures Route(m) == Push(m) <==> Flags(m) != 0
  {
    SecondWord(m);
  }

  /** A pushed envelope reaches the push handlers unless its opcode byte is zero. */
  lemma EnvelopePushIff(opcode: nat, body: seq<Byte>, status: nat, detail: seq<Byte>)
    requires status < WORD && HEADER_SIZE + ENVELOPE_SIZE + |body| + |detail| < 0x8000_0000
    ensures var m := EnvelopeFrame(opcode, body, status, detail); Route(m) == Push(m) <==> opcode % 256 != 0
  {
    EnvelopeFits(body, status, detail);
    BuiltParses(OpcodeFlags(opcode), ENVELOPE_SIZE, EnvelopeFields(body, status, detail));
    BareIff(EnvelopeFrame(opcode, body, status, detail));
  }

  function RouteAll(frames: seq<seq<Byte>>): seq<Routed>
  {
    seq(|frames|, i requires 0 <= i < |frames| => Route(frames[i]))
  }

  /** What a peer id is set to by the first frame. */
  function PeerOf(frame: seq<Byte>): seq<nat>
  {
    match DecodePeer(frame) case None => [] case Some(id) => id
  }

  // ---------------------------------------------------------------------- node

  class ZapNode {
    var acc: seq<Byte>
    var handshakeDone: bool
    var peerId: seq<nat>
    var destroyed: bool
    var routed: seq<Routed>
    ghost var frames: seq<seq<Byte>>

    /** The first frame was the handshake and the others were routed in order. */
    ghost predicate Valid()
      reads this
    {
      && handshakeDone == (frames != [])
      && routed == (if frames == [] then [] else RouteAll(frames[1..]))
      && peerId == if frames == [] then [] else PeerOf(frames[0])
    }

    ghost function Now(): Deframed
      reads this
    {
      Deframed(frames, acc, destroyed)
    }

    constructor ()
      ensures Valid() && Now() == Stream([])
    {
      acc, handshakeDone, peerId, destroyed, routed := [], false, [], false, [];
      frames := [];
    }

    /** One complete frame: the handshake, or one to route. */
    method OnFrame(payload: seq<Byte>)
      requires Valid()
      modifies this`handshakeDone, this`peerId, this`routed, this`frames
      ensures Valid() && frames == old(frames) + [payload]
    {
      frames := frames + [payload];
      if !handshakeDone {
        handshakeDone := true;
        peerId := PeerOf(payload);
      } else {
        routed := routed + [Route(payload)];
      }
    }

    /** One round of the loop: a frame taken, or a reason to stop. */
    method TakeFrame() returns (more: bool)
      requires Valid() && !destroyed
      modifies this
      ensures Valid()
      ensures match HeadOf(old(acc))
              case Short => !more && Now() == old(Now())
              case TooLong => !more && Now() == old(Now()).(dead := true)
              case Whole(payload, rest) => more && Now() == Deframed(old(frames) + [payload], rest, false)
    {
      more := false;
      if |acc| < 4 { return; }
      var len := Read32(acc, 0);
      if len > MAX_MESSAGE {
        destroyed := true;
        return;
      }
      if |acc| < 4 + len { return; }
      var payload := acc[4..4 + len];
      acc := acc[4 + len..];
      OnFrame(payload);
      more := true;
    }

    /** Data from the socket; none arrives once it is destroyed. */
    method OnData(chunk: seq<Byte>)
      requires Valid() && !destroyed
      modifies this
      ensures Valid() && Now() == Feed(old(Now()), chunk)
    {
      acc := if |acc| == 0 then chunk else acc + chunk;
      assert acc == old(acc) + chunk;
      ghost var goal := After(frames, Deframe(acc));
      assert frames + [] == frames;
      var more := true;
      while more
        invariant Valid() && (more ==> !destroyed && goal == After(frames, Deframe(acc))) && (!more ==> goal == Now())
        decreases |acc|, more
      {
        ghost var head := HeadOf(acc);
        if head.Whole? {
          AfterTwice(frames, [head.payload], Deframe(head.rest));
        } else {
          assert frames + [] == frames;
        }
        more := TakeFrame();
      }
    }

    /** Chunks in turn, until one makes the node destroy the socket. */
    method OnChunks(chunks: seq<seq<Byte>>)
      requires Valid() && Now() == Stream([])
      modifies this
      ensures Valid() && Now() == Stream(chunks)
    {
      for i := 0 to |chunks|
        invariant Valid() && Now() == Stream(chunks[..i])
      {
        assert chunks[..i + 1][..i] == chunks[..i];
        if !destroyed { OnData(chunks[i]); }
      }
      assert chunks[..|chunks|] == chunks;
    }
  }

  /** A correlated frame as it arrives: alone, routed by its flag under its id.
      One over the limit is refused whole by the node it is sent to. */
  method WriteCorrelated(id: nat, flag: nat, frame: seq<Byte>) returns (out: seq<Byte>)
    requires id < WORD && flag < WORD && 8 + |frame| < WORD
    ensures out == F.Bytes32(8 + |frame|) + F.Bytes32(id) + F.Bytes32(flag) + frame
    ensures 8 + |frame| > 10_485_760 ==> Deframe(out).dead && Deframe(out).frames == []
    ensures 8 + |frame| <= 10_485_760 ==>
              var d := Deframe(out);
              && |d.frames| == 1 && d.rest == [] && !d.dead
              && (flag == 1 ==> Route(d.frames[0]) == Call(id, frame))
              && (flag == 2 ==> Route(d.frames[0]) == Answer(id, frame))
  {
    var wrapped := U32(id) + U32(flag) + frame;
    out := U32(|wrapped|) + wrapped;
    WrittenBytes(id, flag, frame);
    WrittenDeframes(Correlated(id, flag, frame));
    CorrelatedRoutes(id, frame);
  }

  lemma WrittenBytes(id: nat, flag: nat, frame: seq<Byte>)
    requires id < WORD && flag < WORD && 8 + |frame| < WORD
    ensures U32(8 + |frame|) + Correlated(id, flag, frame) ==
            F.Bytes32(8 + |frame|) + F.Bytes32(id) + F.Bytes32(flag) + frame
  {
    F.WordBytes(id);
    F.WordBytes(flag);
    F.WordBytes(8 + |frame|);
  }

  lemma WrittenDeframes(m: seq<Byte>)
    requires |m| < WORD
    ensures Deframe(Framed(m)) == if |m| <= MAX_MESSAGE then Deframed([m], [], false) else Deframed([], Framed(m), true)
  {
    if |m| <= MAX_MESSAGE {
      HeadFramed(m, []);
      assert Framed(m) + [] == Framed(m);
      assert [m] + [] == [m];
    } else {
      assert Framed(m)[0..4] == U32(|m|);
      Limits();
      FromLEInverse(|m|, 4);
    }
  }
}
