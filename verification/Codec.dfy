/** Length-prefixed frames over a byte stream. */
module Codec {
  import opened Basics
  import opened Bytes

  const MAX_FRAME_LEN: u32 := 65536

  /** The width of the length field. */
  const PREFIX: nat := 4

  datatype Frame = Frame(messageType: byte, payload: seq<byte>)

  datatype Error = ZeroLength | TooLarge

  /** What one attempt to decode finds at the front of a buffer. */
  datatype Decoded = NeedMore | Bad(error: Error) | Got(frame: Frame, rest: seq<byte>)

  function PutU32(n: u32): (bytes: seq<byte>)
    ensures |bytes| == 4
  {
    ToBytes(n, PREFIX)
  }

  function GetU32(bytes: seq<byte>): (n: u32)
    requires |bytes| >= 4
  {
    Widths();
    FromBytesBound(bytes[..4]);
    FromBytes(bytes[..4])
  }

  /** The length field wraps like the 32-bit addition that computes it. */
  function EncodeFrame(frame: Frame): seq<byte> {
    PutU32(Wrap32(1 + Wrap32(|frame.payload|))) + [frame.messageType] + frame.payload
  }

  function Decode(buf: seq<byte>): Decoded {
    if |buf| < 4 then NeedMore
    else
      var len := GetU32(buf);
      if len == 0 then Bad(ZeroLength)
      else if len > MAX_FRAME_LEN then Bad(TooLarge)
      else if |buf| < 4 + len then NeedMore
      else Got(Frame(buf[4], buf[5..4 + len]), buf[4 + len..])
  }

  /** A growable buffer that is consumed from the front. */
  class ByteBuffer {
    var bytes: seq<byte>

    constructor ()
      ensures bytes == []
    {
      bytes := [];
    }

    method Extend(more: seq<byte>)
      modifies this
      ensures bytes == old(bytes) + more
    {
      bytes := bytes + more;
    }

    method Advance(n: nat)
      requires n <= |bytes|
      modifies this
      ensures bytes == old(bytes)[n..]
    {
      bytes := bytes[n..];
    }

    method Clear()
      modifies this
      ensures bytes == []
    {
      bytes := [];
    }
  }

  /** Decode in place: the buffer moves past the frame, and stays as it is otherwise. */
  method DecodeFrame(buf: ByteBuffer) returns (r: Result<Option<Frame>, Error>)
    modifies buf
    ensures match Decode(old(buf.bytes))
            case NeedMore => r == Ok(None) && buf.bytes == old(buf.bytes)
            case Bad(e) => r == Err(e) && buf.bytes == old(buf.bytes)
            case Got(frame, rest) => r == Ok(Some(frame)) && buf.bytes == rest
  {
    if |buf.bytes| < 4 {
      return Ok(None);
    }
    var len := GetU32(buf.bytes);
    if len == 0 {
      return Err(ZeroLength);
    }
    if len > MAX_FRAME_LEN {
      return Err(TooLarge);
    }
    var total := 4 + len;
    if |buf.bytes| < total {
      return Ok(None);
    }
    buf.Advance(4);
    var messageType := buf.bytes[0];
    buf.Advance(1);
    var payloadLen := len - 1;
    var payload := buf.bytes[..payloadLen];
    assert payload == old(buf.bytes)[5..total];
    buf.Advance(payloadLen);
    r := Ok(Some(Frame(messageType, payload)));
  }

  // ---------------------------------------------------------------------------
  // One frame

  lemma GetPut(n: u32, rest: seq<byte>)
    ensures GetU32(PutU32(n) + rest) == n
  {
    Widths();
    FromTo(n, PREFIX);
    assert (PutU32(n) + rest)[..4] == PutU32(n);
  }

  lemma PutGet(bytes: seq<byte>)
    requires |bytes| >= 4
    ensures PutU32(GetU32(bytes)) == bytes[..4]
  {
    ToFrom(bytes[..4]);
  }

  lemma GetPrefix(a: seq<byte>, b: seq<byte>)
    requires |a| >= 4
    ensures GetU32(a + b) == GetU32(a)
  {
    assert (a + b)[..4] == a[..4];
  }

  lemma NoWrap(frame: Frame)
    requires |frame.payload| < MAX_FRAME_LEN
    ensures EncodeFrame(frame) == PutU32(1 + |frame.payload|) + [frame.messageType] + frame.payload
  {
    assert Wrap32(|frame.payload|) == |frame.payload|;
    assert Wrap32(1 + |frame.payload|) == 1 + |frame.payload|;
  }

  /** A frame survives encoding and decoding, with whatever follows it left over, exactly
      when its payload has at most 65535 bytes. */
  lemma RoundTripIff(frame: Frame, rest: seq<byte>)
    ensures Decode(EncodeFrame(frame) + rest) == Got(frame, rest) <==> |frame.payload| < MAX_FRAME_LEN
  {
    if |frame.payload| < MAX_FRAME_LEN {
      var len := 1 + |frame.payload|;
      var wire := EncodeFrame(frame) + rest;
      NoWrap(frame);
      assert wire == PutU32(len) + ([frame.messageType] + frame.payload + rest);
      GetPut(len, [frame.messageType] + frame.payload + rest);
      CutBack(PutU32(len), frame.messageType, frame.payload, rest);
    }
  }

  lemma CutBack(prefix: seq<byte>, tag: byte, payload: seq<byte>, rest: seq<byte>)
    requires |prefix| == 4
    ensures var wire := prefix + [tag] + payload + rest;
      wire[4] == tag && wire[5..5 + |payload|] == payload && wire[5 + |payload|..] == rest
  {
  }

  /** Every frame accepted, from any bytes at all, encodes to exactly the bytes consumed,
      and those are at least five. */
  lemma AcceptedReencodes(buf: seq<byte>)
    requires Decode(buf).Got?
    ensures buf == EncodeFrame(Decode(buf).frame) + Decode(buf).rest
    ensures |Decode(buf).rest| + 5 <= |buf|
  {
    PutGet(buf);
    NoWrap(Decode(buf).frame);
    FourPieces(buf, GetU32(buf));
  }

  lemma FourPieces(buf: seq<byte>, len: nat)
    requires 1 <= len && 4 + len <= |buf|
    ensures buf == buf[..4] + [buf[4]] + buf[5..4 + len] + buf[4 + len..]
  {
  }

  lemma CutInBody(prefix: seq<byte>, tag: byte, payload: seq<byte>, k: nat)
    requires |prefix| == 4 <= k <= 5 + |payload|
    ensures (prefix + [tag] + payload)[..k] == prefix + ([tag] + payload)[..k - 4]
  {
  }

  /** A proper prefix of a frame is neither a frame nor an error. */
  lemma ProperPrefixWaits(frame: Frame, k: nat)
    requires |frame.payload| < MAX_FRAME_LEN && k < |EncodeFrame(frame)|
    ensures Decode(EncodeFrame(frame)[..k]) == NeedMore
  {
    if k >= 4 {
      var len := 1 + |frame.payload|;
      var body := [frame.messageType] + frame.payload;
      NoWrap(frame);
      CutInBody(PutU32(len), frame.messageType, frame.payload, k);
      GetPut(len, body[..k - 4]);
    }
  }

  /** Later bytes never change a decision already made. */
  lemma DecisionStands(a: seq<byte>, b: seq<byte>)
    ensures Decode(a).Bad? ==> Decode(a + b) == Decode(a)
    ensures Decode(a).Got? ==> Decode(a + b) == Got(Decode(a).frame, Decode(a).rest + b)
  {
    if |a| >= 4 {
      GetPrefix(a, b);
      if Decode(a).Got? {
        var len := GetU32(a);
        assert (a + b)[5..4 + len] == a[5..4 + len];
        assert (a + b)[4 + len..] == a[4 + len..] + b;
      }
    }
  }

  // ---------------------------------------------------------------------------
  // Streams

  /** The frames at the front of a buffer, what is left, and the error it stopped at. */
  datatype Drained = Drained(frames: seq<Frame>, rest: seq<byte>, error: Option<Error>)

  function Drain(buf: seq<byte>): Drained {
    match Decode(buf)
    case NeedMore => Drained([], buf, None)
    case Bad(e) => Drained([], buf, Some(e))
    case Got(frame, rest) =>
      var d := Drain(rest);
      Drained([frame] + d.frames, d.rest, d.error)
  }

  /** Feed a chunk to a stream decoded so far; once in error it stays there. */
  function Feed(d: Drained, chunk: seq<byte>): Drained {
    var e := Drain(d.rest + chunk);
    Drained(d.frames + e.frames, e.rest, e.error)
  }

  function FeedAll(d: Drained, chunks: seq<seq<byte>>): Drained
    decreases |chunks|
  {
    if chunks == [] then d else FeedAll(Feed(d, chunks[0]), chunks[1..])
  }

  function Concat(chunks: seq<seq<byte>>): seq<byte> {
    if chunks == [] then [] else chunks[0] + Concat(chunks[1..])
  }

  function EncodeAll(frames: seq<Frame>): seq<byte> {
    if frames == [] then [] else EncodeFrame(frames[0]) + EncodeAll(frames[1..])
  }

  /** Decoding in two instalments is decoding at once. */
  lemma {:induction false} DrainInTwo(a: seq<byte>, b: seq<byte>)
    ensures Drain(a + b) == Feed(Drain(a), b)
    decreases |a|
  {
    DecisionStands(a, b);
    match Decode(a)
    case NeedMore =>
    case Bad(_) =>
    case Got(frame, rest) =>
      DrainInTwo(rest, b);
      var d := Drain(rest);
      assert [frame] + (d.frames + Drain(d.rest + b).frames) == ([frame] + d.frames) + Drain(d.rest + b).frames;
  }

  lemma Associate(a: seq<byte>, b: seq<byte>, c: seq<byte>)
    ensures a + (b + c) == (a + b) + c
  {
  }

  /** The length field, most significant byte first. */
  function Length(buf: seq<byte>): nat
    requires |buf| >= 4
  {
    0x100_0000 * buf[0] as int + 0x1_0000 * buf[1] as int + 0x100 * buf[2] as int + buf[3] as int
  }

  lemma LengthIs(buf: seq<byte>)
    requires |buf| >= 4
    ensures GetU32(buf) == Length(buf)
  {
    var b := buf[..4];
    assert b[..3][..2][..1][..0] == [];
    assert b[..3][..2][..1] == b[..1] && b[..3][..2] == b[..2];
    assert FromBytes(b[..1]) == buf[0];
    assert FromBytes(b[..2]) == 0x100 * buf[0] as int + buf[1] as int;
    assert FromBytes(b[..3]) == 0x1_0000 * buf[0] as int + 0x100 * buf[1] as int + buf[2] as int;
  }

  /** What decoding finds, of any buffer whatever. */
  lemma DecodeExactly(buf: seq<byte>)
    ensures |buf| < 4 ==> Decode(buf) == NeedMore
    ensures |buf| >= 4 ==>
      var len := Length(buf);
      Decode(buf)
      == if len == 0 then Bad(ZeroLength)
         else if len > 65536 then Bad(TooLarge)
         else if |buf| < 4 + len then NeedMore
         else Got(Frame(buf[4], buf[5..4 + len]), buf[4 + len..])
  {
    if |buf| >= 4 {
      LengthIs(buf);
    }
  }

  /** An encoded frame is its length, its type and its payload, in this order. */
  lemma EncodeExactly(frame: Frame)
    requires |frame.payload| < 0xFFFF_FFFF
    ensures var e := EncodeFrame(frame);
      && |e| == 5 + |frame.payload| && Length(e) == 1 + |frame.payload|
      && e[4] == frame.messageType && e[5..] == frame.payload
  {
    var n, rest := 1 + |frame.payload|, [frame.messageType] + frame.payload;
    WrapNothing(|frame.payload|);
    assert EncodeFrame(frame) == PutU32(n) + rest;
    LengthIs(PutU32(n) + rest);
    GetPut(n, rest);
  }

  lemma WrapNothing(n: nat)
    requires n < 0xFFFF_FFFF
    ensures Wrap32(1 + Wrap32(n)) == 1 + n
  {
  }

  /** The frames, the rest and the error do not depend on how the stream is cut. */
  lemma {:induction false} CutsDoNotMatter(sofar: seq<byte>, chunks: seq<seq<byte>>)
    ensures FeedAll(Drain(sofar), chunks) == Drain(sofar + Concat(chunks))
    decreases |chunks|
  {
    if chunks == [] {
      assert sofar + Concat(chunks) == sofar;
    } else {
      var more := sofar + chunks[0];
      DrainInTwo(sofar, chunks[0]);
      CutsDoNotMatter(more, chunks[1..]);
      Associate(sofar, chunks[0], Concat(chunks[1..]));
    }
  }

  /** An error consumes nothing and lasts: no later input adds a frame or removes it. */
  lemma ErrorIsPermanent(sofar: seq<byte>, chunks: seq<seq<byte>>)
    requires Drain(sofar).error.Some?
    ensures var d := Drain(sofar + Concat(chunks));
      d.frames == Drain(sofar).frames && d.error == Drain(sofar).error && d.rest == Drain(sofar).rest + Concat(chunks)
  {
    DrainInTwo(sofar, Concat(chunks));
    DrainStops(sofar);
    DecisionStands(Drain(sofar).rest, Concat(chunks));
  }

  lemma {:induction false} DrainStops(buf: seq<byte>)
    ensures match Drain(buf).error
            case None => Decode(Drain(buf).rest) == NeedMore
            case Some(e) => Decode(Drain(buf).rest) == Bad(e)
    decreases |buf|
  {
    if Decode(buf).Got? {
      DrainStops(Decode(buf).rest);
    }
  }

  /** Whatever was received is accounted for: the frames decoded so far, encoded again,
      followed by the bytes left, are the bytes received. */
  lemma {:induction false} NothingIsLost(buf: seq<byte>)
    ensures EncodeAll(Drain(buf).frames) + Drain(buf).rest == buf
    decreases |buf|
  {
    if Decode(buf).Got? {
      var frame, rest := Decode(buf).frame, Decode(buf).rest;
      NothingIsLost(rest);
      AcceptedReencodes(buf);
      assert EncodeAll([frame] + Drain(rest).frames) == EncodeFrame(frame) + EncodeAll(Drain(rest).frames) by {
        assert ([frame] + Drain(rest).frames)[1..] == Drain(rest).frames;
      }
    }
  }

  predicate Sendable(frames: seq<Frame>) {
    forall f :: f in frames ==> |f.payload| < MAX_FRAME_LEN
  }

  /** A list of frames sent, cut anywhere and decoded as it arrives, is the list received. */
  lemma {:induction false} StreamRoundTrip(frames: seq<Frame>, chunks: seq<seq<byte>>)
    requires Sendable(frames) && Concat(chunks) == EncodeAll(frames)
    ensures FeedAll(Drain([]), chunks) == Drained(frames, [], None)
  {
    CutsDoNotMatter([], chunks);
    assert [] + Concat(chunks) == Concat(chunks);
    DrainOfEncoded(frames);
  }

  lemma {:induction false} DrainOfEncoded(frames: seq<Frame>)
    requires Sendable(frames)
    ensures Drain(EncodeAll(frames)) == Drained(frames, [], None)
  {
    if frames != [] {
      RoundTripIff(frames[0], EncodeAll(frames[1..]));
      DrainOfEncoded(frames[1..]);
    }
  }
}
