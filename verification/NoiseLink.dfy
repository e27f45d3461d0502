/** The encrypted transport: frame payloads sealed under a counter that both ends keep in
    step, over the TCP transport. */
module NoiseLink {
  import opened Basics
  import opened Bytes
  import opened Codec
  import Transport

  const TAG: nat := 16

  /** The longest message of the Noise Protocol Framework (its section 3). */
  const MAX_NOISE_LEN := 65535

  /** One direction of a finished handshake: sealing and opening under a counter. */
  datatype Cipher = Cipher(seal: (u64, seq<byte>) -> seq<byte>, open: (u64, seq<byte>) -> Option<seq<byte>>)

  /** What the authenticated cipher promises: a tag is added, sealing can be undone under
      the same counter, and under no other, and nothing opens that was not sealed. */
  ghost predicate Lawful(c: Cipher) {
    && (forall n: u64, p: seq<byte> :: |c.seal(n, p)| == |p| + TAG && c.open(n, c.seal(n, p)) == Some(p))
    && (forall m: u64, n: u64, p: seq<byte> :: m != n ==> c.open(m, c.seal(n, p)) == None)
    && (forall n: u64, ct: seq<byte> :: c.open(n, ct).Some? ==> ct == c.seal(n, c.open(n, ct).value))
  }

  /** The tag of a cipher that only writes its counter: enough to meet the laws. */
  function CounterTag(n: u64): (tag: seq<byte>)
    ensures |tag| == TAG
  {
    ToBytes(n, TAG)
  }

  /** The laws can be met. */
  lemma LawsAreConsistent() returns (c: Cipher)
    ensures Lawful(c)
  {
    c := Cipher((n, p) => p + CounterTag(n),
                (n, ct) => if |ct| >= TAG && ct[|ct| - TAG..] == CounterTag(n) then Some(ct[..|ct| - TAG]) else None);
    forall n: u64, p: seq<byte>
      ensures |c.seal(n, p)| == |p| + TAG && c.open(n, c.seal(n, p)) == Some(p)
    {
      assert (p + CounterTag(n))[|p|..] == CounterTag(n) && (p + CounterTag(n))[..|p|] == p;
    }
    forall n: u64, ct: seq<byte> | c.open(n, ct).Some? ensures ct == c.seal(n, c.open(n, ct).value) {
      assert ct == ct[..|ct| - TAG] + ct[|ct| - TAG..];
    }
    forall m: u64, n: u64, p: seq<byte> | m != n ensures c.open(m, c.seal(n, p)) == None {
      assert (p + CounterTag(n))[|p|..] == CounterTag(n);
      TagsDiffer(m, n);
    }
  }

  lemma TagsDiffer(m: u64, n: u64)
    requires m != n
    ensures CounterTag(m) != CounterTag(n)
  {
    Widths();
    PowGrows(8, TAG);
    FromTo(m, TAG);
    FromTo(n, TAG);
  }

  datatype Error = SealFailed | OpenFailed | Lost(error: Transport.Error)

  /** Can this frame be sent? An empty payload skips the cipher. */
  predicate Fits(frame: Frame) {
    |frame.payload| + TAG <= MAX_NOISE_LEN
  }

  /** The new counter and the frame to put on the wire. */
  function SealFrame(c: Cipher, n: u64, frame: Frame): (u64, Result<Frame, Error>) {
    if frame.payload == [] then (n, Ok(Frame(frame.messageType, [])))
    else if !Fits(frame) || n == U64_MAX then (n, Err(SealFailed))
    else (n + 1, Ok(Frame(frame.messageType, c.seal(n, frame.payload))))
  }

  function OpenFrame(c: Cipher, n: u64, wire: Frame): (u64, Result<Frame, Error>) {
    if wire.payload == [] then (n, Ok(Frame(wire.messageType, [])))
    else if |wire.payload| < TAG || |wire.payload| > MAX_NOISE_LEN || n == U64_MAX then (n, Err(OpenFailed))
    else
      match c.open(n, wire.payload)
      case None => (n, Err(OpenFailed))
      case Some(payload) => (n + 1, Ok(Frame(wire.messageType, payload)))
  }

  class NoiseTransport {
    const tcp: Transport.TcpTransport
    const sending: Cipher
    const receiving: Cipher
    var sendCounter: u64
    var recvCounter: u64

    constructor (tcp: Transport.TcpTransport, sending: Cipher, receiving: Cipher)
      ensures this.tcp == tcp && this.sending == sending && this.receiving == receiving
      ensures sendCounter == recvCounter == 0
    {
      this.tcp, this.sending, this.receiving := tcp, sending, receiving;
      sendCounter, recvCounter := 0, 0;
    }

    method SendFrame(frame: Frame) returns (r: Result<(), Error>)
      requires tcp.Valid()
      modifies this`sendCounter, tcp.stream`outgoing
      ensures tcp.Valid()
      ensures var (n, wire) := SealFrame(sending, old(sendCounter), frame);
        && sendCounter == n
        && (r.Ok? <==> wire.Ok? && !tcp.stream.failing)
        && (r.Ok? ==> tcp.stream.outgoing == old(tcp.stream.outgoing) + EncodeFrame(wire.value))
        && old(tcp.stream.outgoing) <= tcp.stream.outgoing
           <= old(tcp.stream.outgoing) + (if wire.Ok? then EncodeFrame(wire.value) else [])
    {
      var encrypted: seq<byte>;
      if frame.payload == [] {
        encrypted := [];
      } else {
        if !Fits(frame) || sendCounter == U64_MAX {
          return Err(SealFailed);
        }
        encrypted := sending.seal(sendCounter, frame.payload);
        sendCounter := sendCounter + 1;
      }
      var sent := tcp.SendFrame(Frame(frame.messageType, encrypted));
      r := if sent.Ok? then Ok(()) else Err(Lost(sent.error));
    }

    method RecvFrame() returns (r: Result<Frame, Error>)
      requires tcp.Valid()
      modifies this`recvCounter, tcp.stream`incoming, tcp.readBuf
      ensures tcp.Valid()
      ensures match Decode(old(tcp.Pending()))
              case Got(wire, rest) =>
                (recvCounter, r) == OpenFrame(receiving, old(recvCounter), wire) && tcp.Pending() == rest
              case Bad(e) =>
                && r == Err(Lost(Transport.Malformed(e)))
                && recvCounter == old(recvCounter) && tcp.Pending() == old(tcp.Pending())
              case NeedMore =>
                && r == Err(Lost(Transport.ConnectionLost))
                && recvCounter == old(recvCounter) && tcp.Pending() == old(tcp.Pending())
    {
      var received := tcp.RecvFrame();
      if received.Err? {
        return Err(Lost(received.error));
      }
      var wire := received.value;
      if wire.payload == [] {
        return Ok(Frame(wire.messageType, []));
      }
      if |wire.payload| < TAG || |wire.payload| > MAX_NOISE_LEN || recvCounter == U64_MAX {
        return Err(OpenFailed);
      }
      var plain := receiving.open(recvCounter, wire.payload);
      if plain.None? {
        return Err(OpenFailed);
      }
      recvCounter := recvCounter + 1;
      r := Ok(Frame(wire.messageType, plain.value));
    }
  }

  // ---------------------------------------------------------------------------
  // One direction of a link

  /** How many of the frames go through the cipher. */
  function NonEmpty(frames: seq<Frame>): nat {
    if frames == [] then 0 else NonEmpty(frames[..|frames| - 1]) + (if frames[|frames| - 1].payload == [] then 0 else 1)
  }

  /** The wire bytes of frames sealed from counter n on. */
  function Wire(c: Cipher, n: u64, frames: seq<Frame>): seq<byte>
    decreases |frames|
  {
    if frames == [] then []
    else
      var (n', sealed) := SealFrame(c, n, frames[0]);
      (if sealed.Ok? then EncodeFrame(sealed.value) else []) + Wire(c, n', frames[1..])
  }

  /** The two ends of one direction: their counters and the bytes between them. `sent` and
      `got` are the frames accepted for sending and the frames received so far. */
  datatype Link = Link(sendCounter: u64, wire: seq<byte>, recvCounter: u64, sent: seq<Frame>, got: seq<Frame>)

  const FRESH_LINK: Link := Link(0, [], 0, [], [])

  function Send(c: Cipher, l: Link, frame: Frame): Link {
    var (n, sealed) := SealFrame(c, l.sendCounter, frame);
    if sealed.Err? then l.(sendCounter := n)
    else l.(sendCounter := n, wire := l.wire + EncodeFrame(sealed.value), sent := l.sent + [frame])
  }

  function Recv(c: Cipher, l: Link): (Link, Result<Frame, Error>) {
    match Decode(l.wire)
    case NeedMore => (l, Err(Lost(Transport.ConnectionLost)))
    case Bad(e) => (l, Err(Lost(Transport.Malformed(e))))
    case Got(wire, rest) =>
      var (n, r) := OpenFrame(c, l.recvCounter, wire);
      (l.(recvCounter := n, wire := rest, got := if r.Ok? then l.got + [r.value] else l.got), r)
  }

  datatype Action = SendAction(frame: Frame) | RecvAction

  function Act(c: Cipher, l: Link, a: Action): Link {
    match a
    case SendAction(frame) => Send(c, l, frame)
    case RecvAction => Recv(c, l).0
  }

  function ActAll(c: Cipher, l: Link, actions: seq<Action>): Link
    decreases |actions|
  {
    if actions == [] then l else ActAll(c, Act(c, l, actions[0]), actions[1..])
  }

  /** The frames sent are those received and then those on the wire, and each counter
      counts the non-empty frames its own end has handled. */
  ghost predicate Lockstep(c: Cipher, l: Link) {
    && l.got <= l.sent
    && l.sendCounter == NonEmpty(l.sent)
    && l.recvCounter == NonEmpty(l.got)
    && l.wire == Wire(c, l.recvCounter, l.sent[|l.got|..])
    && (forall f :: f in l.sent ==> Fits(f))
  }

  lemma {:induction false} WireExtends(c: Cipher, n: u64, frames: seq<Frame>, frame: Frame, m: u64)
    requires forall f :: f in frames ==> Fits(f)
    requires m == n + NonEmpty(frames) <= U64_MAX
    requires SealFrame(c, m, frame).1.Ok?
    ensures Wire(c, n, frames + [frame]) == Wire(c, n, frames) + EncodeFrame(SealFrame(c, m, frame).1.value)
    decreases |frames|
  {
    var last := EncodeFrame(SealFrame(c, m, frame).1.value);
    if frames == [] {
      assert frames + [frame] == [frame];
      WireFirst(c, m, frame, []);
    } else {
      var (n', sealed) := SealFrame(c, n, frames[0]);
      var rest := frames[1..];
      var head := if sealed.Ok? then EncodeFrame(sealed.value) else [];
      NonEmptyHead(frames);
      WireExtends(c, n', rest, frame, m);
      assert frames + [frame] == [frames[0]] + (rest + [frame]) && frames == [frames[0]] + rest;
      WireFirst(c, n, frames[0], rest + [frame]);
      WireFirst(c, n, frames[0], rest);
      Associate(head, Wire(c, n', rest), last);
    }
  }

  lemma WireFirst(c: Cipher, n: u64, first: Frame, rest: seq<Frame>)
    ensures var (n', sealed) := SealFrame(c, n, first);
      Wire(c, n, [first] + rest) == (if sealed.Ok? then EncodeFrame(sealed.value) else []) + Wire(c, n', rest)
  {
    assert ([first] + rest)[1..] == rest;
  }

  lemma {:induction false} NonEmptyHead(frames: seq<Frame>)
    requires frames != []
    ensures NonEmpty(frames) == NonEmpty(frames[1..]) + (if frames[0].payload == [] then 0 else 1)
    decreases |frames|
  {
    if |frames| > 1 {
      var n := |frames| - 1;
      NonEmptyHead(frames[..n]);
      assert frames[..n][1..] == frames[1..][..n - 1];
    }
  }

  lemma {:induction false} NonEmptySplits(a: seq<Frame>, b: seq<Frame>)
    ensures NonEmpty(a + b) == NonEmpty(a) + NonEmpty(b)
    decreases |b|
  {
    if b == [] {
      assert a + b == a;
    } else {
      var n := |b| - 1;
      NonEmptySplits(a, b[..n]);
      assert (a + b)[..|a| + n] == a + b[..n];
    }
  }

  lemma SendKeepsLockstep(c: Cipher, l: Link, frame: Frame)
    requires Lockstep(c, l)
    ensures Lockstep(c, Send(c, l, frame))
  {
    var (n, sealed) := SealFrame(c, l.sendCounter, frame);
    if sealed.Ok? {
      var coming := l.sent[|l.got|..];
      var l' := Send(c, l, frame);
      assert l.sent == l.got + coming;
      NonEmptySplits(l.got, coming);
      WireExtends(c, l.recvCounter, coming, frame, l.sendCounter);
      assert l'.sent[|l.got|..] == coming + [frame];
      assert l'.sent[..|l.sent|] == l.sent;
    }
  }

  /** Sealing and opening one frame at the same counter. */
  lemma OpenSealed(c: Cipher, n: u64, frame: Frame)
    requires Lawful(c) && SealFrame(c, n, frame).1.Ok?
    ensures |SealFrame(c, n, frame).1.value.payload| < MAX_FRAME_LEN
    ensures OpenFrame(c, n, SealFrame(c, n, frame).1.value) == (SealFrame(c, n, frame).0, Ok(frame))
  {
    if frame.payload != [] {
      assert |c.seal(n, frame.payload)| == |frame.payload| + TAG;
    }
  }

  /** What is next on the wire opens to the next frame sent, and leaves the rest. */
  lemma RecvNext(c: Cipher, l: Link)
    requires Lawful(c) && Lockstep(c, l) && l.got != l.sent
    ensures var frame, (n, sealed) := l.sent[|l.got|], SealFrame(c, l.recvCounter, l.sent[|l.got|]);
      Recv(c, l) == (l.(recvCounter := n, wire := Wire(c, n, l.sent[|l.got| + 1..]), got := l.got + [frame]), Ok(frame))
  {
    var coming := l.sent[|l.got|..];
    var frame := coming[0];
    assert frame in l.sent;
    assert coming[1..] == l.sent[|l.got| + 1..];
    assert l.sent == l.got + coming;
    NonEmptySplits(l.got, coming);
    NonEmptyHead(coming);
    var (n, sealed) := SealFrame(c, l.recvCounter, frame);
    OpenSealed(c, l.recvCounter, frame);
    RoundTripIff(sealed.value, Wire(c, n, coming[1..]));
  }

  /** One more frame is counted if it is not empty. */
  lemma NonEmptyAppend(got: seq<Frame>, frame: Frame)
    ensures NonEmpty(got + [frame]) == NonEmpty(got) + (if frame.payload == [] then 0 else 1)
  {
    assert (got + [frame])[..|got|] == got;
  }

  lemma NonEmptyPrefix(a: seq<Frame>, b: seq<Frame>, all: seq<Frame>)
    requires all == a + b
    ensures NonEmpty(a) <= NonEmpty(all)
  {
    NonEmptySplits(a, b);
  }

  /** The next receive yields the next frame sent, if there is one. */
  lemma RecvKeepsLockstep(c: Cipher, l: Link)
    requires Lawful(c) && Lockstep(c, l)
    ensures Lockstep(c, Recv(c, l).0)
    ensures l.got == l.sent ==> Recv(c, l) == (l, Err(Lost(Transport.ConnectionLost)))
    ensures l.got != l.sent ==> Recv(c, l).1 == Ok(l.sent[|l.got|])
  {
    if l.got != l.sent {
      RecvNext(c, l);
      NextKeepsLockstep(c, l);
    }
  }

  /** The counter of the receiver moves as that of the sender did. */
  lemma SealCounts(c: Cipher, n: u64, frame: Frame)
    requires Fits(frame) && n < U64_MAX
    ensures SealFrame(c, n, frame).0 == n + (if frame.payload == [] then 0 else 1)
  {
  }

  lemma NextKeepsLockstep(c: Cipher, l: Link)
    requires Lockstep(c, l) && l.got != l.sent
    ensures var k := |l.got|; var n := SealFrame(c, l.recvCounter, l.sent[k]).0;
      Lockstep(c, l.(recvCounter := n, wire := Wire(c, n, l.sent[k + 1..]), got := l.got + [l.sent[k]]))
  {
    var k := |l.got|;
    var got, frame := l.got + [l.sent[k]], l.sent[k];
    assert frame in l.sent;
    assert l.sent == got + l.sent[k + 1..];
    NonEmptyAppend(l.got, frame);
    NonEmptyPrefix(got, l.sent[k + 1..], l.sent);
    if frame.payload != [] {
      SealCounts(c, l.recvCounter, frame);
    }
  }

  /** Any mix of sends and receives, empty and non-empty frames, in any interleaving: the
      counters count the non-empty frames at each end, and what is received is a prefix
      of what was sent. */
  lemma {:induction false} LockstepForever(c: Cipher, l: Link, actions: seq<Action>)
    requires Lawful(c) && Lockstep(c, l)
    ensures Lockstep(c, ActAll(c, l, actions))
    decreases |actions|
  {
    if actions != [] {
      match actions[0] {
        case SendAction(frame) => SendKeepsLockstep(c, l, frame);
        case RecvAction => RecvKeepsLockstep(c, l);
      }
      LockstepForever(c, Act(c, l, actions[0]), actions[1..]);
    }
  }

  /** From a fresh link, after any actions, the next receive returns the next frame sent,
      exactly as it was sent. */
  lemma ReceivedAsSent(c: Cipher, actions: seq<Action>)
    requires Lawful(c)
    ensures var l := ActAll(c, FRESH_LINK, actions);
      && l.got <= l.sent
      && l.sendCounter == NonEmpty(l.sent) && l.recvCounter == NonEmpty(l.got)
      && (l.got != l.sent ==> Recv(c, l).1 == Ok(l.sent[|l.got|]))
  {
    LockstepForever(c, FRESH_LINK, actions);
    RecvKeepsLockstep(c, ActAll(c, FRESH_LINK, actions));
  }

  /** A frame is sendable exactly when it is empty, or its payload leaves room for the tag, at
      most 65519 bytes, and the counter is not at its last value. */
  lemma SendableIff(c: Cipher, n: u64, frame: Frame)
    ensures SealFrame(c, n, frame).1.Ok?
       <==> frame.payload == [] || (|frame.payload| <= 65519 && n < 0xFFFF_FFFF_FFFF_FFFF)
    ensures SealFrame(c, n, frame).1.Ok? ==> SealFrame(c, n, frame).1.value.messageType == frame.messageType
    ensures SealFrame(c, n, frame).0 == n + (if SealFrame(c, n, frame).1.Ok? && frame.payload != [] then 1 else 0)
  {
  }

  /** Sending on a link adds the frame to what was sent exactly when it is sendable. */
  lemma SendExactly(c: Cipher, l: Link, frame: Frame)
    ensures Send(c, l, frame).sent
         == if frame.payload == [] || (|frame.payload| <= 65519 && l.sendCounter < 0xFFFF_FFFF_FFFF_FFFF)
            then l.sent + [frame] else l.sent
    ensures Send(c, l, frame).got == l.got && Send(c, l, frame).recvCounter == l.recvCounter
  {
    SendableIff(c, l.sendCounter, frame);
  }

  /** What is received and not empty was sealed, in this place of the stream; its type is not
      covered by the tag, and neither is a frame without payload, which always passes. A frame
      that does not open leaves the counter alone. */
  lemma OpensOnlySealed(c: Cipher, n: u64, wire: Frame)
    requires Lawful(c)
    ensures var (n', r) := OpenFrame(c, n, wire);
      && (r.Ok? ==> r.value.messageType == wire.messageType)
      && (wire.payload == [] ==> r == Ok(wire) && n' == n)
      && (wire.payload != [] && r.Ok? ==> wire.payload == c.seal(n, r.value.payload) && n' == n + 1)
      && (wire.payload != [] ==>
            (r.Ok? <==> && n < 0xFFFF_FFFF_FFFF_FFFF && |wire.payload| <= 65535
                        && exists p :: wire.payload == c.seal(n, p)))
      && (r.Err? ==> n' == n)
  {
    if wire.payload != [] {
      if p :| wire.payload == c.seal(n, p) {
        assert c.open(n, c.seal(n, p)) == Some(p) && |c.seal(n, p)| == |p| + TAG;
      }
      if c.open(n, wire.payload).Some? {
        assert wire.payload == c.seal(n, c.open(n, wire.payload).value);
        assert |c.seal(n, c.open(n, wire.payload).value)| >= TAG;
      }
    }
  }

  /** Out of step, nothing sealed can be opened: that is why the counters matter. */
  lemma OutOfStepFails(c: Cipher, m: u64, n: u64, frame: Frame)
    requires Lawful(c) && m != n && frame.payload != [] && SealFrame(c, n, frame).1.Ok?
    ensures OpenFrame(c, m, SealFrame(c, n, frame).1.value) == (m, Err(OpenFailed))
  {
    assert c.open(m, c.seal(n, frame.payload)) == None;
  }
}
