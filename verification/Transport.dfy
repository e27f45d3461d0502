/** Buffered decoding: the in-memory connection and the TCP transport. */
module Transport {
  import opened Basics
  import opened Codec

  datatype Error = Malformed(error: Codec.Error) | ConnectionLost

  /** Everything received so far decodes to what was yielded followed by what the buffer
      still holds. */
  ghost predicate Accounted(received: seq<byte>, yielded: seq<Frame>, buffer: seq<byte>) {
    var d := Drain(buffer);
    Drain(received) == Drained(yielded + d.frames, d.rest, d.error)
  }

  lemma FeedKeepsAccount(received: seq<byte>, yielded: seq<Frame>, buffer: seq<byte>, more: seq<byte>)
    requires Accounted(received, yielded, buffer)
    ensures Accounted(received + more, yielded, buffer + more)
  {
    DrainInTwo(received, more);
    DrainInTwo(buffer, more);
    FeedAfter(yielded, Drain(buffer), more);
  }

  lemma FeedAfter(yielded: seq<Frame>, d: Drained, more: seq<byte>)
    ensures Feed(Drained(yielded + d.frames, d.rest, d.error), more)
         == var e := Feed(d, more); Drained(yielded + e.frames, e.rest, e.error)
  {
    var e := Drain(d.rest + more);
    assert (yielded + d.frames) + e.frames == yielded + (d.frames + e.frames);
  }

  lemma YieldKeepsAccount(received: seq<byte>, yielded: seq<Frame>, buffer: seq<byte>)
    requires Accounted(received, yielded, buffer) && Decode(buffer).Got?
    ensures Accounted(received, yielded + [Decode(buffer).frame], Decode(buffer).rest)
  {
    var frame, d := Decode(buffer).frame, Drain(Decode(buffer).rest);
    assert yielded + ([frame] + d.frames) == (yielded + [frame]) + d.frames;
  }

  class TransportConnection {
    const readBuf: ByteBuffer
    const writeBuf: ByteBuffer
    var closed: bool
    ghost var received: seq<byte>
    ghost var yielded: seq<Frame>

    ghost predicate Valid()
      reads this, readBuf
    {
      readBuf != writeBuf && (!closed ==> Accounted(received, yielded, readBuf.bytes))
    }

    constructor ()
      ensures Valid() && !closed && received == [] && yielded == [] && fresh(readBuf) && fresh(writeBuf)
    {
      readBuf := new ByteBuffer();
      writeBuf := new ByteBuffer();
      closed, received, yielded := false, [], [];
    }

    method FeedData(data: seq<byte>)
      requires Valid()
      modifies this`received, readBuf
      ensures Valid() && received == old(received) + data
    {
      if !closed {
        FeedKeepsAccount(received, yielded, readBuf.bytes, data);
      }
      readBuf.Extend(data);
      received := received + data;
    }

    /** Hands out the frames of the whole stream one by one, in order, and reports an
        error exactly when all the frames before it have been handed out. */
    method TryDecodeFrame() returns (r: Result<Option<Frame>, Error>)
      requires Valid()
      modifies this`yielded, readBuf
      ensures Valid()
      ensures closed ==> r == Err(ConnectionLost) && yielded == old(yielded) && readBuf.bytes == old(readBuf.bytes)
      ensures !closed ==>
        var d := Drain(received); var n := |old(yielded)|;
        n <= |d.frames| &&
        if n < |d.frames| then r == Ok(Some(d.frames[n])) && yielded == d.frames[..n + 1]
        else
          && yielded == old(yielded) == d.frames && readBuf.bytes == d.rest == old(readBuf.bytes)
          && r == (if d.error.Some? then Err(Malformed(d.error.value)) else Ok(None))
    {
      if closed {
        return Err(ConnectionLost);
      }
      if Decode(readBuf.bytes).Got? {
        YieldKeepsAccount(received, yielded, readBuf.bytes);
        yielded := yielded + [Decode(readBuf.bytes).frame];
      }
      var decoded := DecodeFrame(readBuf);
      r := if decoded.Ok? then Ok(decoded.value) else Err(Malformed(decoded.error));
    }

    /** The wire form of a frame, unless the connection is closed. */
    method WireForm(frame: Frame) returns (r: Result<seq<byte>, Error>)
      ensures r == if closed then Err(ConnectionLost) else Ok(EncodeFrame(frame))
    {
      r := if closed then Err(ConnectionLost) else Ok(EncodeFrame(frame));
    }

    /** Both buffers are emptied. Bytes fed later still join the read buffer, but nothing is
        decoded from it any more. */
    method Close()
      requires Valid()
      modifies this`closed, readBuf, writeBuf
      ensures Valid() && closed && readBuf.bytes == [] && writeBuf.bytes == []
    {
      closed := true;
      readBuf.Clear();
      writeBuf.Clear();
    }
  }

  // ---------------------------------------------------------------------------
  // TCP

  /** What the peer sent, cut into the pieces successive reads return, and what was
      written to it. Once the pieces run out every read returns nothing or fails. */
  class TcpStream {
    var incoming: seq<seq<byte>>
    var failing: bool
    var outgoing: seq<byte>

    predicate Valid()
      reads this
    {
      forall chunk :: chunk in incoming ==> chunk != []
    }

    method Read() returns (r: Result<seq<byte>, ()>)
      requires Valid()
      modifies this`incoming
      ensures Valid()
      ensures match r
              case Ok(chunk) =>
                if chunk == [] then incoming == old(incoming) == []
                else old(incoming) == [chunk] + incoming
              case Err(_) => incoming == old(incoming) == []
    {
      if incoming == [] {
        return if failing then Err(()) else Ok([]);
      }
      assert incoming[0] in incoming;
      r := Ok(incoming[0]);
      assert forall chunk :: chunk in incoming[1..] ==> chunk in incoming;
      incoming := incoming[1..];
    }

    /** A write that fails may have sent a part of the bytes. */
    method Write(bytes: seq<byte>) returns (ok: bool)
      modifies this`outgoing
      ensures ok == !failing && old(outgoing) <= outgoing <= old(outgoing) + bytes
      ensures ok ==> outgoing == old(outgoing) + bytes
    {
      ok := !failing;
      var sent: nat := |bytes|;
      if failing {
        sent :| 0 <= sent <= |bytes|;
      }
      outgoing := outgoing + bytes[..sent];
    }
  }

  class TcpTransport {
    const stream: TcpStream
    const readBuf: ByteBuffer

    predicate Valid()
      reads this, stream
    {
      stream.Valid()
    }

    /** The bytes that will ever reach this side and have not been decoded yet. */
    function Pending(): seq<byte>
      reads this, stream, readBuf
    {
      readBuf.bytes + Concat(stream.incoming)
    }

    constructor (stream: TcpStream)
      requires stream.Valid()
      ensures this.stream == stream && Valid() && fresh(readBuf) && readBuf.bytes == []
    {
      this.stream := stream;
      readBuf := new ByteBuffer();
    }

    method SendFrame(frame: Frame) returns (r: Result<(), Error>)
      requires Valid()
      modifies stream`outgoing
      ensures Valid() && r.Ok? == !stream.failing
      ensures r.Ok? ==> stream.outgoing == old(stream.outgoing) + EncodeFrame(frame)
      ensures old(stream.outgoing) <= stream.outgoing <= old(stream.outgoing) + EncodeFrame(frame)
    {
      var ok := stream.Write(EncodeFrame(frame));
      r := if ok then Ok(()) else Err(ConnectionLost);
    }

    /** The outcome depends on the pending bytes alone, not on how reads cut them: the
        first frame, or the error in front of it, or a lost connection. */
    method RecvFrame() returns (r: Result<Frame, Error>)
      requires Valid()
      modifies stream`incoming, readBuf
      ensures Valid()
      ensures match Decode(old(Pending()))
              case Got(frame, rest) => r == Ok(frame) && Pending() == rest
              case Bad(e) => r == Err(Malformed(e)) && Pending() == old(Pending())
              case NeedMore => r == Err(ConnectionLost) && Pending() == old(Pending()) && stream.incoming == []
    {
      while true
        invariant Valid() && Pending() == old(Pending())
        decreases |stream.incoming|
      {
        DecisionStands(readBuf.bytes, Concat(stream.incoming));
        var decoded := DecodeFrame(readBuf);
        if decoded.Err? {
          return Err(Malformed(decoded.error));
        }
        if decoded.value.Some? {
          return Ok(decoded.value.value);
        }
        ghost var before, pieces := readBuf.bytes, stream.incoming;
        var chunk := stream.Read();
        if chunk.Err? || chunk.value == [] {
          assert readBuf.bytes + Concat([]) == readBuf.bytes;
          return Err(ConnectionLost);
        }
        assert pieces[1..] == stream.incoming;
        Associate(before, chunk.value, Concat(stream.incoming));
        readBuf.Extend(chunk.value);
      }
    }
  }
}
