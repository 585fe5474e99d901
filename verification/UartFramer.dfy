/**
 The byte framer in the UART receive interrupt: a length byte, then that many bytes. Frames are handed
 to a work item, which takes whatever frame is complete last when it gets to run.
 */
module UartFramer {
  import opened CInt
  import opened Common

  const UART_RX_BUF_SIZE: nat := 260

  /** A length of 0 is no command; 255 makes the 8-bit total wrap to 0. Both are skipped. */
  predicate BadHeader(b: uint8) {
    b == 0 || b == 255
  }

  /** The frames in a stream of bytes. */
  function Frames(bytes: Bytes): seq<Bytes> {
    if bytes == [] then []
    else if BadHeader(bytes[0]) then Frames(bytes[1..])
    else if |bytes| <= bytes[0] then []
    else [bytes[..bytes[0] + 1]] + Frames(bytes[bytes[0] + 1..])
  }

  /** The frame begun but not complete at the end of a stream. */
  function Partial(bytes: Bytes): Bytes {
    if bytes == [] then []
    else if BadHeader(bytes[0]) then Partial(bytes[1..])
    else if |bytes| <= bytes[0] then bytes
    else Partial(bytes[bytes[0] + 1..])
  }

  ghost predicate IsPartial(p: Bytes) {
    p == [] || (!BadHeader(p[0]) && |p| <= p[0])
  }

  ghost predicate IsFrame(f: Bytes) {
    |f| >= 2 && !BadHeader(f[0]) && |f| == f[0] + 1
  }

  /** Every frame carries its own length, so it passes the parser's length check. */
  lemma {:induction false} FramesHaveTheirLength(bytes: Bytes)
    ensures IsPartial(Partial(bytes))
    ensures forall i | 0 <= i < |Frames(bytes)| :: IsFrame(Frames(bytes)[i])
    decreases |bytes|
  {
    if bytes == [] {
    } else if BadHeader(bytes[0]) {
      FramesHaveTheirLength(bytes[1..]);
    } else if |bytes| > bytes[0] {
      FramesHaveTheirLength(bytes[bytes[0] + 1..]);
    }
  }

  /** A stream that begins with a whole frame. */
  lemma FrameThenRest(head: Bytes, rest: Bytes)
    requires IsFrame(head)
    ensures Frames(head + rest) == [head] + Frames(rest) && Partial(head + rest) == Partial(rest)
  {
    var all, n := head + rest, |head|;
    assert all[0] == head[0] && all[..n] == head && all[n..] == rest;
  }

  /** Framing a stream in two parts, carrying over the incomplete frame, is framing the whole. */
  lemma {:induction false} FramesOfParts(a: Bytes, b: Bytes)
    ensures Frames(a + b) == Frames(a) + Frames(Partial(a) + b)
    ensures Partial(a + b) == Partial(Partial(a) + b)
    decreases |a|
  {
    if a == [] {
      assert a + b == Partial(a) + b;
    } else if BadHeader(a[0]) {
      FramesOfParts(a[1..], b);
      assert (a + b)[1..] == a[1..] + b;
    } else if |a| > a[0] {
      var head, rest := a[..a[0] + 1], a[a[0] + 1..];
      FramesOfParts(rest, b);
      assert a == head + rest && a + b == head + (rest + b);
      FrameThenRest(head, rest);
      FrameThenRest(head, rest + b);
      assert Frames(a) == [head] + Frames(rest) && Partial(a) == Partial(rest);
      assert Frames(a + b) == [head] + Frames(rest + b);
      Assoc([head], Frames(rest), Frames(Partial(rest) + b));
    }
  }

  function Concat(frames: seq<Bytes>): Bytes {
    if frames == [] then [] else frames[0] + Concat(frames[1..])
  }

  /** Frames sent one after the other are received as they were sent. */
  lemma {:induction false} FramesOfConcat(frames: seq<Bytes>)
    requires forall i | 0 <= i < |frames| :: IsFrame(frames[i])
    ensures Frames(Concat(frames)) == frames && Partial(Concat(frames)) == []
    decreases |frames|
  {
    if frames == [] {
    } else {
      FramesOfConcat(frames[1..]);
      FrameThenRest(frames[0], Concat(frames[1..]));
    }
  }

  /** What one more byte does to the incomplete frame `p`. */
  lemma OneByte(p: Bytes, b: uint8)
    requires IsPartial(p)
    ensures p == [] && BadHeader(b) ==> Frames(p + [b]) == [] && Partial(p + [b]) == []
    ensures p == [] && !BadHeader(b) ==> Frames(p + [b]) == [] && Partial(p + [b]) == [b]
    ensures p != [] && |p| < p[0] ==> Frames(p + [b]) == [] && Partial(p + [b]) == p + [b]
    ensures p != [] && |p| == p[0] ==> Frames(p + [b]) == [p + [b]] && Partial(p + [b]) == []
  {
    var all := p + [b];
    if p == [] {
      assert all == [b] && all[1..] == [];
    } else if |p| == p[0] {
      assert all[..p[0] + 1] == all && all[p[0] + 1..] == [];
    }
  }

  /** The same for the whole stream. */
  lemma NextByte(s: Bytes, b: uint8)
    ensures IsPartial(Partial(s))
    ensures var p := Partial(s);
            if p != [] && |p| == p[0]
            then Frames(s + [b]) == Frames(s) + [p + [b]] && Partial(s + [b]) == []
            else Frames(s + [b]) == Frames(s) &&
                 Partial(s + [b]) == if p == [] && BadHeader(b) then [] else p + [b]
  {
    FramesHaveTheirLength(s);
    FramesOfParts(s, [b]);
    OneByte(Partial(s), b);
  }

  /* ---------- the adapter ---------- */

  class UartAdapter {
    const rxBuf: array<uint8>
    var rxPos: uint8
    var rxExpected: uint8
    var rxHeaderReceived: bool
    const rxFrame: array<uint8>
    var rxFrameLen: nat
    var workPending: bool
    /** Every byte read so far. */
    ghost var received: Bytes

    static function Last(frames: seq<Bytes>): Bytes
      requires frames != []
    {
      frames[|frames| - 1]
    }

    /** The adapter is where the bytes received so far put it. */
    ghost predicate Valid()
      reads this, rxBuf, rxFrame
    {
      rxBuf != rxFrame && rxBuf.Length == rxFrame.Length == UART_RX_BUF_SIZE &&
      rxFrameLen <= UART_RX_BUF_SIZE && rxPos <= UART_RX_BUF_SIZE &&
      rxBuf[..rxPos] == Partial(received) &&
      (rxHeaderReceived <==> rxPos > 0) &&
      (rxHeaderReceived ==> var header: int := rxBuf[0]; rxExpected == header + 1) &&
      (Frames(received) != [] ==> rxFrame[..rxFrameLen] == Last(Frames(received))) &&
      (workPending ==> Frames(received) != [])
    }

    constructor ()
      ensures Valid() && received == [] && !workPending && fresh(rxBuf) && fresh(rxFrame)
    {
      rxBuf := new uint8[UART_RX_BUF_SIZE];
      rxFrame := new uint8[UART_RX_BUF_SIZE];
      rxPos, rxExpected, rxHeaderReceived := 0, 0, false;
      rxFrameLen, workPending, received := 0, false, [];
    }

    method CopyFrame()
      requires rxBuf != rxFrame && rxPos <= rxBuf.Length == rxFrame.Length
      modifies this`rxFrameLen, rxFrame
      ensures rxFrameLen == rxPos && rxFrame[..rxFrameLen] == rxBuf[..rxPos]
    {
      forall i | 0 <= i < rxPos {
        rxFrame[i] := rxBuf[i];
      }
      rxFrameLen := rxPos;
    }

    /** One turn of its loop. */
    method Byte(byte: uint8)
      requires Valid()
      modifies this`rxPos, this`rxExpected, this`rxHeaderReceived, this`rxFrameLen, this`workPending,
               this`received, rxBuf, rxFrame
      ensures Valid() && received == old(received) + [byte]
      ensures Frames(old(received)) <= Frames(received)
      ensures workPending <==> old(workPending) || Frames(received) != Frames(old(received))
    {
      ghost var p := Partial(received);
      NextByte(received, byte);
      received := received + [byte];
      if !rxHeaderReceived {
        rxBuf[0] := byte;
        rxPos := 1;
        rxExpected := U8(byte + 1);
        rxHeaderReceived := true;
        if rxExpected <= 1 || rxExpected > UART_RX_BUF_SIZE {
          rxHeaderReceived := false;
          rxPos := 0;
        }
      } else {
        if rxPos < UART_RX_BUF_SIZE {
          rxBuf[rxPos] := byte;
          rxPos := U8(rxPos + 1);
          assert rxBuf[..rxPos] == p + [byte];
        }
        if rxPos >= rxExpected {
          CopyFrame();
          rxHeaderReceived := false;
          rxPos := 0;
          workPending := true;
        }
      }
    }

    /**
     `uart_isr_callback`, finding `fifo` in the receive FIFO. With `Valid` this says that the frames
     handed over are those of the whole stream, however it is split over interrupts.
     */
    method IsrCallback(updated: bool, fifo: Bytes)
      requires Valid()
      modifies this`rxPos, this`rxExpected, this`rxHeaderReceived, this`rxFrameLen, this`workPending,
               this`received, rxBuf, rxFrame
      ensures Valid()
      ensures received == old(received) + if updated then fifo else []
      ensures workPending <==> old(workPending) || Frames(received) != Frames(old(received))
    {
      if !updated {
        assert received == old(received) + [];
        return;
      }
      assert fifo[..0] == [];
      for i := 0 to |fifo|
        invariant Valid() && received == old(received) + fifo[..i]
        invariant Frames(old(received)) <= Frames(received)
        invariant workPending <==> old(workPending) || Frames(received) != Frames(old(received))
      {
        assert fifo[..i + 1] == fifo[..i] + [fifo[i]];
        Assoc(old(received), fifo[..i], [fifo[i]]);
        Byte(fifo[i]);
      }
      assert fifo[..|fifo|] == fifo;
    }

    /** `rx_work_handler`: what it hands to the service. */
    method RxWork() returns (frame: Bytes)
      requires Valid() && workPending
      modifies this`workPending
      ensures Valid() && !workPending && frame == Last(Frames(received)) && IsFrame(frame)
    {
      workPending := false;
      FramesHaveTheirLength(received);
      return rxFrame[..rxFrameLen];
    }
  }
}
