/** A payload on its way from the host's UART to the sink of the broadcast, and the answers it gets. */
module PaEndToEnd {
  import opened CInt
  import opened Common
  import opened UartFramer
  import opened PaCommand
  import opened PaService
  import PaServiceCode
  import Ad = AdStructures

  lemma {:induction false} RunAppend(s: Stack, a: seq<Event>, b: seq<Event>)
    ensures Run(s, a + b) == Run(Run(s, a), b)
    decreases |a|
  {
    if a == [] {
      assert a + b == b;
    } else {
      assert (a + b)[1..] == a[1..] + b;
      RunAppend(Step(s, a[0]), a[1..], b);
    }
  }

  /** A frame that arrives on an idle line is delivered as it was sent. */
  lemma FrameArrives(s: Stack, f: Bytes)
    requires s.frame == PaServiceCode.LastFrame(s.received) && Partial(s.received) == []
    requires Frames(f) == [f]
    ensures Run(s, PaServiceCode.ByteEvents(f))
         == s.(received := s.received + f, frame := f, rxWork := true)
  {
    PaServiceCode.BytesAreSteps(s, f);
    FramesOfParts(s.received, f);
    assert Partial(s.received) + f == f;
    assert Frames(s.received + f) == Frames(s.received) + [f];
    assert |Frames(s.received + f)| == |Frames(s.received)| + 1;
  }

  lemma ThreeSteps(s: Stack, a: Event, b: Event, c: Event)
    ensures Run(s, [a, b, c]) == Step(Step(Step(s, a), b), c)
  {
    assert [a, b, c][1..] == [b, c] && [b, c][1..] == [c] && [c][1..] == [];
    var s1 := Step(s, a);
    assert Run(s, [a, b, c]) == Run(s1, [b, c]);
    assert Run(s1, [b, c]) == Run(Step(s1, b), [c]);
    assert Run(Step(s1, b), [c]) == Run(Step(Step(s1, b), c), []);
  }

  /**
   A request of at most 251 bytes that finds the stack idle and the advertiser willing is accepted; its
   payload is what the sink extracts from the broadcast; and once the timer has expired the host has
   been told success and completion, in this order.
   */
  lemma HostToSink(s: Stack, sid: uint8, data: Bytes, env: Env, base: seq<Ad.Ad>)
    requires s.frame == PaServiceCode.LastFrame(s.received) && Partial(s.received) == []
    requires s.mgr.state == PaIdle && s.mgr.overhead == 0 && !s.timerArmed && !s.timerWork
    requires |data| <= 251 && env.ready && env.setOk
    requires Ad.Encodable(base) && forall i | 0 <= i < |base| :: base[i].kind != Ad.BT_DATA_VS
    ensures var sent := PaServiceCode.ByteEvents(EncodeCommand(DataSend(sid, data)));
            var r := Run(s, sent + [RunRxWork(env), TimerExpiry, RunTimerWork]);
            r.aired == s.aired + [data] && r.mgr.state == PaIdle &&
            r.out == s.out + [DataSendRsp(RESULT_SUCCESS), Complete] &&
            Ad.Encodable(Ad.Compose(base, r.aired[|s.aired|])) &&
            Ad.Vendor(Ad.Parse(Ad.Encode(Ad.Compose(base, r.aired[|s.aired|])))) == Some(data)
  {
    var f := EncodeCommand(DataSend(sid, data));
    var sent := PaServiceCode.ByteEvents(f);
    RoundTripExactly(sid, data);
    FrameArrives(s, f);
    var s1 := Run(s, sent);
    RunAppend(s, sent, [RunRxWork(env), TimerExpiry, RunTimerWork]);
    ThreeSteps(s1, RunRxWork(env), TimerExpiry, RunTimerWork);
    var s2 := Step(s1, RunRxWork(env));
    assert s2.out == s.out + [DataSendRsp(RESULT_SUCCESS)];
    assert s2.out + [Complete] == s.out + [DataSendRsp(RESULT_SUCCESS), Complete];
    Ad.SourceToSink(base, data);
  }
}
