/**
 The functions of the PA data manager, the service and the timer adapter as they are written. Each
 changes the stack as the corresponding step of `PaService` says.
 */
module PaServiceCode {
  import opened CInt
  import opened Common
  import opened UartFramer
  import opened PaCommand
  import opened PaService

  const PA_SERVICE_TX_BUF_SIZE: nat := 260

  /** `struct pa_data_context`. */
  class DataManager {
    var state: DataState
    var currentSid: uint8
    const data: array<uint8>
    var dataLength: uint8
    const overhead: uint8

    ghost predicate Valid()
      reads this
    {
      data.Length == PA_MAX_DATA_SIZE && dataLength <= PA_MAX_DATA_SIZE
    }

    ghost function Value(): Manager
      requires Valid()
      reads this, data
    {
      Manager(state, currentSid, data[..dataLength], overhead)
    }

    /** `pa_data_mgr_init`. */
    constructor (baasOverhead: uint8)
      ensures Valid() && Value() == Manager(PaIdle, 0, [], baasOverhead) && fresh(data)
    {
      data := new uint8[PA_MAX_DATA_SIZE];
      state, currentSid, dataLength, overhead := PaIdle, 0, 0, baasOverhead;
    }

    method SubmitData(sid: uint8, bytes: Bytes) returns (result: uint8)
      requires Valid() && |bytes| <= 0xFF
      modifies this, data
      ensures Valid() && (Value(), result) == Submit(old(Value()), sid, bytes)
    {
      if state != PaIdle {
        return RESULT_BUSY;
      }
      var available := AvailableBytes(overhead);
      if |bytes| > available {
        return RESULT_DATA_TOO_LARGE;
      }
      currentSid := sid;
      dataLength := |bytes|;
      forall i | 0 <= i < |bytes| {
        data[i] := bytes[i];
      }
      assert data[..dataLength] == bytes;
      state := PaPending;
      return RESULT_SUCCESS;
    }

    method PaIntervalElapsed() returns (transitioned: bool)
      requires Valid()
      modifies this
      ensures Valid() && (Value(), transitioned) == OnInterval(old(Value()))
    {
      if state != PaPending {
        return false;
      }
      state := PaComplete;
      return true;
    }

    method ResetState()
      requires Valid()
      modifies this
      ensures Valid() && Value() == Reset(old(Value()))
    {
      state := PaIdle;
      dataLength := 0;
    }
  }

  lemma {:induction false} ConcatAppend(frames: seq<Bytes>, f: Bytes)
    ensures Concat(frames + [f]) == Concat(frames) + f
    decreases |frames|
  {
    var all := frames + [f];
    if frames == [] {
      assert all[1..] == [];
    } else {
      assert all[1..] == frames[1..] + [f];
      ConcatAppend(frames[1..], f);
      Assoc(frames[0], Concat(frames[1..]), f);
    }
  }

  ghost predicate Encodable(out: seq<Response>) {
    forall i | 0 <= i < |out| :: out[i].StatusRsp? ==> |out[i].advs| <= PA_MAX_ADV_SETS
  }

  lemma EncodeAllAppend(out: seq<Response>, rsp: Response)
    requires Encodable(out) && (rsp.StatusRsp? ==> |rsp.advs| <= PA_MAX_ADV_SETS)
    ensures Encodable(out + [rsp])
    ensures Concat(EncodeAll(out + [rsp])) == Concat(EncodeAll(out)) + Encode(rsp)
  {
    assert EncodeAll(out + [rsp]) == EncodeAll(out) + [Encode(rsp)];
    ConcatAppend(EncodeAll(out), Encode(rsp));
  }

  function ByteEvents(fifo: Bytes): (r: seq<Event>)
    ensures |r| == |fifo| && forall i | 0 <= i < |fifo| :: r[i] == ByteIsr(fifo[i])
  {
    seq(|fifo|, i requires 0 <= i < |fifo| => ByteIsr(fifo[i]))
  }

  /** The frame that waits in `rx_frame` once any has been received. */
  function LastFrame(received: Bytes): Bytes {
    var frames := Frames(received);
    if frames == [] then [] else frames[|frames| - 1]
  }

  /** The stack once these bytes have come in, too. */
  function Fed(s: Stack, fifo: Bytes): Stack {
    var received := s.received + fifo;
    s.(received := received, frame := LastFrame(received),
       rxWork := s.rxWork || Frames(received) != Frames(s.received))
  }

  lemma ByteFeeds(s: Stack, b: uint8)
    requires s.frame == LastFrame(s.received)
    ensures Step(s, ByteIsr(b)) == Fed(s, [b]) && Frames(s.received) <= Frames(s.received + [b])
  {
    NextByte(s.received, b);
  }

  lemma FeedsOnward(s: Stack, b: uint8, rest: Bytes)
    requires Frames(s.received) <= Frames(s.received + [b])
    requires Frames(s.received + [b]) <= Frames(s.received + [b] + rest)
    ensures Fed(Fed(s, [b]), rest) == Fed(s, [b] + rest)
    ensures Frames(s.received) <= Frames(s.received + ([b] + rest))
  {
    Assoc(s.received, [b], rest);
  }

  /** The bytes read in one interrupt are so many byte steps. */
  lemma {:induction false} BytesAreSteps(s: Stack, fifo: Bytes)
    requires s.frame == LastFrame(s.received)
    ensures Frames(s.received) <= Frames(s.received + fifo)
    ensures Run(s, ByteEvents(fifo)) == Fed(s, fifo)
    decreases |fifo|
  {
    if fifo == [] {
      assert s.received + fifo == s.received;
    } else {
      ByteFeeds(s, fifo[0]);
      assert ByteEvents(fifo)[1..] == ByteEvents(fifo[1..]);
      BytesAreSteps(Fed(s, [fifo[0]]), fifo[1..]);
      FeedsOnward(s, fifo[0], fifo[1..]);
      assert [fifo[0]] + fifo[1..] == fifo;
    }
  }

  /** The service with its UART, timer and data manager. */
  class Service {
    const uart: UartAdapter
    const mgr: DataManager
    const txBuf: array<uint8>
    var timerArmed: bool
    var timerWork: bool
    /** Everything written to the UART. */
    var sent: Bytes
    ghost var out: seq<Response>
    ghost var delivered: seq<Bytes>
    ghost var aired: seq<Bytes>

    ghost predicate Valid()
      reads this, uart, uart.rxBuf, uart.rxFrame, mgr
    {
      txBuf !in {uart.rxBuf, uart.rxFrame, mgr.data} &&
      mgr.data !in {uart.rxBuf, uart.rxFrame} &&
      txBuf.Length == PA_SERVICE_TX_BUF_SIZE &&
      uart.Valid() && mgr.Valid() && SentOk()
    }

    /** The bytes written are the responses, one after the other. */
    ghost predicate SentOk()
      reads this
    {
      Encodable(out) && sent == Concat(EncodeAll(out))
    }

    ghost function State(): Stack
      requires mgr.Valid()
      reads this, uart, mgr, mgr.data
    {
      Stack(uart.received, LastFrame(uart.received), uart.workPending, mgr.Value(), timerArmed,
            timerWork, delivered, out, aired)
    }

    /** `pa_service_init`. */
    constructor (baasOverhead: uint8)
      ensures Valid() && State() == Start(baasOverhead)
    {
      uart := new UartAdapter();
      mgr := new DataManager(baasOverhead);
      txBuf := new uint8[PA_SERVICE_TX_BUF_SIZE];
      timerArmed, timerWork, sent, out, delivered, aired := false, false, [], [], [], [];
    }

    method UartSend(len: nat, ghost rsp: Response)
      requires SentOk() && (rsp.StatusRsp? ==> |rsp.advs| <= PA_MAX_ADV_SETS)
      requires len <= txBuf.Length && txBuf[..len] == Encode(rsp)
      modifies this`sent, this`out
      ensures SentOk() && out == old(out) + [rsp]
    {
      EncodeAllAppend(out, rsp);
      sent := sent + txBuf[..len];
      out := out + [rsp];
    }

    method HandleStatusGetReq(env: Env)
      requires Valid()
      modifies this`sent, this`out, txBuf
      ensures Valid() && State() == StatusGetReq(old(State()), env)
    {
      var advs := [];
      if env.ready {
        advs := [env.adv];
      }
      var len := SerializeStatusRsp(advs, txBuf);
      UartSend(len, StatusRsp(advs));
    }

    /** `adapter_start_oneshot`; the timer runs for 250 ms. */
    method StartOneshot()
      modifies this`timerArmed
      ensures timerArmed
    {
      timerArmed := true;
    }

    /** Checks readiness, submits the data and hands it to the advertiser. */
    method TrySend(sid: uint8, data: Bytes, env: Env) returns (result: uint8)
      requires Valid() && |data| <= PA_MAX_DATA_SIZE
      modifies this`timerArmed, this`aired, mgr, mgr.data
      ensures Valid() && (State(), result) == TryDataSend(old(State()), sid, data, env)
    {
      if !env.ready {
        return RESULT_NOT_READY;
      }
      result := mgr.SubmitData(sid, data);
      if result == RESULT_SUCCESS {
        if env.setOk {
          aired := aired + [data];
          StartOneshot();
        } else {
          mgr.ResetState();
          result := RESULT_NOT_READY;
        }
      }
    }

    method HandleDataSendReq(sid: uint8, data: Bytes, env: Env)
      requires Valid() && |data| <= PA_MAX_DATA_SIZE
      modifies this`sent, this`out, this`timerArmed, this`aired, txBuf, mgr, mgr.data
      ensures Valid() && State() == DataSendReq(old(State()), sid, data, env)
    {
      var result := TrySend(sid, data, env);
      var len := SerializeDataSendRsp(result, txBuf);
      UartSend(len, DataSendRsp(result));
    }

    /** `pa_service_on_command`. */
    method CommandReceived(frame: Bytes, env: Env)
      requires Valid()
      modifies this`sent, this`out, this`timerArmed, this`aired, txBuf, mgr, mgr.data
      ensures Valid() && State() == OnCommand(old(State()), frame, env)
    {
      var payload := new uint8[PA_MAX_DATA_SIZE];
      var ret, opcode, sid, length := PaCmdParse(frame, payload);
      if ret != 0 {
        return;
      }
      if opcode == OPCODE_STATUS_GET_REQ {
        HandleStatusGetReq(env);
      } else if opcode == OPCODE_DATA_SEND_REQ {
        HandleDataSendReq(sid, payload[..length], env);
      }
    }

    /** `pa_service_on_pa_interval`. */
    method PaInterval()
      requires Valid()
      modifies this`sent, this`out, txBuf, mgr
      ensures Valid() && State() == OnPaInterval(old(State()))
    {
      var transitioned := mgr.PaIntervalElapsed();
      if transitioned {
        var len := SerializeDataSendComplete(txBuf);
        UartSend(len, Complete);
        mgr.ResetState();
      }
    }

    /** The UART interrupt, with `fifo` in the receive FIFO. */
    method UartIsr(fifo: Bytes)
      requires Valid()
      modifies uart, uart.rxBuf, uart.rxFrame
      ensures Valid() && State() == Run(old(State()), ByteEvents(fifo))
    {
      BytesAreSteps(State(), fifo);
      uart.IsrCallback(true, fifo);
    }

    /** `timer_expiry_fn`, run by the kernel when the armed timer expires. */
    method TimerExpiryFn()
      requires Valid() && timerArmed
      modifies this`timerArmed, this`timerWork
      ensures Valid() && State() == Step(old(State()), TimerExpiry)
    {
      timerArmed := false;
      timerWork := true;
    }

    /** The work queue runs `rx_work_handler`. */
    method RxWorkHandler(env: Env)
      requires Valid() && uart.workPending
      modifies this`sent, this`out, this`timerArmed, this`aired, this`delivered, txBuf, mgr, mgr.data,
               uart`workPending
      ensures Valid() && State() == Step(old(State()), RunRxWork(env))
    {
      var frame := uart.RxWork();
      delivered := delivered + [frame];
      CommandReceived(frame, env);
    }

    /** The work queue runs `timer_work_handler`. */
    method TimerWorkHandler()
      requires Valid() && timerWork
      modifies this`sent, this`out, this`timerWork, txBuf, mgr
      ensures Valid() && State() == Step(old(State()), RunTimerWork)
    {
      timerWork := false;
      PaInterval();
    }
  }
}
