/**
 The PA data protocol stack as a state machine: byte interrupts, the expiry of the one-shot timer, and
 the two work items run by the system work queue.
 */
module PaService {
  import opened CInt
  import opened Common
  import opened UartFramer
  import opened PaCommand

  const RESULT_SUCCESS: uint8 := 0x00
  const RESULT_BUSY: uint8 := 0x01
  const RESULT_DATA_TOO_LARGE: uint8 := 0x03
  const RESULT_NOT_READY: uint8 := 0x04

  datatype DataState = PaIdle | PaPending | PaComplete

  /** `struct pa_data_context`, with the data held so far. */
  datatype Manager = Manager(state: DataState, sid: uint8, data: Bytes, overhead: uint8)

  function AvailableBytes(overhead: uint8): uint8 {
    if overhead >= PA_MAX_DATA_SIZE then 0 else PA_MAX_DATA_SIZE - overhead
  }

  /** `pa_data_mgr_submit`. */
  function Submit(m: Manager, sid: uint8, data: Bytes): (Manager, uint8) {
    if m.state != PaIdle then (m, RESULT_BUSY)
    else if |data| > AvailableBytes(m.overhead) then (m, RESULT_DATA_TOO_LARGE)
    else (m.(state := PaPending, sid := sid, data := data), RESULT_SUCCESS)
  }

  /** `pa_data_mgr_on_pa_interval`. */
  function OnInterval(m: Manager): (Manager, bool) {
    if m.state != PaPending then (m, false) else (m.(state := PaComplete), true)
  }

  /** `pa_data_mgr_reset`. */
  function Reset(m: Manager): Manager {
    m.(state := PaIdle, data := [])
  }

  /**
   The whole stack. `delivered` holds the frames handed to the service, `out` the responses it sent
   and `aired` the payloads given to the advertiser.
   */
  datatype Stack = Stack(
    received: Bytes,
    frame: Bytes,
    rxWork: bool,
    mgr: Manager,
    timerArmed: bool,
    timerWork: bool,
    delivered: seq<Bytes>,
    out: seq<Response>,
    aired: seq<Bytes>)

  /** What the Bluetooth side answers: ready or not, accepts the data or not, its set and room. */
  datatype Env = Env(ready: bool, setOk: bool, adv: Adv)

  datatype Event = ByteIsr(b: uint8) | TimerExpiry | RunRxWork(env: Env) | RunTimerWork

  function Start(overhead: uint8): Stack {
    Stack([], [], false, Manager(PaIdle, 0, [], overhead), false, false, [], [], [])
  }

  function Send(s: Stack, rsp: Response): Stack {
    s.(out := s.out + [rsp])
  }

  function StatusGetReq(s: Stack, env: Env): Stack {
    Send(s, StatusRsp(if env.ready then [env.adv] else []))
  }

  /** The stack after a data send request, and the result to answer it with. */
  function TryDataSend(s: Stack, sid: uint8, data: Bytes, env: Env): (Stack, uint8) {
    if !env.ready then (s, RESULT_NOT_READY)
    else
      var (m, result) := Submit(s.mgr, sid, data);
      if result != RESULT_SUCCESS then (s, result)
      else if !env.setOk then (s.(mgr := Reset(m)), RESULT_NOT_READY)
      else (s.(mgr := m, timerArmed := true, aired := s.aired + [data]), RESULT_SUCCESS)
  }

  function DataSendReq(s: Stack, sid: uint8, data: Bytes, env: Env): Stack {
    var (r, result) := TryDataSend(s, sid, data, env);
    Send(r, DataSendRsp(result))
  }

  function OnCommand(s: Stack, frame: Bytes, env: Env): Stack {
    match Parse(frame)
    case Ok(StatusGet) => StatusGetReq(s, env)
    case Ok(DataSend(sid, data)) => DataSendReq(s, sid, data, env)
    case Err(_) => s
  }

  function OnPaInterval(s: Stack): Stack {
    var (m, transitioned) := OnInterval(s.mgr);
    if transitioned then Send(s, Complete).(mgr := Reset(m)) else s
  }

  function Step(s: Stack, e: Event): Stack {
    match e
    case ByteIsr(b) =>
      var received := s.received + [b];
      var frames := Frames(received);
      if frames == Frames(s.received) || frames == [] then s.(received := received)
      else s.(received := received, frame := frames[|frames| - 1], rxWork := true)
    case TimerExpiry =>
      if s.timerArmed then s.(timerArmed := false, timerWork := true) else s
    case RunRxWork(env) =>
      if s.rxWork
      then OnCommand(s.(rxWork := false, delivered := s.delivered + [s.frame]), s.frame, env)
      else s
    case RunTimerWork =>
      if s.timerWork then OnPaInterval(s.(timerWork := false)) else s
  }

  function Run(s: Stack, evs: seq<Event>): Stack
    decreases |evs|
  {
    if evs == [] then s else Run(Step(s, evs[0]), evs[1..])
  }

  /* ---------- the output trace ---------- */

  /** Requests accepted. */
  function Successes(out: seq<Response>): nat {
    if out == [] then 0
    else Successes(out[..|out| - 1]) + Count(out[|out| - 1] == DataSendRsp(RESULT_SUCCESS))
  }

  /** Completions notified. */
  function Completions(out: seq<Response>): nat {
    if out == [] then 0
    else Completions(out[..|out| - 1]) + Count(out[|out| - 1] == Complete)
  }

  /** What may be sent after `before`. */
  ghost predicate EntryOk(before: seq<Response>, r: Response) {
    var done, begun := Completions(before), Successes(before);
    done <= begun <= done + 1 &&
    match r
    case StatusRsp(advs) => |advs| <= 1
    case DataSendRsp(result) =>
      if begun == done
      then result in {RESULT_SUCCESS, RESULT_DATA_TOO_LARGE, RESULT_NOT_READY}
      else result in {RESULT_BUSY, RESULT_NOT_READY}
    case Complete => begun == done + 1
  }

  /**
   Acceptances and completions alternate, an acceptance first; between an acceptance and its
   completion a send request is only ever told busy or not ready, and outside never busy.
   */
  ghost predicate TraceOk(out: seq<Response>) {
    forall i | 0 <= i < |out| :: EntryOk(out[..i], out[i])
  }

  lemma TraceAppend(out: seq<Response>, r: Response)
    requires TraceOk(out) && EntryOk(out, r)
    ensures TraceOk(out + [r])
    ensures Successes(out + [r]) == Successes(out) + Count(r == DataSendRsp(RESULT_SUCCESS))
    ensures Completions(out + [r]) == Completions(out) + Count(r == Complete)
  {
    var all := out + [r];
    assert all[..|all| - 1] == out;
    forall i | 0 <= i < |all|
      ensures EntryOk(all[..i], all[i])
    {
      assert all[..i] == out[..i];
    }
  }

  /** Well-formed requests among the frames handed to the service. */
  function Requests(delivered: seq<Bytes>): seq<Command> {
    if delivered == [] then []
    else
      var most, p := Requests(delivered[..|delivered| - 1]), Parse(delivered[|delivered| - 1]);
      if p.Ok? then most + [p.cmd] else most
  }

  /** Responses that answer requests. */
  function Replies(out: seq<Response>): seq<Response> {
    if out == [] then []
    else
      var most, r := Replies(out[..|out| - 1]), out[|out| - 1];
      if r == Complete then most else most + [r]
  }

  predicate Answers(cmd: Command, r: Response) {
    if cmd.StatusGet? then r.StatusRsp? else r.DataSendRsp?
  }

  /** Every well-formed request is answered once, in order, and nothing else is. */
  ghost predicate Answered(cmds: seq<Command>, replies: seq<Response>) {
    |cmds| == |replies| && forall i | 0 <= i < |cmds| :: Answers(cmds[i], replies[i])
  }

  lemma RequestsAppend(delivered: seq<Bytes>, f: Bytes)
    ensures Requests(delivered + [f])
         == Requests(delivered) + if Parse(f).Ok? then [Parse(f).cmd] else []
  {
    var all := delivered + [f];
    assert all[..|all| - 1] == delivered;
  }

  lemma RepliesAppend(out: seq<Response>, r: Response)
    ensures Replies(out + [r]) == Replies(out) + if r == Complete then [] else [r]
  {
    var all := out + [r];
    assert all[..|all| - 1] == out;
  }

  /* ---------- invariant ---------- */

  /** A send is pending exactly while its timer runs or its expiry waits in the work queue. */
  ghost predicate TimerOk(s: Stack) {
    s.mgr.state != PaComplete &&
    Count(s.timerArmed) + Count(s.timerWork) == Count(s.mgr.state == PaPending)
  }

  ghost predicate CountsOk(s: Stack) {
    Successes(s.out) == Completions(s.out) + Count(s.mgr.state == PaPending) &&
    Successes(s.out) == |s.aired| &&
    (s.mgr.state == PaPending ==> s.aired != [] && s.aired[|s.aired| - 1] == s.mgr.data)
  }

  ghost predicate Inv(s: Stack) {
    TimerOk(s) && CountsOk(s) && TraceOk(s.out) && Answered(Requests(s.delivered), Replies(s.out)) &&
    (s.rxWork ==> Frames(s.received) != [] && s.frame == UartAdapter.Last(Frames(s.received)))
  }

  lemma StartInv(overhead: uint8)
    ensures Inv(Start(overhead))
  {
  }

  /** The part of the invariant about the service. */
  ghost predicate ServiceOk(s: Stack) {
    TimerOk(s) && CountsOk(s) && TraceOk(s.out)
  }

  lemma {:induction false} DataSendKeepsInv(s: Stack, sid: uint8, data: Bytes, env: Env)
    requires ServiceOk(s)
    ensures ServiceOk(DataSendReq(s, sid, data, env))
  {
    var (r, result) := TryDataSend(s, sid, data, env);
    assert r.out == s.out && EntryOk(s.out, DataSendRsp(result));
    TraceAppend(s.out, DataSendRsp(result));
  }

  /** A well-formed command is answered once; any other frame is ignored. */
  lemma CommandAnswered(s: Stack, f: Bytes, env: Env) returns (rsp: Response)
    ensures var r := OnCommand(s, f, env);
            r.received == s.received && r.delivered == s.delivered && r.rxWork == s.rxWork &&
            r.frame == s.frame &&
            match Parse(f)
            case Ok(cmd) => r.out == s.out + [rsp] && Answers(cmd, rsp)
            case Err(_) => r == s
  {
    var r := OnCommand(s, f, env);
    rsp := if Parse(f).Ok? then r.out[|s.out|] else Complete;
  }

  lemma {:induction false} CommandKeepsService(s: Stack, f: Bytes, env: Env)
    requires ServiceOk(s)
    ensures ServiceOk(OnCommand(s, f, env))
  {
    match Parse(f)
    case Ok(DataSend(sid, data)) => DataSendKeepsInv(s, sid, data, env);
    case Ok(StatusGet) => TraceAppend(s.out, StatusRsp(if env.ready then [env.adv] else []));
    case Err(_) =>
  }

  lemma AnsweredAppend(cmds: seq<Command>, replies: seq<Response>, cmd: Command, r: Response)
    requires Answered(cmds, replies) && Answers(cmd, r)
    ensures Answered(cmds + [cmd], replies + [r])
  {
  }

  lemma CommandKeepsAnswered(s: Stack, f: Bytes, env: Env)
    requires Answered(Requests(s.delivered), Replies(s.out))
    ensures Answered(Requests(s.delivered + [f]), Replies(OnCommand(s, f, env).out))
  {
    var rsp := CommandAnswered(s, f, env);
    RequestsAppend(s.delivered, f);
    if Parse(f).Ok? {
      RepliesAppend(s.out, rsp);
      AnsweredAppend(Requests(s.delivered), Replies(s.out), Parse(f).cmd, rsp);
    }
  }

  lemma SendAlike(s: Stack, t: Stack, sid: uint8, data: Bytes, env: Env)
    requires s.mgr == t.mgr && s.out == t.out
    ensures DataSendReq(s, sid, data, env).out == DataSendReq(t, sid, data, env).out
  {
    var (r, result) := TryDataSend(s, sid, data, env);
    assert TryDataSend(t, sid, data, env).1 == result;
  }

  /** What is sent does not depend on what was delivered before. */
  lemma CommandAlike(s: Stack, t: Stack, f: Bytes, env: Env)
    requires s.mgr == t.mgr && s.out == t.out
    ensures OnCommand(s, f, env).out == OnCommand(t, f, env).out
  {
    match Parse(f)
    case Ok(DataSend(sid, data)) => SendAlike(s, t, sid, data, env);
    case Ok(StatusGet) => assert StatusGetReq(s, env).out == StatusGetReq(t, env).out;
    case Err(_) =>
  }

  lemma {:induction false} RxWorkKeepsInv(s: Stack, env: Env)
    requires Inv(s) && s.rxWork
    ensures Inv(Step(s, RunRxWork(env)))
  {
    var s0 := s.(rxWork := false, delivered := s.delivered + [s.frame]);
    CommandKeepsService(s0, s.frame, env);
    CommandKeepsAnswered(s, s.frame, env);
    CommandAlike(s, s0, s.frame, env);
    var rsp := CommandAnswered(s0, s.frame, env);
  }

  lemma {:induction false} TimerWorkKeepsService(s: Stack)
    requires ServiceOk(s) && s.timerWork
    ensures Step(s, RunTimerWork) == s.(timerWork := false, mgr := Reset(s.mgr), out := s.out + [Complete])
    ensures ServiceOk(Step(s, RunTimerWork))
  {
    TraceAppend(s.out, Complete);
  }

  lemma {:induction false} TimerWorkKeepsInv(s: Stack)
    requires Inv(s) && s.timerWork
    ensures Inv(Step(s, RunTimerWork))
    ensures Step(s, RunTimerWork).out == s.out + [Complete]
  {
    TimerWorkKeepsService(s);
    RepliesAppend(s.out, Complete);
  }

  lemma ByteKeepsInv(s: Stack, b: uint8)
    requires Inv(s)
    ensures Inv(Step(s, ByteIsr(b)))
  {
    NextByte(s.received, b);
  }

  lemma StepKeepsInv(s: Stack, e: Event)
    requires Inv(s)
    ensures Inv(Step(s, e))
  {
    match e
    case ByteIsr(b) => ByteKeepsInv(s, b);
    case TimerExpiry =>
    case RunRxWork(env) =>
      if s.rxWork {
        RxWorkKeepsInv(s, env);
      }
    case RunTimerWork =>
      if s.timerWork {
        TimerWorkKeepsInv(s);
      }
  }

  /** Whatever bytes arrive and however interrupts and work items interleave. */
  lemma {:induction false} RunKeepsInv(s: Stack, evs: seq<Event>)
    requires Inv(s)
    ensures Inv(Run(s, evs))
    decreases |evs|
  {
    if evs == [] {
    } else {
      StepKeepsInv(s, evs[0]);
      RunKeepsInv(Step(s, evs[0]), evs[1..]);
    }
  }

  /** Over every run of the stack, from the start. */
  lemma SendsAlternateWithCompletions(overhead: uint8, evs: seq<Event>)
    ensures var s := Run(Start(overhead), evs);
            TimerOk(s) && CountsOk(s) && TraceOk(s.out) &&
            Answered(Requests(s.delivered), Replies(s.out))
  {
    StartInv(overhead);
    RunKeepsInv(Start(overhead), evs);
  }

  /** The bytes sent by then, framed by the receiver's own rule, decode to the responses. */
  lemma HostReadsResponses(overhead: uint8, evs: seq<Event>)
    ensures var out := Run(Start(overhead), evs).out;
            (forall i | 0 <= i < |out| :: out[i].StatusRsp? ==> |out[i].advs| <= PA_MAX_ADV_SETS) &&
            var frames := Frames(Concat(EncodeAll(out)));
            |frames| == |out| && forall i | 0 <= i < |out| :: Decode(frames[i]) == Some(out[i])
  {
    SendsAlternateWithCompletions(overhead, evs);
    var out := Run(Start(overhead), evs).out;
    forall i | 0 <= i < |out|
      ensures out[i].StatusRsp? ==> |out[i].advs| <= PA_MAX_ADV_SETS
    {
      assert EntryOk(out[..i], out[i]);
    }
    OutputDecodes(out);
  }

  /** A pending send completes once its timer expires and the work queue runs. */
  lemma PendingCompletes(s: Stack)
    requires Inv(s) && s.mgr.state == PaPending
    ensures var r := Step(Step(s, TimerExpiry), RunTimerWork);
            r.out == s.out + [Complete] && r.mgr.state == PaIdle && !r.timerArmed && !r.timerWork
  {
    StepKeepsInv(s, TimerExpiry);
    TimerWorkKeepsInv(Step(s, TimerExpiry));
  }

  /** With the overhead the data is no larger than a payload may be; no data always fits. */
  predicate Fits(overhead: uint8, data: Bytes) {
    data == [] || overhead + |data| <= PA_MAX_DATA_SIZE
  }

  /** The result of a data send request, from the first check to the last. */
  lemma {:induction false} ResultExactly(s: Stack, sid: uint8, data: Bytes, env: Env)
    ensures var r := DataSendReq(s, sid, data, env);
            var result := if !env.ready then RESULT_NOT_READY
                          else if s.mgr.state != PaIdle then RESULT_BUSY
                          else if !Fits(s.mgr.overhead, data) then RESULT_DATA_TOO_LARGE
                          else if !env.setOk then RESULT_NOT_READY
                          else RESULT_SUCCESS;
            var taken := env.ready && s.mgr.state == PaIdle && Fits(s.mgr.overhead, data);
            r.out == s.out + [DataSendRsp(result)] && r.timerWork == s.timerWork &&
            (if result == RESULT_SUCCESS
             then r.aired == s.aired + [data] && r.timerArmed && r.mgr.state == PaPending
             else r.aired == s.aired && r.timerArmed == s.timerArmed && r.mgr.state == s.mgr.state) &&
            r.mgr.overhead == s.mgr.overhead && r.mgr.sid == (if taken then sid else s.mgr.sid) &&
            r.mgr.data == if result == RESULT_SUCCESS then data else if taken then [] else s.mgr.data
  {
  }

  /** The interval completes a pending send, which is told, and concerns no other state. */
  lemma IntervalExactly(s: Stack)
    ensures var r, pending := OnPaInterval(s), s.mgr.state == PaPending;
            r.out == s.out + (if pending then [Complete] else []) &&
            r.mgr == (if pending then Manager(PaIdle, s.mgr.sid, [], s.mgr.overhead) else s.mgr) &&
            OnInterval(s.mgr) == (if pending then s.mgr.(state := PaComplete) else s.mgr, pending)
  {
  }

  /**
   A request is accepted exactly when idle, ready, no larger than the overhead leaves room for, and taken
   by the advertiser.
   */
  lemma AcceptedExactly(s: Stack, sid: uint8, data: Bytes, env: Env)
    requires Inv(s)
    ensures var r := DataSendReq(s, sid, data, env);
            (r.out == s.out + [DataSendRsp(RESULT_SUCCESS)] <==>
             env.ready && env.setOk && s.mgr.state == PaIdle && Fits(s.mgr.overhead, data)) &&
            (r.out != s.out + [DataSendRsp(RESULT_SUCCESS)] ==>
             r.aired == s.aired && r.mgr.state == s.mgr.state && r.timerArmed == s.timerArmed)
  {
    var r := DataSendReq(s, sid, data, env);
    assert r.out[|s.out|] == (s.out + [DataSendRsp(RESULT_SUCCESS)])[|s.out|] ==>
        r.out == s.out + [DataSendRsp(RESULT_SUCCESS)];
  }

  /* ---------- what the replies say ---------- */

  /** A status reply holds the set exactly when ready, and success is only told of data that was taken. */
  predicate RepliesTo(cmd: Command, env: Env, r: Response) {
    if cmd.StatusGet? then r.StatusRsp? && r.advs == if env.ready then [env.adv] else []
    else
      r.DataSendRsp? && (!env.ready ==> r.result == RESULT_NOT_READY) &&
      (r.result == RESULT_SUCCESS ==> env.ready && env.setOk)
  }

  /** The request that a step serves, if any, and what the Bluetooth side is like then. */
  function Served(s: Stack, e: Event): seq<(Command, Env)> {
    if e.RunRxWork? && s.rxWork && Parse(s.frame).Ok? then [(Parse(s.frame).cmd, e.env)] else []
  }

  function ServedBy(s: Stack, evs: seq<Event>): seq<(Command, Env)>
    decreases |evs|
  {
    if evs == [] then [] else Served(s, evs[0]) + ServedBy(Step(s, evs[0]), evs[1..])
  }

  ghost predicate AllReplyTo(served: seq<(Command, Env)>, replies: seq<Response>) {
    |replies| == |served| && forall i | 0 <= i < |served| :: RepliesTo(served[i].0, served[i].1, replies[i])
  }

  lemma {:induction false} CommandReplies(s: Stack, env: Env) returns (replies: seq<Response>)
    requires s.rxWork
    ensures AllReplyTo(Served(s, RunRxWork(env)), replies)
    ensures Replies(Step(s, RunRxWork(env)).out) == Replies(s.out) + replies
  {
    var s0 := s.(rxWork := false, delivered := s.delivered + [s.frame]);
    var rsp := CommandAnswered(s0, s.frame, env);
    replies := [];
    match Parse(s.frame)
    case Err(_) =>
    case Ok(cmd) =>
      RepliesAppend(s.out, rsp);
      replies := [rsp];
      if cmd.DataSend? {
        ResultExactly(s0, cmd.sid, cmd.data, env);
        assert rsp == DataSendReq(s0, cmd.sid, cmd.data, env).out[|s.out|];
      } else {
        assert rsp == StatusGetReq(s0, env).out[|s.out|];
      }
  }

  lemma {:induction false} StepReplies(s: Stack, e: Event) returns (replies: seq<Response>)
    ensures AllReplyTo(Served(s, e), replies)
    ensures Replies(Step(s, e).out) == Replies(s.out) + replies
  {
    replies := [];
    match e
    case RunRxWork(env) =>
      if s.rxWork {
        replies := CommandReplies(s, env);
      }
    case RunTimerWork => RepliesAppend(s.out, Complete);
    case _ =>
  }

  lemma RepliesConcat(a: seq<(Command, Env)>, ra: seq<Response>, b: seq<(Command, Env)>, rb: seq<Response>)
    requires AllReplyTo(a, ra) && AllReplyTo(b, rb)
    ensures AllReplyTo(a + b, ra + rb)
  {
  }

  /** In every run the replies answer the requests served, one by one and by what they asked. */
  lemma {:induction false} RunReplies(s: Stack, evs: seq<Event>) returns (replies: seq<Response>)
    ensures AllReplyTo(ServedBy(s, evs), replies)
    ensures Replies(Run(s, evs).out) == Replies(s.out) + replies
    decreases |evs|
  {
    if evs == [] {
      replies := [];
    } else {
      var first := StepReplies(s, evs[0]);
      var rest := RunReplies(Step(s, evs[0]), evs[1..]);
      replies := first + rest;
      RepliesConcat(Served(s, evs[0]), first, ServedBy(Step(s, evs[0]), evs[1..]), rest);
      Assoc(Replies(s.out), first, rest);
    }
  }

  /* ---------- delivery ---------- */

  /** The step completes a frame while an earlier one still waits in the slot. */
  predicate Overwrites(s: Stack, e: Event) {
    e.ByteIsr? && s.rxWork && Frames(s.received + [e.b]) != Frames(s.received)
  }

  /** How many frames a run overwrites. */
  function Overwritten(s: Stack, evs: seq<Event>): nat
    decreases |evs|
  {
    if evs == [] then 0 else Count(Overwrites(s, evs[0])) + Overwritten(Step(s, evs[0]), evs[1..])
  }

  /** The frames received that were neither handed to the service nor wait in the slot. */
  function Lost(s: Stack): int {
    |Frames(s.received)| - |s.delivered| - Count(s.rxWork)
  }

  ghost predicate AllDelivered(s: Stack) {
    Frames(s.received) == s.delivered + if s.rxWork then [s.frame] else []
  }

  lemma StepLoses(s: Stack, e: Event)
    ensures Lost(Step(s, e)) == Lost(s) + Count(Overwrites(s, e))
    ensures AllDelivered(s) && !Overwrites(s, e) ==> AllDelivered(Step(s, e))
  {
    match e
    case ByteIsr(b) => NextByte(s.received, b);
    case RunRxWork(env) =>
      if s.rxWork {
        var s0 := s.(rxWork := false, delivered := s.delivered + [s.frame]);
        var rsp := CommandAnswered(s0, s.frame, env);
      }
    case _ =>
  }

  /** A run loses as many frames as it overwrites. */
  lemma {:induction false} LosesExactly(s: Stack, evs: seq<Event>)
    ensures Lost(Run(s, evs)) == Lost(s) + Overwritten(s, evs)
    decreases |evs|
  {
    if evs == [] {
    } else {
      StepLoses(s, evs[0]);
      LosesExactly(Step(s, evs[0]), evs[1..]);
    }
  }

  lemma {:induction false} KeepsUp(s: Stack, evs: seq<Event>)
    requires AllDelivered(s) && Overwritten(s, evs) == 0
    ensures AllDelivered(Run(s, evs))
    decreases |evs|
  {
    if evs == [] {
    } else {
      StepLoses(s, evs[0]);
      KeepsUp(Step(s, evs[0]), evs[1..]);
    }
  }

  /**
   The service is given every frame of the byte stream, in order, if and only if the work queue keeps
   up: it never lets a frame be completed while an earlier one waits.
   */
  lemma DeliversEveryFrame(s: Stack, evs: seq<Event>)
    requires AllDelivered(s)
    ensures AllDelivered(Run(s, evs)) <==> Overwritten(s, evs) == 0
  {
    LosesExactly(s, evs);
    if Overwritten(s, evs) == 0 {
      KeepsUp(s, evs);
    }
  }
}
