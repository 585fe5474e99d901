/**
 What the receiver sends: for each command, callback and event the messages, in order, from the state
 before it alone; and how the app reads them.
 */
module ReceiverMessages {
  import opened CInt
  import opened Common
  import opened Receiver
  import opened ReceiverEffects
  import A = AdStructures
  import S = AdScan

  /** The messages sent, the first one first. */
  function Messages(log: Log): seq<Msg> {
    if log.Nothing? then [] else Messages(log.before) + [log.last]
  }

  /** Notifications go out over a connection only. */
  function IfConnected(s: State, ms: seq<Msg>): seq<Msg> {
    if s.app.conn then ms else []
  }

  /** What is said of a BIS sync that stops. */
  function BisEnd(s: State, state: uint8): seq<Msg> {
    if s.sync.bits.bisSynced then IfConnected(s, [BisSyncState(state)]) else []
  }

  /** What is said of a PA sync that ends: its address, and bits without any sync. */
  function SyncEnd(s: State): seq<Msg> {
    IfConnected(s, [PaSyncState(0x00, s.sync.source.key.addr.val),
                    Transition(Bits(s.sync.bits.searching, false, false))])
  }

  /** What a command has for an answer, and the notifications that go with it. */
  function Replies(s: State, op: nat, params: Bytes, env: Env): seq<Msg> {
    var b, n := s.sync.bits, |params|;
    if op == OP_DEVICE_INFO then [Info(op, DeviceInfo())]
    else if op == OP_SEARCH_START then
      [Result(op, !b.searching && env.ok)] +
      if !b.searching && env.ok then IfConnected(s, [Transition(Bits(true, b.paSynced, b.bisSynced))]) else []
    else if op == OP_SEARCH_STOP then
      [Result(op, b.searching)] +
      if b.searching then IfConnected(s, [Transition(Bits(false, b.paSynced, b.bisSynced))]) else []
    else if op == OP_PA_SYNC_START then
      (if n >= 8 && s.sync.handle.Some? && env.terminated then SyncEnd(s) else []) +
      [Result(op, n >= 8 && env.ok)]
    else if op == OP_PA_SYNC_RELEASE then
      if !b.paSynced then [Result(op, false)]
      else BisEnd(s, 0x00) + (if env.terminated then SyncEnd(s) else []) + [Result(op, env.ok)] +
           if env.ok then SyncEnd(s) else []
    else if op == OP_BIS_SYNC_START then
      if b.paSynced && !b.bisSynced then [] else [Result(op, false)]
    else if op == OP_BIS_SYNC_STOP then
      [Result(op, b.bisSynced && env.ok)] +
      if b.bisSynced && env.ok
      then IfConnected(s, [BisSyncState(0x00), Transition(Bits(b.searching, b.paSynced, false))]) else []
    else if op == OP_PA_DATA_NTF_START then [Result(op, b.paSynced)]
    else if op == OP_PA_DATA_NTF_STOP then [Result(op, s.sync.notify)]
    else if op == OP_VOLUME_SET then
      [Result(op, n >= 1)] + if n >= 1 then IfConnected(s, [VolumeChange(params[0], s.mute)]) else []
    else if op == OP_MUTE_SET then
      [Result(op, n >= 1)] + if n >= 1 then IfConnected(s, [VolumeChange(s.volume, params[0])]) else []
    else if op == OP_VOLUME_GET then [Info(op, [s.volume, s.mute])]
    else if op == OP_AUDIO_OUTPUT then [Result(op, n >= 4)]
    else []
  }

  /** What an event makes the receiver send. */
  function Sent(s: State, e: Event): seq<Msg> {
    var b := s.sync.bits;
    match e
    case CommandEvent(op, params, env) =>
      if s.busy then [Result(op % 0x100, false)] else Replies(s, op, params, env)
    case PaSyncedEvent(_, addr) =>
      IfConnected(s, [PaSyncState(0x01, addr.val), Transition(Bits(b.searching, true, b.bisSynced))])
    case PaTermEvent => BisEnd(s, 0x00) + SyncEnd(s)
    case PaReportEvent(_) =>
      if VendorOf(e).Some? && Listens(s) && A.IsNews(s.heard, VendorOf(e).value)
      then [PaDataNtf(VendorOf(e).value)] else []
    case ScanEvent(sid, addr, rssi, buf) =>
      var f := S.Look(A.Parse(buf));
      S.LookFits(A.Parse(buf));
      if b.searching && s.app.conn && f.id.Some? && f.name != []
      then [SearchResult(S.Notification(S.SearchResult(sid, addr, f.name, f.id.value, f.encrypted, rssi)))]
      else []
    case StreamingEvent => IfConnected(s, [BisSyncState(0x01), Transition(Bits(b.searching, b.paSynced, true))])
    case SyncLostEvent(terminated) =>
      (if terminated then BisEnd(s, 0x00) + SyncEnd(s) else BisEnd(s, 0x02)) +
      IfConnected(s, [Transition(Bits(b.searching, false, false))])
    case BisWorkEvent(setOk, startOk) =>
      if s.bisWork then IfConnected(s, [Result(OP_BIS_SYNC_START, setOk && startOk)]) else []
    case _ => []
  }

  /** The step from `s` to `r` has sent these messages, and the connection is what it was. */
  ghost predicate Sends(s: State, r: State, ms: seq<Msg>) {
    Messages(r.app.out) == Messages(s.app.out) + ms && r.app.conn == s.app.conn
  }

  lemma {:induction false} SendsAlso(s: State, m: State, r: State, a: seq<Msg>, b: seq<Msg>)
    requires Sends(s, m, a) && Sends(m, r, b)
    ensures Sends(s, r, a + b)
  {
  }

  /* ---------- the parts ---------- */

  lemma {:induction false} LostSends(s: State, state: uint8)
    ensures Sends(s, BisLost(s, state), BisEnd(s, state))
  {
  }

  lemma {:induction false} EndSends(s: State)
    ensures var b := s.sync.bits;
            Sends(s, PaSyncEnded(s),
                  IfConnected(s, [PaSyncState(0x00, s.sync.source.key.addr.val),
                                  Transition(Bits(b.searching, false, b.bisSynced))]))
  {
  }

  lemma {:induction false} TermSends(s: State)
    ensures Sends(s, PaTerm(s), BisEnd(s, 0x00) + SyncEnd(s))
  {
    var s1 := BisLost(s, 0x00);
    var s2 := s1.(sync := s1.sync.(notify := false));
    LostEffect(s, 0x00);
    LostSends(s, 0x00);
    EndSends(s2);
    SendsAlso(s, s2, PaTerm(s), BisEnd(s, 0x00), SyncEnd(s));
  }

  /** Deleting a sync whose BIS sync has been stopped already. */
  lemma {:induction false} DeletedSends(s: State, terminated: bool)
    requires !s.sync.bits.bisSynced
    ensures Sends(s, Deleted(s, terminated), if terminated then SyncEnd(s) else [])
  {
    TermSends(s);
    assert BisEnd(s, 0x00) + SyncEnd(s) == SyncEnd(s);
  }

  lemma {:induction false} RespondSends(s: State, op: nat, ok: bool)
    ensures Sends(s, Respond(s, op, ok), [Result(op, ok)])
  {
  }

  /* ---------- commands ---------- */

  /** What giving up an earlier sync tells. */
  function GivenUpTold(s: State, terminated: bool): seq<Msg> {
    if s.sync.handle.Some? && terminated then SyncEnd(s) else []
  }

  lemma {:induction false} GivenUpSends(s: State, terminated: bool)
    ensures Sends(s, GivenUp(s, terminated), GivenUpTold(s, terminated))
  {
    var s0 := s.(sync := s.sync.(bits := s.sync.bits.(bisSynced := false), notify := false));
    DeletedSends(s0, terminated);
    assert SyncEnd(s0) == SyncEnd(s);
  }

  lemma {:induction false} StartSends(s: State, params: Bytes, env: Env)
    ensures Sends(s, PaSyncStart(s, params, env), Replies(s, OP_PA_SYNC_START, params, env))
  {
    var answer := [Result(OP_PA_SYNC_START, |params| >= 8 && env.ok)];
    if |params| >= 8 {
      var m, r := GivenUp(s, env.terminated), PaSyncStart(s, params, env);
      GivenUpSends(s, env.terminated);
      assert r.app == Respond(m, OP_PA_SYNC_START, env.ok).app;
      RespondSends(m, OP_PA_SYNC_START, env.ok);
      SendsAlso(s, m, r, GivenUpTold(s, env.terminated), answer);
    }
  }

  /** A release up to its answer. */
  lemma {:induction false} ReleaseStops(s: State, terminated: bool)
    ensures var s1 := BisLost(s, 0x00);
            var r := Deleted(s1.(sync := s1.sync.(notify := false)), terminated);
            Sends(s, r, BisEnd(s, 0x00) + if terminated then SyncEnd(s) else []) &&
            SyncEnd(r) == SyncEnd(s) && !r.sync.bits.bisSynced
  {
    var s1 := BisLost(s, 0x00);
    var s2 := s1.(sync := s1.sync.(notify := false));
    LostEffect(s, 0x00);
    LostSends(s, 0x00);
    DeletedSends(s2, terminated);
    TermEffect(s2);
    TermLeaves(s2, terminated);
    assert SyncEnd(s2) == SyncEnd(s);
    SendsAlso(s, s2, Deleted(s2, terminated), BisEnd(s, 0x00), if terminated then SyncEnd(s) else []);
  }

  /** From its answer on. */
  lemma {:induction false} ReleaseEnds(s: State, ok: bool)
    requires !s.sync.bits.bisSynced
    ensures var r := Respond(s, OP_PA_SYNC_RELEASE, ok);
            Sends(s, if ok then PaSyncEnded(r) else r,
                  [Result(OP_PA_SYNC_RELEASE, ok)] + if ok then SyncEnd(s) else [])
  {
    var r := Respond(s, OP_PA_SYNC_RELEASE, ok);
    RespondSends(s, OP_PA_SYNC_RELEASE, ok);
    if ok {
      EndSends(r);
      SendsAlso(s, r, PaSyncEnded(r), [Result(OP_PA_SYNC_RELEASE, ok)], SyncEnd(s));
    }
  }

  lemma {:induction false} ReleaseReplies(s: State, env: Env)
    requires s.sync.bits.paSynced
    ensures Replies(s, OP_PA_SYNC_RELEASE, [], env)
         == (BisEnd(s, 0x00) + if env.terminated then SyncEnd(s) else [])
            + ([Result(OP_PA_SYNC_RELEASE, env.ok)] + if env.ok then SyncEnd(s) else [])
  {
    Assoc(BisEnd(s, 0x00) + if env.terminated then SyncEnd(s) else [],
          [Result(OP_PA_SYNC_RELEASE, env.ok)], if env.ok then SyncEnd(s) else []);
  }

  lemma {:induction false} ReleaseInParts(s: State, m: State, r: State, a: seq<Msg>, env: Env)
    requires Sends(s, m, a) && SyncEnd(m) == SyncEnd(s) && !m.sync.bits.bisSynced
    requires r == if env.ok then PaSyncEnded(Respond(m, OP_PA_SYNC_RELEASE, env.ok))
                  else Respond(m, OP_PA_SYNC_RELEASE, env.ok)
    ensures Sends(s, r, a + ([Result(OP_PA_SYNC_RELEASE, env.ok)] + if env.ok then SyncEnd(s) else []))
  {
    ReleaseEnds(m, env.ok);
    SendsAlso(s, m, r, a, [Result(OP_PA_SYNC_RELEASE, env.ok)] + if env.ok then SyncEnd(s) else []);
  }

  lemma {:induction false} ReleaseSends(s: State, env: Env)
    requires s.sync.bits.paSynced
    ensures Sends(s, PaSyncRelease(s, env), Replies(s, OP_PA_SYNC_RELEASE, [], env))
  {
    var s1 := BisLost(s, 0x00);
    var m := Deleted(s1.(sync := s1.sync.(notify := false)), env.terminated);
    ReleaseStops(s, env.terminated);
    ReleaseInParts(s, m, PaSyncRelease(s, env), BisEnd(s, 0x00) + if env.terminated then SyncEnd(s) else [], env);
    ReleaseReplies(s, env);
  }

  lemma {:induction false} StopSends(s: State, env: Env)
    ensures Sends(s, BisSyncStop(s, env), Replies(s, OP_BIS_SYNC_STOP, [], env))
  {
    if s.sync.bits.bisSynced && env.ok {
      var s1 := Respond(s, OP_BIS_SYNC_STOP, true);
      var s2 := s1.(audio := AudioStop(s1.audio.(stream := Paused)));
      RespondSends(s, OP_BIS_SYNC_STOP, true);
      LostSends(s2, 0x00);
      LostEffect(s2, 0x00);
      SendsAlso(s, s2, BisLost(s2, 0x00), [Result(OP_BIS_SYNC_STOP, true)], BisEnd(s2, 0x00));
      var last := IfConnected(s, [Transition(Bits(s.sync.bits.searching, s.sync.bits.paSynced, false))]);
      SendsAlso(s, BisLost(s2, 0x00), BisSyncStop(s, env),
                [Result(OP_BIS_SYNC_STOP, true)] + BisEnd(s2, 0x00), last);
    }
  }

  lemma SearchStartSends(s: State, env: Env)
    ensures Sends(s, SearchStart(s, env), Replies(s, OP_SEARCH_START, [], env))
  {
  }

  lemma SearchStopSends(s: State, env: Env)
    ensures Sends(s, SearchStop(s), Replies(s, OP_SEARCH_STOP, [], env))
  {
  }

  lemma {:induction false} VolumeSends(s: State, params: Bytes, env: Env)
    ensures Sends(s, VolumeSet(s, params), Replies(s, OP_VOLUME_SET, params, env))
  {
  }

  lemma {:induction false} MuteSends(s: State, params: Bytes, env: Env)
    ensures Sends(s, MuteSet(s, params), Replies(s, OP_MUTE_SET, params, env))
  {
  }

  lemma {:induction false} AnswersSend(s: State, op: nat, params: Bytes, env: Env)
    requires op in {OP_DEVICE_INFO, OP_BIS_SYNC_START, OP_PA_DATA_NTF_START, OP_PA_DATA_NTF_STOP,
                    OP_VOLUME_GET, OP_AUDIO_OUTPUT} || !Known(op)
    ensures Sends(s, Dispatch(s, op, params, env), Replies(s, op, params, env))
  {
  }

  lemma {:induction false} DispatchSends(s: State, op: nat, params: Bytes, env: Env)
    ensures Sends(s, Dispatch(s, op, params, env), Replies(s, op, params, env))
  {
    if op == OP_PA_SYNC_START {
      StartSends(s, params, env);
    } else if op == OP_PA_SYNC_RELEASE {
      if s.sync.bits.paSynced {
        ReleaseSends(s, env);
      }
    } else if op == OP_BIS_SYNC_STOP {
      StopSends(s, env);
    } else if op == OP_SEARCH_START {
      SearchStartSends(s, env);
    } else if op == OP_SEARCH_STOP {
      SearchStopSends(s, env);
    } else if op == OP_VOLUME_SET {
      VolumeSends(s, params, env);
    } else if op == OP_MUTE_SET {
      MuteSends(s, params, env);
    } else {
      AnswersSend(s, op, params, env);
    }
  }

  /* ---------- events ---------- */

  lemma {:induction false} GoneSends(s: State)
    ensures Sends(s, SyncGone(s),
                  BisEnd(s, 0x02) + IfConnected(s, [Transition(Bits(s.sync.bits.searching, false, false))]))
  {
    var s1 := s.(sync := s.sync.(notify := false), heard := []);
    LostSends(s1, 0x02);
    LostEffect(s1, 0x02);
    SendsAlso(s, BisLost(s1, 0x02), SyncGone(s), BisEnd(s, 0x02),
              IfConnected(s, [Transition(Bits(s.sync.bits.searching, false, false))]));
  }

  /** Up to the deletion of the sync. */
  lemma {:induction false} LossDeletes(s: State, terminated: bool)
    ensures var r := Deleted(s, terminated);
            Sends(s, r, if terminated then BisEnd(s, 0x00) + SyncEnd(s) else []) &&
            r.sync.bits.searching == s.sync.bits.searching &&
            BisEnd(r, 0x02) == if terminated then [] else BisEnd(s, 0x02)
  {
    TermSends(s);
    TermEffect(s);
  }

  lemma {:induction false} LossSends(s: State, terminated: bool)
    ensures Sends(s, SyncLost(s, terminated), Sent(s, SyncLostEvent(terminated)))
  {
    var told := if terminated then BisEnd(s, 0x00) + SyncEnd(s) else [];
    var m := Deleted(s, terminated);
    var m' := m.(audio := AudioPaused(m.audio));
    var last := IfConnected(s, [Transition(Bits(s.sync.bits.searching, false, false))]);
    LossDeletes(s, terminated);
    GoneSends(m');
    assert Sends(m, SyncLost(s, terminated), BisEnd(m, 0x02) + last);
    SendsAlso(s, m, SyncLost(s, terminated), told, BisEnd(m, 0x02) + last);
    Assoc(told, BisEnd(m, 0x02), last);
  }

  lemma {:induction false} ReportsSend(s: State, e: Event)
    requires e.PaReportEvent? || e.ScanEvent?
    ensures Sends(s, Step(s, e), Sent(s, e))
  {
    if e.ScanEvent? {
      S.LookFits(A.Parse(e.buf));
    }
  }

  lemma {:induction false} CallbacksSend(s: State, e: Event)
    requires e.PaSyncedEvent? || e.StreamingEvent? || e.BisWorkEvent?
    ensures Sends(s, Step(s, e), Sent(s, e))
  {
  }

  /** Every step sends exactly these messages, in this order. */
  lemma {:induction false} SendsExactly(s: State, e: Event)
    ensures Messages(Step(s, e).app.out) == Messages(s.app.out) + Sent(s, e)
    ensures Step(s, e).app.conn == ((s.app.conn || e.ConnectedEvent?) && !e.DisconnectedEvent?)
  {
    match e
    case CommandEvent(op, params, env) =>
      if s.busy {
        RespondSends(s, op % 0x100, false);
      } else {
        DispatchSends(s, op, params, env);
      }
    case PaTermEvent => TermSends(s);
    case SyncLostEvent(terminated) => LossSends(s, terminated);
    case NotStreamingEvent =>
    case ConnectedEvent =>
    case DisconnectedEvent =>
    case PaReportEvent(_) => ReportsSend(s, e);
    case ScanEvent(_, _, _, _) => ReportsSend(s, e);
    case _ => CallbacksSend(s, e);
  }

  /** What a whole run makes the receiver send. */
  function SentBy(w: World, evs: seq<Event>): seq<Msg>
    decreases |evs|
  {
    if evs == [] then [] else Sent(w.s, evs[0]) + SentBy(Next(w, evs[0]), evs[1..])
  }

  lemma {:induction false} RunSends(w: World, evs: seq<Event>)
    ensures Messages(Run(w, evs).s.app.out) == Messages(w.s.app.out) + SentBy(w, evs)
    decreases |evs|
  {
    if evs == [] {
    } else {
      SendsExactly(w.s, evs[0]);
      RunSends(Next(w, evs[0]), evs[1..]);
      Assoc(Messages(w.s.app.out), Sent(w.s, evs[0]), SentBy(Next(w, evs[0]), evs[1..]));
    }
  }

  /* ---------- how the app reads them ---------- */

  /** A frame from the receiver; its locations are always front left and front right. */
  function ReadMessage(op: nat, p: Bytes): Option<Msg> {
    if op == 0x0C01 then Some(SearchResult(p))
    else if op == 0x0C02 then
      if |p| == 11 && p[7..] == [0, 0, 0, 3] then Some(PaSyncState(p[0], p[1..7])) else None
    else if op == 0x0C03 then if |p| == 1 then Some(BisSyncState(p[0])) else None
    else if op == 0x0C04 then Some(PaDataNtf(p))
    else if op == 0x0C05 then if |p| == 2 then Some(VolumeChange(p[0], p[1])) else None
    else if op == 0x0C06 then
      if |p| == 1 then Some(Transition(Bits(p[0] % 2 == 1, p[0] / 2 % 2 == 1, p[0] / 4 % 2 == 1))) else None
    else if op < RSP then None
    else if |p| == 1 then Some(Result(op - RSP, p[0] == 0x00))
    else Some(Info(op - RSP, p))
  }

  /** Every message is read as it was sent. */
  lemma MessagesReadBack(m: Msg)
    requires m.PaSyncState? ==> |m.addr| == 6
    requires m.Result? ==> m.op < 0x400
    requires m.Info? ==> m.op < 0x400 && |m.info| != 1
    ensures ReadMessage(Wire(m).0, Wire(m).1) == Some(m)
  {
    if m.PaSyncState? {
      var p := Wire(m).1;
      assert p[1..7] == m.addr && p[7..] == [0, 0, 0, 3];
    }
  }

  /** The fields of the device info: type, length and value each. */
  function ReadFields(p: Bytes): seq<(uint8, Bytes)> {
    if |p| < 2 || |p| - 2 < p[1] then [] else [(p[0], p[2..2 + p[1]])] + ReadFields(p[2 + p[1]..])
  }

  lemma {:induction false} FieldsReadBack(fs: seq<(uint8, Bytes)>)
    requires forall i | 0 <= i < |fs| :: |fs[i].1| < 0x100
    ensures ReadFields(Fields(fs)) == fs
    decreases |fs|
  {
    if fs == [] {
    } else {
      FieldsReadBack(fs[1..]);
      var p, n := Fields(fs), |fs[0].1|;
      assert p[2..2 + n] == fs[0].1 && p[2 + n..] == Fields(fs[1..]);
    }
  }

  lemma DeviceInfoReadsBack()
    ensures ReadFields(DeviceInfo()) == InfoFields()
  {
    FieldsReadBack(InfoFields());
  }
}
