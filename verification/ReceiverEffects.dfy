/**
 What each command, callback and event does to the receiver, field by field and message by message, from
 the state before it alone.
 */
module ReceiverEffects {
  import opened CInt
  import opened Common
  import opened Receiver
  import A = AdStructures
  import S = AdScan
  import C = ScanCache

  /* ---------- when ---------- */

  /** The command `op` gets through to its handler. */
  predicate Asks(s: State, e: Event, op: nat) {
    e.CommandEvent? && e.op == op && !s.busy
  }

  /** A PA sync start gives up an earlier sync. */
  predicate Drops(s: State, e: Event) {
    Asks(s, e, OP_PA_SYNC_START) && |e.params| >= 8 && s.sync.handle.Some?
  }

  /** A release finds a sync to delete; it stops the reception whether that succeeds or not. */
  predicate Releases(s: State, e: Event) {
    Asks(s, e, OP_PA_SYNC_RELEASE) && s.sync.bits.paSynced
  }

  predicate StopsBis(s: State, e: Event) {
    Asks(s, e, OP_BIS_SYNC_STOP) && s.sync.bits.bisSynced && e.env.ok
  }

  /** A BIS sync start that is put off to the work queue. */
  predicate Submits(s: State, e: Event) {
    Asks(s, e, OP_BIS_SYNC_START) && s.sync.bits.paSynced && !s.sync.bits.bisSynced
  }

  /* ---------- the two commands that may end a sync ---------- */

  lemma StartEffect(s: State, params: Bytes, env: Env)
    ensures var r := PaSyncStart(s, params, env).sync;
            var drops := |params| >= 8 && s.sync.handle.Some?;
            r.bits == (if drops then Bits(s.sync.bits.searching, false, false) else s.sync.bits) &&
            r.notify == (s.sync.notify && !drops) &&
            r.handle == if |params| < 8 then s.sync.handle else if env.ok then Some(env.handle) else None
  {
  }

  lemma LostEffect(s: State, state: uint8)
    ensures BisLost(s, state) == s.(sync := s.sync.(bits := s.sync.bits.(bisSynced := false)),
                                    app := BisLost(s, state).app)
  {
  }

  lemma TermEffect(s: State)
    ensures PaTerm(s).sync
         == s.sync.(bits := Bits(s.sync.bits.searching, false, false), notify := false, handle := None)
  {
  }

  lemma ReleaseEffect(s: State, env: Env)
    ensures var r, pa := PaSyncRelease(s, env).sync, s.sync.bits.paSynced;
            var ends := pa && (env.ok || env.terminated);
            r.bits == Bits(s.sync.bits.searching, pa && !ends, s.sync.bits.bisSynced && !pa) &&
            r.notify == (s.sync.notify && !pa) && r.handle == if ends then None else s.sync.handle
  {
    if s.sync.bits.paSynced {
      LostEffect(s, 0x00);
      var s1 := BisLost(s, 0x00);
      TermEffect(s1.(sync := s1.sync.(notify := false)));
    }
  }

  lemma StopEffect(s: State, env: Env)
    ensures BisSyncStop(s, env).sync
         == s.sync.(bits := s.sync.bits.(bisSynced := s.sync.bits.bisSynced && !env.ok))
  {
  }

  lemma SearchEffect(s: State, env: Env)
    ensures SearchStart(s, env).sync
         == s.sync.(bits := s.sync.bits.(searching := s.sync.bits.searching || env.ok))
    ensures SearchStop(s).sync == s.sync.(bits := s.sync.bits.(searching := false))
  {
  }

  /** What the other commands do to the sync. */
  lemma OtherEffect(s: State, op: nat, params: Bytes, env: Env)
    requires op != OP_PA_SYNC_START && op != OP_PA_SYNC_RELEASE
    ensures var r := Dispatch(s, op, params, env).sync;
            r.bits.searching == ((s.sync.bits.searching || (op == OP_SEARCH_START && env.ok)) &&
                                 op != OP_SEARCH_STOP) &&
            r.bits.paSynced == s.sync.bits.paSynced &&
            r.bits.bisSynced == (s.sync.bits.bisSynced && !(op == OP_BIS_SYNC_STOP && env.ok)) &&
            r.notify == ((s.sync.notify || (op == OP_PA_DATA_NTF_START && s.sync.bits.paSynced)) &&
                         op != OP_PA_DATA_NTF_STOP) &&
            r.handle == s.sync.handle
  {
    if op == OP_BIS_SYNC_STOP {
      StopEffect(s, env);
    } else if op == OP_SEARCH_START || op == OP_SEARCH_STOP {
      SearchEffect(s, env);
    } else if op == OP_PA_DATA_NTF_START || op == OP_PA_DATA_NTF_STOP {
      assert PaDataNtfStart(s).sync == s.sync.(notify := s.sync.notify || s.sync.bits.paSynced);
      assert PaDataNtfStop(s).sync == s.sync.(notify := false);
    } else {
      OthersKeepSync(s, op, params, env);
    }
  }

  lemma LossEffect(s: State, terminated: bool)
    ensures SyncLost(s, terminated).sync
         == s.sync.(bits := Bits(s.sync.bits.searching, false, false), notify := false, handle := None)
  {
    TermEffect(s);
  }

  lemma CommandEffect(s: State, e: Event)
    requires e.CommandEvent? && !s.busy
    ensures e.op == OP_PA_SYNC_START ==> Step(s, e) == PaSyncStart(s, e.params, e.env)
    ensures e.op == OP_PA_SYNC_RELEASE ==> Step(s, e) == PaSyncRelease(s, e.env)
    ensures Step(s, e) == Dispatch(s, e.op, e.params, e.env)
  {
  }

  /* ---------- field by field ---------- */

  /** The state bits: each is set by one thing, and cleared by exactly these. */
  lemma BitsExactly(s: State, e: Event)
    ensures var b, r := s.sync.bits, Step(s, e).sync.bits;
            r.searching == ((b.searching || (Asks(s, e, OP_SEARCH_START) && e.env.ok)) &&
                            !Asks(s, e, OP_SEARCH_STOP)) &&
            r.paSynced == ((b.paSynced || e.PaSyncedEvent?) && !Ends(s, e) && !Drops(s, e)) &&
            r.bisSynced == ((b.bisSynced || e.StreamingEvent?) && !StopsBis(s, e) && !Drops(s, e) &&
                            !Releases(s, e) && !e.PaTermEvent? && !e.SyncLostEvent?)
  {
    match e
    case CommandEvent(op, params, env) =>
      if !s.busy {
        CommandEffect(s, e);
        if op == OP_PA_SYNC_START {
          StartEffect(s, params, env);
        } else if op == OP_PA_SYNC_RELEASE {
          ReleaseEffect(s, env);
        } else {
          OtherEffect(s, op, params, env);
        }
      }
    case PaTermEvent => TermEffect(s);
    case SyncLostEvent(terminated) => LossEffect(s, terminated);
    case _ =>
  }

  /** The handle of the sync and the wish for payloads. */
  lemma SyncExactly(s: State, e: Event)
    ensures var r := Step(s, e).sync;
            r.handle == (if e.PaSyncedEvent? then Some(e.handle)
                         else if Starts(s, e) then Some(e.env.handle)
                         else if Ends(s, e) || Drops(s, e) then None
                         else s.sync.handle) &&
            r.notify == ((s.sync.notify || (Asks(s, e, OP_PA_DATA_NTF_START) && s.sync.bits.paSynced)) &&
                         !Asks(s, e, OP_PA_DATA_NTF_STOP) && !Drops(s, e) && !Releases(s, e) &&
                         !e.PaTermEvent? && !e.SyncLostEvent? && !e.DisconnectedEvent?)
  {
    match e
    case CommandEvent(op, params, env) =>
      if !s.busy {
        CommandEffect(s, e);
        if op == OP_PA_SYNC_START {
          StartEffect(s, params, env);
        } else if op == OP_PA_SYNC_RELEASE {
          ReleaseEffect(s, env);
        } else {
          OtherEffect(s, op, params, env);
        }
      }
    case PaTermEvent => TermEffect(s);
    case SyncLostEvent(terminated) => LossEffect(s, terminated);
    case _ =>
  }

  lemma CommandsAndAudio(s: State, op: nat, params: Bytes, env: Env)
    ensures Dispatch(s, op, params, env).audio
         == if op == OP_BIS_SYNC_STOP && s.sync.bits.bisSynced && env.ok
            then AudioStop(s.audio.(stream := Paused)) else s.audio
  {
    if op == OP_PA_SYNC_START {
      StartLeaves(s, params, env);
    } else if op == OP_PA_SYNC_RELEASE {
      ReleaseLeaves(s, env);
    } else if op == OP_BIS_SYNC_STOP {
      assert Dispatch(s, op, params, env) == BisSyncStop(s, env);
    }
  }

  /** The audio system is started by the first streaming event, and stopped by what ends a stream. */
  lemma AudioExactly(s: State, e: Event)
    requires AudioOk(s.audio)
    ensures var a, r := s.audio, Step(s, e).audio;
            var stops := e.NotStreamingEvent? || e.SyncLostEvent? || StopsBis(s, e);
            r.stream == (if e.StreamingEvent? then Streaming else if stops then Paused else a.stream) &&
            r.starts == a.starts + Count(e.StreamingEvent? && a.stream == Paused) &&
            r.stops == a.stops + Count(stops && a.stream == Streaming)
  {
    match e
    case CommandEvent(op, params, env) =>
      CommandsAndAudio(s, op, params, env);
    case SyncLostEvent(terminated) => TermLeaves(s, terminated);
    case _ =>
  }

  lemma CommandsAndWork(s: State, op: nat, params: Bytes, env: Env)
    requires op != OP_BIS_SYNC_START
    ensures Dispatch(s, op, params, env).bisWork == s.bisWork
  {
  }

  lemma LossAndWork(s: State, terminated: bool)
    ensures SyncLost(s, terminated).bisWork == s.bisWork && SyncLost(s, terminated).code == s.code
  {
  }

  lemma CommandsAndCode(s: State, op: nat, params: Bytes, env: Env)
    requires op != OP_BIS_SYNC_START
    ensures Dispatch(s, op, params, env).code == s.code
  {
    if op == OP_PA_SYNC_START {
      assert PaSyncStart(s, params, env).code == s.code;
    } else if op == OP_PA_SYNC_RELEASE {
      assert PaSyncRelease(s, env).code == s.code;
    }
  }

  /** The work item, and the code it is going to use: the first 16 bytes, if there are so many. */
  lemma WorkExactly(s: State, e: Event)
    ensures var r := Step(s, e);
            r.bisWork == ((s.bisWork || Submits(s, e)) && !e.BisWorkEvent?) &&
            if Submits(s, e)
            then (r.code.Some? <==> |e.params| >= 16) &&
                 (r.code.Some? ==> r.code.value <= e.params && |r.code.value| == 16)
            else r.code == s.code
  {
    match e
    case CommandEvent(op, params, env) =>
      if op != OP_BIS_SYNC_START {
        CommandsAndWork(s, op, params, env);
        CommandsAndCode(s, op, params, env);
      }
    case SyncLostEvent(terminated) => LossAndWork(s, terminated);
    case _ =>
  }

  /* ---------- from scan to sync ---------- */

  /**
   A scan result is notified and cached together: source and id read back from the notification are those
   of the cache entry.
   */
  lemma ScanIsReported(s: State, sid: uint8, addr: S.Addr, rssi: int, buf: Bytes)
    requires |addr.val| == 6 && -128 <= rssi < 128
    ensures var r, f := Step(s, ScanEvent(sid, addr, rssi, buf)), S.Look(A.Parse(buf));
            if s.sync.bits.searching && s.app.conn && f.id.Some? && f.name != []
            then
              |f.id.value| == 3 && r.reports == s.reports + [C.Entry(C.Key(addr, sid), S.BroadcastId(f.id.value))] &&
              r.app.out.Then? && r.app.out.before == s.app.out && r.app.out.last.SearchResult? &&
              S.ReadNotification(r.app.out.last.params)
              == Some(S.SearchResult(sid, addr, f.name, f.id.value, f.encrypted, rssi))
            else r == s
  {
    var f := S.Look(A.Parse(buf));
    S.LookFits(A.Parse(buf));
    if f.id.Some? && f.name != [] {
      S.NotificationReadsBack(S.SearchResult(sid, addr, f.name, f.id.value, f.encrypted, rssi));
    }
  }

  /** The search result sent last, as the app reads it. */
  function LastFound(s: State): Option<S.SearchResult> {
    if s.app.out.Then? && s.app.out.last.SearchResult? then S.ReadNotification(s.app.out.last.params) else None
  }

  /** A PA sync start with the SID and the address of a search result. */
  function StartOf(found: S.SearchResult, env: Env): Event {
    CommandEvent(OP_PA_SYNC_START, [found.sid, found.addr.kind] + found.addr.val, env)
  }

  /**
   The app starts a sync with SID and address as it has read them from a search result: the receiver then
   keeps that source, with the id that was in the same search result.
   */
  lemma FoundIsSynced(s: State, sid: uint8, addr: S.Addr, rssi: int, buf: Bytes, env: Env)
    requires |addr.val| == 6 && -128 <= rssi < 128 && !s.busy && env.ok
    requires s.sync.bits.searching && s.app.conn
    requires S.Look(A.Parse(buf)).id.Some? && S.Look(A.Parse(buf)).name != []
    ensures var r := Step(s, ScanEvent(sid, addr, rssi, buf));
            var found := LastFound(r);
            found.Some? && |found.value.id| == 3 &&
            Step(r, StartOf(found.value, env)).sync.source
            == C.Entry(C.Key(addr, sid), S.BroadcastId(found.value.id))
  {
    var r := Step(s, ScanEvent(sid, addr, rssi, buf));
    ScanIsReported(s, sid, addr, rssi, buf);
    var params := [sid, addr.kind] + addr.val;
    assert params[2..8] == addr.val;
    var start := CommandEvent(OP_PA_SYNC_START, params, env);
    OnlyStartsChangeSource(r, start);
    C.LookupIsLatest(r.reports, C.Key(addr, sid));
    C.JustReported(s.reports, r.reports[|s.reports|]);
  }

  /**
   From the air to the sync: the receiver hears the broadcaster's advertisement, the app starts a sync with
   what the search result says, and the receiver keeps the broadcast id that was advertised.
   */
  lemma BroadcasterIsSynced(
    s: State, sid: uint8, addr: S.Addr, rssi: int, uuids: Bytes, name: Bytes, id: nat, appearance: uint16,
    features: uint8, metadata: Bytes, env: Env)
    requires |addr.val| == 6 && -128 <= rssi < 128 && !s.busy && env.ok
    requires s.sync.bits.searching && s.app.conn
    requires |uuids| <= 254 && 1 <= |name| <= 254 && id < 0x100_0000 && |metadata| <= 250
    ensures var ads := S.Advertisement(uuids, name, id, appearance, features, metadata);
            A.Encodable(ads) &&
            var r := Step(s, ScanEvent(sid, addr, rssi, A.Encode(ads)));
            var found := LastFound(r);
            found.Some? && found.value.encrypted == features % 2 &&
            Step(r, StartOf(found.value, env)).sync.source == C.Entry(C.Key(addr, sid), id)
  {
    S.AdvertisementIsFound(uuids, name, id, appearance, features, metadata);
    var buf := A.Encode(S.Advertisement(uuids, name, id, appearance, features, metadata));
    ScanIsReported(s, sid, addr, rssi, buf);
    FoundIsSynced(s, sid, addr, rssi, buf, env);
  }

  /** At the start nothing is on, known or remembered. */
  lemma StartsWithNothing()
    ensures var s := Start();
            StateByte(s.sync.bits) == 0 && !s.sync.notify && s.sync.handle == None && !s.app.conn && !s.busy &&
            !s.bisWork && s.code == None && s.audio.stream == Paused && !s.audio.running && s.audio.starts == 0 &&
            s.reports == [] && s.heard == [] && s.app.out == Nothing && s.volume == 0 && s.mute == 0 &&
            s.sink == Sink(None, None, 0) && s.sync.source.broadcastId == 0 &&
            s.sync.source.key == C.Key(S.Addr(0, [0, 0, 0, 0, 0, 0]), 0)
  {
  }
}
