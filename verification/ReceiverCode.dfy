/**
 The receiver's handlers and callbacks as they are written. Each takes the step `Receiver` gives it and
 keeps the invariant of all its runs.
 */
module ReceiverCode {
  import opened CInt
  import opened Common
  import opened Receiver
  import A = AdStructures
  import S = AdScan
  import C = ScanCache

  lemma DispatchIsNext(w: World, op: nat, params: Bytes, env: Env)
    requires !w.s.busy
    ensures Next(w, CommandEvent(op, params, env))
         == World(Dispatch(w.s, op, params, env), AndThen(w.requests, op),
                  if op == OP_PA_SYNC_START && |params| >= 8 && env.ok then Some(w.s.reports)
                  else w.known)
  {
  }

  /** What answering a request keeps. */
  lemma RequestKeepsInv(w: World, op: nat, params: Bytes, env: Env)
    requires Inv(w) && !w.s.busy
    ensures Inv(World(Dispatch(w.s, op, params, env), AndThen(w.requests, op),
                      if op == OP_PA_SYNC_START && |params| >= 8 && env.ok then Some(w.s.reports)
                      else w.known))
  {
    StepKeepsInv(w, CommandEvent(op, params, env));
  }

  lemma ReleaseKeepsInv(w: World, env: Env)
    requires Inv(w) && !w.s.busy
    ensures Inv(World(PaSyncRelease(w.s, env), AndThen(w.requests, OP_PA_SYNC_RELEASE), w.known))
  {
    RequestKeepsInv(w, OP_PA_SYNC_RELEASE, [], env);
  }

  /** What the sink was given, what was sent, cached and heard. */
  datatype Past = Past(sink: Sink, out: Log, reports: seq<C.Entry>, heard: seq<Bytes>)

  /** The static variables of the program; those of the PA sync and of the audio stream are grouped. */
  class AuracastReceiver {
    var sync: Sync
    var audio: Audio
    var currentConn: bool
    var commandBusy: bool
    var currentVolume: uint8
    var currentMute: uint8
    var bisSyncWork: bool
    var bisSyncCode: Option<Bytes>
    const scanCache: C.Table
    const paData: A.PaDataMonitor
    ghost var past: Past
    /** The requests received, and the scan results cached when the last PA sync was started. */
    ghost var requests: Requests
    ghost var known: Option<seq<C.Entry>>

    ghost function Value(): State
      reads this
    {
      State(sync, audio, App(currentConn, past.out), commandBusy, bisSyncWork, bisSyncCode, past.sink,
            currentVolume, currentMute, past.reports, past.heard)
    }

    /** The state with what happened on the way to it. */
    ghost function Lived(): World
      reads this
    {
      World(Value(), requests, known)
    }

    ghost predicate Valid()
      reads this
    {
      Inv(Lived())
    }

    /** The scan cache holds the results cached, and the id kept for the source is from there. */
    ghost predicate CacheOk()
      reads this`past, this`known, this`sync, scanCache, scanCache.slots
    {
      scanCache.Valid() && scanCache.history == past.reports && SourceOk(sync.source, known, past.reports)
    }

    /** The change detection has seen the payloads heard. */
    ghost predicate PaDataOk()
      reads this`past, paData, paData.prevPaData
    {
      paData.Valid() && paData.heard == past.heard
    }

    constructor ()
      ensures Valid() && CacheOk() && PaDataOk() && Lived() == FirstWorld()
    {
      sync := Sync(Bits(false, false, false), false, None, C.Entry(C.Key(NoAddr(), 0), 0));
      audio := Audio(Paused, false, 0, 0);
      currentConn, commandBusy, currentVolume, currentMute := false, false, 0, 0;
      bisSyncWork, bisSyncCode := false, None;
      scanCache := new C.Table();
      paData := new A.PaDataMonitor();
      past, requests, known := Past(Sink(None, None, 0), Nothing, [], []), NoRequest, None;
    }

    /* ---------- notification helpers ---------- */

    /** `auracast_gatt_send_response` of a response. */
    method SendResult(op: nat, ok: bool)
      modifies this`past
      ensures Value() == Respond(old(Value()), op, ok)
    {
      past := past.(out := Then(past.out, Result(op, ok)));
    }

    method SendInfo(op: nat, info: Bytes)
      modifies this`past
      ensures Value() == Tell(old(Value()), op, info)
    {
      past := past.(out := Then(past.out, Info(op, info)));
    }

    /** A notification, which needs a connection. */
    method SendNotification(m: Msg)
      modifies this`past
      ensures Value() == old(Value()).(app := Notify(old(Value()).app, m))
    {
      if !currentConn {
        return;
      }
      past := past.(out := Then(past.out, m));
    }

    method NotifyStateTransition()
      modifies this`past
      ensures Value() == TellTransition(old(Value()))
    {
      SendNotification(Transition(sync.bits));
    }

    method NotifyPaSyncState(state: uint8, addr: S.Addr)
      modifies this`past
      ensures Value() == TellPaSync(old(Value()), state, addr.val)
    {
      SendNotification(PaSyncState(state, addr.val));
    }

    /** Clears the BIS_SYNCED bit, if set, and says so. */
    method DropBisSync(state: uint8)
      modifies this`past, this`sync
      ensures Value() == BisLost(old(Value()), state)
    {
      if sync.bits.bisSynced {
        sync := sync.(bits := sync.bits.(bisSynced := false));
        SendNotification(BisSyncState(state));
      }
    }

    /** Neither audio nor payloads are received any more. */
    method EndReception()
      modifies this`past, this`sync
      ensures var s := BisLost(old(Value()), 0x00);
              Value() == s.(sync := s.sync.(notify := false))
    {
      DropBisSync(0x00);
      sync := sync.(notify := false);
    }

    /** The BIS is synced. */
    method GainBisSync()
      modifies this`past, this`sync
      ensures Value() == BisGained(old(Value()))
    {
      sync := sync.(bits := sync.bits.(bisSynced := true));
      SendNotification(BisSyncState(0x01));
      NotifyStateTransition();
    }

    method SwitchSearching(on: bool)
      modifies this`past, this`sync
      ensures Value() == SetSearching(old(Value()), on)
    {
      sync := sync.(bits := sync.bits.(searching := on));
      NotifyStateTransition();
    }

    /** The payloads heard no longer count. */
    method Forget()
      requires PaDataOk()
      modifies this`past, paData`paDataReceivedOnce, paData`heard, paData`changes
      ensures PaDataOk() && past == old(past).(heard := [])
    {
      paData.Forget();
      past := past.(heard := []);
    }

    /** No PA sync any more. */
    method ClearPaSync()
      modifies this`sync
      ensures sync == old(sync).(bits := old(sync).bits.(paSynced := false), handle := None)
    {
      sync := sync.(handle := None);
      sync := sync.(bits := sync.bits.(paSynced := false));
    }

    /** There is no PA sync any more, and the app is told. */
    method EndPaSync()
      requires PaDataOk()
      modifies this`past, this`sync, paData`paDataReceivedOnce, paData`heard, paData`changes
      ensures PaDataOk() && Value() == PaSyncEnded(old(Value()))
    {
      Forget();
      ClearPaSync();
      NotifyPaSyncState(0x00, sync.source.key.addr);
      NotifyStateTransition();
    }

    /** The PA sync is terminated. */
    method TerminatePaSync()
      requires PaDataOk()
      modifies this`past, this`sync, this`commandBusy, paData`paDataReceivedOnce, paData`heard,
               paData`changes
      ensures PaDataOk() && Value() == PaTerm(old(Value()))
    {
      EndReception();
      EndPaSync();
      commandBusy := false;
    }

    /** `bt_le_per_adv_sync_delete`, which may run the callback. */
    method DeletePaSync(terminated: bool)
      requires PaDataOk()
      modifies this`past, this`sync, this`commandBusy, paData`paDataReceivedOnce, paData`heard,
               paData`changes
      ensures PaDataOk() && Value() == Deleted(old(Value()), terminated)
    {
      if terminated {
        TerminatePaSync();
      }
    }

    /* ---------- the audio system ---------- */

    method AudioSystemStart()
      modifies this`audio
      ensures audio == old(audio).(running := true, starts := old(audio).starts + 1)
    {
      audio := audio.(running := true, starts := audio.starts + 1);
    }

    method AudioSystemStop()
      modifies this`audio
      ensures audio == AudioStop(old(audio))
    {
      if !audio.running {
        return;
      }
      audio := audio.(running := false, stops := audio.stops + 1);
    }

    method StartStream()
      modifies this`audio
      ensures audio == AudioStarted(old(audio))
    {
      if audio.stream != Streaming {
        AudioSystemStart();
        audio := audio.(stream := Streaming);
      }
    }

    method StopStream()
      modifies this`audio
      ensures audio == AudioStop(old(audio).(stream := Paused))
    {
      audio := audio.(stream := Paused);
      AudioSystemStop();
    }

    method PauseStream()
      modifies this`audio
      ensures audio == AudioPaused(old(audio))
    {
      if audio.stream != Paused {
        StopStream();
      }
    }

    /** The stream is stopped with its BIS sync, and the app is told. */
    method EndStream()
      modifies this`audio, this`past, this`sync
      ensures Value() == StreamEnded(old(Value()))
    {
      StopStream();
      DropBisSync(0x00);
      NotifyStateTransition();
    }

    /* ---------- command handlers ---------- */

    method HandleSearchStartReq(env: Env)
      requires Valid() && !commandBusy
      modifies this`past, this`sync, this`requests
      ensures Valid() && requests == AndThen(old(requests), OP_SEARCH_START)
      ensures Value() == SearchStart(old(Value()), env)
    {
      ghost var w := Lived();
      requests := AndThen(requests, OP_SEARCH_START);
      if sync.bits.searching {
        SendResult(OP_SEARCH_START, false);
      } else {
        SendResult(OP_SEARCH_START, env.ok);
        if env.ok {
          SwitchSearching(true);
        }
      }
      RequestKeepsInv(w, OP_SEARCH_START, [], env);
    }

    method HandleSearchStopReq()
      requires Valid() && !commandBusy
      modifies this`past, this`sync, this`requests
      ensures Valid() && requests == AndThen(old(requests), OP_SEARCH_STOP)
      ensures Value() == SearchStop(old(Value()))
    {
      ghost var w := Lived();
      requests := AndThen(requests, OP_SEARCH_STOP);
      if !sync.bits.searching {
        SendResult(OP_SEARCH_STOP, false);
      } else {
        SendResult(OP_SEARCH_STOP, true);
        SwitchSearching(false);
      }
      RequestKeepsInv(w, OP_SEARCH_STOP, [], Env(true, 0, false));
    }

    method LookupBroadcastId(addr: S.Addr, sid: uint8) returns (id: nat)
      requires CacheOk()
      ensures var key := C.Key(addr, sid);
              id == C.Lookup(C.Run(past.reports), key) == C.IdAfter(past.reports, key)
    {
      C.LookupIsLatest(past.reports, C.Key(addr, sid));
      id := scanCache.LookupBroadcastId(addr, sid);
    }

    /** The BIS_SYNCED bit and the wish for payloads are cleared without a word. */
    method SilenceReception()
      modifies this`sync
      ensures sync == old(sync).(bits := old(sync).bits.(bisSynced := false), notify := false)
    {
      if sync.bits.bisSynced {
        sync := sync.(bits := sync.bits.(bisSynced := false));
      }
      sync := sync.(notify := false);
    }

    /** An earlier sync is given up for another. */
    method GiveUpSync(terminated: bool)
      requires PaDataOk()
      modifies this`past, this`sync, this`commandBusy, paData`paDataReceivedOnce, paData`heard,
               paData`changes
      ensures PaDataOk() && Value() == GivenUp(old(Value()), terminated)
    {
      if sync.handle.Some? {
        SilenceReception();
        DeletePaSync(terminated);
        ClearPaSync();
      }
    }

    /** The stack has begun to sync. */
    method KeepSource(handle: nat, advSid: uint8, addr: S.Addr)
      requires CacheOk()
      modifies this`sync, this`commandBusy, this`known
      ensures var s, key := old(Value()), C.Key(addr, advSid);
              Value() == s.(sync := s.sync.(handle := Some(handle),
                                            source := C.Entry(key, C.Lookup(C.Run(s.reports), key))),
                            busy := true)
      ensures CacheOk() && known == Some(past.reports)
    {
      var id := LookupBroadcastId(addr, advSid);
      sync := sync.(handle := Some(handle));
      sync := sync.(source := C.Entry(C.Key(addr, advSid), id));
      commandBusy := true;
      known := Some(past.reports);
    }

    /** Gives up the old sync, starts the new one and answers. */
    method StartPaSync(params: Bytes, env: Env)
      requires CacheOk() && PaDataOk()
      modifies this`past, this`sync, this`commandBusy, this`known, paData`paDataReceivedOnce,
               paData`heard, paData`changes
      ensures CacheOk() && PaDataOk() && Value() == PaSyncStart(old(Value()), params, env)
      ensures known == if |params| >= 8 && env.ok then Some(past.reports) else old(known)
      ensures |params| >= 8 && env.ok ==>
                sync.source.key == C.Key(S.Addr(params[1], params[2..8]), params[0])
    {
      if |params| < 8 {
        SendResult(OP_PA_SYNC_START, false);
        return;
      }
      GiveUpSync(env.terminated);
      if env.ok {
        KeepSource(env.handle, params[0], S.Addr(params[1], params[2..8]));
      }
      SendResult(OP_PA_SYNC_START, env.ok);
    }

    method HandlePaSyncStartReq(params: Bytes, env: Env)
      requires Valid() && CacheOk() && PaDataOk() && !commandBusy
      modifies this`past, this`sync, this`commandBusy, this`requests, this`known,
               paData`paDataReceivedOnce, paData`heard, paData`changes
      ensures Valid() && CacheOk() && PaDataOk() && requests == AndThen(old(requests), OP_PA_SYNC_START)
      ensures Value() == PaSyncStart(old(Value()), params, env)
      ensures known == if |params| >= 8 && env.ok then Some(past.reports) else old(known)
      ensures |params| >= 8 && env.ok ==>
                sync.source.key == C.Key(S.Addr(params[1], params[2..8]), params[0])
    {
      RequestKeepsInv(Lived(), OP_PA_SYNC_START, params, env);
      requests := AndThen(requests, OP_PA_SYNC_START);
      StartPaSync(params, env);
    }

    /** Deletes the sync and answers; on success the sync ends. */
    method ReleasePaSync(env: Env)
      requires PaDataOk()
      modifies this`past, this`sync, this`commandBusy, paData`paDataReceivedOnce, paData`heard,
               paData`changes
      ensures PaDataOk() && Value() == PaSyncRelease(old(Value()), env)
      ensures sync.source == old(sync).source
    {
      if !sync.bits.paSynced {
        SendResult(OP_PA_SYNC_RELEASE, false);
        return;
      }
      EndReception();
      DeletePaSync(env.terminated);
      SendResult(OP_PA_SYNC_RELEASE, env.ok);
      if env.ok {
        EndPaSync();
      }
    }

    method HandlePaSyncReleaseReq(env: Env)
      requires Valid() && PaDataOk() && !commandBusy
      modifies this`past, this`sync, this`commandBusy, this`requests, paData`paDataReceivedOnce,
               paData`heard, paData`changes
      ensures Valid() && PaDataOk() && requests == AndThen(old(requests), OP_PA_SYNC_RELEASE)
      ensures Value() == PaSyncRelease(old(Value()), env)
      ensures sync.source == old(sync).source && past.reports == old(past).reports
    {
      ReleaseKeepsInv(Lived(), env);
      requests := AndThen(requests, OP_PA_SYNC_RELEASE);
      ReleasePaSync(env);
    }

    method KeepCode(params: Bytes)
      modifies this`bisSyncCode
      ensures bisSyncCode == CodeIn(params)
    {
      bisSyncCode := if |params| >= CODE_SIZE then Some(params[..CODE_SIZE]) else None;
    }

    method HandleBisSyncStartReq(params: Bytes)
      requires Valid() && !commandBusy
      modifies this`past, this`bisSyncWork, this`bisSyncCode, this`requests
      ensures Valid() && requests == AndThen(old(requests), OP_BIS_SYNC_START)
      ensures Value() == BisSyncStart(old(Value()), params)
    {
      ghost var w := Lived();
      requests := AndThen(requests, OP_BIS_SYNC_START);
      if !sync.bits.paSynced {
        SendResult(OP_BIS_SYNC_START, false);
      } else if sync.bits.bisSynced {
        SendResult(OP_BIS_SYNC_START, false);
      } else {
        KeepCode(params);
        bisSyncWork := true;
      }
      RequestKeepsInv(w, OP_BIS_SYNC_START, params, Env(true, 0, false));
    }

    method HandleBisSyncStopReq(env: Env)
      requires Valid() && !commandBusy
      modifies this`past, this`sync, this`audio, this`requests
      ensures Valid() && requests == AndThen(old(requests), OP_BIS_SYNC_STOP)
      ensures Value() == BisSyncStop(old(Value()), env)
    {
      ghost var w := Lived();
      requests := AndThen(requests, OP_BIS_SYNC_STOP);
      if !sync.bits.bisSynced {
        SendResult(OP_BIS_SYNC_STOP, false);
      } else {
        SendResult(OP_BIS_SYNC_STOP, env.ok);
        if env.ok {
          EndStream();
        }
      }
      RequestKeepsInv(w, OP_BIS_SYNC_STOP, [], env);
    }

    method HandlePaDataNtfStartReq()
      requires Valid() && !commandBusy
      modifies this`past, this`sync, this`requests
      ensures Valid() && requests == AndThen(old(requests), OP_PA_DATA_NTF_START)
      ensures Value() == PaDataNtfStart(old(Value()))
    {
      ghost var w := Lived();
      requests := AndThen(requests, OP_PA_DATA_NTF_START);
      var ok := sync.bits.paSynced;
      if ok {
        sync := sync.(notify := true);
      }
      SendResult(OP_PA_DATA_NTF_START, ok);
      RequestKeepsInv(w, OP_PA_DATA_NTF_START, [], Env(true, 0, false));
    }

    method HandlePaDataNtfStopReq()
      requires Valid() && !commandBusy
      modifies this`past, this`sync, this`requests
      ensures Valid() && requests == AndThen(old(requests), OP_PA_DATA_NTF_STOP)
      ensures Value() == PaDataNtfStop(old(Value()))
    {
      ghost var w := Lived();
      requests := AndThen(requests, OP_PA_DATA_NTF_STOP);
      var ok := sync.notify;
      if ok {
        sync := sync.(notify := false);
      }
      SendResult(OP_PA_DATA_NTF_STOP, ok);
      RequestKeepsInv(w, OP_PA_DATA_NTF_STOP, [], Env(true, 0, false));
    }

    method NotifyVolumeChange()
      modifies this`past
      ensures Value() == TellVolume(old(Value()))
    {
      SendNotification(VolumeChange(currentVolume, currentMute));
    }

    method HandleVolumeSetReq(params: Bytes)
      requires Valid() && !commandBusy
      modifies this`past, this`currentVolume, this`requests
      ensures Valid() && requests == AndThen(old(requests), OP_VOLUME_SET)
      ensures Value() == VolumeSet(old(Value()), params)
    {
      ghost var w := Lived();
      requests := AndThen(requests, OP_VOLUME_SET);
      if |params| < 1 {
        SendResult(OP_VOLUME_SET, false);
      } else {
        currentVolume := params[0];
        SendResult(OP_VOLUME_SET, true);
        NotifyVolumeChange();
      }
      RequestKeepsInv(w, OP_VOLUME_SET, params, Env(true, 0, false));
    }

    method HandleMuteSetReq(params: Bytes)
      requires Valid() && !commandBusy
      modifies this`past, this`currentMute, this`requests
      ensures Valid() && requests == AndThen(old(requests), OP_MUTE_SET)
      ensures Value() == MuteSet(old(Value()), params)
    {
      ghost var w := Lived();
      requests := AndThen(requests, OP_MUTE_SET);
      if |params| < 1 {
        SendResult(OP_MUTE_SET, false);
      } else {
        currentMute := params[0];
        SendResult(OP_MUTE_SET, true);
        NotifyVolumeChange();
      }
      RequestKeepsInv(w, OP_MUTE_SET, params, Env(true, 0, false));
    }

    /** The commands that need no more than an answer, and those that are not known. */
    method HandleOtherReq(op: nat, params: Bytes)
      requires Valid() && !commandBusy
      requires op == OP_DEVICE_INFO || op == OP_VOLUME_GET || op == OP_AUDIO_OUTPUT || !Known(op)
      modifies this`past, this`requests
      ensures Valid() && requests == AndThen(old(requests), op)
      ensures Value() == Dispatch(old(Value()), op, params, Env(true, 0, false))
    {
      ghost var w := Lived();
      requests := AndThen(requests, op);
      if op == OP_DEVICE_INFO {
        SendInfo(OP_DEVICE_INFO, DeviceInfo());
      } else if op == OP_VOLUME_GET {
        SendInfo(OP_VOLUME_GET, [currentVolume, currentMute]);
      } else if op == OP_AUDIO_OUTPUT {
        SendResult(OP_AUDIO_OUTPUT, |params| >= 4);
      }
      RequestKeepsInv(w, op, params, Env(true, 0, false));
    }

    /** While a sync is under way every command is refused. */
    method RejectCommand(op: nat)
      requires Valid() && commandBusy
      modifies this`past, this`requests
      ensures Valid() && requests == AndThen(old(requests), op % 0x100)
      ensures Value() == Respond(old(Value()), op % 0x100, false)
    {
      ghost var w := Lived();
      requests := AndThen(requests, op % 0x100);
      SendResult(op % 0x100, false);
      StepKeepsInv(w, CommandEvent(op, [], Env(true, 0, false)));
    }

    /** The commands that do not concern the PA sync. */
    method HandleRequest(op: nat, params: Bytes, env: Env)
      requires Valid() && !commandBusy && op != OP_PA_SYNC_START && op != OP_PA_SYNC_RELEASE
      modifies this`past, this`sync, this`audio, this`bisSyncWork, this`bisSyncCode,
               this`currentVolume, this`currentMute, this`requests
      ensures Valid() && requests == AndThen(old(requests), op)
      ensures Value() == Dispatch(old(Value()), op, params, env)
      ensures sync.source == old(sync).source
      ensures past.reports == old(past).reports && past.heard == old(past).heard
    {
      if op == OP_SEARCH_START {
        HandleSearchStartReq(env);
      } else if op == OP_SEARCH_STOP {
        HandleSearchStopReq();
      } else if op == OP_BIS_SYNC_START {
        HandleBisSyncStartReq(params);
      } else if op == OP_BIS_SYNC_STOP {
        HandleBisSyncStopReq(env);
      } else if op == OP_PA_DATA_NTF_START {
        HandlePaDataNtfStartReq();
      } else if op == OP_PA_DATA_NTF_STOP {
        HandlePaDataNtfStopReq();
      } else if op == OP_VOLUME_SET {
        HandleVolumeSetReq(params);
      } else if op == OP_MUTE_SET {
        HandleMuteSetReq(params);
      } else {
        HandleOtherReq(op, params);
      }
    }

    /** The switch of `gatt_cmd_handler`. */
    method HandleCommand(op: nat, params: Bytes, env: Env)
      requires Valid() && CacheOk() && PaDataOk() && !commandBusy
      modifies this, paData`paDataReceivedOnce, paData`heard, paData`changes
      ensures Valid() && CacheOk() && PaDataOk() && requests == AndThen(old(requests), op)
      ensures Value() == Dispatch(old(Value()), op, params, env)
      ensures known == if op == OP_PA_SYNC_START && |params| >= 8 && env.ok then Some(past.reports)
                       else old(known)
    {
      if op == OP_PA_SYNC_START {
        HandlePaSyncStartReq(params, env);
      } else if op == OP_PA_SYNC_RELEASE {
        HandlePaSyncReleaseReq(env);
      } else {
        HandleRequest(op, params, env);
      }
    }

    /** `gatt_cmd_handler`. */
    method GattCmdHandler(op: nat, params: Bytes, env: Env)
      requires Valid() && CacheOk() && PaDataOk()
      modifies this, paData`paDataReceivedOnce, paData`heard, paData`changes
      ensures Valid() && CacheOk() && PaDataOk()
      ensures Lived() == Next(old(Lived()), CommandEvent(op, params, env))
    {
      if commandBusy {
        RejectCommand(op);
      } else {
        ghost var w := Lived();
        HandleCommand(op, params, env);
        DispatchIsNext(w, op, params, env);
      }
    }

    /* ---------- callbacks and events ---------- */

    method PaSyncedCb(handle: nat, addr: S.Addr)
      requires Valid()
      modifies this`sync, this`past, this`commandBusy
      ensures Valid() && Lived() == Next(old(Lived()), PaSyncedEvent(handle, addr))
    {
      ghost var w := Lived();
      sync := sync.(handle := Some(handle));
      sync := sync.(bits := sync.bits.(paSynced := true));
      NotifyPaSyncState(0x01, addr);
      NotifyStateTransition();
      commandBusy := false;
      StepKeepsInv(w, PaSyncedEvent(handle, addr));
    }

    method PaSyncTermCb()
      requires Valid() && PaDataOk()
      modifies this`past, this`sync, this`commandBusy, paData`paDataReceivedOnce, paData`heard,
               paData`changes
      ensures Valid() && PaDataOk() && Lived() == Next(old(Lived()), PaTermEvent)
    {
      StepKeepsInv(Lived(), PaTermEvent);
      TerminatePaSync();
    }

    /** `pa_recv_cb`. */
    method PaRecvCb(buf: Bytes)
      requires Valid() && PaDataOk()
      modifies this`past, paData, paData.prevPaData
      ensures Valid() && PaDataOk() && Lived() == Next(old(Lived()), PaReportEvent(buf))
    {
      ghost var w := Lived();
      var changed, payload := paData.PaReceived(buf);
      past := past.(heard := paData.heard);
      if changed && sync.notify && currentConn {
        past := past.(out := Then(past.out, PaDataNtf(payload)));
      }
      StepKeepsInv(w, PaReportEvent(buf));
    }

    method CacheScanResult(addr: S.Addr, sid: uint8, broadcastId: nat)
      requires CacheOk()
      modifies this`past, scanCache`history, scanCache.slots
      ensures CacheOk() && Value() == old(Value()).(reports := past.reports)
      ensures past.reports == old(past).reports + [C.Entry(C.Key(addr, sid), broadcastId)]
    {
      scanCache.CacheScanResult(addr, sid, broadcastId);
      past := past.(reports := scanCache.history);
    }

    /** `scan_recv_cb`. */
    method ScanRecvCb(sid: uint8, addr: S.Addr, rssi: int, buf: Bytes)
      requires Valid() && CacheOk() && |addr.val| == 6 && -128 <= rssi < 128
      modifies this`past, scanCache`history, scanCache.slots
      ensures Valid() && CacheOk() && Lived() == Next(old(Lived()), ScanEvent(sid, addr, rssi, buf))
    {
      ghost var w := Lived();
      var outcome, ntf := S.ScanRecv(sync.bits.searching && currentConn, sid, addr, rssi, buf);
      if outcome.Reported? {
        CacheScanResult(addr, sid, outcome.broadcastId);
        past := past.(out := Then(past.out, SearchResult(ntf)));
      }
      StepKeepsInv(w, ScanEvent(sid, addr, rssi, buf));
    }

    /** The sink is given the code, if there is one, and the PA sync with its broadcast id. */
    ghost method FeedSink()
      modifies this`past
      ensures Value() == old(Value()).(sink := Fed(old(Value())))
    {
      if bisSyncCode.Some? {
        past := past.(sink := past.sink.(code := bisSyncCode));
      }
      past := past.(sink := past.sink.(handle := sync.handle, broadcastId := sync.source.broadcastId));
    }

    /** The sink is started and the app told the outcome. */
    method StartSink(setOk: bool, startOk: bool)
      modifies this`bisSyncWork, this`past, this`commandBusy
      ensures Value() == BisWork(old(Value()), setOk, startOk)
    {
      bisSyncWork := false;
      FeedSink();
      if !setOk {
        SendNotification(Result(OP_BIS_SYNC_START, false));
      } else {
        SendNotification(Result(OP_BIS_SYNC_START, startOk));
        if startOk {
          commandBusy := true;
        }
      }
    }

    /** `bis_sync_work_handler`, run by the work queue. */
    method BisSyncWorkHandler(setOk: bool, startOk: bool)
      requires Valid() && bisSyncWork
      modifies this`bisSyncWork, this`past, this`commandBusy
      ensures Valid() && Lived() == Next(old(Lived()), BisWorkEvent(setOk, startOk))
    {
      StepKeepsInv(Lived(), BisWorkEvent(setOk, startOk));
      StartSink(setOk, startOk);
    }

    /** `LE_AUDIO_EVT_STREAMING`. */
    method OnStreaming()
      requires Valid()
      modifies this`audio, this`sync, this`past, this`commandBusy
      ensures Valid() && Lived() == Next(old(Lived()), StreamingEvent)
    {
      ghost var w := Lived();
      StartStream();
      GainBisSync();
      commandBusy := false;
      StepKeepsInv(w, StreamingEvent);
    }

    /** `LE_AUDIO_EVT_NOT_STREAMING`. */
    method OnNotStreaming()
      requires Valid()
      modifies this`audio
      ensures Valid() && Lived() == Next(old(Lived()), NotStreamingEvent)
    {
      ghost var w := Lived();
      PauseStream();
      StepKeepsInv(w, NotStreamingEvent);
    }

    /** All sync is lost, and the app is told. */
    method LoseSync()
      requires PaDataOk()
      modifies this`past, this`sync, paData`paDataReceivedOnce, paData`heard, paData`changes
      ensures PaDataOk() && Value() == SyncGone(old(Value()))
    {
      Forget();
      sync := sync.(notify := false);
      DropBisSync(0x02);
      sync := sync.(bits := sync.bits.(paSynced := false));
      sync := sync.(handle := None);
      NotifyStateTransition();
    }

    method LoseEverything(terminated: bool)
      requires PaDataOk()
      modifies this`audio, this`past, this`sync, this`commandBusy, paData`paDataReceivedOnce,
               paData`heard, paData`changes
      ensures PaDataOk() && Value() == SyncLost(old(Value()), terminated)
    {
      DeletePaSync(terminated);
      PauseStream();
      LoseSync();
      commandBusy := false;
    }

    /** `LE_AUDIO_EVT_SYNC_LOST`. */
    method OnSyncLost(terminated: bool)
      requires Valid() && PaDataOk()
      modifies this`audio, this`past, this`sync, this`commandBusy, paData`paDataReceivedOnce,
               paData`heard, paData`changes
      ensures Valid() && PaDataOk() && Lived() == Next(old(Lived()), SyncLostEvent(terminated))
    {
      StepKeepsInv(Lived(), SyncLostEvent(terminated));
      LoseEverything(terminated);
    }

    /** `BT_MGMT_CONNECTED` and `BT_MGMT_DISCONNECTED`. */
    method OnConnection(connected: bool)
      requires Valid()
      modifies this`currentConn, this`sync
      ensures Valid()
      ensures Lived() == Next(old(Lived()), if connected then ConnectedEvent else DisconnectedEvent)
    {
      ghost var w := Lived();
      if connected {
        currentConn := true;
      } else {
        currentConn := false;
        sync := sync.(notify := false);
      }
      StepKeepsInv(w, if connected then ConnectedEvent else DisconnectedEvent);
    }
  }
}
