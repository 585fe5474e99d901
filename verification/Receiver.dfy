/**
 The Auracast receiver as a state machine: commands from the app, advertisements and periodic advertising
 reports, callbacks of the sync, audio events, and the deferred start of the BIS sync.
 */
module Receiver {
  import opened CInt
  import opened Common
  import A = AdStructures
  import S = AdScan
  import C = ScanCache

  const RSP: nat := 0x0800
  const OP_DEVICE_INFO: nat := 0x0001
  const OP_SEARCH_START: nat := 0x0002
  const OP_SEARCH_STOP: nat := 0x0003
  const OP_PA_SYNC_START: nat := 0x0004
  const OP_PA_SYNC_RELEASE: nat := 0x0005
  const OP_BIS_SYNC_START: nat := 0x0006
  const OP_BIS_SYNC_STOP: nat := 0x0007
  const OP_PA_DATA_NTF_START: nat := 0x0008
  const OP_PA_DATA_NTF_STOP: nat := 0x0009
  const OP_VOLUME_SET: nat := 0x000A
  const OP_MUTE_SET: nat := 0x000B
  const OP_VOLUME_GET: nat := 0x000C
  const OP_AUDIO_OUTPUT: nat := 0x000D

  /** The bits of `receiver_state`. */
  datatype Bits = Bits(searching: bool, paSynced: bool, bisSynced: bool)

  function StateByte(b: Bits): uint8 {
    (if b.searching then 1 else 0) + (if b.paSynced then 2 else 0) + (if b.bisSynced then 4 else 0)
  }

  /** A message to the app: a response to the request `op`, or a notification. */
  datatype Msg =
    | Result(op: nat, ok: bool)
    | Info(op: nat, info: Bytes)
    | SearchResult(params: Bytes)
    | PaSyncState(state: uint8, addr: Bytes)
    | BisSyncState(state: uint8)
    | PaDataNtf(payload: Bytes)
    | VolumeChange(volume: uint8, mute: uint8)
    | Transition(bits: Bits)

  /** Opcode and parameters as they are sent. */
  function Wire(m: Msg): (nat, Bytes) {
    match m
    case Result(op, ok) => (op + RSP, [if ok then 0x00 else 0x01])
    case Info(op, info) => (op + RSP, info)
    case SearchResult(params) => (0x0C01, params)
    case PaSyncState(state, addr) => (0x0C02, [state] + addr + [0, 0, 0, 3])
    case BisSyncState(state) => (0x0C03, [state])
    case PaDataNtf(payload) => (0x0C04, payload)
    case VolumeChange(volume, mute) => (0x0C05, [volume, mute])
    case Transition(bits) => (0x0C06, [StateByte(bits)])
  }

  /** Messages in the order sent, the latest outermost. */
  datatype Log = Nothing | Then(before: Log, last: Msg)

  /** The number of responses to the request `op`. */
  function Responses(log: Log, op: nat): nat {
    if log.Nothing? then 0
    else Responses(log.before, op) + if Wire(log.last).0 == op + RSP then 1 else 0
  }

  predicate Known(op: nat) {
    OP_DEVICE_INFO <= op <= OP_AUDIO_OUTPUT
  }

  /** No response among the messages sent since `before`. */
  ghost predicate Quiet(before: Log, after: Log) {
    forall op: uint8 :: Responses(after, op) == Responses(before, op)
  }

  /** The payloads among the messages sent. */
  function Payloads(log: Log): seq<Bytes> {
    if log.Nothing? then []
    else Payloads(log.before) + if log.last.PaDataNtf? then [log.last.payload] else []
  }

  /** Neither a response nor a payload. */
  ghost predicate Aside(before: Log, after: Log) {
    Quiet(before, after) && Payloads(after) == Payloads(before)
  }

  /** Requests received, the latest outermost. */
  datatype Requests = NoRequest | AndThen(before: Requests, op: nat)

  function CountRequests(log: Requests, op: nat): nat {
    if log.NoRequest? then 0 else CountRequests(log.before, op) + if log.op == op then 1 else 0
  }

  /** State bits, payload notifications, the handle of the sync and the source it was started for. */
  datatype Sync = Sync(bits: Bits, notify: bool, handle: Option<nat>, source: C.Entry)

  datatype StreamState = Paused | Streaming

  /** `running`: the codec is initialised; `starts` and `stops` count what started and stopped it. */
  datatype Audio = Audio(stream: StreamState, running: bool, starts: nat, stops: nat)

  /** The connection, with everything sent over it. */
  datatype App = App(conn: bool, out: Log)

  /** What the broadcast sink was last given: broadcast code, PA sync and broadcast id. */
  datatype Sink = Sink(code: Option<Bytes>, handle: Option<nat>, broadcastId: nat)

  /**
   `code` is that of the last BIS sync start; `reports` are the scan results cached so far, `heard` the
   payloads received since the last sync ended.
   */
  datatype State = State(
    sync: Sync,
    audio: Audio,
    app: App,
    busy: bool,
    bisWork: bool,
    code: Option<Bytes>,
    sink: Sink,
    volume: uint8,
    mute: uint8,
    reports: seq<C.Entry>,
    heard: seq<Bytes>)

  /**
   What the Bluetooth stack does in a command: success or not, the handle of a new sync, and whether
   deleting the old sync reports its termination, which runs the callback before the handler goes on.
   */
  datatype Env = Env(ok: bool, handle: nat, terminated: bool)

  function NoAddr(): S.Addr {
    S.Addr(0, [0, 0, 0, 0, 0, 0])
  }

  function Start(): State {
    State(Sync(Bits(false, false, false), false, None, C.Entry(C.Key(NoAddr(), 0), 0)),
          Audio(Paused, false, 0, 0), App(false, Nothing), false, false, None, Sink(None, None, 0), 0, 0,
          [], [])
  }

  /* ---------- what is sent ---------- */

  /** A request is answered: its response is sent, no other, and no payload. */
  ghost predicate Answered(s: State, r: State, op: nat) {
    r.bisWork == s.bisWork && Payloads(r.app.out) == Payloads(s.app.out) &&
    forall o: uint8 ::
      Responses(r.app.out, o) == Responses(s.app.out, o) + if o == op then 1 else 0
  }

  function Say(a: App, m: Msg): App {
    a.(out := Then(a.out, m))
  }

  function Notify(a: App, m: Msg): App {
    if a.conn then Say(a, m) else a
  }

  function Respond(s: State, op: nat, ok: bool): (r: State)
    ensures Answered(s, r, op)
  {
    s.(app := Say(s.app, Result(op, ok)))
  }

  /** The BIS sync, if any, has been stopped: `state` says why. */
  function BisLost(s: State, state: uint8): (r: State)
    ensures Aside(s.app.out, r.app.out)
  {
    if s.sync.bits.bisSynced
    then s.(sync := s.sync.(bits := s.sync.bits.(bisSynced := false)),
            app := Notify(s.app, BisSyncState(state)))
    else s
  }

  function TellTransition(s: State): (r: State)
    ensures Aside(s.app.out, r.app.out)
  {
    s.(app := Notify(s.app, Transition(s.sync.bits)))
  }

  function TellPaSync(s: State, state: uint8, addr: Bytes): (r: State)
    ensures Aside(s.app.out, r.app.out)
  {
    s.(app := Notify(s.app, PaSyncState(state, addr)))
  }

  /** There is no PA sync any more, what was heard from it is forgotten, and the app is told. */
  function PaSyncEnded(s: State): (r: State)
    ensures Aside(s.app.out, r.app.out)
  {
    var sync := s.sync.(bits := s.sync.bits.(paSynced := false), handle := None);
    TellTransition(TellPaSync(s.(sync := sync, heard := []), 0x00, s.sync.source.key.addr.val))
  }

  /** `pa_sync_term_cb`. */
  function PaTerm(s: State): (r: State)
    ensures Aside(s.app.out, r.app.out)
  {
    var s1 := BisLost(s, 0x00);
    PaSyncEnded(s1.(sync := s1.sync.(notify := false))).(busy := false)
  }

  /** `bt_le_per_adv_sync_delete`, which may report the termination. */
  function Deleted(s: State, terminated: bool): (r: State)
    ensures Aside(s.app.out, r.app.out)
  {
    if terminated then PaTerm(s) else s
  }

  /** The BIS is synced. */
  function BisGained(s: State): (r: State)
    ensures Aside(s.app.out, r.app.out)
  {
    TellTransition(s.(sync := s.sync.(bits := s.sync.bits.(bisSynced := true)),
                      app := Notify(s.app, BisSyncState(0x01))))
  }

  /** All sync is lost. */
  function SyncGone(s: State): (r: State)
    ensures Aside(s.app.out, r.app.out)
  {
    var s1 := BisLost(s.(sync := s.sync.(notify := false), heard := []), 0x02);
    TellTransition(s1.(sync := s1.sync.(bits := s1.sync.bits.(paSynced := false), handle := None)))
  }

  /* ---------- the audio system ---------- */

  function AudioStarted(a: Audio): Audio {
    if a.stream == Streaming then a else Audio(Streaming, true, a.starts + 1, a.stops)
  }

  /** `audio_system_stop` does nothing when the codec is not initialised. */
  function AudioStop(a: Audio): Audio {
    if a.running then a.(running := false, stops := a.stops + 1) else a
  }

  function AudioPaused(a: Audio): Audio {
    if a.stream == Paused then a else AudioStop(a.(stream := Paused))
  }

  /* ---------- commands ---------- */

  function Ascii(s: string): (r: Bytes)
    ensures |r| == |s|
  {
    seq(|s|, i requires 0 <= i < |s| => U8(s[i] as int))
  }

  /** Fields of the device info, each as its kind, its length and its value. */
  function Fields(fs: seq<(uint8, Bytes)>): Bytes
    requires forall i | 0 <= i < |fs| :: |fs[i].1| < 0x100
  {
    if fs == [] then [] else [fs[0].0, |fs[0].1|] + fs[0].1 + Fields(fs[1..])
  }

  /** Vendor, chip, firmware version and audio locations. */
  function InfoFields(): (fs: seq<(uint8, Bytes)>)
    ensures forall i | 0 <= i < |fs| :: |fs[i].1| < 0x100
  {
    [(0x00, Ascii("Nordic")), (0x01, Ascii("nRF5340")), (0x02, Ascii("1.0.0")), (0x03, [0, 0, 0, 3])]
  }

  function DeviceInfo(): Bytes {
    Fields(InfoFields())
  }

  function SetSearching(s: State, on: bool): State {
    TellTransition(s.(sync := s.sync.(bits := s.sync.bits.(searching := on))))
  }

  function SearchStart(s: State, env: Env): (r: State)
    ensures Answered(s, r, OP_SEARCH_START)
  {
    if s.sync.bits.searching then Respond(s, OP_SEARCH_START, false)
    else
      var s1 := Respond(s, OP_SEARCH_START, env.ok);
      if env.ok then SetSearching(s1, true) else s1
  }

  function SearchStop(s: State): (r: State)
    ensures Answered(s, r, OP_SEARCH_STOP)
  {
    if !s.sync.bits.searching then Respond(s, OP_SEARCH_STOP, false)
    else SetSearching(Respond(s, OP_SEARCH_STOP, true), false)
  }

  /** A sync, if there is one, is given up for another. */
  function GivenUp(s: State, terminated: bool): (r: State)
    ensures Aside(s.app.out, r.app.out)
  {
    if s.sync.handle.None? then s
    else
      var bits := s.sync.bits.(bisSynced := false);
      var s1 := Deleted(s.(sync := s.sync.(bits := bits, notify := false)), terminated);
      s1.(sync := s1.sync.(handle := None, bits := s1.sync.bits.(paSynced := false)))
  }

  /** The source a PA sync start names, with the id the cache knows for it. */
  function SourceOf(s: State, params: Bytes): C.Entry
    requires |params| >= 8
  {
    var key := C.Key(S.Addr(params[1], params[2..8]), params[0]);
    C.Entry(key, C.Lookup(C.Run(s.reports), key))
  }

  function PaSyncStart(s: State, params: Bytes, env: Env): (r: State)
    ensures Answered(s, r, OP_PA_SYNC_START)
  {
    if |params| < 8 then Respond(s, OP_PA_SYNC_START, false)
    else
      var s1 := GivenUp(s, env.terminated);
      var s2 := if env.ok
                then s1.(sync := s1.sync.(handle := Some(env.handle), source := SourceOf(s, params)),
                         busy := true)
                else s1;
      Respond(s2, OP_PA_SYNC_START, env.ok)
  }

  function PaSyncRelease(s: State, env: Env): (r: State)
    ensures Answered(s, r, OP_PA_SYNC_RELEASE)
  {
    if !s.sync.bits.paSynced then Respond(s, OP_PA_SYNC_RELEASE, false)
    else
      var s1 := BisLost(s, 0x00);
      var s2 := Deleted(s1.(sync := s1.sync.(notify := false)), env.terminated);
      var s3 := Respond(s2, OP_PA_SYNC_RELEASE, env.ok);
      if env.ok then PaSyncEnded(s3) else s3
  }

  /** Broadcast codes have 16 bytes. */
  const CODE_SIZE: nat := 16

  function CodeIn(params: Bytes): Option<Bytes> {
    if |params| >= CODE_SIZE then Some(params[..CODE_SIZE]) else None
  }

  function BisSyncStart(s: State, params: Bytes): (r: State)
    ensures r == s.(bisWork := true, code := r.code) || Answered(s, r, OP_BIS_SYNC_START)
  {
    if !s.sync.bits.paSynced || s.sync.bits.bisSynced then Respond(s, OP_BIS_SYNC_START, false)
    else s.(code := CodeIn(params), bisWork := true)
  }

  /** The stream is stopped with its BIS sync, and the app is told. */
  function StreamEnded(s: State): (r: State)
    ensures Aside(s.app.out, r.app.out)
  {
    TellTransition(BisLost(s.(audio := AudioStop(s.audio.(stream := Paused))), 0x00))
  }

  function BisSyncStop(s: State, env: Env): (r: State)
    ensures Answered(s, r, OP_BIS_SYNC_STOP)
  {
    if !s.sync.bits.bisSynced then Respond(s, OP_BIS_SYNC_STOP, false)
    else
      var s1 := Respond(s, OP_BIS_SYNC_STOP, env.ok);
      if env.ok then StreamEnded(s1) else s1
  }

  function PaDataNtfStart(s: State): (r: State)
    ensures Answered(s, r, OP_PA_DATA_NTF_START)
  {
    Respond(if s.sync.bits.paSynced then s.(sync := s.sync.(notify := true)) else s,
            OP_PA_DATA_NTF_START, s.sync.bits.paSynced)
  }

  function PaDataNtfStop(s: State): (r: State)
    ensures Answered(s, r, OP_PA_DATA_NTF_STOP)
  {
    Respond(s.(sync := s.sync.(notify := false)), OP_PA_DATA_NTF_STOP, s.sync.notify)
  }

  function TellVolume(s: State): (r: State)
    ensures Aside(s.app.out, r.app.out)
  {
    s.(app := Notify(s.app, VolumeChange(s.volume, s.mute)))
  }

  function VolumeSet(s: State, params: Bytes): (r: State)
    ensures Answered(s, r, OP_VOLUME_SET)
  {
    if |params| < 1 then Respond(s, OP_VOLUME_SET, false)
    else TellVolume(Respond(s.(volume := params[0]), OP_VOLUME_SET, true))
  }

  function MuteSet(s: State, params: Bytes): (r: State)
    ensures Answered(s, r, OP_MUTE_SET)
  {
    if |params| < 1 then Respond(s, OP_MUTE_SET, false)
    else TellVolume(Respond(s.(mute := params[0]), OP_MUTE_SET, true))
  }

  function Tell(s: State, op: nat, info: Bytes): (r: State)
    ensures Answered(s, r, op)
  {
    s.(app := Say(s.app, Info(op, info)))
  }

  /** What becomes of a request: an answer, or a BIS sync start submitted, or nothing if unknown. */
  ghost predicate Handled(s: State, r: State, op: nat) {
    if Known(op)
    then Answered(s, r, op) || (op == OP_BIS_SYNC_START && r == s.(bisWork := true, code := r.code))
    else r == s
  }

  function Dispatch(s: State, op: nat, params: Bytes, env: Env): (r: State)
    ensures Handled(s, r, op)
  {
    if op == OP_DEVICE_INFO then Tell(s, OP_DEVICE_INFO, DeviceInfo())
    else if op == OP_SEARCH_START then SearchStart(s, env)
    else if op == OP_SEARCH_STOP then SearchStop(s)
    else if op == OP_PA_SYNC_START then PaSyncStart(s, params, env)
    else if op == OP_PA_SYNC_RELEASE then PaSyncRelease(s, env)
    else if op == OP_BIS_SYNC_START then BisSyncStart(s, params)
    else if op == OP_BIS_SYNC_STOP then BisSyncStop(s, env)
    else if op == OP_PA_DATA_NTF_START then PaDataNtfStart(s)
    else if op == OP_PA_DATA_NTF_STOP then PaDataNtfStop(s)
    else if op == OP_VOLUME_SET then VolumeSet(s, params)
    else if op == OP_MUTE_SET then MuteSet(s, params)
    else if op == OP_VOLUME_GET then Tell(s, OP_VOLUME_GET, [s.volume, s.mute])
    else if op == OP_AUDIO_OUTPUT then Respond(s, OP_AUDIO_OUTPUT, |params| >= 4)
    else s
  }

  /** The request an answer is meant for: while busy only the low byte of the opcode is looked at. */
  function Asked(s: State, op: nat): nat {
    if s.busy then op % 0x100 else op
  }

  /** `gatt_cmd_handler`. */
  function Command(s: State, op: nat, params: Bytes, env: Env): (r: State)
    ensures if s.busy then Answered(s, r, Asked(s, op)) else Handled(s, r, op)
  {
    if s.busy then Respond(s, Asked(s, op), false) else Dispatch(s, op, params, env)
  }

  /* ---------- callbacks and events ---------- */

  function PaSynced(s: State, handle: nat, addr: S.Addr): State {
    var s1 := s.(sync := s.sync.(bits := s.sync.bits.(paSynced := true), handle := Some(handle)));
    TellTransition(TellPaSync(s1, 0x01, addr.val)).(busy := false)
  }

  /** A periodic advertising report: a changed payload is passed on. */
  function PaReport(s: State, buf: Bytes): State {
    var found := A.Vendor(A.Parse(buf));
    if found.None? then s
    else
      var s1 := s.(heard := s.heard + [found.value]);
      if A.IsNews(s.heard, found.value) && s.sync.notify
      then s1.(app := Notify(s.app, PaDataNtf(found.value)))
      else s1
  }

  /** An advertisement received while scanning. */
  function Scanned(s: State, sid: uint8, addr: S.Addr, rssi: int, buf: Bytes): State {
    var found := S.Look(A.Parse(buf));
    S.LookFits(A.Parse(buf));
    if !s.sync.bits.searching || !s.app.conn || found.id.None? || found.name == [] then s
    else
      var result := S.SearchResult(sid, addr, found.name, found.id.value, found.encrypted, rssi);
      s.(reports := s.reports + [C.Entry(C.Key(addr, sid), S.BroadcastId(found.id.value))],
         app := Say(s.app, SearchResult(S.Notification(result))))
  }

  function StreamStarted(s: State): State {
    BisGained(s.(audio := AudioStarted(s.audio))).(busy := false)
  }

  function StreamStopped(s: State): State {
    s.(audio := AudioPaused(s.audio))
  }

  /** The sync that was lost is deleted first, which may report its termination, too. */
  function SyncLost(s: State, terminated: bool): State {
    var s1 := Deleted(s, terminated);
    SyncGone(s1.(audio := AudioPaused(s1.audio))).(busy := false)
  }

  /** What the sink is given; without a code it keeps the one it had. */
  function Fed(s: State): Sink {
    Sink(if s.code.Some? then s.code else s.sink.code, s.sync.handle, s.sync.source.broadcastId)
  }

  /** `bis_sync_work_handler`: the sink takes the sync or not, and starts or not. */
  function BisWork(s: State, setOk: bool, startOk: bool): State {
    var ok := setOk && startOk;
    var s1 := s.(bisWork := false, sink := Fed(s));
    var s2 := s1.(app := Notify(s1.app, Result(OP_BIS_SYNC_START, ok)));
    if ok then s2.(busy := true) else s2
  }

  datatype Event =
    | CommandEvent(op: nat, params: Bytes, env: Env)
    | PaSyncedEvent(handle: nat, addr: S.Addr)
    | PaTermEvent
    | PaReportEvent(buf: Bytes)
    | ScanEvent(sid: uint8, addr: S.Addr, rssi: int, buf: Bytes)
    | StreamingEvent
    | NotStreamingEvent
    | SyncLostEvent(terminated: bool)
    | ConnectedEvent
    | DisconnectedEvent
    | BisWorkEvent(setOk: bool, startOk: bool)

  function Step(s: State, e: Event): State {
    match e
    case CommandEvent(op, params, env) => Command(s, op, params, env)
    case PaSyncedEvent(handle, addr) => PaSynced(s, handle, addr)
    case PaTermEvent => PaTerm(s)
    case PaReportEvent(buf) => PaReport(s, buf)
    case ScanEvent(sid, addr, rssi, buf) => Scanned(s, sid, addr, rssi, buf)
    case StreamingEvent => StreamStarted(s)
    case NotStreamingEvent => StreamStopped(s)
    case SyncLostEvent(terminated) => SyncLost(s, terminated)
    case ConnectedEvent => s.(app := s.app.(conn := true))
    case DisconnectedEvent => s.(app := s.app.(conn := false), sync := s.sync.(notify := false))
    case BisWorkEvent(setOk, startOk) => if s.bisWork then BisWork(s, setOk, startOk) else s
  }

  /** A PA sync start that the receiver and the stack accept. */
  predicate Starts(s: State, e: Event) {
    e.CommandEvent? && e.op == OP_PA_SYNC_START && !s.busy && |e.params| >= 8 && e.env.ok
  }

  /**
   The state, the requests received on the way to it, and the scan results that had been cached when
   the last PA sync was started.
   */
  datatype World = World(s: State, requests: Requests, known: Option<seq<C.Entry>>)

  function Next(w: World, e: Event): World {
    World(Step(w.s, e), if e.CommandEvent? then AndThen(w.requests, Asked(w.s, e.op)) else w.requests,
          if Starts(w.s, e) then Some(w.s.reports) else w.known)
  }

  function Run(w: World, evs: seq<Event>): World
    decreases |evs|
  {
    if evs == [] then w else Run(Next(w, evs[0]), evs[1..])
  }

  /* ---------- invariants ---------- */

  /** Payload notifications need a sync, and a sync a handle. */
  ghost predicate SyncOk(sync: Sync) {
    (sync.notify ==> sync.bits.paSynced) && (sync.bits.paSynced ==> sync.handle.Some?)
  }

  /** The audio system runs exactly while streaming, so starts and effective stops alternate. */
  ghost predicate AudioOk(a: Audio) {
    (a.running <==> a.stream == Streaming) && a.starts == a.stops + if a.running then 1 else 0
  }

  /**
   Every known request has one response, under its own opcode with 0x0800 added; that of a BIS sync
   start comes later, and starts submitted again before that share it.
   */
  ghost predicate ResponsesOk(w: World) {
    (forall op: uint8 | Known(op) && op != OP_BIS_SYNC_START ::
       Responses(w.s.app.out, op) == CountRequests(w.requests, op)) &&
    Responses(w.s.app.out, OP_BIS_SYNC_START) + (if w.s.bisWork then 1 else 0)
    <= CountRequests(w.requests, OP_BIS_SYNC_START)
  }

  /** The id kept for the source is the one reported last for it when the sync was started. */
  ghost predicate SourceOk(source: C.Entry, known: Option<seq<C.Entry>>, reports: seq<C.Entry>) {
    known.Some? ==> known.value <= reports && source.broadcastId == C.IdAfter(known.value, source.key)
  }

  ghost predicate Inv(w: World) {
    SyncOk(w.s.sync) && AudioOk(w.s.audio) && ResponsesOk(w)
  }

  /** Audio, volume, scan results and what the sink was given are the same. */
  ghost predicate SameRest(s: State, r: State) {
    r.audio == s.audio && r.volume == s.volume && r.mute == s.mute && r.reports == s.reports &&
    r.sink == s.sink
  }

  lemma TermLeaves(s: State, terminated: bool)
    ensures var r := Deleted(s, terminated); SameRest(s, r) && r.sync.source == s.sync.source
  {
  }

  lemma GivenUpLeaves(s: State, terminated: bool)
    ensures var r := GivenUp(s, terminated); SameRest(s, r) && r.sync.source == s.sync.source
  {
    TermLeaves(s.(sync := s.sync.(bits := s.sync.bits.(bisSynced := false), notify := false)), terminated);
  }

  lemma StartLeaves(s: State, params: Bytes, env: Env)
    ensures var r := PaSyncStart(s, params, env);
            SameRest(s, r) &&
            r.sync.source == if |params| >= 8 && env.ok then SourceOf(s, params) else s.sync.source
  {
    GivenUpLeaves(s, env.terminated);
  }

  lemma ReleaseLeaves(s: State, env: Env)
    ensures var r := PaSyncRelease(s, env); SameRest(s, r) && r.sync.source == s.sync.source
  {
    var s1 := BisLost(s, 0x00);
    TermLeaves(s1.(sync := s1.sync.(notify := false)), env.terminated);
  }

  /** Commands of one message, or two with the volume. */
  lemma ShortCommandsLeave(s: State, op: nat, params: Bytes, env: Env)
    requires op != OP_PA_SYNC_START && op != OP_PA_SYNC_RELEASE && op != OP_BIS_SYNC_STOP
    requires op != OP_SEARCH_START && op != OP_SEARCH_STOP
    ensures var r := Dispatch(s, op, params, env);
            r.sync.source == s.sync.source && r.reports == s.reports && r.sink == s.sink
  {
  }

  /** All commands but those of the PA sync. */
  lemma OthersLeave(s: State, op: nat, params: Bytes, env: Env)
    requires op != OP_PA_SYNC_START && op != OP_PA_SYNC_RELEASE
    ensures var r := Dispatch(s, op, params, env);
            r.sync.source == s.sync.source && r.reports == s.reports && r.sink == s.sink
  {
    if op != OP_BIS_SYNC_STOP && op != OP_SEARCH_START && op != OP_SEARCH_STOP {
      ShortCommandsLeave(s, op, params, env);
    }
  }

  /** The commands that have nothing to do with scan, sync and payloads. */
  lemma OthersKeepSync(s: State, op: nat, params: Bytes, env: Env)
    requires op != OP_SEARCH_START && op != OP_SEARCH_STOP && op != OP_BIS_SYNC_STOP
    requires op != OP_PA_SYNC_START && op != OP_PA_SYNC_RELEASE
    requires op != OP_PA_DATA_NTF_START && op != OP_PA_DATA_NTF_STOP
    ensures Dispatch(s, op, params, env).sync == s.sync
  {
  }

  lemma StartKeepsSync(s: State, params: Bytes, env: Env)
    requires SyncOk(s.sync)
    ensures SyncOk(PaSyncStart(s, params, env).sync)
  {
  }

  lemma ReleaseKeepsSync(s: State, env: Env)
    requires SyncOk(s.sync)
    ensures SyncOk(PaSyncRelease(s, env).sync)
  {
  }

  lemma PaSyncCommandsKeepSync(s: State, op: nat, params: Bytes, env: Env)
    requires SyncOk(s.sync) && (op == OP_PA_SYNC_START || op == OP_PA_SYNC_RELEASE)
    ensures SyncOk(Dispatch(s, op, params, env).sync)
  {
    if op == OP_PA_SYNC_START {
      StartKeepsSync(s, params, env);
    } else {
      ReleaseKeepsSync(s, env);
    }
  }

  lemma SearchKeepsSync(s: State, op: nat, params: Bytes, env: Env)
    requires SyncOk(s.sync) && (op == OP_SEARCH_START || op == OP_SEARCH_STOP)
    ensures SyncOk(Dispatch(s, op, params, env).sync)
  {
  }

  lemma DispatchKeepsSync(s: State, op: nat, params: Bytes, env: Env)
    requires SyncOk(s.sync)
    ensures SyncOk(Dispatch(s, op, params, env).sync)
  {
    if op == OP_PA_SYNC_START || op == OP_PA_SYNC_RELEASE {
      PaSyncCommandsKeepSync(s, op, params, env);
    } else if op == OP_SEARCH_START || op == OP_SEARCH_STOP {
      SearchKeepsSync(s, op, params, env);
    } else if op == OP_BIS_SYNC_STOP {
      assert SyncOk(BisSyncStop(s, env).sync);
    } else if op == OP_PA_DATA_NTF_START || op == OP_PA_DATA_NTF_STOP {
      assert SyncOk(PaDataNtfStart(s).sync) && SyncOk(PaDataNtfStop(s).sync);
    } else {
      OthersKeepSync(s, op, params, env);
    }
  }

  lemma StepKeepsSync(s: State, e: Event)
    requires SyncOk(s.sync)
    ensures SyncOk(Step(s, e).sync)
  {
    match e
    case CommandEvent(op, params, env) => DispatchKeepsSync(s, op, params, env);
    case _ =>
  }

  lemma DispatchKeepsAudio(s: State, op: nat, params: Bytes, env: Env)
    requires AudioOk(s.audio)
    ensures AudioOk(Dispatch(s, op, params, env).audio)
  {
    if op == OP_PA_SYNC_START {
      StartLeaves(s, params, env);
    } else if op == OP_PA_SYNC_RELEASE {
      ReleaseLeaves(s, env);
    } else if op == OP_BIS_SYNC_STOP {
      assert AudioOk(BisSyncStop(s, env).audio);
    }
  }

  lemma StepKeepsAudio(s: State, e: Event)
    requires AudioOk(s.audio)
    ensures AudioOk(Step(s, e).audio)
  {
    match e
    case CommandEvent(op, params, env) => DispatchKeepsAudio(s, op, params, env);
    case SyncLostEvent(terminated) => TermLeaves(s, terminated);
    case _ =>
  }

  lemma CommandKeepsResponses(w: World, op: nat, params: Bytes, env: Env)
    requires ResponsesOk(w)
    ensures ResponsesOk(Next(w, CommandEvent(op, params, env)))
  {
  }

  lemma EventKeepsResponses(w: World, e: Event)
    requires ResponsesOk(w) && !e.CommandEvent?
    ensures ResponsesOk(Next(w, e))
  {
    assert !e.BisWorkEvent? ==> Quiet(w.s.app.out, Step(w.s, e).app.out);
  }

  /** What commands do to source, scan results and sink. */
  lemma DispatchLeaves(s: State, op: nat, params: Bytes, env: Env)
    ensures var r := Dispatch(s, op, params, env);
            r.reports == s.reports && r.sink == s.sink &&
            r.sync.source == if op == OP_PA_SYNC_START && |params| >= 8 && env.ok then SourceOf(s, params)
                             else s.sync.source
  {
    if op == OP_PA_SYNC_START {
      StartLeaves(s, params, env);
    } else if op == OP_PA_SYNC_RELEASE {
      ReleaseLeaves(s, env);
    } else {
      OthersLeave(s, op, params, env);
    }
  }

  /**
   Only an accepted PA sync start changes the source: to the SID in the first byte of its parameters, the
   address type and address in the seven after it, and the id remembered for that source.
   */
  lemma OnlyStartsChangeSource(s: State, e: Event)
    ensures var src := Step(s, e).sync.source;
            if Starts(s, e)
            then
              src.key.sid == e.params[0] && src.key.addr.kind == e.params[1] &&
              src.key.addr.val == e.params[2..8] && src.broadcastId == C.IdAfter(s.reports, src.key)
            else src == s.sync.source
  {
    if Starts(s, e) {
      C.LookupIsLatest(s.reports, SourceOf(s, e.params).key);
    }
    match e
    case CommandEvent(op, params, env) => DispatchLeaves(s, op, params, env);
    case SyncLostEvent(terminated) => TermLeaves(s, terminated);
    case _ =>
  }

  lemma StepKeepsReports(s: State, e: Event)
    ensures s.reports <= Step(s, e).reports
  {
    match e
    case CommandEvent(op, params, env) => DispatchLeaves(s, op, params, env);
    case SyncLostEvent(terminated) => TermLeaves(s, terminated);
    case _ =>
  }

  lemma StepKeepsSource(w: World, e: Event)
    requires SourceOk(w.s.sync.source, w.known, w.s.reports)
    ensures var r := Next(w, e); SourceOk(r.s.sync.source, r.known, r.s.reports)
  {
    OnlyStartsChangeSource(w.s, e);
    StepKeepsReports(w.s, e);
  }

  lemma StepKeepsInv(w: World, e: Event)
    requires Inv(w)
    ensures Inv(Next(w, e))
  {
    StepKeepsSync(w.s, e);
    StepKeepsAudio(w.s, e);
    if e.CommandEvent? {
      CommandKeepsResponses(w, e.op, e.params, e.env);
    } else {
      EventKeepsResponses(w, e);
    }
  }

  /** Over every sequence of commands, callbacks and events. */
  lemma {:induction false} RunKeepsInv(w: World, evs: seq<Event>)
    requires Inv(w) && SourceOk(w.s.sync.source, w.known, w.s.reports)
    ensures var r := Run(w, evs); Inv(r) && SourceOk(r.s.sync.source, r.known, r.s.reports)
    decreases |evs|
  {
    if evs == [] {
    } else {
      StepKeepsInv(w, evs[0]);
      StepKeepsSource(w, evs[0]);
      RunKeepsInv(Next(w, evs[0]), evs[1..]);
    }
  }

  function FirstWorld(): World {
    World(Start(), NoRequest, None)
  }

  lemma ReceiverInvariants(evs: seq<Event>)
    ensures var r := Run(FirstWorld(), evs); Inv(r) && SourceOk(r.s.sync.source, r.known, r.s.reports)
  {
    RunKeepsInv(FirstWorld(), evs);
  }

  /** The number of commands among the events that ask for `op`. */
  function CountCommands(evs: seq<Event>, op: nat): nat {
    if evs == [] then 0
    else (if evs[0].CommandEvent? && evs[0].op == op then 1 else 0) + CountCommands(evs[1..], op)
  }

  /** When all opcodes are single bytes, as the known ones are, the requests are the commands. */
  lemma {:induction false} RequestsAreCommands(w: World, evs: seq<Event>, op: nat)
    requires forall i | 0 <= i < |evs| :: evs[i].CommandEvent? ==> evs[i].op < 0x100
    ensures CountRequests(Run(w, evs).requests, op)
         == CountRequests(w.requests, op) + CountCommands(evs, op)
    decreases |evs|
  {
    if evs == [] {
    } else {
      RequestsAreCommands(Next(w, evs[0]), evs[1..], op);
    }
  }

  /* ---------- what the sink is given ---------- */

  /**
   Only the work item feeds the sink: the handle at hand, the id of the source of the last PA sync start,
   and the code if the last BIS sync start came with one - otherwise the sink keeps the code it had.
   */
  lemma OnlyWorkFeedsSink(s: State, e: Event)
    ensures Step(s, e).sink
         == if e.BisWorkEvent? && s.bisWork
            then Sink(if s.code.Some? then s.code else s.sink.code, s.sync.handle,
                      s.sync.source.broadcastId)
            else s.sink
  {
    match e
    case CommandEvent(op, params, env) => DispatchLeaves(s, op, params, env);
    case SyncLostEvent(terminated) => TermLeaves(s, terminated);
    case _ =>
  }

  /**
   In every run the id given to the sink is the one the scan had reported last for the source when its
   PA sync was started, or BRDCAST_ID_NOT_USED if the cache had forgotten the source or never knew it.
   */
  lemma SinkGetsReportedId(evs: seq<Event>, setOk: bool, startOk: bool)
    ensures var w := Run(FirstWorld(), evs);
            var sink := Step(w.s, BisWorkEvent(setOk, startOk)).sink;
            w.s.bisWork && w.known.Some? ==>
              sink.broadcastId == C.IdAfter(w.known.value, w.s.sync.source.key)
  {
    ReceiverInvariants(evs);
  }

  /* ---------- payloads ---------- */

  /** The PA sync ends: it is lost or terminated, also within a command that deletes it, or released. */
  predicate Ends(s: State, e: Event) {
    e.PaTermEvent? || e.SyncLostEvent? ||
    (e.CommandEvent? && !s.busy &&
     ((e.op == OP_PA_SYNC_RELEASE && s.sync.bits.paSynced && (e.env.ok || e.env.terminated)) ||
      (e.op == OP_PA_SYNC_START && |e.params| >= 8 && s.sync.handle.Some? && e.env.terminated)))
  }

  function VendorOf(e: Event): Option<Bytes> {
    if e.PaReportEvent? then A.Vendor(A.Parse(e.buf)) else None
  }

  lemma ReleaseForgets(s: State, env: Env)
    ensures PaSyncRelease(s, env).heard
         == if s.sync.bits.paSynced && (env.ok || env.terminated) then [] else s.heard
  {
  }

  lemma StartForgets(s: State, params: Bytes, env: Env)
    ensures PaSyncStart(s, params, env).heard
         == if |params| >= 8 && s.sync.handle.Some? && env.terminated then [] else s.heard
  {
  }

  /**
   The payloads heard are forgotten exactly when a sync ends. Starting another one ends it only if its
   deletion reports the termination, and establishing one never does.
   */
  lemma HeardExactly(s: State, e: Event)
    ensures Step(s, e).heard
         == if Ends(s, e) then []
            else if VendorOf(e).Some? then s.heard + [VendorOf(e).value]
            else s.heard
  {
    match e
    case CommandEvent(op, params, env) =>
      if op == OP_PA_SYNC_START {
        StartForgets(s, params, env);
      } else if op == OP_PA_SYNC_RELEASE {
        ReleaseForgets(s, env);
      }
    case _ =>
  }

  /** The app is connected and has asked for payloads. */
  predicate Listens(s: State) {
    s.app.conn && s.sync.notify
  }

  lemma TermTellsNoPayload(s: State)
    ensures Payloads(PaTerm(s).app.out) == Payloads(s.app.out)
  {
  }

  lemma LossTellsNoPayload(s: State, terminated: bool)
    ensures Payloads(SyncLost(s, terminated).app.out) == Payloads(s.app.out)
  {
  }

  /** A payload is told exactly when it is news to an app that listens. */
  lemma PayloadsExactly(s: State, e: Event)
    ensures Payloads(Step(s, e).app.out)
         == Payloads(s.app.out)
            + if VendorOf(e).Some? && A.IsNews(s.heard, VendorOf(e).value) && Listens(s)
              then [VendorOf(e).value] else []
  {
    match e
    case PaTermEvent => TermTellsNoPayload(s);
    case SyncLostEvent(terminated) => LossTellsNoPayload(s, terminated);
    case _ =>
  }

  lemma EndStopsListening(s: State, e: Event)
    requires SyncOk(s.sync) && Ends(s, e)
    ensures !Listens(Step(s, e))
  {
    if e.CommandEvent? {
      assert e.op == OP_PA_SYNC_RELEASE ==> !PaSyncRelease(s, e.env).sync.notify;
      assert e.op == OP_PA_SYNC_START ==> !PaSyncStart(s, e.params, e.env).sync.notify;
    }
  }

  lemma StepTells(s: State, e: Event) returns (told: seq<Bytes>)
    requires SyncOk(s.sync) && Listens(s) && Listens(Step(s, e))
    ensures A.NoRepeats(Step(s, e).heard) == A.NoRepeats(s.heard) + told
    ensures Payloads(Step(s, e).app.out) == Payloads(s.app.out) + told
  {
    told := [];
    HeardExactly(s, e);
    PayloadsExactly(s, e);
    if Ends(s, e) {
      EndStopsListening(s, e);
    } else if VendorOf(e).Some? {
      A.NoRepeatsNext(s.heard, VendorOf(e).value);
      if A.IsNews(s.heard, VendorOf(e).value) {
        told := [VendorOf(e).value];
      }
    }
  }

  lemma ToldOnward(p: seq<Bytes>, told: seq<Bytes>, a: seq<Bytes>, all: seq<Bytes>, q: seq<Bytes>)
    requires a + told <= all && q == p + told + all[|a + told|..]
    ensures a <= all && q == p + all[|a|..]
  {
    assert all[|a|..] == told + all[|a + told|..];
  }

  /** The app listens before every event and at the end. */
  ghost predicate KeepsListening(w: World, evs: seq<Event>)
    decreases |evs|
  {
    Listens(w.s) && (evs != [] ==> KeepsListening(Next(w, evs[0]), evs[1..]))
  }

  lemma FirstTells(w: World, evs: seq<Event>) returns (next: World, told: seq<Bytes>)
    requires evs != [] && SyncOk(w.s.sync) && KeepsListening(w, evs)
    ensures Run(w, evs) == Run(next, evs[1..])
    ensures SyncOk(next.s.sync) && KeepsListening(next, evs[1..])
    ensures A.NoRepeats(next.s.heard) == A.NoRepeats(w.s.heard) + told
    ensures Payloads(next.s.app.out) == Payloads(w.s.app.out) + told
  {
    next := Next(w, evs[0]);
    assert KeepsListening(next, evs[1..]);
    StepKeepsSync(w.s, evs[0]);
    told := StepTells(w.s, evs[0]);
  }

  /** An app that keeps listening is told the payloads heard meanwhile, with repeats removed, in order. */
  lemma {:induction false} ToldWithoutRepeats(w: World, evs: seq<Event>)
    requires SyncOk(w.s.sync) && KeepsListening(w, evs)
    ensures var s, r := w.s, Run(w, evs).s;
            A.NoRepeats(s.heard) <= A.NoRepeats(r.heard) &&
            Payloads(r.app.out)
            == Payloads(s.app.out) + A.NoRepeats(r.heard)[|A.NoRepeats(s.heard)|..]
    decreases |evs|
  {
    if evs == [] {
    } else {
      var next, told := FirstTells(w, evs);
      ToldWithoutRepeats(next, evs[1..]);
      var r := Run(next, evs[1..]).s;
      ToldOnward(Payloads(w.s.app.out), told, A.NoRepeats(w.s.heard), A.NoRepeats(r.heard),
                 Payloads(r.app.out));
    }
  }

  /** Another sync is started, comes about, and the app asks for payloads. */
  function Restarted(w: World, params: Bytes, env: Env, handle: nat, addr: S.Addr): World {
    var w1 := Next(w, CommandEvent(OP_PA_SYNC_START, params, env));
    var w2 := Next(w1, PaSyncedEvent(handle, addr));
    Next(w2, CommandEvent(OP_PA_DATA_NTF_START, [], env))
  }

  lemma RestartKeepsHeard(w: World, params: Bytes, env: Env, handle: nat, addr: S.Addr)
    requires w.s.app.conn && !w.s.busy && |params| >= 8 && env.ok
    ensures var r := Restarted(w, params, env, handle, addr).s;
            Listens(r) && !r.busy && r.sync.handle.Some? && Payloads(r.app.out) == Payloads(w.s.app.out) &&
            r.heard == if w.s.sync.handle.Some? && env.terminated then [] else w.s.heard
  {
    var e1, e2 := CommandEvent(OP_PA_SYNC_START, params, env), PaSyncedEvent(handle, addr);
    var e3 := CommandEvent(OP_PA_DATA_NTF_START, [], env);
    var s1 := Step(w.s, e1);
    var s2 := Step(s1, e2);
    HeardExactly(w.s, e1);
    PayloadsExactly(w.s, e1);
    assert s1.app.conn;
    HeardExactly(s1, e2);
    PayloadsExactly(s1, e2);
    assert s2.app.conn && !s2.busy && s2.sync.bits.paSynced && s2.sync.handle.Some?;
    HeardExactly(s2, e3);
    PayloadsExactly(s2, e3);
  }

  /**
   The first payload after another sync has been started is told exactly when deleting the old sync
   reported its termination, or the payload differs from the last one heard before, whatever its source.
   */
  lemma FirstPayloadIsCompared(
    w: World, params: Bytes, env: Env, handle: nat, addr: S.Addr, buf: Bytes)
    requires w.s.app.conn && !w.s.busy && |params| >= 8 && env.ok && VendorOf(PaReportEvent(buf)).Some?
    ensures var r := Next(Restarted(w, params, env, handle, addr), PaReportEvent(buf)).s;
            var v := VendorOf(PaReportEvent(buf)).value;
            Payloads(r.app.out)
            == Payloads(w.s.app.out)
               + if (w.s.sync.handle.Some? && env.terminated) || A.IsNews(w.s.heard, v) then [v] else []
  {
    RestartKeepsHeard(w, params, env, handle, addr);
    PayloadsExactly(Restarted(w, params, env, handle, addr).s, PaReportEvent(buf));
  }

  /** What the app and the change detection know after one payload `v`. */
  ghost predicate HeardOnce(s: State, v: Bytes) {
    s.app.conn && !s.busy && s.sync.handle.Some? && s.heard == [v] && Payloads(s.app.out) == [v]
  }

  lemma ReportIsHeard(w: World, buf: Bytes)
    requires Listens(w.s) && !w.s.busy && w.s.sync.handle.Some? && VendorOf(PaReportEvent(buf)).Some?
    requires w.s.heard == [] && Payloads(w.s.app.out) == []
    ensures HeardOnce(Next(w, PaReportEvent(buf)).s, VendorOf(PaReportEvent(buf)).value)
  {
    HeardExactly(w.s, PaReportEvent(buf));
    PayloadsExactly(w.s, PaReportEvent(buf));
  }

  /** The first sync of all, and its first report. */
  function Reported(params: Bytes, env: Env, handle: nat, addr: S.Addr, buf: Bytes): World {
    Next(Restarted(Next(FirstWorld(), ConnectedEvent), params, env, handle, addr), PaReportEvent(buf))
  }

  lemma {:induction false} FirstReportIsHeard(
    params: Bytes, env: Env, handle: nat, addr: S.Addr, buf: Bytes)
    requires |params| >= 8 && env.ok && VendorOf(PaReportEvent(buf)).Some?
    ensures HeardOnce(Reported(params, env, handle, addr, buf).s, VendorOf(PaReportEvent(buf)).value)
  {
    var w := Next(FirstWorld(), ConnectedEvent);
    RestartKeepsHeard(w, params, env, handle, addr);
    ReportIsHeard(Restarted(w, params, env, handle, addr), buf);
  }

  /**
   It does happen: after the first sync of all, a payload that the second source repeats is told again
   exactly when deleting the first sync reported its termination.
   */
  lemma {:induction false} RepeatIsToldExactly(
    first: Bytes, env: Env, second: Bytes, env': Env, handle: nat, addr: S.Addr, buf: Bytes)
    requires |first| >= 8 && env.ok && |second| >= 8 && env'.ok && VendorOf(PaReportEvent(buf)).Some?
    ensures var w, v := Reported(first, env, handle, addr, buf), VendorOf(PaReportEvent(buf)).value;
            var r := Next(Restarted(w, second, env', handle, addr), PaReportEvent(buf));
            Payloads(w.s.app.out) == [v] &&
            Payloads(r.s.app.out) == [v] + if env'.terminated then [v] else []
  {
    FirstReportIsHeard(first, env, handle, addr, buf);
    FirstPayloadIsCompared(Reported(first, env, handle, addr, buf), second, env', handle, addr, buf);
  }

  /* ---------- busy ---------- */

  /** While busy a command, known or not, changes nothing and is told that it failed. */
  lemma BusyRejects(s: State, op: nat, params: Bytes, env: Env)
    requires s.busy
    ensures var r := Command(s, op, params, env);
            r == s.(app := s.app.(out := Then(s.app.out, Result(op % 0x100, false)))) &&
            (Known(op) ==> Wire(r.app.out.last) == (op + RSP, [0x01]))
  {
  }

  /** Only a sync under way makes the receiver busy, and only its outcome or loss ends that. */
  lemma BusyExactly(s: State, e: Event)
    ensures s.busy ==>
              (!Step(s, e).busy <==>
               e.PaSyncedEvent? || e.PaTermEvent? || e.StreamingEvent? || e.SyncLostEvent?)
    ensures !s.busy ==>
              (Step(s, e).busy <==>
               (e.CommandEvent? && e.op == OP_PA_SYNC_START && |e.params| >= 8 && e.env.ok)
               || (e.BisWorkEvent? && s.bisWork && e.setOk && e.startOk))
  {
  }

  /* ---------- state transitions ---------- */

  /** The transitions among the messages sent: their number, and the last one. */
  function CountTold(log: Log): nat {
    if log.Nothing? then 0 else CountTold(log.before) + if log.last.Transition? then 1 else 0
  }

  function LastTold(log: Log): Option<Bits> {
    if log.Nothing? then None
    else if log.last.Transition? then Some(log.last.bits)
    else LastTold(log.before)
  }

  /** Between `s` and `r` the app has been told a transition, the last time to the bits of `r`. */
  ghost predicate Told(s: State, r: State) {
    CountTold(r.app.out) > CountTold(s.app.out) && LastTold(r.app.out) == Some(r.sync.bits)
  }

  /** The start of a PA sync, or a failed release of one, within which no termination is reported. */
  predicate Silent(e: Event) {
    e.CommandEvent? && !e.env.terminated &&
    (e.op == OP_PA_SYNC_START || (e.op == OP_PA_SYNC_RELEASE && !e.env.ok))
  }

  lemma EndIsTold(s: State)
    requires s.app.conn
    ensures Told(s, PaSyncEnded(s))
  {
  }

  lemma TermIsTold(s: State)
    requires s.app.conn
    ensures Told(s, PaTerm(s)) && PaTerm(s).app.conn
    ensures !PaTerm(s).sync.bits.paSynced && !PaTerm(s).sync.bits.bisSynced
  {
    var s1 := BisLost(s, 0x00);
    var s2 := s1.(sync := s1.sync.(notify := false));
    assert s2.app.conn && CountTold(s2.app.out) == CountTold(s.app.out);
    EndIsTold(s2);
  }

  lemma GainIsTold(s: State)
    requires s.app.conn
    ensures Told(s, BisGained(s))
  {
  }

  lemma SyncIsTold(s: State, handle: nat, addr: S.Addr)
    requires s.app.conn
    ensures Told(s, PaSynced(s, handle, addr))
  {
  }

  lemma ReleaseIsTold(s: State, env: Env)
    requires s.app.conn && s.sync.bits.paSynced
    ensures Told(s, PaSyncRelease(s, env)) <==> env.ok || env.terminated
  {
    var s1 := BisLost(s, 0x00);
    var s2 := s1.(sync := s1.sync.(notify := false));
    assert s2.app.conn && CountTold(s2.app.out) == CountTold(s.app.out);
    TermIsTold(s2);
    var s3 := Respond(Deleted(s2, env.terminated), OP_PA_SYNC_RELEASE, env.ok);
    assert CountTold(s3.app.out) == CountTold(Deleted(s2, env.terminated).app.out);
    if env.ok {
      EndIsTold(s3);
    }
  }

  lemma StartIsTold(s: State, params: Bytes, env: Env)
    requires s.app.conn && PaSyncStart(s, params, env).sync.bits != s.sync.bits
    ensures Told(s, PaSyncStart(s, params, env)) <==> env.terminated
  {
    var s1 := s.(sync := s.sync.(bits := s.sync.bits.(bisSynced := false), notify := false));
    TermIsTold(s1);
  }

  lemma StopIsTold(s: State, env: Env)
    requires s.app.conn && BisSyncStop(s, env).sync.bits != s.sync.bits
    ensures Told(s, BisSyncStop(s, env))
  {
    var s1 := Respond(s, OP_BIS_SYNC_STOP, env.ok);
    assert CountTold(s1.app.out) == CountTold(s.app.out) && StreamEnded(s1).app.out.last.Transition?;
  }

  lemma GoneIsTold(s: State)
    requires s.app.conn
    ensures Told(s, SyncGone(s))
  {
  }

  lemma LossIsTold(s: State, terminated: bool)
    requires s.app.conn
    ensures Told(s, SyncLost(s, terminated))
  {
    TermIsTold(s);
    var s1 := Deleted(s, terminated);
    assert s1.app.conn && CountTold(s1.app.out) >= CountTold(s.app.out);
    GoneIsTold(s1.(audio := AudioPaused(s1.audio)));
  }

  /** The commands that leave the state bits as they are. */
  lemma DispatchKeepsBits(s: State, op: nat, params: Bytes, env: Env)
    requires op != OP_SEARCH_START && op != OP_SEARCH_STOP && op != OP_BIS_SYNC_STOP
    requires op != OP_PA_SYNC_START && op != OP_PA_SYNC_RELEASE
    ensures Dispatch(s, op, params, env).sync.bits == s.sync.bits
  {
  }

  lemma SearchIsTold(s: State, op: nat, params: Bytes, env: Env)
    requires op == OP_SEARCH_START || op == OP_SEARCH_STOP
    requires s.app.conn && Dispatch(s, op, params, env).sync.bits != s.sync.bits
    ensures Told(s, Dispatch(s, op, params, env))
  {
    if op == OP_SEARCH_START {
      assert Dispatch(s, op, params, env) == SearchStart(s, env);
    } else {
      assert Dispatch(s, op, params, env) == SearchStop(s);
    }
  }

  lemma DispatchIsTold(s: State, op: nat, params: Bytes, env: Env)
    requires s.app.conn && Dispatch(s, op, params, env).sync.bits != s.sync.bits
    ensures Told(s, Dispatch(s, op, params, env)) <==> !Silent(CommandEvent(op, params, env))
  {
    if op == OP_PA_SYNC_RELEASE {
      ReleaseIsTold(s, env);
    } else if op == OP_PA_SYNC_START {
      StartIsTold(s, params, env);
    } else if op == OP_BIS_SYNC_STOP {
      StopIsTold(s, env);
    } else if op == OP_SEARCH_START || op == OP_SEARCH_STOP {
      SearchIsTold(s, op, params, env);
    } else {
      DispatchKeepsBits(s, op, params, env);
    }
  }

  /**
   While connected, a step that changes the state bits tells the app the new ones - with two exceptions
   when the deletion of a sync does not report its termination: the start of another PA sync drops the
   old one without a word, and so does a failed release with the BIS sync it has stopped.
   */
  lemma TransitionsAreTold(s: State, e: Event)
    requires s.app.conn && Step(s, e).sync.bits != s.sync.bits
    ensures Told(s, Step(s, e)) <==> !Silent(e)
  {
    match e
    case CommandEvent(op, params, env) =>
      assert !s.busy;
      DispatchIsTold(s, op, params, env);
    case PaTermEvent => TermIsTold(s);
    case PaSyncedEvent(handle, addr) => SyncIsTold(s, handle, addr);
    case StreamingEvent => GainIsTold(s.(audio := AudioStarted(s.audio)));
    case SyncLostEvent(terminated) => LossIsTold(s, terminated);
    case _ =>
  }

  /** How often the app has been told that the PA sync has ended. */
  function CountEnded(log: Log): nat {
    if log.Nothing? then 0
    else CountEnded(log.before) + if log.last.PaSyncState? && log.last.state == 0x00 then 1 else 0
  }

  lemma EndIsCounted(s: State)
    requires s.app.conn
    ensures CountEnded(PaSyncEnded(s).app.out) == CountEnded(s.app.out) + 1
  {
  }

  /** A successful release whose deletion reports the termination tells the end twice, before and after. */
  lemma ReleaseTellsEnd(s: State, env: Env)
    requires s.app.conn && s.sync.bits.paSynced
    ensures CountEnded(PaSyncRelease(s, env).app.out)
         == CountEnded(s.app.out) + (if env.terminated then 1 else 0) + if env.ok then 1 else 0
  {
    var s1 := BisLost(s, 0x00);
    var s2 := s1.(sync := s1.sync.(notify := false));
    assert s2.app.conn && CountEnded(s2.app.out) == CountEnded(s.app.out);
    EndIsCounted(s2);
    var s3 := Respond(Deleted(s2, env.terminated), OP_PA_SYNC_RELEASE, env.ok);
    assert s3.app.conn && CountEnded(s3.app.out) == CountEnded(Deleted(s2, env.terminated).app.out);
    EndIsCounted(s3);
  }

  /* ---------- volume ---------- */

  /** The request that sets the volume, or the mute state, and is not refused. */
  predicate Sets(s: State, e: Event, op: nat) {
    e.CommandEvent? && e.op == op && !s.busy && |e.params| >= 1
  }

  lemma DispatchKeepsVolume(s: State, op: nat, params: Bytes, env: Env)
    requires op != OP_VOLUME_SET && op != OP_MUTE_SET
    ensures Dispatch(s, op, params, env).volume == s.volume
    ensures Dispatch(s, op, params, env).mute == s.mute
  {
    if op == OP_PA_SYNC_RELEASE {
      ReleaseLeaves(s, env);
    } else if op == OP_PA_SYNC_START {
      StartLeaves(s, params, env);
    }
  }

  /** Volume and mute state are those last set, and nothing else changes them. */
  lemma OnlySetsChangeVolume(s: State, e: Event)
    ensures Step(s, e).volume == if Sets(s, e, OP_VOLUME_SET) then e.params[0] else s.volume
    ensures Step(s, e).mute == if Sets(s, e, OP_MUTE_SET) then e.params[0] else s.mute
  {
    if e.CommandEvent? && !s.busy && e.op != OP_VOLUME_SET && e.op != OP_MUTE_SET {
      DispatchKeepsVolume(s, e.op, e.params, e.env);
    }
  }

  /** What is set is notified and read back, volume before mute state. */
  lemma VolumeReadsBack(s: State, v: uint8, m: uint8, env: Env)
    requires !s.busy
    ensures var s1 := Command(s, OP_VOLUME_SET, [v], env);
            var s2 := Command(s1, OP_MUTE_SET, [m], env);
            var s3 := Command(s2, OP_VOLUME_GET, [], env);
            s3.app.out.last == Info(OP_VOLUME_GET, [v, m]) &&
            (s.app.conn ==> s1.app.out.last == VolumeChange(v, s.mute) &&
                            s2.app.out.last == VolumeChange(v, m))
  {
  }
}
