/**
 The ISO receive path: SDUs of different locations with the same reference time are joined into one
 frame, and frames go through a bounded queue that drops the oldest when full.
 */
module FrameAssembler {
  import opened CInt
  import opened Common

  const BLE_RX_PACKET_NUM: nat := 5

  /**
   An SDU with its metadata. `locations` is the set of bits in the location mask; `filler` stands for
   the unspecified bytes a bad or empty SDU adds to the frame.
   */
  datatype Sdu = Sdu(ts: uint32, locations: set<nat>, bad: bool, payload: Bytes, filler: Bytes)

  /** A pool buffer in use: its data and metadata, and the SDUs it was made from. */
  datatype Frame = Frame(
    buf: nat, data: Bytes, ts: uint32, locations: set<nat>, bad: bool, parts: seq<Sdu>)

  /**
   The assembler. `accepted` logs the SDUs taken into a frame, `sent` the frames put into the queue,
   `gone` those that left it; `failed` records that the queue refused a frame.
   */
  datatype Rx = Rx(
    free: set<nat>,
    pending: Option<Frame>,
    queue: seq<Frame>,
    consumer: Option<Frame>,
    accepted: seq<Sdu>,
    sent: seq<Frame>,
    gone: seq<Frame>,
    failed: bool)

  /** The buffers of the pool. */
  function Pool(): (r: set<nat>)
    ensures forall b: nat :: b in r <==> b < BLE_RX_PACKET_NUM
  {
    {0, 1, 2, 3, 4}
  }

  function Start(): Rx {
    Rx(Pool(), None, [], None, [], [], [], false)
  }

  /** What an SDU adds to a frame: its payload, or as many bytes unspecified. */
  function Contribution(sdu: Sdu): Bytes {
    if |sdu.payload| > 0 && !sdu.bad then sdu.payload else sdu.filler
  }

  predicate SameTime(a: uint32, b: uint32) {
    Abs(I32(a - b)) < SDU_REF_CH_DELTA_MAX_US
  }

  /** The guard at the top: a full queue gives up its oldest frame. */
  function DropOldest(s: Rx): Rx {
    if |s.queue| < BLE_RX_PACKET_NUM then s
    else s.(queue := s.queue[1..], gone := s.gone + [s.queue[0]], free := s.free + {s.queue[0].buf})
  }

  /** The pending frame goes into the queue. */
  function Put(s: Rx): Rx
    requires s.pending.Some?
  {
    if |s.queue| >= BLE_RX_PACKET_NUM then s.(failed := true, pending := None)
    else s.(queue := s.queue + [s.pending.value], sent := s.sent + [s.pending.value], pending := None)
  }

  /** Adds an SDU to the pending frame. */
  function Merge(s: Rx, sdu: Sdu): Rx
    requires s.pending.Some?
  {
    var f := s.pending.value;
    s.(pending := Some(Frame(f.buf, f.data + Contribution(sdu), f.ts, f.locations + sdu.locations,
                             f.bad || sdu.bad, f.parts + [sdu])),
       accepted := s.accepted + [sdu])
  }

  /** Begins a frame in buffer `buf`. */
  function Begin(s: Rx, sdu: Sdu, buf: nat): Rx {
    s.(free := s.free - {buf},
       pending := Some(Frame(buf, Contribution(sdu), sdu.ts, sdu.locations, sdu.bad, [sdu])),
       accepted := s.accepted + [sdu])
  }

  /** `check_send`: a frame with all `n` locations is complete. */
  function CheckSend(s: Rx, n: nat): Rx
    requires s.pending.Some?
  {
    if n == |s.pending.value.locations| then Put(s) else s
  }

  /** A new frame, in the buffer the pool gives out, if it has one. */
  function NewFrame(s: Rx, sdu: Sdu, n: nat, buf: nat): Rx {
    if buf !in s.free then s else CheckSend(Begin(s, sdu, buf), n)
  }

  /** `le_audio_rx_data_handler` in the streaming state. */
  function Handle(s: Rx, sdu: Sdu, n: nat, buf: nat): Rx {
    var s1 := DropOldest(s);
    if s1.pending.None? then NewFrame(s1, sdu, n, buf)
    else if !SameTime(sdu.ts, s1.pending.value.ts) then NewFrame(Put(s1), sdu, n, buf)
    else if s1.pending.value.locations != sdu.locations then CheckSend(Merge(s1, sdu), n)
    else s1
  }

  /**
   An SDU received while streaming or not, and the two steps of the consumer. `buf` is the pool's
   choice of a free buffer.
   */
  datatype Event = Receive(sdu: Sdu, streaming: bool, buf: nat) | Get | Unref

  function Step(s: Rx, n: nat, e: Event): Rx {
    match e
    case Receive(sdu, streaming, buf) => if streaming then Handle(s, sdu, n, buf) else s
    case Get =>
      if s.consumer.Some? || s.queue == [] then s
      else s.(consumer := Some(s.queue[0]), queue := s.queue[1..], gone := s.gone + [s.queue[0]])
    case Unref =>
      if s.consumer.None? then s
      else s.(free := s.free + {s.consumer.value.buf}, consumer := None)
  }

  function Run(s: Rx, n: nat, evs: seq<Event>): Rx
    decreases |evs|
  {
    if evs == [] then s else Run(Step(s, n, evs[0]), n, evs[1..])
  }

  /* ---------- frames ---------- */

  function Contributions(parts: seq<Sdu>): Bytes {
    if parts == [] then []
    else Contributions(parts[..|parts| - 1]) + Contribution(parts[|parts| - 1])
  }

  ghost predicate DistinctLocations(parts: seq<Sdu>) {
    forall i, j | 0 <= i < j < |parts| :: parts[i].locations != parts[j].locations
  }

  /** A frame is bad if one of its SDUs is, and has the locations of all of them. */
  ghost predicate MetaOk(f: Frame) {
    (f.bad <==> exists p :: p in f.parts && p.bad) &&
    forall l: nat :: l in f.locations <==> exists p :: p in f.parts && l in p.locations
  }

  /** A frame is the in-order concatenation of its SDUs, all within 10 us of the first. */
  ghost predicate Joined(f: Frame) {
    f.parts != [] && f.data == Contributions(f.parts) && f.ts == f.parts[0].ts && MetaOk(f) &&
    (forall i | 0 <= i < |f.parts| :: SameTime(f.parts[i].ts, f.ts))
  }

  ghost predicate FrameOk(f: Frame, n: nat) {
    Joined(f) && DistinctLocations(f.parts) && |f.parts| == |f.locations| <= n
  }

  /** A frame not yet sent: one SDU short of two. */
  ghost predicate PendingOk(f: Frame, n: nat) {
    Joined(f) && |f.parts| == 1 && n == 2 && f.locations == f.parts[0].locations &&
    |f.locations| == 1
  }

  function Flatten(frames: seq<Frame>): seq<Sdu> {
    if frames == [] then [] else Flatten(frames[..|frames| - 1]) + frames[|frames| - 1].parts
  }

  function Parts(f: Option<Frame>): seq<Sdu> {
    if f.Some? then f.value.parts else []
  }

  lemma FlattenAppend(frames: seq<Frame>, f: Frame)
    ensures Flatten(frames + [f]) == Flatten(frames) + f.parts
  {
    var all := frames + [f];
    assert all[..|all| - 1] == frames;
  }

  lemma ContributionsAppend(parts: seq<Sdu>, sdu: Sdu)
    ensures Contributions(parts + [sdu]) == Contributions(parts) + Contribution(sdu)
  {
    var all := parts + [sdu];
    assert all[..|all| - 1] == parts;
  }

  /* ---------- what a frame holds ---------- */

  /** Received well, and not empty. */
  predicate Received(sdu: Sdu) {
    sdu.payload != [] && !sdu.bad
  }

  /** Where part `i` begins in the frame. */
  function Offset(parts: seq<Sdu>, i: nat): nat
    requires i <= |parts|
  {
    if i == 0 then 0
    else Offset(parts, i - 1) + if Received(parts[i - 1]) then |parts[i - 1].payload| else |parts[i - 1].filler|
  }

  /** Slice `i` is the payload of part `i`, or filler if that was not received. */
  ghost predicate SliceOk(data: Bytes, parts: seq<Sdu>, i: nat)
    requires i < |parts|
  {
    Offset(parts, i) <= Offset(parts, i + 1) <= |data| &&
    data[Offset(parts, i)..Offset(parts, i + 1)]
    == if Received(parts[i]) then parts[i].payload else parts[i].filler
  }

  /** The data is one slice after the other, and nothing else. */
  ghost predicate SlicesOk(data: Bytes, parts: seq<Sdu>) {
    |data| == Offset(parts, |parts|) && forall i: nat | i < |parts| :: SliceOk(data, parts, i)
  }

  lemma {:induction false} OffsetPrefix(parts: seq<Sdu>, more: seq<Sdu>, i: nat)
    requires i <= |parts|
    ensures Offset(parts + more, i) == Offset(parts, i)
    decreases i
  {
    if i == 0 {
    } else {
      OffsetPrefix(parts, more, i - 1);
      assert (parts + more)[i - 1] == parts[i - 1];
    }
  }

  lemma {:induction false} SliceEarlier(data: Bytes, more: Bytes, parts: seq<Sdu>, last: Sdu, i: nat)
    requires i < |parts| && SliceOk(data, parts, i)
    ensures SliceOk(data + more, parts + [last], i)
  {
    OffsetPrefix(parts, [last], i);
    OffsetPrefix(parts, [last], i + 1);
    var from, to := Offset(parts, i), Offset(parts, i + 1);
    assert (data + more)[from..to] == data[from..to];
  }

  lemma {:induction false} SliceLast(data: Bytes, parts: seq<Sdu>, last: Sdu)
    requires |data| == Offset(parts, |parts|)
    ensures var all := data + Contribution(last);
            |all| == Offset(parts + [last], |parts| + 1) && SliceOk(all, parts + [last], |parts|)
  {
    OffsetPrefix(parts, [last], |parts|);
    var all := data + Contribution(last);
    assert all[|data|..] == Contribution(last) && all[|data|..|all|] == all[|data|..];
  }

  lemma {:induction false} SlicesOfContributions(parts: seq<Sdu>)
    ensures SlicesOk(Contributions(parts), parts)
    decreases |parts|
  {
    if parts == [] {
    } else {
      var n := |parts| - 1;
      var most, last := parts[..n], parts[n];
      SlicesOfContributions(most);
      SliceLast(Contributions(most), most, last);
      assert parts == most + [last];
      forall i: nat | i < n
        ensures SliceOk(Contributions(parts), parts, i)
      {
        SliceEarlier(Contributions(most), Contribution(last), most, last, i);
      }
    }
  }

  /** One payload after the other. */
  function Payloads(parts: seq<Sdu>): Bytes {
    if parts == [] then [] else parts[0].payload + Payloads(parts[1..])
  }

  lemma {:induction false} PayloadsAppend(parts: seq<Sdu>, sdu: Sdu)
    ensures Payloads(parts + [sdu]) == Payloads(parts) + sdu.payload
    decreases |parts|
  {
    if parts == [] {
      assert ([sdu])[1..] == [];
    } else {
      assert (parts + [sdu])[1..] == parts[1..] + [sdu];
      PayloadsAppend(parts[1..], sdu);
    }
  }

  lemma {:induction false} ReceivedContributions(parts: seq<Sdu>)
    requires forall i | 0 <= i < |parts| :: Received(parts[i])
    ensures Contributions(parts) == Payloads(parts)
    decreases |parts|
  {
    if parts == [] {
    } else {
      var most, last := parts[..|parts| - 1], parts[|parts| - 1];
      ReceivedContributions(most);
      assert parts == most + [last];
      PayloadsAppend(most, last);
    }
  }

  lemma SameTimeExactly(a: uint32, b: uint32)
    ensures SameTime(a, b) <==> U32(a - b) < 10 || U32(b - a) < 10
  {
  }

  /* ---------- invariant ---------- */

  function InQueue(queue: seq<Frame>, b: nat): nat {
    if queue == [] then 0 else Count(queue[0].buf == b) + InQueue(queue[1..], b)
  }

  /** How many owners buffer `b` has: pool, pending frame, queue and consumer. */
  function Owners(s: Rx, b: nat): nat {
    Count(b in s.free) + Count(s.pending.Some? && s.pending.value.buf == b) + InQueue(s.queue, b) +
    Count(s.consumer.Some? && s.consumer.value.buf == b)
  }

  ghost predicate Conserved(s: Rx) {
    forall b: nat :: Owners(s, b) == Count(b < BLE_RX_PACKET_NUM)
  }

  /** Every accepted SDU is in a frame sent or in the pending one, in order; the queue is a FIFO. */
  ghost predicate InOrder(s: Rx) {
    s.accepted == Flatten(s.sent) + Parts(s.pending) && s.sent == s.gone + s.queue
  }

  ghost predicate FramesOk(s: Rx, n: nat) {
    (forall i | 0 <= i < |s.sent| :: FrameOk(s.sent[i], n)) &&
    (s.pending.Some? ==> PendingOk(s.pending.value, n))
  }

  ghost predicate Inv(s: Rx, n: nat) {
    !s.failed && |s.queue| <= BLE_RX_PACKET_NUM && Conserved(s) && InOrder(s) && FramesOk(s, n)
  }

  /** Each SDU carries one location. */
  predicate OneLocation(e: Event) {
    e.Receive? ==> |e.sdu.locations| == 1
  }

  lemma StartInv(n: nat)
    ensures Inv(Start(), n)
  {
  }

  lemma {:induction false} InQueueAppend(queue: seq<Frame>, f: Frame, b: nat)
    ensures InQueue(queue + [f], b) == InQueue(queue, b) + Count(f.buf == b)
    decreases |queue|
  {
    if queue == [] {
      assert ([f])[1..] == [];
    } else {
      assert (queue + [f])[1..] == queue[1..] + [f];
      InQueueAppend(queue[1..], f, b);
    }
  }

  lemma HeadLeaves(s: Rx)
    requires InOrder(s) && s.queue != []
    ensures s.sent == s.gone + [s.queue[0]] + s.queue[1..]
  {
  }

  /** Dropping and taking the oldest frame. */
  lemma DropKeeps(s: Rx, n: nat)
    requires Inv(s, n)
    ensures var r := DropOldest(s);
            Inv(r, n) && |r.queue| < BLE_RX_PACKET_NUM && r.pending == s.pending && r.sent == s.sent
  {
    var r := DropOldest(s);
    if |s.queue| >= BLE_RX_PACKET_NUM {
      HeadLeaves(s);
      forall b: nat
        ensures Owners(r, b) == Count(b < BLE_RX_PACKET_NUM)
      {
        assert Owners(s, b) == Count(b < BLE_RX_PACKET_NUM);
      }
    }
  }

  lemma PutConserves(s: Rx)
    requires s.pending.Some? && |s.queue| < BLE_RX_PACKET_NUM && Conserved(s)
    ensures Conserved(Put(s))
  {
    forall b: nat
      ensures Owners(Put(s), b) == Count(b < BLE_RX_PACKET_NUM)
    {
      assert Owners(s, b) == Count(b < BLE_RX_PACKET_NUM);
      InQueueAppend(s.queue, s.pending.value, b);
    }
  }

  lemma PutKeeps(s: Rx, n: nat)
    requires s.pending.Some? && |s.queue| < BLE_RX_PACKET_NUM && !s.failed && Conserved(s)
    requires InOrder(s) && FrameOk(s.pending.value, n)
    requires forall i | 0 <= i < |s.sent| :: FrameOk(s.sent[i], n)
    ensures Inv(Put(s), n)
  {
    FlattenAppend(s.sent, s.pending.value);
    PutConserves(s);
  }

  lemma PendingIsFrame(f: Frame, n: nat)
    requires PendingOk(f, n)
    ensures FrameOk(f, n)
  {
  }

  lemma NewFrameKeeps(s: Rx, sdu: Sdu, n: nat, buf: nat)
    requires Inv(s, n) && 1 <= n <= 2 && |sdu.locations| == 1 && s.pending.None?
    requires |s.queue| < BLE_RX_PACKET_NUM || n == 2
    ensures Inv(NewFrame(s, sdu, n, buf), n)
    ensures |NewFrame(s, sdu, n, buf).sent| <= |s.sent| + Count(n == 1)
  {
    if buf in s.free {
      var r := Begin(s, sdu, buf);
      var f := r.pending.value;
      assert [sdu][..0] == [];
      assert Contributions([sdu]) == Contributions([]) + Contribution(sdu);
      assert [sdu][0] in f.parts && f.parts == [sdu];
      assert Joined(f);
      forall b: nat
        ensures Owners(r, b) == Count(b < BLE_RX_PACKET_NUM)
      {
        assert Owners(s, b) == Count(b < BLE_RX_PACKET_NUM);
        assert Owners(s, buf) == Count(buf < BLE_RX_PACKET_NUM);
      }
      assert InOrder(r);
      if n == 1 {
        PutKeeps(r, n);
      }
    }
  }

  lemma OnlyElement(a: set<nat>, x: nat)
    requires |a| == 1 && x in a
    ensures a == {x}
  {
    assert |a - {x}| == 0;
  }

  lemma UnionOfTwo(a: set<nat>, b: set<nat>)
    requires |a| == |b| == 1 && a != b
    ensures |a + b| == 2
  {
    var x :| x in a;
    var y :| y in b;
    OnlyElement(a, x);
    OnlyElement(b, y);
    assert a + b == {x, y};
  }

  lemma MetaAppend(f: Frame, sdu: Sdu, g: Frame)
    requires MetaOk(f) && g.parts == f.parts + [sdu]
    requires g.bad == (f.bad || sdu.bad) && g.locations == f.locations + sdu.locations
    ensures MetaOk(g)
  {
    assert sdu in g.parts;
    assert forall p :: p in g.parts <==> p in f.parts || p == sdu;
  }

  lemma JoinedAppend(f: Frame, sdu: Sdu, g: Frame)
    requires Joined(f) && SameTime(sdu.ts, f.ts)
    requires g == Frame(f.buf, f.data + Contribution(sdu), f.ts, f.locations + sdu.locations,
                        f.bad || sdu.bad, f.parts + [sdu])
    ensures Joined(g)
  {
    ContributionsAppend(f.parts, sdu);
    MetaAppend(f, sdu, g);
  }

  lemma MergeKeeps(s: Rx, sdu: Sdu, n: nat)
    requires Inv(s, n) && s.pending.Some? && |sdu.locations| == 1 && |s.queue| < BLE_RX_PACKET_NUM
    requires SameTime(sdu.ts, s.pending.value.ts) && s.pending.value.locations != sdu.locations
    ensures Inv(CheckSend(Merge(s, sdu), n), n)
    ensures |CheckSend(Merge(s, sdu), n).sent| == |s.sent| + 1
  {
    var f, r := s.pending.value, Merge(s, sdu);
    var g := r.pending.value;
    JoinedAppend(f, sdu, g);
    UnionOfTwo(f.locations, sdu.locations);
    assert FrameOk(g, n);
    forall b: nat
      ensures Owners(r, b) == Count(b < BLE_RX_PACKET_NUM)
    {
      assert Owners(s, b) == Count(b < BLE_RX_PACKET_NUM);
    }
    assert InOrder(r);
    PutKeeps(r, n);
  }

  /** A call sends at most one frame, and the queue takes it. */
  lemma HandleKeeps(s: Rx, sdu: Sdu, n: nat, buf: nat)
    requires Inv(s, n) && 1 <= n <= 2 && |sdu.locations| == 1
    ensures Inv(Handle(s, sdu, n, buf), n)
    ensures |Handle(s, sdu, n, buf).sent| <= |s.sent| + 1
  {
    DropKeeps(s, n);
    var s1 := DropOldest(s);
    if s1.pending.None? {
      NewFrameKeeps(s1, sdu, n, buf);
    } else if !SameTime(sdu.ts, s1.pending.value.ts) {
      PendingIsFrame(s1.pending.value, n);
      PutKeeps(s1, n);
      NewFrameKeeps(Put(s1), sdu, n, buf);
    } else if s1.pending.value.locations != sdu.locations {
      MergeKeeps(s1, sdu, n);
    }
  }

  /**
   When a call sends a frame: with one stream every SDU that gets a buffer; with two, the second
   location of a frame completes it, and an SDU of another time sends it as it is.
   */
  lemma SendsExactly(s: Rx, sdu: Sdu, n: nat, buf: nat)
    requires Inv(s, n) && 1 <= n <= 2 && |sdu.locations| == 1
    ensures var r := Handle(s, sdu, n, buf);
            var p := s.pending;
            if p.None? then
              r.sent == s.sent <==> n == 2 || buf !in DropOldest(s).free
            else if !SameTime(sdu.ts, p.value.ts) then r.sent == s.sent + [p.value]
            else if p.value.locations == sdu.locations then r.sent == s.sent && r.accepted == s.accepted
            else |r.sent| == |s.sent| + 1 && r.sent[|s.sent|].parts == p.value.parts + [sdu] &&
                 |r.sent[|s.sent|].locations| == n
  {
    DropKeeps(s, n);
    var s1 := DropOldest(s);
    if s1.pending.None? {
      assert buf in s1.free ==> (NewFrame(s1, sdu, n, buf).sent == s.sent <==> n == 2);
    } else if SameTime(sdu.ts, s1.pending.value.ts) && s1.pending.value.locations != sdu.locations {
      MergeKeeps(s1, sdu, n);
      UnionOfTwo(s1.pending.value.locations, sdu.locations);
    }
  }

  /** The SDU begins a frame: none is pending, or one of another time. */
  predicate Begins(s: Rx, sdu: Sdu) {
    s.pending.None? || !SameTime(sdu.ts, s.pending.value.ts)
  }

  /**
   What a call drops and what it takes: the oldest frame goes exactly when the queue is full; the SDU is
   taken unless it repeats the locations of the pending frame, or begins a frame and no buffer is free.
   */
  lemma TakesExactly(s: Rx, sdu: Sdu, n: nat, buf: nat)
    requires |s.queue| <= BLE_RX_PACKET_NUM
    ensures var r, full := Handle(s, sdu, n, buf), |s.queue| == BLE_RX_PACKET_NUM;
            r.gone == s.gone + (if full then [s.queue[0]] else []) && r.consumer == s.consumer &&
            (r.accepted == s.accepted + [sdu] || r.accepted == s.accepted) &&
            (r.accepted == s.accepted <==>
             if Begins(s, sdu) then buf !in s.free && !(full && s.queue[0].buf == buf)
             else s.pending.value.locations == sdu.locations)
  {
    assert s.accepted + [sdu] != s.accepted;
  }

  /** A frame put into the queue is its last one; a full queue refuses it. */
  lemma PutExactly(s: Rx)
    requires s.pending.Some?
    ensures var r := Put(s);
            r.pending == None && (r.failed <==> s.failed || |s.queue| >= BLE_RX_PACKET_NUM) &&
            if |s.queue| >= BLE_RX_PACKET_NUM then r.queue == s.queue && r.sent == s.sent
            else r.queue == s.queue + [s.pending.value] && r.sent == s.sent + [s.pending.value]
  {
  }

  /** SDUs that come in while not streaming are thrown away. */
  lemma ThrownAway(s: Rx, n: nat, sdu: Sdu, buf: nat)
    ensures Step(s, n, Receive(sdu, false, buf)) == s
  {
  }

  /** The consumer takes the oldest frame, and its buffer is free again when it has given it back. */
  lemma ConsumesExactly(s: Rx, n: nat)
    requires s.consumer.None? && s.queue != []
    ensures var r := Step(s, n, Get);
            r == s.(consumer := Some(s.queue[0]), queue := s.queue[1..], gone := r.gone) &&
            Step(r, n, Unref) == r.(free := s.free + {s.queue[0].buf}, consumer := None)
  {
  }

  lemma ConsumerKeeps(s: Rx, n: nat, e: Event)
    requires Inv(s, n) && !e.Receive?
    ensures Inv(Step(s, n, e), n)
  {
    var r := Step(s, n, e);
    if e.Get? && s.queue != [] {
      HeadLeaves(s);
    }
    forall b: nat
      ensures Owners(r, b) == Count(b < BLE_RX_PACKET_NUM)
    {
      assert Owners(s, b) == Count(b < BLE_RX_PACKET_NUM);
    }
  }

  lemma StepKeeps(s: Rx, n: nat, e: Event)
    requires Inv(s, n) && 1 <= n <= 2 && OneLocation(e)
    ensures Inv(Step(s, n, e), n)
  {
    if e.Receive? {
      if e.streaming {
        HandleKeeps(s, e.sdu, n, e.buf);
      }
    } else {
      ConsumerKeeps(s, n, e);
    }
  }

  /** Over every run with one or two streams and one location per SDU. */
  lemma {:induction false} RunKeepsInv(s: Rx, n: nat, evs: seq<Event>)
    requires Inv(s, n) && 1 <= n <= 2 && forall i | 0 <= i < |evs| :: OneLocation(evs[i])
    ensures Inv(Run(s, n, evs), n)
    decreases |evs|
  {
    if evs == [] {
    } else {
      assert OneLocation(evs[0]);
      StepKeeps(s, n, evs[0]);
      RunKeepsInv(Step(s, n, evs[0]), n, evs[1..]);
    }
  }

  lemma AssemblerInvariants(n: nat, evs: seq<Event>)
    requires 1 <= n <= 2 && forall i | 0 <= i < |evs| :: OneLocation(evs[i])
    ensures Inv(Run(Start(), n, evs), n)
  {
    StartInv(n);
    RunKeepsInv(Start(), n, evs);
  }

  /**
   Over every run: each frame sent is made of the slices of its SDUs - the payload where one was
   received, unspecified bytes where it was not; of SDUs all received, it is one payload after the other.
   */
  lemma FramesHoldPayloads(n: nat, evs: seq<Event>, k: nat)
    requires 1 <= n <= 2 && forall i | 0 <= i < |evs| :: OneLocation(evs[i])
    requires k < |Run(Start(), n, evs).sent|
    ensures var f := Run(Start(), n, evs).sent[k];
            SlicesOk(f.data, f.parts) && MetaOk(f) &&
            ((forall i | 0 <= i < |f.parts| :: Received(f.parts[i])) ==> f.data == Payloads(f.parts))
  {
    AssemblerInvariants(n, evs);
    var f := Run(Start(), n, evs).sent[k];
    assert FrameOk(f, n);
    SlicesOfContributions(f.parts);
    if forall i | 0 <= i < |f.parts| :: Received(f.parts[i]) {
      ReceivedContributions(f.parts);
    }
  }

  /** No frame ever holds two SDUs of the same location, and the queue refuses none. */
  ghost predicate Good(s: Rx) {
    !s.failed &&
    (forall i | 0 <= i < |s.sent| :: DistinctLocations(s.sent[i].parts)) &&
    (s.pending.Some? ==> DistinctLocations(s.pending.value.parts))
  }

  /** A stream count for which every run with one location per SDU is good. */
  ghost predicate AlwaysGood(n: nat) {
    forall evs: seq<Event> ::
      (forall i | 0 <= i < |evs| :: OneLocation(evs[i])) ==> Good(Run(Start(), n, evs))
  }

  function At(location: nat): Event {
    Receive(Sdu(0, {location}, false, [0], []), true, 0)
  }

  /** From three streams on, left, right and left again are joined: the masks compared differ. */
  lemma ThreeStreamsJoinTwice(n: nat)
    requires n >= 3
    ensures !Good(Run(Start(), n, [At(0), At(1), At(0)]))
  {
    var evs := [At(0), At(1), At(0)];
    var s1 := Step(Start(), n, At(0));
    var s2 := Step(s1, n, At(1));
    var s3 := Step(s2, n, At(0));
    assert s1.pending.value.parts == [At(0).sdu];
    UnionOfTwo({0}, {1});
    assert 1 in s1.pending.value.locations + {1} && 1 !in s1.pending.value.locations;
    assert s2.pending.value.parts == [At(0).sdu, At(1).sdu] && s2.pending.value.locations == {0} + {1};
    assert 1 !in At(0).sdu.locations;
    assert {0} + {1} + {0} == {0} + {1};
    assert s3.pending.value.parts == [At(0).sdu, At(1).sdu, At(0).sdu];
    assert evs[1..] == [At(1), At(0)] && evs[1..][1..] == [At(0)] && evs[1..][1..][1..] == [];
    assert Run(s2, n, [At(0)]) == Run(s3, n, []) == s3;
    assert Run(s1, n, [At(1), At(0)]) == Run(s2, n, [At(0)]);
    assert Run(Start(), n, evs) == Run(s1, n, [At(1), At(0)]) == s3;
    var parts := s3.pending.value.parts;
    assert parts[0].locations == parts[2].locations;
    assert !DistinctLocations(parts);
  }

  lemma InvIsGood(s: Rx, n: nat)
    requires Inv(s, n)
    ensures Good(s)
  {
    forall i | 0 <= i < |s.sent|
      ensures DistinctLocations(s.sent[i].parts)
    {
      assert FrameOk(s.sent[i], n);
    }
  }

  /** The comparison of location masks keeps locations apart exactly up to two streams. */
  lemma DistinctExactly(n: nat)
    requires n >= 1
    ensures AlwaysGood(n) <==> n <= 2
  {
    if n <= 2 {
      forall evs: seq<Event> | forall i | 0 <= i < |evs| :: OneLocation(evs[i])
        ensures Good(Run(Start(), n, evs))
      {
        AssemblerInvariants(n, evs);
        InvIsGood(Run(Start(), n, evs), n);
      }
    } else {
      ThreeStreamsJoinTwice(n);
      var evs := [At(0), At(1), At(0)];
      assert forall i | 0 <= i < |evs| :: OneLocation(evs[i]);
    }
  }

  /* ---------- the code ---------- */

  /** The state of `le_audio_rx.c`: pending frame, queue, pool, and the consumer thread's frame. */
  class LeAudioRx {
    /** The number of streams synchronised. */
    const streamCount: nat
    var free: set<nat>
    var audioFrame: Option<Frame>
    var queue: seq<Frame>
    var consumed: Option<Frame>
    var failed: bool
    ghost var accepted: seq<Sdu>
    ghost var sent: seq<Frame>
    ghost var gone: seq<Frame>

    ghost function State(): Rx
      reads this
    {
      Rx(free, audioFrame, queue, consumed, accepted, sent, gone, failed)
    }

    ghost predicate Valid()
      reads this
    {
      Inv(State(), streamCount)
    }

    constructor (syncNum: nat)
      ensures State() == Start() && streamCount == syncNum && Valid()
    {
      streamCount := syncNum;
      free, audioFrame, queue, consumed, failed := Pool(), None, [], None, false;
      accepted, sent, gone := [], [], [];
    }

    /** `k_msgq_get` without waiting. */
    method QueueGet() returns (frame: Option<Frame>)
      modifies this`queue, this`gone
      ensures old(queue) == [] ==> frame == None && queue == [] && gone == old(gone)
      ensures old(queue) != [] ==>
                frame == Some(old(queue[0])) && queue == old(queue[1..]) &&
                gone == old(gone) + [old(queue[0])]
    {
      if queue == [] {
        return None;
      }
      frame := Some(queue[0]);
      gone := gone + [queue[0]];
      queue := queue[1..];
    }

    /** `k_msgq_put` of the pending frame, with the error check. */
    method SendFrame()
      requires audioFrame.Some?
      modifies this`queue, this`audioFrame, this`sent, this`failed
      ensures State() == Put(old(State()))
    {
      if |queue| >= BLE_RX_PACKET_NUM {
        failed := true;
      } else {
        queue := queue + [audioFrame.value];
        sent := sent + [audioFrame.value];
      }
      audioFrame := None;
    }

    /** `audio_frame_add`. */
    method AudioFrameAdd(sdu: Sdu)
      requires audioFrame.Some?
      modifies this`audioFrame, this`accepted
      ensures accepted == old(accepted) + [sdu]
      ensures var f := old(audioFrame.value);
              audioFrame.Some? && audioFrame == Some(f.(data := audioFrame.value.data, parts := f.parts + [sdu])) &&
              audioFrame.value.data == f.data + if Received(sdu) then sdu.payload else sdu.filler
    {
      var f := audioFrame.value;
      if |sdu.payload| > 0 && !sdu.bad {
        f := f.(data := f.data + sdu.payload);
      } else {
        f := f.(data := f.data + sdu.filler);
      }
      audioFrame := Some(f.(parts := f.parts + [sdu]));
      accepted := accepted + [sdu];
    }

    /** The code at `check_send`. */
    method CheckSendNow()
      requires audioFrame.Some?
      modifies this`queue, this`audioFrame, this`sent, this`failed
      ensures State() == CheckSend(old(State()), streamCount)
    {
      if streamCount == |audioFrame.value.locations| {
        SendFrame();
      }
    }

    /** The guard at the top: a full queue gives up its oldest frame. */
    method MakeRoom()
      modifies this`queue, this`gone, this`free
      ensures State() == DropOldest(old(State()))
    {
      if |queue| >= BLE_RX_PACKET_NUM {
        var stale := QueueGet();
        if stale.Some? {
          free := free + {stale.value.buf};
        }
      }
    }

    /** The SDU begins a frame in buffer `buf`, if the pool has one. */
    method BeginFrame(sdu: Sdu, buf: nat)
      modifies this`free, this`audioFrame, this`queue, this`accepted, this`sent, this`failed
      ensures State() == NewFrame(old(State()), sdu, streamCount, buf)
    {
      if buf !in free {
        return;
      }
      free := free - {buf};
      audioFrame := Some(Frame(buf, [], sdu.ts, sdu.locations, sdu.bad, []));
      AudioFrameAdd(sdu);
      assert audioFrame.value.data == Contribution(sdu) && audioFrame.value.parts == [sdu];
      CheckSendNow();
    }

    /** What is done with an SDU while streaming. */
    method Assemble(sdu: Sdu, buf: nat)
      modifies this
      ensures State() == Handle(old(State()), sdu, streamCount, buf)
    {
      MakeRoom();
      if audioFrame.Some? {
        var refTsDiff := Abs(I32(sdu.ts - audioFrame.value.ts));
        if refTsDiff < SDU_REF_CH_DELTA_MAX_US {
          if audioFrame.value.locations != sdu.locations {
            var f := audioFrame.value;
            audioFrame := Some(f.(locations := f.locations + sdu.locations, bad := f.bad || sdu.bad));
            AudioFrameAdd(sdu);
            CheckSendNow();
          }
          return;
        }
        SendFrame();
      }
      BeginFrame(sdu, buf);
    }

    /** `le_audio_rx_data_handler`. With one or two streams the invariant is kept. */
    method DataHandler(sdu: Sdu, streaming: bool, buf: nat)
      modifies this
      ensures State() == Step(old(State()), streamCount, Receive(sdu, streaming, buf))
      ensures old(Valid()) && 1 <= streamCount <= 2 && |sdu.locations| == 1 ==> Valid()
    {
      ghost var s := State();
      if streaming {
        Assemble(sdu, buf);
      }
      if Inv(s, streamCount) && 1 <= streamCount <= 2 && |sdu.locations| == 1 {
        StepKeeps(s, streamCount, Receive(sdu, streaming, buf));
      }
    }

    /** The consumer thread takes the next frame. */
    method TakeFrame()
      requires consumed.None? && queue != []
      modifies this`queue, this`gone, this`consumed
      ensures State() == Step(old(State()), streamCount, Get)
      ensures old(Valid()) ==> Valid()
    {
      ghost var s := State();
      consumed := QueueGet();
      if Inv(s, streamCount) {
        ConsumerKeeps(s, streamCount, Get);
      }
    }

    /** And gives its buffer back. */
    method ReleaseFrame()
      requires consumed.Some?
      modifies this`free, this`consumed
      ensures State() == Step(old(State()), streamCount, Unref)
      ensures old(Valid()) ==> Valid()
    {
      ghost var s := State();
      free := free + {consumed.value.buf};
      consumed := None;
      if Inv(s, streamCount) {
        ConsumerKeeps(s, streamCount, Unref);
      }
    }
  }
}
