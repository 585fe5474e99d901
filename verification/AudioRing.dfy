/**
 The output ring of the audio datapath as a state machine over atomic steps.

 One thread fills the ring (`audio_datapath_stream_out`, which first lets presentation compensation
 move the producer index) and the I2S interrupt drains it. The interrupt may run between any two of
 the thread's steps, so the thread's work is split here into the steps an interrupt can separate.
 */
module AudioRing {
  import opened CInt
  import opened Common

  const BLK_STEREO_NUM_SAMPS: nat := 96

  /** The samples of one block of 1 ms. */
  type Block = seq<int>

  /** A muted block. */
  function Silence(): Block {
    seq(BLK_STEREO_NUM_SAMPS, _ => 0)
  }

  /** A ring slot together with its entry in `prod_blk_ts`. */
  datatype Cell = Cell(blk: Block, ts: uint32)

  /** A transmit buffer I2S can hold: a ring slot or one of the two alternate buffers. */
  datatype Buf = Slot(idx: nat) | Alt0 | Alt1

  /** Where the filling thread stands. */
  datatype Thread =
    | Idle
    | Muted
    | Copying(frame: seq<Block>, rxTs: uint32, i: nat, outIdx: nat)

  datatype Ring = Ring(
    frameBlks: nat,
    fifo: seq<Block>,
    ts: seq<uint32>,
    prod: nat,
    cons: nat,
    alt0InUse: bool,
    alt1InUse: bool,
    playing: Buf,
    queued: Buf,
    presDly: uint32,
    thread: Thread,
    halted: bool)

  datatype Event =
    | FrameArrives(frame: seq<Block>, rxTs: uint32)
    | CopyBlock
    | Publish
    | Mute(ts: uint32)
    | Advance
    | Retreat
    | I2s(frameStart: uint32)

  /* ---------- indices ---------- */

  function NextIdx(n: nat, i: nat): nat {
    if i < n - 1 then i + 1 else 0
  }

  function PrevIdx(n: nat, i: nat): nat
    requires n > 0
  {
    if i > 0 then i - 1 else n - 1
  }

  /** The number of filled blocks as the code computes it: 0 when the indices are equal. */
  function FilledBlocks(n: nat, prod: nat, cons: nat): int {
    if cons < prod then prod - cons
    else if cons > prod then (n - cons) + prod
    else 0
  }

  /** The slot `d` positions after `i` around the ring. */
  function At(n: nat, i: nat, d: nat): (slot: nat)
    requires i < n && d <= n
    ensures slot < n
  {
    if i + d < n then i + d else i + d - n
  }

  /**
   The true distance from consumer to producer. The consumer index names the block I2S got last, so
   equal indices mean that every other slot is unread: the level is never 0.
   */
  function Level(s: Ring): int {
    if s.cons < s.prod then s.prod - s.cons else |s.fifo| - s.cons + s.prod
  }

  /* ---------- steps ---------- */

  /** The checks a decoded frame has to pass before it is copied. */
  predicate Accepts(s: Ring, frame: seq<Block>) {
    |frame| == s.frameBlks &&
    FilledBlocks(|s.fifo|, s.prod, s.cons) + s.frameBlks <= |s.fifo|
  }

  ghost predicate Shape(s: Ring) {
    2 <= |s.fifo| == |s.ts| && s.prod < |s.fifo| && s.cons < |s.fifo| &&
    (s.thread.Copying? ==> s.thread.outIdx < |s.fifo| && s.thread.i <= |s.thread.frame|)
  }

  /** Steps change neither the size of the ring nor that of a frame. */
  predicate SameRing(s: Ring, r: Ring) {
    |r.fifo| == |s.fifo| && r.frameBlks == s.frameBlks
  }

  /** `alt_buffer_free`: releases the alternate buffer I2S gives back. */
  function AltFree(s: Ring, b: Buf): Ring {
    match b
    case Slot(_) => s
    case Alt0 => s.(alt0InUse := false)
    case Alt1 => s.(alt1InUse := false)
  }

  /** A decoded frame reaches the checks. */
  function ArriveStep(s: Ring, frame: seq<Block>, rxTs: uint32): (r: Ring)
    requires Shape(s)
    ensures Shape(r) && SameRing(s, r)
  {
    if s.thread.Idle? && Accepts(s, frame)
    then s.(thread := Copying(frame, rxTs, 0, s.prod))
    else s
  }

  /** One turn of the copying loop. */
  function CopyStep(s: Ring): (r: Ring)
    requires Shape(s) && s.thread.Copying? && s.thread.i < |s.thread.frame|
    ensures Shape(r) && SameRing(s, r)
  {
    var Copying(frame, rxTs, i, outIdx) := s.thread;
    s.(fifo := s.fifo[outIdx := frame[i]],
       ts := s.ts[outIdx := U32(rxTs + i * BLK_PERIOD_US)],
       thread := Copying(frame, rxTs, i + 1, NextIdx(|s.fifo|, outIdx)))
  }

  /** The I2S block-complete interrupt. */
  function I2sStep(s: Ring, frameStart: uint32): (r: Ring)
    requires Shape(s)
    ensures Shape(r) && SameRing(s, r)
  {
    var f := AltFree(s, s.playing).(presDly := U32(frameStart - s.ts[s.cons]));
    var next := NextIdx(|s.fifo|, s.cons);
    if next != s.prod then
      f.(cons := next, playing := s.queued, queued := Slot(next))
    else if !f.alt0InUse then
      f.(alt0InUse := true, playing := s.queued, queued := Alt0)
    else if !f.alt1InUse then
      f.(alt1InUse := true, playing := s.queued, queued := Alt1)
    else
      f.(halted := true)
  }

  /** One step. A step the thread is not ready for leaves the state as it is. */
  function Step(s: Ring, e: Event): (r: Ring)
    requires Shape(s)
    ensures Shape(r) && SameRing(s, r)
  {
    if s.halted then s else
    match e
    case FrameArrives(frame, rxTs) => ArriveStep(s, frame, rxTs)
    case CopyBlock =>
      if s.thread.Copying? && s.thread.i < |s.thread.frame| then CopyStep(s) else s
    case Publish =>
      if s.thread.Copying? && s.thread.i == |s.thread.frame|
      then s.(prod := s.thread.outIdx, thread := Idle)
      else s
    case Mute(ts) =>
      if s.thread.Idle?
      then s.(fifo := s.fifo[s.prod := Silence()], ts := s.ts[s.prod := ts], thread := Muted)
      else s
    case Advance =>
      if s.thread.Muted? then s.(prod := NextIdx(|s.fifo|, s.prod), thread := Idle) else s
    case Retreat =>
      if s.thread.Idle? then s.(prod := PrevIdx(|s.fifo|, s.prod)) else s
    case I2s(t) => I2sStep(s, t)
  }

  function Run(s: Ring, evs: seq<Event>): (r: Ring)
    requires Shape(s)
    ensures Shape(r) && SameRing(s, r)
    decreases |evs|
  {
    if evs == [] then s else Run(Step(s, evs[0]), evs[1..])
  }

  /**
   The state `audio_datapath_start` leaves: everything zeroed, the consumer moved back twice and the
   two slots it passed given to I2S.
   */
  function Start(n: nat, frameBlks: nat): (s: Ring)
    requires n >= 2
    ensures Shape(s)
  {
    Ring(frameBlks, seq(n, _ => Silence()), seq(n, _ => 0), 0, n - 2, false, false,
         Slot(n - 1), Slot(n - 2), 0, Idle, false)
  }

  /* ---------- the queue the ring stands for ---------- */

  function CellAt(s: Ring, i: nat): Cell
    requires i < |s.fifo| == |s.ts|
  {
    Cell(s.fifo[i], s.ts[i])
  }

  /** The cells published and not yet given to I2S, oldest first. */
  function Queue(s: Ring): (q: seq<Cell>)
    requires Shape(s)
    ensures |q| == Level(s) - 1
    ensures forall j: nat | j < |q| :: q[j] == CellAt(s, At(|s.fifo|, s.cons, 1 + j))
  {
    seq(Level(s) - 1, j requires 0 <= j < Level(s) - 1 => CellAt(s, At(|s.fifo|, s.cons, 1 + j)))
  }

  /** The cells of an accepted frame: block `i` is stamped `i` periods after its reception. */
  function FrameCells(frame: seq<Block>, rxTs: uint32): (c: seq<Cell>)
    ensures |c| == |frame|
    ensures forall i: nat | i < |c| :: c[i] == Cell(frame[i], U32(rxTs + i * BLK_PERIOD_US))
  {
    seq(|frame|, i requires 0 <= i < |frame| => Cell(frame[i], U32(rxTs + i * BLK_PERIOD_US)))
  }

  /** What one step does to an ideal queue. */
  datatype Op = Skip | Enqueue(cells: seq<Cell>) | DropLast | Take

  /** The queue operation a step completes. Only index updates count; the copying does nothing. */
  function OpOf(s: Ring, e: Event): Op
    requires Shape(s)
  {
    if s.halted then Skip else
    match e
    case Publish =>
      if s.thread.Copying? && s.thread.i == |s.thread.frame|
      then Enqueue(FrameCells(s.thread.frame, s.thread.rxTs)) else Skip
    case Advance =>
      if s.thread.Muted? then Enqueue([Cell(Silence(), s.ts[s.prod])]) else Skip
    case Retreat => if s.thread.Idle? then DropLast else Skip
    case I2s(_) => Take
    case _ => Skip
  }

  function QueueStep(q: seq<Cell>, op: Op): seq<Cell> {
    match op
    case Skip => q
    case Enqueue(cells) => q + cells
    case DropLast => if q == [] then q else q[..|q| - 1]
    case Take => if q == [] then q else q[1..]
  }

  /** What a step takes out of an ideal queue at the front. */
  function Taken(q: seq<Cell>, op: Op): seq<Cell> {
    if op.Take? && q != [] then [q[0]] else []
  }

  /** The ring cell a step gives to I2S, if any; an alternate buffer gives none. */
  function Handed(s: Ring, e: Event): seq<Cell>
    requires Shape(s)
  {
    var r := Step(s, e);
    if e.I2s? && !r.halted && r.queued.Slot? && r.queued.idx < |s.fifo|
    then [CellAt(r, r.queued.idx)] else []
  }

  function OpsOf(s: Ring, evs: seq<Event>): seq<Op>
    requires Shape(s)
    decreases |evs|
  {
    if evs == [] then [] else [OpOf(s, evs[0])] + OpsOf(Step(s, evs[0]), evs[1..])
  }

  function HandedBy(s: Ring, evs: seq<Event>): seq<Cell>
    requires Shape(s)
    decreases |evs|
  {
    if evs == [] then [] else Handed(s, evs[0]) + HandedBy(Step(s, evs[0]), evs[1..])
  }

  function QueueRun(q: seq<Cell>, ops: seq<Op>): seq<Cell>
    decreases |ops|
  {
    if ops == [] then q else QueueRun(QueueStep(q, ops[0]), ops[1..])
  }

  function TakenBy(q: seq<Cell>, ops: seq<Op>): seq<Cell>
    decreases |ops|
  {
    if ops == [] then [] else Taken(q, ops[0]) + TakenBy(QueueStep(q, ops[0]), ops[1..])
  }

  /* ---------- invariant ---------- */

  /** Alternate buffer flags agree with what I2S holds. */
  predicate AltInv(s: Ring) {
    !s.halted &&
    (s.alt0InUse <==> s.playing == Alt0 || s.queued == Alt0) &&
    (s.alt1InUse <==> s.playing == Alt1 || s.queued == Alt1) &&
    (s.playing.Slot? || s.playing != s.queued)
  }

  /** The blocks copied so far are in the slots after the producer index, clear of unread ones. */
  ghost predicate CopyInv(s: Ring)
    requires Shape(s)
  {
    var n := |s.fifo|;
    match s.thread
    case Idle => true
    case Muted => Level(s) < n && s.fifo[s.prod] == Silence()
    case Copying(frame, rxTs, i, outIdx) =>
      |frame| == s.frameBlks && Level(s) + |frame| <= n &&
      outIdx == At(n, s.prod, i) &&
      forall j: nat | j < i ::
        CellAt(s, At(n, s.prod, j)) == FrameCells(frame, rxTs)[j]
  }

  ghost predicate Inv(s: Ring) {
    Shape(s) && CopyInv(s) && AltInv(s)
  }

  /**
   What the code leaves to its caller: no frame and no inserted block while the ring is full, which
   the indices cannot tell from empty, and no block removed when nothing is unread.
   */
  predicate Safe(s: Ring, e: Event) {
    match e
    case FrameArrives(_, _) => s.prod != s.cons
    case Mute(_) => s.prod != s.cons
    case Retreat => NextIdx(|s.fifo|, s.cons) != s.prod
    case _ => true
  }

  ghost predicate SafeRun(s: Ring, evs: seq<Event>)
    requires Shape(s)
    decreases |evs|
  {
    evs == [] || (Safe(s, evs[0]) && SafeRun(Step(s, evs[0]), evs[1..]))
  }

  /* ---------- alternate buffers ---------- */

  lemma AltStep(s: Ring, e: Event)
    requires Shape(s) && AltInv(s)
    ensures AltInv(Step(s, e))
  {
    if e.I2s? {
      var f := AltFree(s, s.playing);
      assert !(f.alt0InUse && f.alt1InUse);
    }
  }

  /** Along every run, safe or not, the flags agree with I2S and a free buffer is always found. */
  lemma {:induction false} AltBuffersNeverRunOut(s: Ring, evs: seq<Event>)
    requires Shape(s) && AltInv(s)
    ensures AltInv(Run(s, evs))
    decreases |evs|
  {
    if evs == [] {
    } else {
      AltStep(s, evs[0]);
      AltBuffersNeverRunOut(Step(s, evs[0]), evs[1..]);
    }
  }

  /* ---------- one step ---------- */

  /**
   The invariant holds at start and the ring then stands for one silent block; I2S plays the slot before
   the first and has the one before that queued.
   */
  lemma StartInv(n: nat, frameBlks: nat)
    requires n >= 2
    ensures Inv(Start(n, frameBlks))
    ensures Queue(Start(n, frameBlks)) == [Cell(Silence(), 0)]
    ensures var s := Start(n, frameBlks);
            s.prod == 0 && s.playing == Slot(PrevIdx(n, 0)) && s.queued == Slot(PrevIdx(n, PrevIdx(n, 0))) &&
            s.cons == PrevIdx(n, PrevIdx(n, 0)) && s.presDly == 0
  {
    var s := Start(n, frameBlks);
    assert s.fifo[n - 1] == Silence() && s.ts[n - 1] == 0;
  }

  lemma CopyBlockStep(s: Ring)
    requires Inv(s) && s.thread.Copying? && s.thread.i < |s.thread.frame|
    ensures var r := Step(s, CopyBlock); Inv(r) && Queue(r) == Queue(s)
  {
    var n, r, t := |s.fifo|, Step(s, CopyBlock), s.thread;
    var cells := FrameCells(t.frame, t.rxTs);
    assert t.outIdx == At(n, s.cons, Level(s) + t.i);
    assert r.thread.outIdx == At(n, s.prod, t.i + 1);
    forall j: nat | j < r.thread.i
      ensures CellAt(r, At(n, s.prod, j)) == cells[j]
    {
      if j < t.i {
        assert At(n, s.prod, j) != t.outIdx;
        assert CellAt(s, At(n, s.prod, j)) == cells[j];
      }
    }
    forall j | 0 <= j < Level(s) - 1
      ensures Queue(r)[j] == Queue(s)[j]
    {
      assert At(n, s.cons, 1 + j) != t.outIdx;
    }
  }

  lemma PublishStep(s: Ring)
    requires Inv(s) && s.thread.Copying? && s.thread.i == |s.thread.frame|
    ensures var r := Step(s, Publish);
            Inv(r) && Queue(r) == Queue(s) + FrameCells(s.thread.frame, s.thread.rxTs)
  {
    var n, r, t := |s.fifo|, Step(s, Publish), s.thread;
    var cells := FrameCells(t.frame, t.rxTs);
    if t.i == 0 {
      assert Queue(r) == Queue(s);
    } else {
      assert Level(r) == Level(s) + t.i;
      forall j | 0 <= j < Level(r) - 1
        ensures Queue(r)[j] == (Queue(s) + cells)[j]
      {
        if j >= Level(s) - 1 {
          var i := j - (Level(s) - 1);
          assert At(n, s.cons, 1 + j) == At(n, s.prod, i);
          assert CellAt(s, At(n, s.prod, i)) == cells[i];
        }
      }
    }
  }

  lemma MuteStep(s: Ring, ts: uint32)
    requires Inv(s) && s.thread.Idle? && s.prod != s.cons
    ensures var r := Step(s, Mute(ts)); Inv(r) && Queue(r) == Queue(s)
  {
    var n, r := |s.fifo|, Step(s, Mute(ts));
    forall j | 0 <= j < Level(s) - 1
      ensures Queue(r)[j] == Queue(s)[j]
    {
      assert At(n, s.cons, 1 + j) != s.prod;
    }
  }

  lemma AdvanceStep(s: Ring)
    requires Inv(s) && s.thread.Muted?
    ensures var r := Step(s, Advance);
            Inv(r) && Queue(r) == Queue(s) + [Cell(Silence(), s.ts[s.prod])]
  {
    var n, r := |s.fifo|, Step(s, Advance);
    assert At(n, s.cons, Level(s)) == s.prod;
    assert Level(r) == Level(s) + 1;
  }

  lemma RetreatStep(s: Ring)
    requires Inv(s) && s.thread.Idle? && Safe(s, Retreat)
    ensures var r := Step(s, Retreat);
            Inv(r) && Queue(s) != [] && Queue(r) == Queue(s)[..|Queue(s)| - 1]
  {
    assert Level(Step(s, Retreat)) == Level(s) - 1;
  }

  lemma I2sTakes(s: Ring, t: uint32)
    requires Inv(s) && NextIdx(|s.fifo|, s.cons) != s.prod
    ensures var r := Step(s, I2s(t));
            Inv(r) && Queue(s) != [] && Queue(r) == Queue(s)[1..] &&
            Handed(s, I2s(t)) == [Queue(s)[0]]
  {
    var n, r := |s.fifo|, Step(s, I2s(t));
    assert r.cons == At(n, s.cons, 1);
    assert Level(r) == Level(s) - 1;
    forall j | 0 <= j < Level(r) - 1
      ensures Queue(r)[j] == Queue(s)[j + 1]
    {
      assert At(n, r.cons, 1 + j) == At(n, s.cons, 1 + (j + 1));
    }
  }

  lemma I2sRefines(s: Ring, t: uint32)
    requires Inv(s)
    ensures var r := Step(s, I2s(t));
            Inv(r) && Queue(r) == QueueStep(Queue(s), Take) &&
            Handed(s, I2s(t)) == Taken(Queue(s), Take)
  {
    if NextIdx(|s.fifo|, s.cons) != s.prod {
      I2sTakes(s, t);
    } else {
      assert Level(s) == 1;
      assert Queue(s) == [];
    }
  }

  /** Each step of a safe run is the matching step of an ideal queue. */
  lemma StepRefines(s: Ring, e: Event)
    requires Inv(s) && Safe(s, e)
    ensures var r := Step(s, e);
            Inv(r) && Queue(r) == QueueStep(Queue(s), OpOf(s, e)) &&
            Handed(s, e) == Taken(Queue(s), OpOf(s, e))
  {
    match e
    case FrameArrives(frame, rxTs) =>
    case CopyBlock =>
      if s.thread.Copying? && s.thread.i < |s.thread.frame| { CopyBlockStep(s); }
    case Publish =>
      if s.thread.Copying? && s.thread.i == |s.thread.frame| { PublishStep(s); }
    case Mute(ts) =>
      if s.thread.Idle? { MuteStep(s, ts); }
    case Advance =>
      if s.thread.Muted? { AdvanceStep(s); }
    case Retreat =>
      if s.thread.Idle? { RetreatStep(s); }
    case I2s(t) => I2sRefines(s, t);
  }

  /* ---------- whole runs ---------- */

  /** Every safe run, under any interleaving of thread steps and interrupts, refines an ideal queue. */
  lemma {:induction false} RunRefines(s: Ring, evs: seq<Event>)
    requires Inv(s) && SafeRun(s, evs)
    ensures Inv(Run(s, evs))
    ensures Queue(Run(s, evs)) == QueueRun(Queue(s), OpsOf(s, evs))
    ensures HandedBy(s, evs) == TakenBy(Queue(s), OpsOf(s, evs))
    decreases |evs|
  {
    if evs == [] {
    } else {
      StepRefines(s, evs[0]);
      RunRefines(Step(s, evs[0]), evs[1..]);
      var ops := OpsOf(s, evs);
      assert ops[1..] == OpsOf(Step(s, evs[0]), evs[1..]);
    }
  }

  /** All cells that enter the queue, in order. */
  function Enqueued(ops: seq<Op>): seq<Cell>
    decreases |ops|
  {
    if ops == [] then []
    else (if ops[0].Enqueue? then ops[0].cells else []) + Enqueued(ops[1..])
  }

  lemma HeadAndRest<T>(h: T, x: seq<T>, y: seq<T>)
    ensures ([h] + x + y)[0] == h && ([h] + x + y)[1..] == x + y
  {
  }

  /** An ideal queue from which nothing is removed at the back neither loses nor repeats a cell. */
  lemma {:induction false} QueueConserves(q: seq<Cell>, ops: seq<Op>)
    requires DropLast !in ops
    ensures TakenBy(q, ops) + QueueRun(q, ops) == q + Enqueued(ops)
    decreases |ops|
  {
    if ops == [] {
      assert q == q + [] == [] + q;
    } else {
      var q' := QueueStep(q, ops[0]);
      var now := if ops[0].Enqueue? then ops[0].cells else [];
      assert Taken(q, ops[0]) + q' == q + now;
      QueueConserves(q', ops[1..]);
      Assoc(Taken(q, ops[0]), TakenBy(q', ops[1..]), QueueRun(q', ops[1..]));
      Assoc(Taken(q, ops[0]), q', Enqueued(ops[1..]));
      Assoc(q, now, Enqueued(ops[1..]));
    }
  }

  lemma {:induction false} NoRetreatNoDrop(s: Ring, evs: seq<Event>)
    requires Shape(s) && Retreat !in evs
    ensures DropLast !in OpsOf(s, evs)
    decreases |evs|
  {
    if evs == [] {
    } else {
      NoRetreatNoDrop(Step(s, evs[0]), evs[1..]);
    }
  }

  /** The two slots `audio_datapath_i2s_start` gives to I2S, followed by those the interrupts give. */
  function HandedSinceStart(n: nat, frameBlks: nat, evs: seq<Event>): seq<Cell>
    requires n >= 2
  {
    var s := Start(n, frameBlks);
    [CellAt(s, s.playing.idx), CellAt(s, s.queued.idx)] + HandedBy(s, evs)
  }

  /** What the thread published, in order. */
  function Published(n: nat, frameBlks: nat, evs: seq<Event>): seq<Cell>
    requires n >= 2
  {
    Enqueued(OpsOf(Start(n, frameBlks), evs))
  }

  /**
   The ring is a FIFO: in every safe run that removes no block, what I2S got from the ring is, cell
   for cell and in order, a prefix of three silent blocks followed by everything published; the rest
   is exactly what is still unread.
   */
  lemma RingIsFifo(n: nat, frameBlks: nat, evs: seq<Event>)
    requires n >= 2
    requires SafeRun(Start(n, frameBlks), evs) && Retreat !in evs
    ensures HandedSinceStart(n, frameBlks, evs) + Queue(Run(Start(n, frameBlks), evs))
            == seq(3, _ => Cell(Silence(), 0)) + Published(n, frameBlks, evs)
  {
    var s := Start(n, frameBlks);
    StartInv(n, frameBlks);
    RunRefines(s, evs);
    NoRetreatNoDrop(s, evs);
    QueueConserves(Queue(s), OpsOf(s, evs));
    var two := [CellAt(s, s.playing.idx), CellAt(s, s.queued.idx)];
    assert two == [Cell(Silence(), 0), Cell(Silence(), 0)];
    Assoc(two, HandedBy(s, evs), Queue(Run(s, evs)));
    Assoc(two, Queue(s), Published(n, frameBlks, evs));
    assert two + Queue(s) == seq(3, _ => Cell(Silence(), 0));
  }
}
