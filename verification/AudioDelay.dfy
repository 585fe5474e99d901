/**
 The presentation delay the interrupt measures, and what inserted and removed blocks do to it.
 */
module AudioDelay {
  import opened CInt
  import opened Common
  import opened AudioRing
  import opened AudioRingLimits
  import opened AudioCompensation

  /** The delays measured along a run, one per interrupt. */
  function Delays(s: Ring, evs: seq<Event>): seq<uint32>
    requires Shape(s)
    decreases |evs|
  {
    if evs == [] then []
    else
      var r := Step(s, evs[0]);
      (if evs[0].I2s? then [r.presDly] else []) + Delays(r, evs[1..])
  }

  /** The cell I2S got last, whose delay the next interrupt measures. */
  function LastCell(s: Ring): Cell
    requires Shape(s)
  {
    CellAt(s, s.cons)
  }

  /** Nothing but an interrupt that finds a block changes the last cell. */
  lemma LastCellStep(s: Ring, e: Event)
    requires Inv(s) && Safe(s, e)
    ensures var r := Step(s, e);
            LastCell(r) == (if e.I2s? && Queue(s) != [] then Queue(s)[0] else LastCell(s)) &&
            (e.I2s? ==> r.presDly == U32(e.frameStart - LastCell(s).ts))
  {
    if e.CopyBlock? && s.thread.Copying? && s.thread.i < |s.thread.frame| {
      assert s.thread.outIdx == At(|s.fifo|, s.cons, Level(s) + s.thread.i);
    } else if e.I2s? && Queue(s) != [] {
      assert NextIdx(|s.fifo|, s.cons) == At(|s.fifo|, s.cons, 1);
    }
  }

  /** A safe run whose interrupts come one block period apart from `t0` on and always find a block. */
  ghost predicate SteadyRun(s: Ring, evs: seq<Event>, t0: int)
    requires Shape(s)
    decreases |evs|
  {
    evs == [] ||
    (Safe(s, evs[0]) &&
     if evs[0].I2s?
     then evs[0].frameStart == U32(t0) && NextIdx(|s.fifo|, s.cons) != s.prod &&
          SteadyRun(Step(s, evs[0]), evs[1..], t0 + BLK_PERIOD_US)
     else SteadyRun(Step(s, evs[0]), evs[1..], t0))
  }

  lemma {:induction false} SteadyIsSafe(s: Ring, evs: seq<Event>, t0: int)
    requires Shape(s) && SteadyRun(s, evs, t0)
    ensures SafeRun(s, evs)
    decreases |evs|
  {
    if evs == [] {
    } else {
      SteadyIsSafe(Step(s, evs[0]), evs[1..], if evs[0].I2s? then t0 + BLK_PERIOD_US else t0);
    }
  }

  /** Delay `j` is the time of interrupt `j` minus the stamp of cell `j`. */
  ghost predicate TimeMinusStamp(d: seq<uint32>, cells: seq<Cell>, t0: int) {
    |d| < |cells| &&
    forall j: nat | j < |d| :: d[j] == U32(t0 + j * BLK_PERIOD_US - cells[j].ts)
  }

  lemma U32Shift(x: int, y: int)
    ensures U32(U32(x) + y) == U32(x + y)
  {
  }

  /** The same, delay by delay. */
  ghost predicate InStep(d: seq<uint32>, cells: seq<Cell>, t0: int)
    decreases |d|
  {
    cells != [] &&
    (d != [] ==> d[0] == U32(t0 - cells[0].ts) && InStep(d[1..], cells[1..], t0 + BLK_PERIOD_US))
  }

  lemma {:induction false} InStepAt(d: seq<uint32>, cells: seq<Cell>, t0: int, j: nat)
    requires InStep(d, cells, t0) && j < |d|
    ensures j < |cells| && d[j] == U32(t0 + j * BLK_PERIOD_US - cells[j].ts)
    decreases j
  {
    if j == 0 {
    } else {
      InStepAt(d[1..], cells[1..], t0 + BLK_PERIOD_US, j - 1);
    }
  }

  lemma {:induction false} InStepLength(d: seq<uint32>, cells: seq<Cell>, t0: int)
    requires InStep(d, cells, t0)
    ensures |d| < |cells|
    decreases |d|
  {
    if d == [] {
    } else {
      InStepLength(d[1..], cells[1..], t0 + BLK_PERIOD_US);
    }
  }

  /** The cell I2S got last and those it gets in the run. */
  function Heard(s: Ring, evs: seq<Event>): seq<Cell>
    requires Shape(s)
  {
    [LastCell(s)] + HandedBy(s, evs)
  }

  /** An interrupt that finds a block adds the cell heard last. */
  lemma {:induction false} HeardAtInterrupt(s: Ring, evs: seq<Event>)
    requires Inv(s) && evs != [] && evs[0].I2s? && NextIdx(|s.fifo|, s.cons) != s.prod
    ensures Heard(s, evs) == [LastCell(s)] + Heard(Step(s, evs[0]), evs[1..])
  {
    var r := Step(s, evs[0]);
    LastCellStep(s, evs[0]);
    I2sTakes(s, evs[0].frameStart);
    assert HandedBy(s, evs) == [LastCell(r)] + HandedBy(r, evs[1..]);
  }

  lemma {:induction false} DelaysHead(s: Ring, evs: seq<Event>)
    requires Shape(s) && evs != [] && evs[0].I2s?
    ensures Delays(s, evs) == [Step(s, evs[0]).presDly] + Delays(Step(s, evs[0]), evs[1..])
  {
  }

  /** Nothing else does. */
  lemma {:induction false} HeardOtherwise(s: Ring, evs: seq<Event>)
    requires Inv(s) && evs != [] && !evs[0].I2s? && Safe(s, evs[0])
    ensures var r := Step(s, evs[0]);
            Heard(s, evs) == Heard(r, evs[1..]) && Delays(s, evs) == Delays(r, evs[1..])
  {
    var r := Step(s, evs[0]);
    StepRefines(s, evs[0]);
    LastCellStep(s, evs[0]);
    assert HandedBy(s, evs) == [] + HandedBy(r, evs[1..]) == HandedBy(r, evs[1..]);
    assert Delays(s, evs) == [] + Delays(r, evs[1..]) == Delays(r, evs[1..]);
  }

  /** One more delay and cell in front. */
  lemma {:induction false} InStepHead(
    d': seq<uint32>, cells': seq<Cell>, d: seq<uint32>, c: Cell, cells: seq<Cell>, t0: int)
    requires d' == [U32(U32(t0) - c.ts)] + d && cells' == [c] + cells
    requires InStep(d, cells, t0 + BLK_PERIOD_US)
    ensures InStep(d', cells', t0)
  {
    U32Shift(t0, 0 - c.ts);
    assert d'[1..] == d && cells'[1..] == cells;
  }

  lemma {:induction false} DelayStep(s: Ring, evs: seq<Event>, t0: int)
    requires Inv(s) && evs != [] && evs[0] == I2s(U32(t0)) && NextIdx(|s.fifo|, s.cons) != s.prod
    requires InStep(Delays(Step(s, evs[0]), evs[1..]), Heard(Step(s, evs[0]), evs[1..]), t0 + BLK_PERIOD_US)
    ensures InStep(Delays(s, evs), Heard(s, evs), t0)
  {
    var r, c := Step(s, evs[0]), LastCell(s);
    LastCellStep(s, evs[0]);
    DelaysHead(s, evs);
    HeardAtInterrupt(s, evs);
    InStepHead(Delays(s, evs), Heard(s, evs), Delays(r, evs[1..]), c, Heard(r, evs[1..]), t0);
  }

  lemma {:induction false} DelaysInStep(s: Ring, evs: seq<Event>, t0: int)
    requires Inv(s) && SteadyRun(s, evs, t0)
    ensures InStep(Delays(s, evs), Heard(s, evs), t0)
    decreases |evs|
  {
    if evs == [] {
    } else {
      var r := Step(s, evs[0]);
      StepRefines(s, evs[0]);
      if evs[0].I2s? {
        DelaysInStep(r, evs[1..], t0 + BLK_PERIOD_US);
        DelayStep(s, evs, t0);
      } else {
        DelaysInStep(r, evs[1..], t0);
        HeardOtherwise(s, evs);
      }
    }
  }

  /**
   Interrupt `j` measures the block I2S got `j`-th: the delay is the time that interrupt comes minus
   the block's own stamp. Blocks may be inserted and removed meanwhile.
   */
  lemma DelaysAreTimeMinusStamp(s: Ring, evs: seq<Event>, t0: int)
    requires Inv(s) && SteadyRun(s, evs, t0)
    ensures TimeMinusStamp(Delays(s, evs), Heard(s, evs), t0)
  {
    DelaysInStep(s, evs, t0);
    InStepLength(Delays(s, evs), Heard(s, evs), t0);
    forall j: nat | j < |Delays(s, evs)|
      ensures Delays(s, evs)[j] == U32(t0 + j * BLK_PERIOD_US - Heard(s, evs)[j].ts)
    {
      InStepAt(Delays(s, evs), Heard(s, evs), t0, j);
    }
  }

  /* ---------- what I2S gets in the end ---------- */

  /** What I2S gets from the ring in the run, and what is left for it then. */
  function Total(s: Ring, evs: seq<Event>): seq<Cell>
    requires Shape(s)
  {
    HandedBy(s, evs) + Queue(Run(s, evs))
  }

  lemma {:induction false} HandedSplit(s: Ring, a: seq<Event>, b: seq<Event>)
    requires Shape(s)
    ensures HandedBy(s, a + b) == HandedBy(s, a) + HandedBy(Run(s, a), b)
    decreases |a|
  {
    if a == [] {
      assert a + b == b;
    } else {
      assert (a + b)[1..] == a[1..] + b;
      HandedSplit(Step(s, a[0]), a[1..], b);
      Assoc(Handed(s, a[0]), HandedBy(Step(s, a[0]), a[1..]), HandedBy(Run(s, a), b));
    }
  }

  /** A run that removes nothing only adds to the queue. */
  lemma TotalGrows(s: Ring, evs: seq<Event>)
    requires Inv(s) && SafeRun(s, evs) && Retreat !in evs
    ensures Total(s, evs) == Queue(s) + Enqueued(OpsOf(s, evs))
  {
    RunRefines(s, evs);
    NoRetreatNoDrop(s, evs);
    QueueConserves(Queue(s), OpsOf(s, evs));
  }

  lemma TotalStep(s: Ring, evs: seq<Event>)
    requires Shape(s) && evs != []
    ensures Total(s, evs) == Handed(s, evs[0]) + Total(Step(s, evs[0]), evs[1..])
  {
    var r := Step(s, evs[0]);
    Assoc(Handed(s, evs[0]), HandedBy(r, evs[1..]), Queue(Run(s, evs)));
  }

  /** All but the last `k` of a queue. */
  function AllBut(q: seq<Cell>, k: nat): seq<Cell>
    requires k <= |q|
  {
    q[..|q| - k]
  }

  lemma AllButTaken(q: seq<Cell>, k: nat)
    requires k <= |QueueStep(q, Take)|
    ensures Taken(q, Take) + AllBut(QueueStep(q, Take), k) == AllBut(q, k)
  {
  }

  lemma AllButDropped(q: seq<Cell>, k: nat)
    requires q != [] && k + 1 <= |q|
    ensures AllBut(QueueStep(q, DropLast), k) == AllBut(q, k + 1)
  {
  }

  lemma RemovalTake(s: Ring, evs: seq<Event>, k: nat)
    requires Inv(s) && evs != [] && evs[0].I2s?
    requires var r := Step(s, evs[0]);
             k <= |Queue(r)| && Total(r, evs[1..]) == AllBut(Queue(r), k)
    ensures k <= |Queue(s)| && Total(s, evs) == AllBut(Queue(s), k)
  {
    TotalStep(s, evs);
    I2sRefines(s, evs[0].frameStart);
    AllButTaken(Queue(s), k);
  }

  lemma RemovalDrop(s: Ring, evs: seq<Event>, k: nat)
    requires Inv(s) && s.thread.Idle? && evs != [] && evs[0] == Retreat && Safe(s, Retreat)
    requires var r := Step(s, evs[0]);
             k <= |Queue(r)| && Total(r, evs[1..]) == AllBut(Queue(r), k)
    ensures k + 1 <= |Queue(s)| && Total(s, evs) == AllBut(Queue(s), k + 1)
  {
    TotalStep(s, evs);
    RetreatStep(s);
    AllButDropped(Queue(s), k);
    assert [] + Total(Step(s, Retreat), evs[1..]) == Total(Step(s, Retreat), evs[1..]);
  }

  /** A removal of `k` blocks takes the last `k` unread ones away, whatever interrupts take meanwhile. */
  lemma {:induction false} TotalOfRemoval(s: Ring, evs: seq<Event>, k: nat)
    requires Inv(s) && s.thread.Idle? && ThreadPart(evs) == Retreats(k) && SafeRun(s, evs)
    ensures Run(s, evs).thread.Idle? && k <= |Queue(s)| && Total(s, evs) == AllBut(Queue(s), k)
    decreases |evs|
  {
    if evs == [] {
      assert [] + Queue(s) == Queue(s);
    } else {
      var r := Step(s, evs[0]);
      ThreadPartHead(evs);
      StepRefines(s, evs[0]);
      if evs[0].I2s? {
        TotalOfRemoval(r, evs[1..], k);
        RemovalTake(s, evs, k);
      } else {
        assert Retreats(k)[1..] == Retreats(k - 1);
        TotalOfRemoval(r, evs[1..], k - 1);
        RemovalDrop(s, evs, k - 1);
      }
    }
  }

  lemma EnqueuedHead(s: Ring, evs: seq<Event>)
    requires Shape(s) && evs != []
    ensures var op := OpOf(s, evs[0]);
            Enqueued(OpsOf(s, evs)) ==
            (if op.Enqueue? then op.cells else []) + Enqueued(OpsOf(Step(s, evs[0]), evs[1..]))
  {
    assert OpsOf(s, evs)[1..] == OpsOf(Step(s, evs[0]), evs[1..]);
  }

  /** An insertion enqueues one block for each one asked for, and removes none. */
  lemma {:induction false} InsertionEnqueues(s: Ring, evs: seq<Event>, i: nat, k: nat, recvTs: uint32)
    requires Inv(s) && SafeRun(s, evs) && Inserting(s, evs, i, k, recvTs)
    ensures |Enqueued(OpsOf(s, evs))| == k - i && Run(s, evs).thread.Idle? && Retreat !in evs
    decreases |evs|
  {
    if evs == [] {
    } else {
      var r := Step(s, evs[0]);
      StepRefines(s, evs[0]);
      EnqueuedHead(s, evs);
      assert evs == [evs[0]] + evs[1..];
      if evs[0].I2s? {
        InsertingI2s(s, evs, i, k, recvTs);
        InsertionEnqueues(r, evs[1..], i, k, recvTs);
      } else if s.thread.Muted? {
        InsertingAdvance(s, evs, i, k, recvTs);
        InsertionEnqueues(r, evs[1..], i + 1, k, recvTs);
      } else {
        InsertingMute(s, evs, i, k, recvTs);
        InsertionEnqueues(r, evs[1..], i, k, recvTs);
      }
    }
  }

  /** A compensation by `k` blocks, of either sign, changes what is there to play by `k` blocks. */
  lemma CompensationTotal(s: Ring, c: seq<Event>, k: int, recvTs: uint32)
    requires Inv(s) && s.thread.Idle? && SafeRun(s, c) && ThreadPart(c) == CompEvents(k, recvTs)
    ensures |Total(s, c)| == |Queue(s)| + k && Run(s, c).thread.Idle? && Inv(Run(s, c))
  {
    RunRefines(s, c);
    if k >= 0 {
      InsertionEnqueues(s, c, 0, k, recvTs);
      TotalGrows(s, c);
    } else {
      TotalOfRemoval(s, c, -k);
    }
  }

  /* ---------- the frames that follow ---------- */

  /** A decoded frame and its reception time. */
  datatype Received = Received(frame: seq<Block>, rxTs: uint32)

  /** The thread's steps for frames it accepts, one after the other. */
  function Script(frames: seq<Received>): seq<Event> {
    if frames == [] then [] else FrameEvents(frames[0].frame, frames[0].rxTs) + Script(frames[1..])
  }

  function CellsOf(frames: seq<Received>): seq<Cell> {
    if frames == [] then [] else FrameCells(frames[0].frame, frames[0].rxTs) + CellsOf(frames[1..])
  }

  predicate AllAccepted(s: Ring, evs: seq<Event>)
    requires Shape(s)
    decreases |evs|
  {
    evs == [] ||
    ((evs[0].FrameArrives? ==> s.thread.Idle? && Accepts(s, evs[0].frame)) &&
     AllAccepted(Step(s, evs[0]), evs[1..]))
  }

  lemma {:induction false} AllAcceptedSplit(s: Ring, a: seq<Event>, b: seq<Event>)
    requires Shape(s)
    ensures AllAccepted(s, a + b) <==> AllAccepted(s, a) && AllAccepted(Run(s, a), b)
    decreases |a|
  {
    if a == [] {
      assert a + b == b;
    } else {
      assert (a + b)[1..] == a[1..] + b;
      AllAcceptedSplit(Step(s, a[0]), a[1..], b);
    }
  }

  /** The thread has the frames before it, and perhaps one in hand. */
  ghost predicate Filling(s: Ring, evs: seq<Event>, frames: seq<Received>)
    requires Shape(s)
  {
    match s.thread
    case Idle => ThreadPart(evs) == Script(frames)
    case Copying(f, _, i, _) => ThreadPart(evs) == Copies(|f| - i) + [Publish] + Script(frames)
    case Muted => false
  }

  /** What is published before the run ends. */
  function Ahead(s: Ring, frames: seq<Received>): seq<Cell> {
    if s.thread.Copying? then FrameCells(s.thread.frame, s.thread.rxTs) + CellsOf(frames)
    else CellsOf(frames)
  }

  lemma FillingI2s(s: Ring, evs: seq<Event>, frames: seq<Received>)
    requires Shape(s) && AltInv(s) && Filling(s, evs, frames) && evs != [] && evs[0].I2s?
    ensures var r := Step(s, evs[0]);
            AltInv(r) && Filling(r, evs[1..], frames) && Ahead(r, frames) == Ahead(s, frames) &&
            !OpOf(s, evs[0]).Enqueue?
  {
    ThreadPartHead(evs);
    AltStep(s, evs[0]);
  }

  /** A frame is taken in hand. */
  lemma FillingArrives(s: Ring, evs: seq<Event>, frames: seq<Received>)
    requires Shape(s) && AltInv(s) && Filling(s, evs, frames) && evs != [] && !evs[0].I2s?
    requires s.thread.Idle? && AllAccepted(s, evs)
    ensures frames != []
    ensures var r := Step(s, evs[0]);
            AltInv(r) && Filling(r, evs[1..], frames[1..]) &&
            Ahead(r, frames[1..]) == Ahead(s, frames) && OpOf(s, evs[0]) == Skip
  {
    ThreadPartHead(evs);
    var f := frames[0];
    HeadAndRest(FrameArrives(f.frame, f.rxTs), Copies(|f.frame|) + [Publish], Script(frames[1..]));
    Assoc([FrameArrives(f.frame, f.rxTs)], Copies(|f.frame|), [Publish]);
  }

  lemma CopiesThenRest(m: nat, rest: seq<Event>)
    requires m > 0
    ensures (Copies(m) + [Publish] + rest)[0] == CopyBlock
    ensures (Copies(m) + [Publish] + rest)[1..] == Copies(m - 1) + [Publish] + rest
  {
    assert Copies(m) == [CopyBlock] + Copies(m - 1);
    assert [CopyBlock] + Copies(m - 1) + [Publish] + rest
        == [CopyBlock] + (Copies(m - 1) + [Publish] + rest);
  }

  lemma CopyComesNext(evs: seq<Event>, m: nat, rest: seq<Event>)
    requires evs != [] && !evs[0].I2s? && m > 0 && ThreadPart(evs) == Copies(m) + [Publish] + rest
    ensures evs[0] == CopyBlock && ThreadPart(evs[1..]) == Copies(m - 1) + [Publish] + rest
  {
    ThreadPartHead(evs);
    CopiesThenRest(m, rest);
  }

  lemma {:induction false} FillingCopy(s: Ring, evs: seq<Event>, frames: seq<Received>)
    requires Shape(s) && AltInv(s) && Filling(s, evs, frames) && evs != [] && !evs[0].I2s?
    requires s.thread.Copying? && s.thread.i < |s.thread.frame|
    ensures var r := Step(s, evs[0]);
            AltInv(r) && Filling(r, evs[1..], frames) && Ahead(r, frames) == Ahead(s, frames) &&
            OpOf(s, evs[0]) == Skip
  {
    CopyComesNext(evs, |s.thread.frame| - s.thread.i, Script(frames));
    assert Step(s, evs[0]) == CopyStep(s);
  }

  lemma FillingPublish(s: Ring, evs: seq<Event>, frames: seq<Received>)
    requires Shape(s) && AltInv(s) && Filling(s, evs, frames) && evs != [] && !evs[0].I2s?
    requires s.thread.Copying? && s.thread.i == |s.thread.frame|
    ensures var r := Step(s, evs[0]);
            AltInv(r) && Filling(r, evs[1..], frames) && r.thread.Idle? &&
            OpOf(s, evs[0]) == Enqueue(FrameCells(s.thread.frame, s.thread.rxTs))
  {
    ThreadPartHead(evs);
    assert Copies(0) + [Publish] + Script(frames) == [Publish] + Script(frames);
  }

  /** One step; `next` are the frames then before the thread. */
  lemma FillingStep(s: Ring, evs: seq<Event>, frames: seq<Received>) returns (next: seq<Received>)
    requires Shape(s) && AltInv(s) && Filling(s, evs, frames) && AllAccepted(s, evs) && evs != []
    ensures var r, op := Step(s, evs[0]), OpOf(s, evs[0]);
            AltInv(r) && Filling(r, evs[1..], next) && evs[0] != Retreat &&
            Ahead(s, frames) == (if op.Enqueue? then op.cells else []) + Ahead(r, next)
  {
    next := frames;
    if evs[0].I2s? {
      FillingI2s(s, evs, frames);
    } else if s.thread.Idle? {
      FillingArrives(s, evs, frames);
      next := frames[1..];
    } else if s.thread.i < |s.thread.frame| {
      FillingCopy(s, evs, frames);
    } else {
      FillingPublish(s, evs, frames);
    }
  }

  /** Accepted frames are enqueued, cell for cell, whatever interrupts come in between. */
  lemma {:induction false} FramesEnqueue(s: Ring, evs: seq<Event>, frames: seq<Received>)
    requires Shape(s) && AltInv(s) && Filling(s, evs, frames) && AllAccepted(s, evs)
    ensures Enqueued(OpsOf(s, evs)) == Ahead(s, frames)
    ensures Retreat !in evs && Run(s, evs).thread.Idle?
    decreases |evs|
  {
    if evs == [] {
    } else {
      var next := FillingStep(s, evs, frames);
      FramesEnqueue(Step(s, evs[0]), evs[1..], next);
      EnqueuedHead(s, evs);
      assert evs == [evs[0]] + evs[1..];
    }
  }

  /* ---------- the shift ---------- */

  /** The measured delay of the `j`-th block I2S gets in the end. */
  lemma DelayOfBlock(s: Ring, evs: seq<Event>, t0: int, j: nat)
    requires Inv(s) && SteadyRun(s, evs, t0) && j < |Delays(s, evs)|
    ensures j < 1 + |Total(s, evs)|
    ensures Delays(s, evs)[j] == U32(t0 + j * BLK_PERIOD_US - ([LastCell(s)] + Total(s, evs))[j].ts)
  {
    DelaysAreTimeMinusStamp(s, evs, t0);
    assert Heard(s, evs)[j] == ([LastCell(s)] + Total(s, evs))[j];
  }

  /** Frames alone follow what is unread. */
  lemma TotalOfFrames(s: Ring, evs: seq<Event>, frames: seq<Received>)
    requires Inv(s) && s.thread.Idle? && SafeRun(s, evs)
    requires ThreadPart(evs) == Script(frames) && AllAccepted(s, evs)
    ensures Total(s, evs) == Queue(s) + CellsOf(frames)
  {
    FramesEnqueue(s, evs, frames);
    TotalGrows(s, evs);
  }

  /** Frames after a compensation follow what it has left. */
  lemma TotalAfterCompensation(
    s: Ring, c: seq<Event>, b: seq<Event>, k: int, recvTs: uint32, frames: seq<Received>)
    requires Inv(s) && s.thread.Idle? && SafeRun(s, c + b)
    requires ThreadPart(c) == CompEvents(k, recvTs) && ThreadPart(b) == Script(frames)
    requires AllAccepted(Run(s, c), b)
    ensures Total(s, c + b) == Total(s, c) + CellsOf(frames) && |Total(s, c)| == |Queue(s)| + k
  {
    var s1 := Run(s, c);
    SafeSplit(s, c, b);
    RunSplit(s, c, b);
    CompensationTotal(s, c, k, recvTs);
    TotalOfFrames(s1, b, frames);
    HandedSplit(s, c, b);
    Assoc(HandedBy(s, c), HandedBy(s1, b), Queue(Run(s1, b)));
    Assoc(HandedBy(s, c), Queue(s1), CellsOf(frames));
  }

  /** The delay is that of a block with this stamp at interrupt `at`. */
  ghost predicate DelayIs(d: uint32, t0: int, at: int, stamp: uint32) {
    d == U32(t0 + at * BLK_PERIOD_US - stamp)
  }

  /** The delay of block `p` of the frames, without a compensation in front. */
  lemma FrameBlockDelay(s: Ring, evs: seq<Event>, frames: seq<Received>, t0: int, p: nat, at: nat)
    requires Inv(s) && s.thread.Idle? && SteadyRun(s, evs, t0)
    requires ThreadPart(evs) == Script(frames) && AllAccepted(s, evs) && p < |CellsOf(frames)|
    requires at == 1 + |Queue(s)| + p < |Delays(s, evs)|
    ensures DelayIs(Delays(s, evs)[at], t0, at, CellsOf(frames)[p].ts)
  {
    SteadyIsSafe(s, evs, t0);
    TotalOfFrames(s, evs, frames);
    DelayOfBlock(s, evs, t0, at);
    assert ([LastCell(s)] + (Queue(s) + CellsOf(frames)))[at] == CellsOf(frames)[p];
  }

  /** And with one. */
  lemma FrameBlockDelayAfter(
    s: Ring, c: seq<Event>, b: seq<Event>, k: int, recvTs: uint32, frames: seq<Received>,
    t0: int, p: nat, at: int)
    requires Inv(s) && s.thread.Idle? && SteadyRun(s, c + b, t0)
    requires ThreadPart(c) == CompEvents(k, recvTs) && ThreadPart(b) == Script(frames)
    requires AllAccepted(s, c + b) && p < |CellsOf(frames)|
    requires at == 1 + |Queue(s)| + k + p < |Delays(s, c + b)|
    ensures at > 0 && |Queue(s)| + k >= 0
    ensures DelayIs(Delays(s, c + b)[at], t0, at, CellsOf(frames)[p].ts)
  {
    SteadyIsSafe(s, c + b, t0);
    AllAcceptedSplit(s, c, b);
    TotalAfterCompensation(s, c, b, k, recvTs, frames);
    DelayOfBlock(s, c + b, t0, at);
    assert ([LastCell(s)] + (Total(s, c) + CellsOf(frames)))[at] == CellsOf(frames)[p];
  }

  /** One delay is the other, `k` blocks later. */
  ghost predicate LaterBy(d: uint32, d': uint32, k: int) {
    d' == U32(d + k * BLK_PERIOD_US)
  }

  lemma LaterByBlocks(t0: int, at: int, at': int, k: int, stamp: uint32, d: uint32, d': uint32)
    requires at' == at + k && DelayIs(d, t0, at, stamp) && DelayIs(d', t0, at', stamp)
    ensures LaterBy(d, d', k)
  {
    U32Shift(t0 + at * BLK_PERIOD_US - stamp, k * BLK_PERIOD_US);
  }

  /**
   What a compensation is for: `k` blocks inserted, or `-k` removed, change the delay measured for each
   block of the frames that follow by `k` block periods. The same frames come in two steady runs from
   the same state, with the compensation in front in one of them, and interrupts anywhere in both; block
   `p` of the frames is compared with itself, where I2S gets it in either run.
   */
  lemma CompensationShiftsDelay(
    s: Ring, evs: seq<Event>, c: seq<Event>, b: seq<Event>, k: int, recvTs: uint32,
    frames: seq<Received>, t0: int, p: nat, at: nat, at': int)
    requires Inv(s) && s.thread.Idle? && SteadyRun(s, evs, t0) && SteadyRun(s, c + b, t0)
    requires ThreadPart(evs) == Script(frames) && AllAccepted(s, evs)
    requires ThreadPart(c) == CompEvents(k, recvTs) && ThreadPart(b) == Script(frames)
    requires AllAccepted(s, c + b) && p < |CellsOf(frames)|
    requires at == 1 + |Queue(s)| + p < |Delays(s, evs)|
    requires at' == 1 + |Queue(s)| + k + p < |Delays(s, c + b)|
    ensures at' > 0 && LaterBy(Delays(s, evs)[at], Delays(s, c + b)[at'], k)
  {
    FrameBlockDelay(s, evs, frames, t0, p, at);
    FrameBlockDelayAfter(s, c, b, k, recvTs, frames, t0, p, at');
    LaterByBlocks(t0, at, at', k, CellsOf(frames)[p].ts, Delays(s, evs)[at], Delays(s, c + b)[at']);
  }
}
