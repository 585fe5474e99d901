/**
 The closed loop of presentation compensation: the controller acts on the delays that the interrupt
 measures, and the ring it acts on gives it the next ones.
 */
module AudioLoop {
  import opened CInt
  import opened Common
  import opened AudioRing
  import opened AudioRingLimits
  import opened AudioCompensation
  import opened AudioDelay
  import opened AudioStamps
  import P = PresentationComp
  import Datapath = AudioDatapath
  import D = DriftComp

  /* ---------- what the coming blocks will measure ---------- */

  /**
   The delay that the next block published will measure, if the next interrupt comes at `t` and the block
   is stamped `rx`.
   */
  function Coming(s: Ring, t: int, rx: int): int
    requires Shape(s)
  {
    t + (1 + |Queue(s)|) * BLK_PERIOD_US - rx
  }

  /** The block I2S got last and those it will get. */
  function Trail(s: Ring): seq<Cell>
    requires Shape(s)
  {
    [LastCell(s)] + Queue(s)
  }

  /** The stamps of the last `m` cells, as far as there are so many, lead up to `rx`. */
  ghost predicate LeadUp(cells: seq<Cell>, m: nat, rx: int) {
    forall i: nat | |cells| - m <= i < |cells| ::
      cells[i].ts == U32(rx - (|cells| - i) * BLK_PERIOD_US)
  }

  /**
   The last `m` blocks published lead up to `rx`; once they include the one measured last, it has
   measured what is coming.
   */
  ghost predicate Follows(s: Ring, m: nat, t: int, rx: int)
    requires Shape(s)
  {
    LeadUp(Trail(s), m, rx) && (m > |Trail(s)| ==> s.presDly == U32(Coming(s, t, rx)))
  }

  /** How far a run brings I2S, and what it has measured then. */
  ghost predicate Tracked(s: Ring, evs: seq<Event>)
    requires Shape(s)
  {
    var h, d, r := Heard(s, evs), Delays(s, evs), Run(s, evs);
    |h| == |d| + 1 && |d| == Interruptions(evs) && LastCell(r) == h[|d|] &&
    r.presDly == if d == [] then s.presDly else d[|d| - 1]
  }

  lemma {:induction false} TracksInterrupt(s: Ring, evs: seq<Event>)
    requires Inv(s) && evs != [] && evs[0].I2s? && NextIdx(|s.fifo|, s.cons) != s.prod
    requires Tracked(Step(s, evs[0]), evs[1..])
    ensures Tracked(s, evs)
  {
    HeardAtInterrupt(s, evs);
    DelaysHead(s, evs);
  }

  lemma {:induction false} TracksOther(s: Ring, evs: seq<Event>)
    requires Inv(s) && evs != [] && !evs[0].I2s? && Safe(s, evs[0])
    requires Tracked(Step(s, evs[0]), evs[1..])
    ensures Tracked(s, evs)
  {
    HeardOtherwise(s, evs);
  }

  lemma {:induction false} Tracks(s: Ring, evs: seq<Event>, t: int)
    requires Inv(s) && SteadyRun(s, evs, t)
    ensures Inv(Run(s, evs)) && Tracked(s, evs)
    decreases |evs|
  {
    if evs == [] {
    } else {
      StepRefines(s, evs[0]);
      if evs[0].I2s? {
        Tracks(Step(s, evs[0]), evs[1..], t + BLK_PERIOD_US);
        TracksInterrupt(s, evs);
      } else {
        Tracks(Step(s, evs[0]), evs[1..], t);
        TracksOther(s, evs);
      }
    }
  }

  lemma DropToLast<T>(h: seq<T>, q: seq<T>)
    requires h != []
    ensures (h + q)[|h| - 1..] == [h[|h| - 1]] + q
  {
  }

  lemma {:induction false} TrailAfter(s: Ring, evs: seq<Event>, t: int)
    requires Inv(s) && SteadyRun(s, evs, t)
    ensures var all, n := [LastCell(s)] + Total(s, evs), Interruptions(evs);
            n < |all| && Trail(Run(s, evs)) == all[n..]
  {
    Tracks(s, evs, t);
    Assoc([LastCell(s)], HandedBy(s, evs), Queue(Run(s, evs)));
    DropToLast(Heard(s, evs), Queue(Run(s, evs)));
  }

  lemma LeadUpSuffix(cells: seq<Cell>, m: nat, rx: int, n: nat)
    requires LeadUp(cells, m, rx) && n <= |cells|
    ensures LeadUp(cells[n..], m, rx)
  {
    forall i: nat | |cells| - n - m <= i < |cells| - n
      ensures cells[n..][i].ts == U32(rx - (|cells| - n - i) * BLK_PERIOD_US)
    {
      assert cells[n..][i] == cells[n + i];
    }
  }

  /** Cells stamped one period apart from `rx` on. */
  ghost predicate StampedFrom(cells: seq<Cell>, rx: int) {
    forall i: nat | i < |cells| :: cells[i].ts == U32(rx + i * BLK_PERIOD_US)
  }

  lemma LeadUpFurther(cells: seq<Cell>, more: seq<Cell>, m: nat, rx: int)
    requires LeadUp(cells, m, rx) && StampedFrom(more, rx)
    ensures LeadUp(cells + more, m + |more|, rx + |more| * BLK_PERIOD_US)
  {
    var all := cells + more;
    forall i: nat | |all| - m - |more| <= i < |all|
      ensures all[i].ts == U32(rx + |more| * BLK_PERIOD_US - (|all| - i) * BLK_PERIOD_US)
    {
      if i < |cells| {
        assert all[i] == cells[i];
      } else {
        assert all[i] == more[i - |cells|];
      }
    }
  }

  lemma U32Minus(x: int, y: int)
    ensures U32(x - U32(y)) == U32(x - y)
  {
  }

  /** What the last interrupt of a run has measured, if its block leads up to `rx`. */
  lemma {:induction false} MeasuredLast(s: Ring, evs: seq<Event>, t: int, m: nat, rx: int)
    requires Inv(s) && SteadyRun(s, evs, t) && Interruptions(evs) > 0
    requires LeadUp([LastCell(s)] + Total(s, evs), m, rx) && m > |Trail(Run(s, evs))|
    ensures Run(s, evs).presDly == U32(Coming(Run(s, evs), t + Interruptions(evs) * BLK_PERIOD_US, rx))
  {
    var n, all := Interruptions(evs), [LastCell(s)] + Total(s, evs);
    Tracks(s, evs, t);
    TrailAfter(s, evs, t);
    DelayOfBlock(s, evs, t, n - 1);
    U32Minus(t + (n - 1) * BLK_PERIOD_US, rx - (|all| - n + 1) * BLK_PERIOD_US);
  }

  /** Frames extend the trail, and the interrupts cut off its front. */
  lemma {:induction false} TrailOfFrames(s: Ring, evs: seq<Event>, frames: seq<Received>, t: int)
    requires Inv(s) && s.thread.Idle? && SteadyRun(s, evs, t)
    requires ThreadPart(evs) == Script(frames) && AllAccepted(s, evs)
    ensures var all, n, r := Trail(s) + CellsOf(frames), Interruptions(evs), Run(s, evs);
            Inv(r) && r.thread.Idle? && [LastCell(s)] + Total(s, evs) == all &&
            n < |all| && Trail(r) == all[n..] && (n == 0 ==> r.presDly == s.presDly)
  {
    SteadyIsSafe(s, evs, t);
    FramesEnqueue(s, evs, frames);
    TotalOfFrames(s, evs, frames);
    Assoc([LastCell(s)], Queue(s), CellsOf(frames));
    Tracks(s, evs, t);
    TrailAfter(s, evs, t);
  }

  /** Frames stamped in progression change nothing of what is coming, and nor do interrupts. */
  lemma {:induction false} FollowsFrames(
    s: Ring, evs: seq<Event>, frames: seq<Received>, m: nat, t: int, rx: int)
    requires Inv(s) && s.thread.Idle? && SteadyRun(s, evs, t)
    requires ThreadPart(evs) == Script(frames) && AllAccepted(s, evs)
    requires Follows(s, m, t, rx) && StampedFrom(CellsOf(frames), rx)
    ensures var r, t', rx' := Run(s, evs), t + Interruptions(evs) * BLK_PERIOD_US,
                              rx + |CellsOf(frames)| * BLK_PERIOD_US;
            Inv(r) && r.thread.Idle? && Coming(r, t', rx') == Coming(s, t, rx) &&
            Follows(r, m + |CellsOf(frames)|, t', rx')
  {
    var n, more := Interruptions(evs), CellsOf(frames);
    var rx' := rx + |more| * BLK_PERIOD_US;
    TrailOfFrames(s, evs, frames, t);
    LeadUpFurther(Trail(s), more, m, rx);
    LeadUpSuffix(Trail(s) + more, m + |more|, rx', n);
    if m + |more| > |Trail(Run(s, evs))| && n > 0 {
      MeasuredLast(s, evs, t, m + |more|, rx');
    }
  }

  /** The ring between calls, the last `m` blocks following one another. */
  ghost predicate RingAt(s: Ring, m: nat, t: int, rx: int) {
    Inv(s) && s.thread.Idle? && Follows(s, m, t, rx)
  }

  /** The time of the next interrupt after a run. */
  function Later(t: int, evs: seq<Event>): int {
    t + Interruptions(evs) * BLK_PERIOD_US
  }

  /** A compensation by `k` blocks shifts what is coming by `k` block periods. */
  lemma {:induction false} CompensationShiftsComing(s: Ring, c: seq<Event>, k: int, recvTs: uint32, t: int, rx: int)
    requires Inv(s) && s.thread.Idle? && SteadyRun(s, c, t) && ThreadPart(c) == CompEvents(k, recvTs)
    ensures var r, t' := Run(s, c), Later(t, c);
            RingAt(r, 0, t', rx) && Coming(r, t', rx) == Coming(s, t, rx) + k * BLK_PERIOD_US
  {
    SteadyIsSafe(s, c, t);
    CompensationTotal(s, c, k, recvTs);
    Tracks(s, c, t);
    assert |Total(s, c)| == Interruptions(c) + |Queue(Run(s, c))|;
  }

  /* ---------- the parts of a call ---------- */

  lemma {:induction false} NothingToAccept(s: Ring, evs: seq<Event>)
    requires Shape(s) && NoFrame(ThreadPart(evs))
    ensures AllAccepted(s, evs)
    decreases |evs|
  {
    if evs == [] {
    } else {
      ThreadPartHead(evs);
      assert !evs[0].I2s? ==> ThreadPart(evs)[0] == evs[0];
      assert NoFrame(ThreadPart(evs[1..]));
      NothingToAccept(Step(s, evs[0]), evs[1..]);
    }
  }

  lemma NoFrames(rx: int)
    ensures Script([]) == [] && CellsOf([]) == [] && StampedFrom(CellsOf([]), rx)
  {
  }

  /** Interrupts alone leave what is coming. */
  lemma {:induction false} FollowsInterrupts(s: Ring, evs: seq<Event>, m: nat, t: int, rx: int)
    requires RingAt(s, m, t, rx) && SteadyRun(s, evs, t) && ThreadPart(evs) == []
    ensures var r, t' := Run(s, evs), Later(t, evs);
            RingAt(r, m, t', rx) && Coming(r, t', rx) == Coming(s, t, rx)
  {
    NothingToAccept(s, evs);
    NoFrames(rx);
    FollowsFrames(s, evs, [], m, t, rx);
  }

  /** A compensation of no blocks leaves the last `m` as they are; after another, none is counted. */
  lemma {:induction false} FollowsCompensation(
    s: Ring, evs: seq<Event>, k: int, recvTs: uint32, m: nat, t: int, rx: int)
    requires RingAt(s, m, t, rx) && SteadyRun(s, evs, t) && ThreadPart(evs) == CompEvents(k, recvTs)
    ensures var r, t' := Run(s, evs), Later(t, evs);
            RingAt(r, if k == 0 then m else 0, t', rx) &&
            Coming(r, t', rx) == Coming(s, t, rx) + k * BLK_PERIOD_US
  {
    if k == 0 {
      assert CompEvents(k, recvTs) == [];
      FollowsInterrupts(s, evs, m, t, rx);
    } else {
      CompensationShiftsComing(s, evs, k, recvTs, t, rx);
    }
  }

  lemma OneFrame(frame: seq<Block>, rx: int)
    ensures Script([Received(frame, U32(rx))]) == FrameEvents(frame, U32(rx))
    ensures var cells := CellsOf([Received(frame, U32(rx))]);
            |cells| == |frame| && StampedFrom(cells, rx)
  {
    var frames := [Received(frame, U32(rx))];
    assert frames[1..] == [];
    assert CellsOf(frames) == FrameCells(frame, U32(rx));
    forall i: nat | i < |frame|
      ensures CellsOf(frames)[i].ts == U32(rx + i * BLK_PERIOD_US)
    {
      U32Shift(rx, i * BLK_PERIOD_US);
    }
  }

  lemma {:induction false} FollowsOneFrame(s: Ring, evs: seq<Event>, frame: seq<Block>, m: nat, t: int, rx: int)
    requires RingAt(s, m, t, rx) && SteadyRun(s, evs, t)
    requires ThreadPart(evs) == FrameEvents(frame, U32(rx)) && AllAccepted(s, evs)
    ensures var r, t', rx' := Run(s, evs), Later(t, evs), rx + |frame| * BLK_PERIOD_US;
            RingAt(r, m + |frame|, t', rx') && Coming(r, t', rx') == Coming(s, t, rx)
  {
    OneFrame(frame, rx);
    FollowsFrames(s, evs, [Received(frame, U32(rx))], m, t, rx);
  }

  /* ---------- calls ---------- */

  /**
   The ring and its controller, the time of the next interrupt and of the next frame's reception, both
   without wrap-around.
   */
  datatype System = System(ring: Ring, p: P.Pres, t: int, rx: int)

  /** What is asked for: the presentation delay, and how long after its SDU reference a frame is received. */
  datatype Goal = Goal(presDelayUs: uint32, lag: int)

  /**
   Interrupts between two calls of the thread, or a call: the compensation and the frame, each with
   interrupts in between.
   */
  datatype Move = Pass(evs: seq<Event>) | Call(comp: seq<Event>, copy: seq<Event>, frame: seq<Block>)

  function Wanted(g: Goal): int32 {
    I32(g.presDelayUs - U32(g.lag))
  }

  /** The wanted minus the coming delay, as it is before any reduction to 32 bits. */
  function ErrOf(y: System, g: Goal): int
    requires Shape(y.ring)
  {
    Wanted(g) - Coming(y.ring, y.t, y.rx)
  }

  /** What the controller is given in a call: drift locked, the references consecutive. */
  function Given(y: System, g: Goal): P.Input {
    P.Input(true, false, P.ErrUs(g.presDelayUs, U32(y.rx), U32(y.rx - g.lag), y.ring.presDly))
  }

  /** The blocks the controller asks for in a call. */
  function Asked(y: System, g: Goal): int {
    P.AdjBlks(P.PresStep(y.p, Given(y, g)).1)
  }

  /**
   The thread compensates by `k` blocks and its frame is accepted, in a run whose interrupts come one
   block period apart and always find a block.
   */
  ghost predicate CallOk(s: Ring, v: Move, k: int, t: int, rx: int)
    requires Shape(s) && v.Call?
  {
    var r := Run(s, v.comp);
    ThreadPart(v.comp) == CompEvents(k, U32(rx)) && SteadyRun(s, v.comp, t) &&
    ThreadPart(v.copy) == FrameEvents(v.frame, U32(rx)) && SteadyRun(r, v.copy, Later(t, v.comp)) &&
    AllAccepted(r, v.copy) && |v.frame| == s.frameBlks
  }

  /** A move leads from `y` to `r`; in a call the thread does what the controller asks for. */
  ghost predicate Leads(y: System, v: Move, g: Goal, r: System)
    requires Shape(y.ring)
  {
    match v
    case Pass(evs) =>
      ThreadPart(evs) == [] && SteadyRun(y.ring, evs, y.t) &&
      r == y.(ring := Run(y.ring, evs), t := Later(y.t, evs))
    case Call(comp, copy, frame) =>
      CallOk(y.ring, v, Asked(y, g), y.t, y.rx) &&
      r == System(Run(Run(y.ring, comp), copy), P.PresStep(y.p, Given(y, g)).0,
                  Later(Later(y.t, comp), copy), y.rx + |frame| * BLK_PERIOD_US)
  }

  ghost predicate LeadsAt(ys: seq<System>, moves: seq<Move>, g: Goal, i: nat)
    requires i < |moves| < |ys|
  {
    Shape(ys[i].ring) && Leads(ys[i], moves[i], g, ys[i + 1])
  }

  /** Moves, and the states on the way. */
  ghost predicate Path(ys: seq<System>, moves: seq<Move>, g: Goal) {
    |ys| == |moves| + 1 && (forall i: nat | i < |ys| :: Shape(ys[i].ring)) &&
    forall i: nat | i < |moves| :: LeadsAt(ys, moves, g, i)
  }

  /** The number of calls among the first `n` moves. */
  function Calls(moves: seq<Move>, n: nat): nat
    requires n <= |moves|
  {
    if n == 0 then 0 else Calls(moves, n - 1) + Count(moves[n - 1].Call?)
  }

  /* ---------- the code's calls are such moves ---------- */

  lemma {:induction false} LaterSplit(t: int, a: seq<Event>, b: seq<Event>)
    ensures Later(t, a + b) == Later(Later(t, a), b)
    decreases |a|
  {
    if a == [] {
      assert a + b == b;
    } else {
      assert (a + b)[1..] == a[1..] + b;
      LaterSplit(t, a[1..], b);
    }
  }

  lemma {:induction false} SteadySplit(s: Ring, a: seq<Event>, b: seq<Event>, t: int)
    requires Shape(s) && SteadyRun(s, a + b, t)
    ensures SteadyRun(s, a, t) && SteadyRun(Run(s, a), b, Later(t, a))
    decreases |a|
  {
    if a == [] {
      assert a + b == b;
    } else {
      assert (a + b)[1..] == a[1..] + b && (a + b)[0] == a[0];
      if a[0].I2s? {
        SteadySplit(Step(s, a[0]), a[1..], b, t + BLK_PERIOD_US);
      } else {
        SteadySplit(Step(s, a[0]), a[1..], b, t);
      }
    }
  }

  /** A frame that passes the checks is accepted, whatever interrupts follow. */
  lemma {:induction false} OfferAccepted(s: Ring, copy: seq<Event>, frame: seq<Block>, rxTs: uint32)
    requires Shape(s) && s.thread.Idle? && Accepts(s, frame)
    requires copy != [] && copy[0] == FrameArrives(frame, rxTs) && ThreadPart(copy) == FrameEvents(frame, rxTs)
    ensures AllAccepted(s, copy)
  {
    ThreadPartHead(copy);
    assert FrameEvents(frame, rxTs)[1..] == Copies(|frame|) + [Publish];
    NothingToAccept(Step(s, copy[0]), copy[1..]);
  }

  /** The state when the measured delay is read, `early` interrupts after the thread has been given a frame. */
  function AtMeasure(y: System, early: seq<uint32>): System
    requires Shape(y.ring)
  {
    y.(ring := Run(y.ring, Datapath.Irqs(early)), t := Later(y.t, Datapath.Irqs(early)))
  }

  /** What is behind the early interrupts. */
  lemma {:induction false} BehindEarly(s: Ring, early: seq<uint32>, before: seq<Event>, copy: seq<Event>, t: int)
    requires Shape(s) && Datapath.Irqs(early) <= before && SteadyRun(s, before + copy, t)
    ensures var irqs, comp := Datapath.Irqs(early), before[|early|..];
            var s1, t1 := Run(s, irqs), Later(t, irqs);
            ThreadPart(irqs) == [] && SteadyRun(s, irqs, t) &&
            ThreadPart(comp) == ThreadPart(before) && SteadyRun(s1, comp, t1) &&
            Run(s1, comp) == Run(s, before) && Later(t1, comp) == Later(t, before) &&
            SteadyRun(Run(s, before), copy, Later(t, before))
  {
    var irqs, comp := Datapath.Irqs(early), before[|early|..];
    assert before == irqs + comp;
    SteadySplit(s, before, copy, t);
    SteadySplit(s, irqs, comp, t);
    Datapath.AppendAfterIrqs(s, early, comp);
    Datapath.IrqsAreNotThread(early);
    LaterSplit(t, irqs, comp);
  }

  /**
   `AudioDatapath.StreamOut` for an accepted frame, with drift locked and the reference consecutive, makes
   two moves: its early interrupts, and a call.
   */
  lemma {:induction false} StreamOutIsCall(y: System, g: Goal, drift: D.Drift, early: seq<uint32>, before: seq<Event>,
                        copy: seq<Event>, frame: seq<Block>, x: P.Input)
    requires Shape(y.ring) && y.ring.thread.Idle?
    requires x == Datapath.Measured(y.ring, drift, g.presDelayUs, U32(y.rx - g.lag), false, U32(y.rx), early)
    requires x.driftLocked && Datapath.Irqs(early) <= before
    requires Datapath.Processed(y.ring, before, copy, P.AdjBlks(P.PresStep(y.p, x).1), frame, U32(y.rx))
    requires SteadyRun(y.ring, before + copy, y.t) && Accepts(Run(y.ring, before), frame)
    ensures Leads(y, Pass(Datapath.Irqs(early)), g, AtMeasure(y, early))
    ensures Leads(AtMeasure(y, early), Call(before[|early|..], copy, frame), g,
                  System(Run(y.ring, before + copy), P.PresStep(y.p, x).0, Later(y.t, before + copy),
                         y.rx + |frame| * BLK_PERIOD_US))
  {
    BehindEarly(y.ring, early, before, copy, y.t);
    OfferAccepted(Run(y.ring, before), copy, frame, U32(y.rx));
    RunSplit(y.ring, before, copy);
    LaterSplit(y.t, before, copy);
    assert Given(AtMeasure(y, early), g) == x;
  }

  /* ---------- what holds between moves ---------- */

  /** How many of the last blocks the controller's state stands for: while waiting, those of `ctr` frames. */
  function Since(p: P.Pres): nat {
    10 * if p.state == P.Wait then p.ctr else 13
  }

  /** A ring of 120 blocks and frames of 10. */
  ghost predicate RingOk(y: System, m: nat) {
    RingAt(y.ring, m, y.t, y.rx) && |y.ring.fifo| == P.FIFO_NUM_BLKS && y.ring.frameBlks == 10
  }

  /** As many blocks follow one another as the controller counts on. */
  ghost predicate PaceOk(p: P.Pres, m: nat) {
    p.ctr <= 14 && (p.state == P.Wait ==> p.ctr <= 13) && m >= Since(p)
  }

  /** Controller and error are those of the abstract loop. */
  ghost predicate Agrees(y: System, g: Goal, l: P.Loop, m: nat) {
    RingOk(y, m) && PaceOk(y.p, m) && y.p == l.p && ErrOf(y, g) == l.errUs
  }

  /* ---------- what the controller measures ---------- */

  lemma SumsAlike(sum: int, x: int, y: int)
    requires U32(x) == U32(y)
    ensures I32(sum + x) == I32(sum + y)
  {
    U32Shift(x, sum);
    U32Shift(y, sum);
  }

  /** The controller looks at an error modulo 2^32 only. */
  lemma OnlyResidueCounts(p: P.Pres, x: int, y: int)
    requires U32(x) == U32(y)
    ensures P.PresStep(p, P.Input(true, false, x)) == P.PresStep(p, P.Input(true, false, y))
  {
    SumsAlike(p.sumErrDlyUs, x, y);
  }

  lemma ErrorMeasured(g: Goal, rx: int, coming: int)
    ensures U32(P.ErrUs(g.presDelayUs, U32(rx), U32(rx - g.lag), U32(coming))) == U32(Wanted(g) - coming)
  {
    assert U32(U32(rx) - U32(rx - g.lag)) == U32(g.lag);
    U32Minus(Wanted(g), coming);
  }

  lemma TrailFits(s: Ring)
    requires Shape(s)
    ensures |Trail(s)| <= |s.fifo|
  {
  }

  /**
   The ring holds no more than 120 blocks, so by the end of the wait all that was unread at the
   compensation has been played: the delay measured is the one coming.
   */
  lemma {:induction false} MeasuredIsComing(y: System, m: nat)
    requires RingOk(y, m) && m > P.FIFO_NUM_BLKS
    ensures y.ring.presDly == U32(Coming(y.ring, y.t, y.rx))
  {
    TrailFits(y.ring);
  }

  /** What is measured but in samples is of no account. */
  lemma StepsAlike(p: P.Pres, x: P.Input, e: int)
    requires x.driftLocked && !x.notConsecutive
    requires p.state == P.Meas ==> U32(x.errUs) == U32(e)
    ensures P.PresStep(p, x) == P.PresStep(p, P.Input(true, false, e))
  {
    if p.state == P.Meas {
      OnlyResidueCounts(p, x.errUs, e);
    } else {
      P.OnlySamplesCount(p, x, P.Input(true, false, e));
    }
  }

  /** So the controller's step is that on the error as it is. */
  lemma {:induction false} SampleIsError(y: System, g: Goal, m: nat)
    requires RingOk(y, m) && PaceOk(y.p, m)
    ensures P.PresStep(y.p, Given(y, g)) == P.PresStep(y.p, P.Input(true, false, ErrOf(y, g)))
  {
    if y.p.state == P.Meas {
      MeasuredIsComing(y, m);
      ErrorMeasured(g, y.rx, Coming(y.ring, y.t, y.rx));
    }
    StepsAlike(y.p, Given(y, g), ErrOf(y, g));
  }

  /* ---------- the loop ---------- */

  /** The blocks that follow one another after a call. */
  function Following(m: nat, k: int): nat {
    10 + if k == 0 then m else 0
  }

  /** What a call does to the ring. */
  lemma {:induction false} RingAfterCall(s: Ring, v: Move, k: int, m: nat, t: int, rx: int)
    requires v.Call? && RingAt(s, m, t, rx) && CallOk(s, v, k, t, rx)
    ensures var r, rx' := Run(Run(s, v.comp), v.copy), rx + |v.frame| * BLK_PERIOD_US;
            var t' := Later(Later(t, v.comp), v.copy);
            RingAt(r, |v.frame| + (if k == 0 then m else 0), t', rx') &&
            Coming(r, t', rx') == Coming(s, t, rx) + k * BLK_PERIOD_US
  {
    FollowsCompensation(s, v.comp, k, U32(rx), m, t, rx);
    FollowsOneFrame(Run(s, v.comp), v.copy, v.frame, if k == 0 then m else 0, Later(t, v.comp), rx);
  }

  lemma {:induction false} CallKeepsRing(y: System, v: Move, g: Goal, r: System, m: nat)
    requires RingOk(y, m) && v.Call? && Leads(y, v, g, r)
    ensures RingOk(r, Following(m, Asked(y, g)))
    ensures ErrOf(r, g) == ErrOf(y, g) - Asked(y, g) * BLK_PERIOD_US
  {
    RingAfterCall(y.ring, v, Asked(y, g), m, y.t, y.rx);
  }

  /** The controller waits long enough. */
  lemma StepKeepsPace(p: P.Pres, x: P.Input, m: nat)
    requires PaceOk(p, m) && x.driftLocked && !x.notConsecutive
    ensures var (r, adj) := P.PresStep(p, x); PaceOk(r, Following(m, P.AdjBlks(adj)))
  {
    P.OnlyDecisionsAdjust(p, x);
  }

  /** A call does what a step of the abstract loop does. */
  lemma {:induction false} CallIsLoopStep(y: System, v: Move, g: Goal, r: System, l: P.Loop, m: nat)
    requires Agrees(y, g, l, m) && v.Call? && Leads(y, v, g, r)
    ensures Agrees(r, g, P.LoopStep(l), Following(m, Asked(y, g)))
  {
    SampleIsError(y, g, m);
    StepKeepsPace(y.p, Given(y, g), m);
    CallKeepsRing(y, v, g, r, m);
  }

  /** Interrupts between calls do nothing to it. */
  lemma {:induction false} PassIsNoStep(y: System, v: Move, g: Goal, r: System, l: P.Loop, m: nat)
    requires Agrees(y, g, l, m) && v.Pass? && Leads(y, v, g, r)
    ensures Agrees(r, g, l, m)
  {
    FollowsInterrupts(y.ring, v.evs, m, y.t, y.rx);
  }

  lemma {:induction false} LoopNext(l: P.Loop, n: nat)
    ensures P.LoopN(l, n + 1) == P.LoopStep(P.LoopN(l, n))
  {
    var one := 1;
    P.LoopSplit(l, n, one);
    assert P.LoopN(P.LoopN(l, n), one) == P.LoopN(P.LoopStep(P.LoopN(l, n)), one - 1);
  }

  lemma {:induction false} OneMoreMove(ys: seq<System>, moves: seq<Move>, g: Goal, l: P.Loop, m: nat, n: nat)
    returns (m': nat)
    requires Path(ys, moves, g) && n < |moves| && Agrees(ys[n], g, P.LoopN(l, Calls(moves, n)), m)
    ensures Agrees(ys[n + 1], g, P.LoopN(l, Calls(moves, n + 1)), m')
  {
    m' := m;
    assert LeadsAt(ys, moves, g, n);
    if moves[n].Pass? {
      PassIsNoStep(ys[n], moves[n], g, ys[n + 1], P.LoopN(l, Calls(moves, n)), m);
    } else {
      CallIsLoopStep(ys[n], moves[n], g, ys[n + 1], P.LoopN(l, Calls(moves, n)), m);
      LoopNext(l, Calls(moves, n));
      m' := Following(m, Asked(ys[n], g));
    }
  }

  /** Any run of the system does to controller and error what a step of the abstract loop per call does. */
  lemma {:induction false} CallsAreLoop(
    ys: seq<System>, moves: seq<Move>, g: Goal, l: P.Loop, m: nat, n: nat)
    returns (m': nat)
    requires Path(ys, moves, g) && Agrees(ys[0], g, l, m) && n <= |moves|
    ensures Agrees(ys[n], g, P.LoopN(l, Calls(moves, n)), m')
    decreases n
  {
    if n == 0 {
      m' := m;
    } else {
      m' := CallsAreLoop(ys, moves, g, l, m, n - 1);
      m' := OneMoreMove(ys, moves, g, l, m', n - 1);
    }
  }

  lemma {:induction false} LoopMeasures(y: System, g: Goal, l: P.Loop, m: nat)
    requires Agrees(y, g, l, m)
    ensures y.p.state == l.p.state && ErrOf(y, g) == l.errUs
    ensures y.p.state == P.Locked ==> y.ring.presDly == U32(Wanted(g) - l.errUs)
  {
    if y.p.state == P.Locked {
      MeasuredIsComing(y, m);
    }
  }

  /**
   The closed loop locks. Whatever the ring holds when a wait begins: after enough calls the controller
   is locked exactly when the 32-bit sum of the error is not an odd number of half blocks, and while it
   is, the delay measured is the wanted one up to half a block, exactly when that sum did not wrap.
   */
  lemma {:induction false} ClosedLoopLocks(ys: seq<System>, moves: seq<Move>, g: Goal, n: nat)
    requires Path(ys, moves, g) && n <= |moves|
    requires RingOk(ys[0], 0) && ys[0].p.state == P.Wait && ys[0].p.ctr == 0
    requires Calls(moves, n) >= 26 * (P.Windows(P.TenSum(ErrOf(ys[0], g))) + 1)
    ensures var r := ys[n];
            (r.p.state == P.Locked <==> P.TenSum(ErrOf(ys[0], g)) % 10000 != 5000) &&
            (r.p.state == P.Locked ==>
               r.ring.presDly == U32(Wanted(g) - ErrOf(r, g)) &&
               (Abs(ErrOf(r, g)) < 500 <==> Abs(ErrOf(ys[0], g)) <= P.ERR_MAX))
  {
    var l := P.Loop(ys[0].p, ErrOf(ys[0], g));
    var m := CallsAreLoop(ys, moves, g, l, 0, n);
    P.LocksFromWait(l.p, l.errUs, Calls(moves, n));
    LoopMeasures(ys[n], g, P.LoopN(l, Calls(moves, n)), m);
  }
}
