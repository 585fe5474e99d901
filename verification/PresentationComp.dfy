/**
 Presentation compensation: averages ten measured delay errors and turns the average into a number of
 blocks to insert into, or remove from, the output ring.
 */
module PresentationComp {
  import opened CInt
  import opened Common

  const FIFO_NUM_BLKS: int := 120
  const PRES_COMP_NUM_DATA_PTS: int := 10
  const FIFO_SMPL_PERIOD_US: int := 120000

  datatype PresState = Init | Meas | Wait | Locked

  datatype Pres = Pres(state: PresState, ctr: uint16, sumErrDlyUs: int32)

  /** What one frame brings: `errUs` is the wanted minus the current presentation delay. */
  datatype Input = Input(driftLocked: bool, notConsecutive: bool, errUs: int)

  /** Wanted minus current delay for a frame, before it is reduced to 32 bits. */
  function ErrUs(presDelayUs: uint32, recvTs: uint32, sduRef: uint32, currentDly: uint32): int {
    I32(presDelayUs - U32(recvTs - sduRef)) - currentDly
  }

  /** One call of the state machine; the second result is the adjustment in microseconds. */
  function PresStep(p: Pres, x: Input): (Pres, int32) {
    if !x.driftLocked then (p.(state := Init), 0)
    else
      var q := if x.notConsecutive then p.(ctr := 0, state := Wait) else p;
      match q.state
      case Init => (Pres(Meas, 0, 0), 0)
      case Meas =>
        if q.ctr < PRES_COMP_NUM_DATA_PTS then
          (Pres(Meas, U16(q.ctr + 1), I32(q.sumErrDlyUs + x.errUs)), 0)
        else
          var adj := Div(q.sumErrDlyUs, PRES_COMP_NUM_DATA_PTS);
          if adj >= BLK_PERIOD_US / 2 || adj <= -(BLK_PERIOD_US / 2)
          then (Pres(Wait, 0, q.sumErrDlyUs), adj)
          else (Pres(Locked, 0, q.sumErrDlyUs), adj)
      case Wait =>
        var wait := if q.ctr > FIFO_SMPL_PERIOD_US / FRAME_DURATION_US then Init else Wait;
        (Pres(wait, U16(q.ctr + 1), q.sumErrDlyUs), 0)
      case Locked => (q, 0)
  }

  /** The adjustment in whole blocks, limited to half the ring. */
  function AdjBlks(adjUs: int): int {
    if adjUs == 0 then 0
    else
      var up := if adjUs >= 0 then adjUs + BLK_PERIOD_US / 2 else adjUs - BLK_PERIOD_US / 2;
      var blks := Div(up, BLK_PERIOD_US);
      if blks > FIFO_NUM_BLKS / 2 then FIFO_NUM_BLKS / 2
      else if blks < -(FIFO_NUM_BLKS / 2) then -(FIFO_NUM_BLKS / 2)
      else blks
  }

  /**
   The number of blocks is the adjustment rounded to whole blocks, halves away from zero, and cut off
   at half the ring.
   */
  lemma AdjBlksRounds(adjUs: int)
    ensures var k := AdjBlks(adjUs);
            var rest := adjUs - k * BLK_PERIOD_US;
            -60 <= k <= 60 && (k == 0 <==> -500 < adjUs < 500) &&
            (-60500 < adjUs < 60500 ==>
               -500 <= rest <= 500 && (Abs(rest) == 500 ==> Abs(k * BLK_PERIOD_US) > Abs(adjUs))) &&
            (adjUs >= 60500 ==> k == 60) && (adjUs <= -60500 ==> k == -60)
  {
  }

  /* ---------- runs ---------- */

  /** The state after initialisation and a sequence of calls. */
  function PresRun(ins: seq<Input>): Pres {
    if ins == [] then Pres(Init, 0, 0)
    else PresStep(PresRun(ins[..|ins| - 1]), ins[|ins| - 1]).0
  }

  /** The sum of the last `c` errors. */
  function SumLast(ins: seq<Input>, c: nat): int
    requires c <= |ins|
    decreases c
  {
    if c == 0 then 0 else SumLast(ins[..|ins| - 1], c - 1) + ins[|ins| - 1].errUs
  }

  /** The last `c` calls were made with drift locked and consecutive frames. */
  ghost predicate CleanLast(ins: seq<Input>, c: nat)
    requires c <= |ins|
  {
    forall i | |ins| - c <= i < |ins| :: ins[i].driftLocked && !ins[i].notConsecutive
  }

  lemma I32Add(a: int, b: int)
    ensures I32(I32(a) + b) == I32(a + b)
  {
  }

  /** What the controller's counter and sum say about the calls so far. */
  ghost predicate Measures(p: Pres, ins: seq<Input>) {
    p.ctr <= 14 && (p.state == Wait ==> p.ctr <= 13) &&
    (p.state == Meas ==>
       p.ctr <= 10 && p.ctr <= |ins| && CleanLast(ins, p.ctr) &&
       p.sumErrDlyUs == I32(SumLast(ins, p.ctr)))
  }

  lemma StepMeasures(p: Pres, ins: seq<Input>, x: Input)
    requires Measures(p, ins)
    ensures Measures(PresStep(p, x).0, ins + [x])
  {
    var r, all := PresStep(p, x).0, ins + [x];
    if r.state == Meas && r.ctr > 0 {
      assert p.state == Meas && r.ctr == p.ctr + 1;
      assert all[..|all| - 1] == ins;
      I32Add(SumLast(ins, p.ctr), x.errUs);
    }
  }

  /**
   Along every run the counter stays far from its 16-bit limit, and while measuring it counts the
   errors summed since measuring began, which are those of the last calls, all of them clean.
   */
  lemma {:induction false} MeasuresLastCalls(ins: seq<Input>)
    ensures Measures(PresRun(ins), ins)
    decreases |ins|
  {
    if ins == [] {
    } else {
      var prefix, x := ins[..|ins| - 1], ins[|ins| - 1];
      MeasuresLastCalls(prefix);
      StepMeasures(PresRun(prefix), prefix, x);
      assert prefix + [x] == ins;
    }
  }

  lemma OnlyDecisionsAdjust(p: Pres, x: Input)
    ensures var (r, adj) := PresStep(p, x);
            (adj != 0 || (r.state == Locked && p.state != Locked) ==>
               p.state == Meas && p.ctr >= 10 && x.driftLocked && !x.notConsecutive &&
               adj == Div(p.sumErrDlyUs, 10)) &&
            (AdjBlks(adj) != 0 ==> r.state == Wait && Abs(adj) >= 500) &&
            (r.state == Locked ==> AdjBlks(adj) == 0)
  {
    AdjBlksRounds(PresStep(p, x).1);
  }

  /**
   A call adjusts only as the decision that ends a measurement: the ten calls before it were clean
   and their mean, truncated, is the adjustment. It inserts or removes blocks exactly when it then
   waits, and none when it locks.
   */
  lemma AdjustmentIsMeanOfTen(ins: seq<Input>, x: Input)
    ensures var (r, adj) := PresStep(PresRun(ins), x);
            (adj != 0 || (r.state == Locked && PresRun(ins).state != Locked) ==>
               |ins| >= 10 && CleanLast(ins, 10) && x.driftLocked && !x.notConsecutive &&
               adj == Div(I32(SumLast(ins, 10)), 10)) &&
            (AdjBlks(adj) != 0 ==> r.state == Wait && Abs(adj) >= 500) &&
            (r.state == Locked ==> AdjBlks(adj) == 0)
  {
    MeasuresLastCalls(ins);
    OnlyDecisionsAdjust(PresRun(ins), x);
  }

  /* ---------- gaps ---------- */

  /**
   Losing the drift lock starts all over, and a gap in the references begins a wait, from every state, a
   locked one too; neither adjusts anything nor touches the sum.
   */
  lemma GapsAreNoticed(p: Pres, x: Input)
    ensures var (r, adj) := PresStep(p, x);
            (!x.driftLocked ==> r.state == Init && r.ctr == p.ctr) &&
            (x.driftLocked && x.notConsecutive ==> r.state == Wait && r.ctr == 1) &&
            (!x.driftLocked || x.notConsecutive ==> adj == 0 && r.sumErrDlyUs == p.sumErrDlyUs)
  {
  }

  /** From Locked only these two lead away. */
  lemma LockLeftExactly(p: Pres, x: Input)
    requires p.state == Locked
    ensures PresStep(p, x).0.state != Locked <==> !x.driftLocked || x.notConsecutive
    ensures PresStep(p, x).1 == 0
  {
  }

  /** The call after the first `i` decided, on ten errors with a mean below half a block, to lock. */
  ghost predicate LocksAt(ins: seq<Input>, i: nat)
    requires 10 <= i <= |ins|
  {
    PresRun(ins[..i]).state == Meas && PresRun(ins[..i]).ctr == 10 && CleanLast(ins[..i], 10) &&
    Abs(Div(I32(SumLast(ins[..i], 10)), 10)) < 500
  }

  /** Call `i` decided to lock, and from it on there was neither a gap nor a loss of the drift lock. */
  ghost predicate LockedSince(ins: seq<Input>, i: nat) {
    10 <= i < |ins| && LocksAt(ins, i) && CleanLast(ins, |ins| - i)
  }

  lemma {:induction false} LocksAtPrefix(ins: seq<Input>, x: Input, i: nat)
    requires 10 <= i <= |ins|
    ensures LocksAt(ins + [x], i) == LocksAt(ins, i)
  {
    assert (ins + [x])[..i] == ins[..i];
  }

  /** Whether a call more leaves the controller locked. */
  lemma {:induction false} LockedNext(ins: seq<Input>, x: Input)
    ensures PresRun(ins + [x]).state == Locked <==>
            x.driftLocked && !x.notConsecutive &&
            (PresRun(ins).state == Locked || (10 <= |ins| && LocksAt(ins, |ins|)))
  {
    var all := ins + [x];
    assert all[..|all| - 1] == ins && ins[..|ins|] == ins;
    MeasuresLastCalls(ins);
  }

  lemma {:induction false} LockedSinceNext(ins: seq<Input>, x: Input, i: nat)
    requires 10 <= i <= |ins|
    ensures LockedSince(ins + [x], i) <==>
            x.driftLocked && !x.notConsecutive &&
            (LockedSince(ins, i) || (i == |ins| && LocksAt(ins, i)))
  {
    LocksAtPrefix(ins, x, i);
    var all := ins + [x];
    if x.driftLocked && !x.notConsecutive && LockedSince(ins, i) {
      forall j | |all| - (|all| - i) <= j < |all|
        ensures all[j].driftLocked && !all[j].notConsecutive
      {
        assert j < |ins| ==> all[j] == ins[j];
      }
    }
    if LockedSince(all, i) {
      assert all[|ins|] == x;
      forall j | i <= j < |ins|
        ensures ins[j].driftLocked && !ins[j].notConsecutive
      {
        assert all[j] == ins[j];
      }
    }
  }

  /**
   In every run the controller is locked if and only if some call decided so on ten clean errors with a
   mean below half a block, and since then there was neither a gap nor a loss of the drift lock.
   */
  lemma {:induction false} LockedExactly(ins: seq<Input>)
    ensures PresRun(ins).state == Locked <==> exists i: nat :: LockedSince(ins, i)
    decreases |ins|
  {
    if ins == [] {
    } else {
      var most, x := ins[..|ins| - 1], ins[|ins| - 1];
      assert ins == most + [x];
      LockedExactly(most);
      LockedNext(most, x);
      if PresRun(ins).state == Locked {
        var i :| if PresRun(most).state == Locked then LockedSince(most, i)
                 else i == |most| && 10 <= i && LocksAt(most, i);
        LockedSinceNext(most, x, i);
      }
      if i: nat :| LockedSince(ins, i) {
        LockedSinceNext(most, x, i);
      }
    }
  }

  /* ---------- convergence ---------- */

  /** The largest error whose sum over ten samples fits 32 bits. */
  const ERR_MAX: int := 214748364

  /** The controller together with the error it acts on. */
  datatype Loop = Loop(p: Pres, errUs: int)

  /**
   One frame with drift locked and consecutive references, where each block inserted or removed
   changes the delay by one block period.
   */
  function LoopStep(l: Loop): Loop {
    var (r, adj) := PresStep(l.p, Input(true, false, l.errUs));
    Loop(r, l.errUs - AdjBlks(adj) * BLK_PERIOD_US)
  }

  function LoopN(l: Loop, n: nat): Loop
    decreases n
  {
    if n == 0 then l else LoopN(LoopStep(l), n - 1)
  }

  /** Only samples count: what is measured in any other call changes nothing. */
  lemma OnlySamplesCount(p: Pres, x: Input, y: Input)
    requires x.driftLocked == y.driftLocked && x.notConsecutive == y.notConsecutive
    requires p.state != Meas || p.ctr >= PRES_COMP_NUM_DATA_PTS || !x.driftLocked || x.notConsecutive
    ensures PresStep(p, x) == PresStep(p, y)
  {
  }

  lemma {:induction false} LoopSplit(l: Loop, a: nat, b: nat)
    ensures LoopN(l, a + b) == LoopN(LoopN(l, a), b)
    decreases a
  {
    if a == 0 {
    } else {
      LoopSplit(LoopStep(l), a - 1, b);
    }
  }

  /** The start of a measurement of error `e`. */
  function MeasStart(e: int): Loop {
    Loop(Pres(Meas, 0, 0), e)
  }

  /** The 32-bit sum of ten samples of the same error. */
  function TenSum(e: int): int32 {
    I32(10 * e)
  }

  /** The mean taken of them. */
  function Mean(e: int): int {
    Div(TenSum(e), 10)
  }

  /** The error left after a window. */
  function After(e: int): int {
    e - AdjBlks(Mean(e)) * BLK_PERIOD_US
  }

  /** The sum after `s` when the blocks asked for by its mean are inserted or removed. */
  function SumAfter(s: int): int {
    s - AdjBlks(Div(s, 10)) * 10 * BLK_PERIOD_US
  }

  /** The sum of `c` samples of the same error. */
  function SumOf(c: nat, e: int): int
    decreases c
  {
    if c == 0 then 0 else SumOf(c - 1, e) + e
  }

  /** The controller after `c` samples of error `e`. */
  function Sampled(c: nat, e: int): Loop
    requires c <= 10
  {
    Loop(Pres(Meas, c, I32(SumOf(c, e))), e)
  }

  lemma SampleStep(c: nat, e: int)
    requires c < 10
    ensures LoopStep(Sampled(c, e)) == Sampled(c + 1, e)
  {
    I32Add(SumOf(c, e), e);
  }

  lemma {:induction false} Samples(c: nat, e: int, calls: nat)
    requires c + calls == 10
    ensures LoopN(Sampled(c, e), calls) == Sampled(10, e)
    decreases calls
  {
    if calls == 0 {
    } else {
      SampleStep(c, e);
      Samples(c + 1, e, calls - 1);
    }
  }

  lemma SumOfTen(e: int)
    ensures SumOf(10, e) == 10 * e
  {
  }

  /** The decision on ten samples of the same error: locked exactly when their mean is small. */
  lemma DecisionStep(e: int)
    ensures var l := LoopStep(Sampled(10, e));
            l == Loop(Pres(if Abs(Mean(e)) >= 500 then Wait else Locked, 0, l.p.sumErrDlyUs), After(e))
  {
    SumOfTen(e);
  }

  lemma {:induction false} Waits(c: nat, sum: int32, e: int, calls: nat)
    requires c <= 13 && c + calls == 15
    ensures LoopN(Loop(Pres(Wait, c, sum), e), calls) == MeasStart(e)
    decreases calls
  {
    var l := LoopStep(Loop(Pres(Wait, c, sum), e));
    if c < 13 {
      assert l == Loop(Pres(Wait, c + 1, sum), e);
      Waits(c + 1, sum, e, calls - 1);
    } else {
      assert l == Loop(Pres(Init, 14, sum), e);
      assert LoopN(l, calls - 1) == LoopN(LoopStep(l), calls - 2);
    }
  }

  /** A window whose mean is half a block or more adjusts and is back measuring 26 calls on. */
  lemma AdjustingWindow(e: int, calls: nat)
    requires Abs(Mean(e)) >= 500 && calls == 26
    ensures LoopN(MeasStart(e), calls) == MeasStart(After(e))
  {
    var ten, rest := calls - 16, calls - 10;
    assert MeasStart(e) == Sampled(0, e);
    Samples(0, e, ten);
    LoopSplit(MeasStart(e), ten, rest);
    DecisionStep(e);
    Waits(0, LoopStep(Sampled(10, e)).p.sumErrDlyUs, After(e), rest - 1);
  }

  /** One with a smaller mean locks after 11 calls. */
  lemma LockingWindow(e: int, calls: nat)
    requires Abs(Mean(e)) < 500 && calls == 11
    ensures var l := LoopN(MeasStart(e), calls); l.p.state == Locked && l.errUs == e
  {
    var ten := calls - 1;
    assert MeasStart(e) == Sampled(0, e);
    Samples(0, e, ten);
    LoopSplit(MeasStart(e), ten, calls - ten);
    DecisionStep(e);
    AdjBlksRounds(Mean(e));
    var l := LoopStep(Sampled(10, e));
    assert LoopN(Sampled(10, e), calls - ten) == LoopN(l, calls - ten - 1) == l;
  }

  lemma {:induction false} LockHolds(l: Loop, n: nat)
    requires l.p.state == Locked
    ensures LoopN(l, n) == l
    decreases n
  {
    if n == 0 {
    } else {
      LockHolds(l, n - 1);
    }
  }

  /** A small mean is locked on from the end of the locking window. */
  lemma LockedFrom(e: int, n: nat)
    requires Abs(Mean(e)) < 500 && n >= 11
    ensures var l := LoopN(MeasStart(e), n); l.p.state == Locked && l.errUs == e
  {
    var calls := 11;
    LockingWindow(e, calls);
    LoopSplit(MeasStart(e), calls, n - calls);
    LockHolds(LoopN(MeasStart(e), calls), n - calls);
  }

  /* ---------- what the 32-bit sum makes of the error ---------- */

  /** Up to `ERR_MAX` the mean is the error itself; beyond, the sum has wrapped and it never is. */
  lemma MeanExactly(e: int)
    ensures TenSum(e) == 10 * e <==> Abs(e) <= ERR_MAX
    ensures Mean(e) == e <==> Abs(e) <= ERR_MAX
  {
  }

  /** How many times the sum has wrapped. */
  function SumWraps(e: int): int {
    (10 * e - TenSum(e)) / TWO_POW_32
  }

  lemma SumUnwrapped(e: int)
    ensures 10 * e == TenSum(e) + SumWraps(e) * TWO_POW_32
    ensures SumWraps(e) == 0 <==> Abs(e) <= ERR_MAX
  {
  }

  lemma I32Wrapped(r: int, j: int)
    requires -0x8000_0000 <= r < 0x8000_0000
    ensures I32(r + j * TWO_POW_32) == r
  {
    assert (r + j * TWO_POW_32) % TWO_POW_32 == r % TWO_POW_32;
  }

  lemma ModShift(s: int, k: int)
    ensures (s - k * 10 * BLK_PERIOD_US) % 10000 == s % 10000
  {
  }

  /**
   A window shrinks a sum of half a block or more, unless it is an odd number of half blocks, by at
   most 60 blocks.
   */
  lemma SumShrinks(s: int)
    requires Abs(s) >= 5000
    ensures SumAfter(s) % 10000 == s % 10000
    ensures s % 10000 == 5000 ==> 5000 <= Abs(SumAfter(s)) <= Abs(s)
    ensures s % 10000 != 5000 ==> Abs(SumAfter(s)) < Abs(s)
    ensures Abs(s) < 605000 && s % 10000 != 5000 ==> Abs(SumAfter(s)) < 5000
    ensures Abs(s) >= 605000 ==> Abs(SumAfter(s)) == Abs(s) - 600000
  {
    AdjBlksRounds(Div(s, 10));
    ModShift(s, AdjBlks(Div(s, 10)));
  }

  /** A window does to the sum what `SumAfter` says, and wraps it no further. */
  lemma AfterSum(e: int)
    ensures TenSum(After(e)) == SumAfter(TenSum(e)) && SumWraps(After(e)) == SumWraps(e)
  {
    SumUnwrapped(e);
    var s := TenSum(e);
    if Abs(s) >= 5000 {
      SumShrinks(s);
    } else {
      AdjBlksRounds(Mean(e));
    }
    assert -0x8000_0000 <= SumAfter(s) < 0x8000_0000;
    I32Wrapped(SumAfter(s), SumWraps(e));
    assert 10 * After(e) == SumAfter(s) + SumWraps(e) * TWO_POW_32;
  }

  /**
   A window brings the error closer to zero exactly when the blocks asked for have its sign, but for
   half a block of error, which changes sides.
   */
  lemma ShrinksExactly(e: int)
    ensures var k := AdjBlks(Mean(e));
            Abs(After(e)) < Abs(e) <==> (((k > 0 && e > 0) || (k < 0 && e < 0)) && Abs(e) != 500)
  {
    AdjBlksRounds(Mean(e));
    MeanExactly(e);
  }

  /** Up to `ERR_MAX` that is half a block of error or more. */
  lemma AdjustingShrinks(e: int)
    requires 500 <= Abs(e) <= ERR_MAX
    ensures Abs(After(e)) < Abs(e) <==> Abs(e) != 500
    ensures e % 1000 != 500 && Abs(e) < 60500 ==> Abs(After(e)) < 500
    ensures Abs(e) >= 60500 ==> Abs(After(e)) == Abs(e) - 60000
  {
    AdjBlksRounds(e);
    MeanExactly(e);
  }

  /** Beyond, the sum wraps and the window can move away from the wanted delay: here by 60 ms. */
  lemma WrappedSumDiverges()
    ensures var e := 300_000_000;
            TenSum(e) == -1_294_967_296 && AdjBlks(Mean(e)) == -60 && After(e) == 300_060_000
  {
  }

  /** Or lock at once with 429 seconds of error, which is an odd number of half blocks. */
  lemma WrappedSumLocks(n: nat)
    requires n >= 11
    ensures var e := 429_496_500;
            e % 1000 == 500 && var l := LoopN(MeasStart(e), n); l.p.state == Locked && l.errUs == e
  {
    LockedFrom(429_496_500, n);
  }

  /** The number of adjusting windows a sum needs. */
  function Windows(s: int): nat {
    if Abs(s) < 5000 then 0 else (Abs(s) - 5000) / 600000 + 1
  }

  lemma WindowsStep(s: int)
    requires Abs(s) >= 5000 && s % 10000 != 5000
    ensures Windows(s) == Windows(SumAfter(s)) + 1
  {
    SumShrinks(s);
  }

  /** The sum of a locked error is small, and the error itself exactly when the sum never wrapped. */
  lemma SmallSum(e: int)
    requires Abs(TenSum(e)) < 5000
    ensures Abs(e) < 500 <==> SumWraps(e) == 0
  {
    SumUnwrapped(e);
  }

  /** An adjusting window leaves one window less to go, and no more wraps. */
  lemma NextWindow(e: int)
    requires Abs(TenSum(e)) >= 5000 && TenSum(e) % 10000 != 5000
    ensures TenSum(After(e)) % 10000 != 5000 && SumWraps(After(e)) == SumWraps(e)
    ensures Windows(TenSum(e)) == Windows(TenSum(After(e))) + 1
  {
    WindowsStep(TenSum(e));
    SumShrinks(TenSum(e));
    AfterSum(e);
  }

  lemma AfterWindow(e: int, n: nat)
    requires Abs(TenSum(e)) >= 5000 && n >= 26
    ensures LoopN(MeasStart(e), n) == LoopN(MeasStart(After(e)), n - 26)
  {
    var calls := 26;
    AdjustingWindow(e, calls);
    LoopSplit(MeasStart(e), calls, n - calls);
  }

  /**
   Convergence: from so many adjusting windows of 26 calls and a locking window of 11 calls on, the
   controller is locked for good, unless the 32-bit sum of the error is an odd number of half blocks.
   Less than half a block of error is left exactly when that sum did not wrap at the start.
   */
  lemma {:induction false} Converges(e: int, n: nat)
    requires TenSum(e) % 10000 != 5000
    requires n >= 26 * Windows(TenSum(e)) + 11
    ensures var l := LoopN(MeasStart(e), n);
            l.p.state == Locked && Abs(Mean(l.errUs)) < 500 && SumWraps(l.errUs) == SumWraps(e) &&
            (Abs(l.errUs) < 500 <==> Abs(e) <= ERR_MAX)
    decreases Windows(TenSum(e))
  {
    SumUnwrapped(e);
    if Abs(TenSum(e)) < 5000 {
      LockedFrom(e, n);
      SmallSum(e);
    } else {
      NextWindow(e);
      SumUnwrapped(After(e));
      Converges(After(e), n - 26);
      AfterWindow(e, n);
    }
  }

  /** What holds for ever when the sum of the error is an odd number of half blocks. */
  ghost predicate Hunting(l: Loop) {
    TenSum(l.errUs) % 10000 == 5000 && l.p.ctr <= 14 &&
    match l.p.state
    case Init => true
    case Meas => l.p.ctr <= 10 && l == Sampled(l.p.ctr, l.errUs)
    case Wait => l.p.ctr <= 13
    case Locked => false
  }

  lemma HuntingIdle(l: Loop)
    requires Hunting(l) && l.p.state != Meas
    ensures Hunting(LoopStep(l))
  {
  }

  lemma HuntingAfter(e: int)
    requires TenSum(e) % 10000 == 5000
    ensures Abs(Mean(e)) >= 500 && TenSum(After(e)) % 10000 == 5000
  {
    SumShrinks(TenSum(e));
    AfterSum(e);
  }

  lemma HuntingStep(l: Loop)
    requires Hunting(l)
    ensures Hunting(LoopStep(l))
  {
    if l.p.state == Meas {
      if l.p.ctr < 10 {
        SampleStep(l.p.ctr, l.errUs);
      } else {
        DecisionStep(l.errUs);
        HuntingAfter(l.errUs);
      }
    } else {
      HuntingIdle(l);
    }
  }

  /** Such an error is never locked: the controller moves a block forth and back without end. */
  lemma {:induction false} NeverLocks(l: Loop, n: nat)
    requires Hunting(l)
    ensures LoopN(l, n).p.state != Locked
    decreases n
  {
    if n == 0 {
    } else {
      HuntingStep(l);
      NeverLocks(LoopStep(l), n - 1);
    }
  }

  /** Of errors whose sum fits, the odd numbers of half blocks are not locked. */
  lemma HalfBlocks(e: int)
    requires Abs(e) <= ERR_MAX
    ensures TenSum(e) % 10000 == 5000 <==> e % 1000 == 500
  {
    MeanExactly(e);
  }

  lemma ConvergesFromWait(p: Pres, e: int, n: nat)
    requires p.state == Wait && p.ctr == 0 && TenSum(e) % 10000 != 5000
    requires n >= 26 * (Windows(TenSum(e)) + 1)
    ensures var l := LoopN(Loop(p, e), n);
            l.p.state == Locked && (Abs(l.errUs) < 500 <==> Abs(e) <= ERR_MAX)
  {
    var wait := 15;
    Waits(0, p.sumErrDlyUs, e, wait);
    LoopSplit(Loop(p, e), wait, n - wait);
    Converges(e, n - wait);
  }

  /** From the beginning of a wait it takes 15 calls more to lock, if ever. */
  lemma LocksFromWait(p: Pres, e: int, n: nat)
    requires p.state == Wait && p.ctr == 0 && n >= 26 * (Windows(TenSum(e)) + 1)
    ensures var l := LoopN(Loop(p, e), n);
            (l.p.state == Locked <==> TenSum(e) % 10000 != 5000) &&
            (l.p.state == Locked ==> (Abs(l.errUs) < 500 <==> Abs(e) <= ERR_MAX))
  {
    if TenSum(e) % 10000 != 5000 {
      ConvergesFromWait(p, e, n);
    } else {
      NeverLocks(Loop(p, e), n);
    }
  }

  lemma LocksAfter(p: Pres, e: int, n: nat)
    requires p.state == Init && TenSum(e) % 10000 != 5000
    requires n == 26 * Windows(TenSum(e)) + 12
    ensures LoopN(Loop(p, e), n).p.state == Locked
  {
    Converges(e, n - 1);
    assert LoopStep(Loop(p, e)) == MeasStart(e);
  }

  /**
   From the initial state the controller locks if and only if the 32-bit sum of ten samples of the
   error is not an odd number of half blocks.
   */
  lemma LocksExactlyWhen(p: Pres, e: int)
    requires p.state == Init && p.ctr <= 14
    ensures (exists n: nat :: LoopN(Loop(p, e), n).p.state == Locked) <==> TenSum(e) % 10000 != 5000
    ensures Abs(e) <= ERR_MAX ==> (TenSum(e) % 10000 != 5000 <==> e % 1000 != 500)
  {
    if Abs(e) <= ERR_MAX {
      HalfBlocks(e);
    }
    if TenSum(e) % 10000 != 5000 {
      LocksAfter(p, e, 26 * Windows(TenSum(e)) + 12);
    } else {
      forall n: nat
        ensures LoopN(Loop(p, e), n).p.state != Locked
      {
        NeverLocks(Loop(p, e), n);
      }
    }
  }
}
