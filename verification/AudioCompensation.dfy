/**
 Presentation compensation acting on the ring: inserting muted blocks or stepping the producer back.
 */
module AudioCompensation {
  import opened CInt
  import opened Common
  import opened AudioRing
  import opened AudioRingLimits

  /** Muted blocks `i` to `k - 1` of an insertion of `k` blocks. */
  function Inserts(i: nat, k: nat, recvTs: uint32): seq<Event>
    requires i <= k
    decreases k - i
  {
    if i == k then []
    else [Mute(U32(recvTs - (k - i) * BLK_PERIOD_US)), Advance] + Inserts(i + 1, k, recvTs)
  }

  function Retreats(k: nat): (evs: seq<Event>)
    ensures |evs| == k
  {
    seq(k, _ => Retreat)
  }

  /** The thread's steps for an adjustment by `k` blocks. */
  function CompEvents(k: int, recvTs: uint32): seq<Event> {
    if k >= 0 then Inserts(0, k, recvTs) else Retreats(-k)
  }

  lemma ModWrap(x: int, n: int)
    requires n > 0 && -n <= x < 2 * n
    ensures x % n == if x < 0 then x + n else if x < n then x else x - n
  {
    if x < 0 {
      assert x == n * (-1) + (x + n);
    } else if x >= n {
      assert x == n * 1 + (x - n);
    }
  }

  function Fill(s: Ring): int {
    FilledBlocks(|s.fifo|, s.prod, s.cons)
  }

  /** Doing one block of an insertion leaves the others. */
  lemma InsertsStep(done: seq<Event>, i: nat, k: nat, recvTs: uint32)
    requires i < k
    ensures done + Inserts(i, k, recvTs)
            == (done + [Mute(U32(recvTs - (k - i) * BLK_PERIOD_US)), Advance]) + Inserts(i + 1, k, recvTs)
  {
  }

  lemma {:induction false} InsertsMove(s: Ring, i: nat, k: nat, recvTs: uint32)
    requires Shape(s) && !s.halted && s.thread.Idle? && i <= k && k - i < |s.fifo|
    ensures var r := Run(s, Inserts(i, k, recvTs));
            r == s.(fifo := r.fifo, ts := r.ts, prod := At(|s.fifo|, s.prod, k - i))
    decreases k - i
  {
    if i == k {
    } else {
      var evs := Inserts(i, k, recvTs);
      var s1 := Step(s, evs[0]);
      var s2 := Step(s1, evs[1]);
      assert evs[1..][1..] == Inserts(i + 1, k, recvTs);
      assert Run(s1, evs[1..]) == Run(s2, evs[1..][1..]);
      InsertsMove(s2, i + 1, k, recvTs);
      assert At(|s.fifo|, s2.prod, k - i - 1) == At(|s.fifo|, s.prod, k - i);
    }
  }

  lemma {:induction false} RetreatsMove(s: Ring, k: nat)
    requires Shape(s) && !s.halted && s.thread.Idle? && k < |s.fifo|
    ensures var r := Run(s, Retreats(k));
            r == s.(prod := r.prod) && s.prod == At(|s.fifo|, r.prod, k)
    decreases k
  {
    if k == 0 {
    } else {
      assert Retreats(k)[1..] == Retreats(k - 1);
      RetreatsMove(Step(s, Retreat), k - 1);
    }
  }

  /** The fill level after the producer index has moved `k` slots forward from `p` to `q`. */
  lemma FillForward(n: nat, c: nat, p: nat, q: nat, k: nat)
    requires p < n && c < n && k < n && q == At(n, p, k)
    ensures FilledBlocks(n, q, c) == (FilledBlocks(n, p, c) + k) % n
    ensures FilledBlocks(n, p, c) == (FilledBlocks(n, q, c) - k) % n
  {
    ModWrap(FilledBlocks(n, p, c) + k, n);
    ModWrap(FilledBlocks(n, q, c) - k, n);
  }

  /**
   An adjustment by `k` blocks moves the producer by exactly `k` around the ring, so the fill level
   the code computes changes by `k` modulo the ring size, and by exactly `k` when the ring does not
   look empty before and neither runs empty nor full.
   */
  lemma AdjustmentMovesFill(s: Ring, k: int, recvTs: uint32)
    requires Shape(s) && !s.halted && s.thread.Idle?
    requires -(|s.fifo| / 2) <= k <= |s.fifo| / 2
    ensures var n, r := |s.fifo|, Run(s, CompEvents(k, recvTs));
            r.cons == s.cons && Fill(r) == (Fill(s) + k) % n &&
            (Fill(s) >= 1 && 1 <= Fill(s) + k < n ==> Fill(r) == Fill(s) + k)
  {
    var n, r := |s.fifo|, Run(s, CompEvents(k, recvTs));
    if k >= 0 {
      InsertsMove(s, 0, k, recvTs);
      FillForward(n, s.cons, s.prod, r.prod, k);
    } else {
      RetreatsMove(s, -k);
      FillForward(n, s.cons, r.prod, s.prod, -k);
    }
    ModWrap(Fill(s) + k, n);
  }

  /**
   Stepping back below the consumer is not noticed: one removal more than there are unread blocks
   makes the whole ring look unread.
   */
  lemma RetreatUnderflows(s: Ring)
    requires Inv(s) && s.thread.Idle? && Queue(s) == []
    ensures !Safe(s, Retreat) && |Queue(Step(s, Retreat))| == |s.fifo| - 1
  {
  }

  /* ---------- when an adjustment is safe ---------- */

  /** Inserting one block where there is room. */
  lemma InsertOneBlock(s: Ring, ts: uint32)
    requires Inv(s) && s.thread.Idle? && s.prod != s.cons
    ensures var r := Step(Step(s, Mute(ts)), Advance);
            Inv(r) && r.thread.Idle? && Level(r) == Level(s) + 1
  {
    StepRefines(s, Mute(ts));
    StepRefines(Step(s, Mute(ts)), Advance);
  }

  lemma SafeRunTwo(s: Ring, ts: uint32, rest: seq<Event>)
    requires Shape(s)
    ensures var r := Step(Step(s, Mute(ts)), Advance);
            SafeRun(s, [Mute(ts), Advance] + rest) <==> s.prod != s.cons && SafeRun(r, rest)
  {
    var evs := [Mute(ts), Advance] + rest;
    var s1 := Step(s, evs[0]);
    assert evs[1..][0] == Advance && evs[1..][1..] == rest;
    assert SafeRun(s1, evs[1..]) <==> SafeRun(Step(s1, Advance), rest);
  }

  /**
   An insertion of `k` blocks is safe exactly when the ring has room for them, the slot beyond the
   unread blocks included: the code inserts without any check.
   */
  lemma {:induction false} InsertsSafeExactly(s: Ring, i: nat, k: nat, recvTs: uint32)
    requires Inv(s) && s.thread.Idle? && i <= k
    ensures SafeRun(s, Inserts(i, k, recvTs)) <==> i == k || Level(s) + (k - i) <= |s.fifo|
    decreases k - i
  {
    if i == k {
    } else {
      var ts := U32(recvTs - (k - i) * BLK_PERIOD_US);
      SafeRunTwo(s, ts, Inserts(i + 1, k, recvTs));
      if s.prod != s.cons {
        InsertOneBlock(s, ts);
        InsertsSafeExactly(Step(Step(s, Mute(ts)), Advance), i + 1, k, recvTs);
      }
    }
  }

  /** A removal of `k` blocks is safe exactly when so many are unread. */
  lemma {:induction false} RetreatsSafeExactly(s: Ring, k: nat)
    requires Inv(s) && s.thread.Idle?
    ensures SafeRun(s, Retreats(k)) <==> k <= |Queue(s)|
    decreases k
  {
    if k == 0 {
    } else {
      assert Retreats(k)[1..] == Retreats(k - 1);
      if Safe(s, Retreat) {
        StepRefines(s, Retreat);
        RetreatsSafeExactly(Step(s, Retreat), k - 1);
      }
    }
  }

  /**
   A block inserted while the ring is full silences the slot I2S has queued, and the whole ring is
   lost: none of the `n - 1` unread blocks is left to play.
   */
  lemma InsertAtFullLosesRing(s: Ring, ts: uint32)
    requires Inv(s) && HeldInv(s) && s.thread.Idle? && s.prod == s.cons
    ensures var muted := Step(s, Mute(ts)); var r := Step(muted, Advance);
            !Safe(s, Mute(ts)) && |Queue(s)| == |s.fifo| - 1 && Queue(r) == [] &&
            (s.queued.Slot? ==> muted.queued == s.queued && Content(muted, s.queued) == Silence())
  {
  }

  /* ---------- the thread's part of a run ---------- */

  /** The thread's own steps in a run, without the interrupts. */
  function ThreadPart(evs: seq<Event>): seq<Event>
    decreases |evs|
  {
    if evs == [] then []
    else (if evs[0].I2s? then [] else [evs[0]]) + ThreadPart(evs[1..])
  }

  lemma ThreadPartHead(evs: seq<Event>)
    requires evs != []
    ensures !evs[0].I2s? ==> ThreadPart(evs) != [] && ThreadPart(evs)[0] == evs[0] &&
                             ThreadPart(evs)[1..] == ThreadPart(evs[1..])
    ensures evs[0].I2s? ==> ThreadPart(evs) == ThreadPart(evs[1..])
  {
  }

  /** What is left of inserting blocks `i` to `k - 1`: the thread may be about to pass block `i`. */
  ghost predicate Inserting(s: Ring, evs: seq<Event>, i: nat, k: nat, recvTs: uint32)
    requires Shape(s)
  {
    i <= k &&
    match s.thread
    case Idle => ThreadPart(evs) == Inserts(i, k, recvTs)
    case Muted => i < k && ThreadPart(evs) == [Advance] + Inserts(i + 1, k, recvTs)
    case _ => false
  }

  lemma InsertingI2s(s: Ring, evs: seq<Event>, i: nat, k: nat, recvTs: uint32)
    requires Inv(s) && Inserting(s, evs, i, k, recvTs) && evs != [] && evs[0].I2s?
    ensures var r := Step(s, evs[0]);
            Inserting(r, evs[1..], i, k, recvTs) && Level(r) <= Level(s)
  {
    ThreadPartHead(evs);
    assert !Step(s, evs[0]).halted by {
      AltStep(s, evs[0]);
    }
  }

  lemma InsertingMute(s: Ring, evs: seq<Event>, i: nat, k: nat, recvTs: uint32)
    requires Inv(s) && Inserting(s, evs, i, k, recvTs) && evs != [] && !evs[0].I2s? && s.thread.Idle?
    ensures i < k && evs[0].Mute?
    ensures var r := Step(s, evs[0]);
            Inserting(r, evs[1..], i, k, recvTs) && Level(r) == Level(s)
  {
    ThreadPartHead(evs);
    assert i < k;
    assert Inserts(i, k, recvTs)[1..] == [Advance] + Inserts(i + 1, k, recvTs);
  }

  lemma InsertingAdvance(s: Ring, evs: seq<Event>, i: nat, k: nat, recvTs: uint32)
    requires Inv(s) && Inserting(s, evs, i, k, recvTs) && evs != [] && !evs[0].I2s? && s.thread.Muted?
    ensures i < k && evs[0] == Advance
    ensures var r := Step(s, evs[0]);
            Inserting(r, evs[1..], i + 1, k, recvTs) && Level(r) == Level(s) + 1
  {
    ThreadPartHead(evs);
    assert ([Advance] + Inserts(i + 1, k, recvTs))[1..] == Inserts(i + 1, k, recvTs);
  }

  /** With room for all blocks an insertion is safe whatever interrupts come in between. */
  lemma {:induction false} InsertsSafeUnderInterrupts(
    s: Ring, evs: seq<Event>, i: nat, k: nat, recvTs: uint32)
    requires Inv(s) && Inserting(s, evs, i, k, recvTs) && Level(s) + (k - i) <= |s.fifo|
    ensures SafeRun(s, evs)
    decreases |evs|
  {
    if evs == [] {
    } else {
      var r := Step(s, evs[0]);
      if evs[0].I2s? {
        InsertingI2s(s, evs, i, k, recvTs);
        StepRefines(s, evs[0]);
        InsertsSafeUnderInterrupts(r, evs[1..], i, k, recvTs);
      } else if s.thread.Muted? {
        InsertingAdvance(s, evs, i, k, recvTs);
        StepRefines(s, evs[0]);
        InsertsSafeUnderInterrupts(r, evs[1..], i + 1, k, recvTs);
      } else {
        InsertingMute(s, evs, i, k, recvTs);
        StepRefines(s, evs[0]);
        InsertsSafeUnderInterrupts(r, evs[1..], i, k, recvTs);
      }
    }
  }

  /** The number of interrupts in a run. */
  function Interruptions(evs: seq<Event>): nat {
    if evs == [] then 0 else Count(evs[0].I2s?) + Interruptions(evs[1..])
  }

  /** A removal is safe if so many blocks are unread besides those interrupts take meanwhile. */
  lemma {:induction false} RetreatsSafeUnderInterrupts(s: Ring, evs: seq<Event>, k: nat)
    requires Inv(s) && s.thread.Idle? && ThreadPart(evs) == Retreats(k)
    requires k + Interruptions(evs) <= |Queue(s)|
    ensures SafeRun(s, evs)
    decreases |evs|
  {
    if evs == [] {
    } else {
      ThreadPartHead(evs);
      StepRefines(s, evs[0]);
      if evs[0].I2s? {
        RetreatsSafeUnderInterrupts(Step(s, evs[0]), evs[1..], k);
      } else {
        assert Retreats(k)[1..] == Retreats(k - 1);
        RetreatsSafeUnderInterrupts(Step(s, evs[0]), evs[1..], k - 1);
      }
    }
  }
}
