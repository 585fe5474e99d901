/**
 The states in which the ring fails are reached: from the start state, by frames and interrupts that
 keep every rule, for every ring that holds a frame and the two slots I2S starts with.
 */
module AudioReach {
  import opened CInt
  import opened Common
  import opened AudioRing
  import opened AudioRingLimits
  import opened AudioCompensation

  lemma {:induction false} CopiesAreSafe(s: Ring, k: nat)
    requires Shape(s)
    ensures SafeRun(s, Copies(k) + [Publish])
    decreases k
  {
    var evs := Copies(k) + [Publish];
    if k == 0 {
      assert evs == [Publish];
    } else {
      assert evs[0] == CopyBlock && evs[1..] == Copies(k - 1) + [Publish];
      CopiesAreSafe(Step(s, CopyBlock), k - 1);
    }
  }

  /** An idle thread, I2S holding the consumer's slot, and the slot before it unless just started. */
  ghost predicate Ready(s: Ring, f: nat) {
    Inv(s) && s.thread.Idle? && s.frameBlks == f && s.queued == Slot(s.cons) && HeldInv(s)
  }

  /** One frame that fits raises the level by its length. */
  lemma FrameRaisesLevel(s: Ring, frame: seq<Block>, rxTs: uint32)
    requires Ready(s, |frame|) && 1 <= |frame| && Level(s) + |frame| <= |s.fifo|
    ensures var r := Run(s, FrameEvents(frame, rxTs));
            SafeRun(s, FrameEvents(frame, rxTs)) && Ready(r, |frame|) && |r.fifo| == |s.fifo| &&
            Level(r) == Level(s) + |frame| && r.cons == s.cons && r.playing == s.playing
  {
    var evs := FrameEvents(frame, rxTs);
    assert evs[1..] == Copies(|frame|) + [Publish];
    CopiesAreSafe(Step(s, evs[0]), |frame|);
    FrameMovesProducer(s, frame, rxTs);
    RunRefines(s, evs);
  }

  /** `m` copies of a frame, one after the other. */
  function Frames(frame: seq<Block>, rxTs: uint32, m: nat): seq<Event> {
    if m == 0 then [] else FrameEvents(frame, rxTs) + Frames(frame, rxTs, m - 1)
  }

  /** `m` times `f`. */
  function Times(m: nat, f: nat): nat {
    if m == 0 then 0 else f + Times(m - 1, f)
  }

  lemma {:induction false} FramesRaiseLevel(s: Ring, frame: seq<Block>, rxTs: uint32, m: nat)
    requires Ready(s, |frame|) && 1 <= |frame| && Level(s) + Times(m, |frame|) <= |s.fifo|
    ensures var r := Run(s, Frames(frame, rxTs, m));
            SafeRun(s, Frames(frame, rxTs, m)) && Ready(r, |frame|) && |r.fifo| == |s.fifo| &&
            Level(r) == Level(s) + Times(m, |frame|) && r.cons == s.cons && r.playing == s.playing
    decreases m
  {
    if m == 0 {
    } else {
      var one, rest := FrameEvents(frame, rxTs), Frames(frame, rxTs, m - 1);
      FrameRaisesLevel(s, frame, rxTs);
      FramesRaiseLevel(Run(s, one), frame, rxTs, m - 1);
      RunSplit(s, one, rest);
      SafeSplit(s, one, rest);
    }
  }

  function Ticks(j: nat): (evs: seq<Event>)
    ensures |evs| == j && forall i | 0 <= i < j :: evs[i] == I2s(0)
  {
    seq(j, _ => I2s(0))
  }

  /** One interrupt that finds a block. */
  lemma TickLowersLevel(s: Ring, f: nat)
    requires Ready(s, f) && Level(s) >= 2
    ensures var r := Step(s, I2s(0));
            Ready(r, f) && |r.fifo| == |s.fifo| && Level(r) == Level(s) - 1 &&
            r.playing == Slot(PrevIdx(|r.fifo|, r.cons))
  {
    I2sRefines(s, 0);
  }

  lemma {:induction false} TicksLowerLevel(s: Ring, f: nat, j: nat)
    requires Ready(s, f) && 1 <= j < Level(s)
    ensures var r := Run(s, Ticks(j));
            SafeRun(s, Ticks(j)) && Ready(r, f) && |r.fifo| == |s.fifo| && Level(r) == Level(s) - j &&
            r.playing == Slot(PrevIdx(|r.fifo|, r.cons))
    decreases j
  {
    TickLowersLevel(s, f);
    assert Ticks(j)[1..] == Ticks(j - 1);
    if j == 1 {
      assert Run(Step(s, I2s(0)), Ticks(0)) == Step(s, I2s(0));
    } else {
      TicksLowerLevel(Step(s, I2s(0)), f, j - 1);
    }
  }

  /** `x` is `j` short of the next multiple of `f`. */
  lemma {:induction false} UpToMultiple(x: nat, f: nat) returns (m: nat, j: nat)
    requires f >= 1
    ensures x + j == Times(m, f) && 1 <= j <= f && m >= 1 && (x >= f ==> m >= 2)
    decreases x
  {
    if x < f {
      m, j := 1, f - x;
      assert Times(1, f) == f + Times(0, f);
    } else {
      m, j := UpToMultiple(x - f, f);
      m := m + 1;
    }
  }

  lemma SafeThen(s: Ring, a: seq<Event>, b: seq<Event>)
    requires Shape(s) && SafeRun(s, a) && SafeRun(Run(s, a), b)
    ensures SafeRun(s, a + b) && Run(s, a + b) == Run(Run(s, a), b)
  {
    RunSplit(s, a, b);
    SafeSplit(s, a, b);
  }

  /** From the start, one frame and `j` interrupts. */
  lemma FrameAndTicks(n: nat, frame: seq<Block>, rxTs: uint32, j: nat) returns (evs: seq<Event>)
    requires 1 <= |frame| && |frame| + 2 <= n && 1 <= j <= |frame|
    ensures var s := Start(n, |frame|); var r := Run(s, evs);
            SafeRun(s, evs) && Ready(r, |frame|) && |r.fifo| == n && Level(r) == 2 + |frame| - j &&
            r.playing == Slot(PrevIdx(n, r.cons))
  {
    var s := Start(n, |frame|);
    StartPlayInv(n, |frame|);
    FrameRaisesLevel(s, frame, rxTs);
    TicksLowerLevel(Run(s, FrameEvents(frame, rxTs)), |frame|, j);
    SafeThen(s, FrameEvents(frame, rxTs), Ticks(j));
    evs := FrameEvents(frame, rxTs) + Ticks(j);
  }

  /**
   From the start, a frame, interrupts and further frames lead without breaking a rule to a state with
   room for one more frame and nothing else, I2S playing the slot before the consumer's.
   */
  lemma BrinkIsReached(n: nat, frame: seq<Block>, rxTs: uint32) returns (evs: seq<Event>)
    requires 1 <= |frame| && |frame| + 2 <= n
    ensures var s := Start(n, |frame|); var r := Run(s, evs);
            SafeRun(s, evs) && Ready(r, |frame|) && |r.fifo| == n && Level(r) + |frame| == n &&
            r.playing == Slot(PrevIdx(n, r.cons))
  {
    var s, f := Start(n, |frame|), |frame|;
    var m, j := UpToMultiple(n - 2, f);
    assert Times(m, f) == f + Times(m - 1, f) && Times(m - 1, f) == f + Times(m - 2, f);
    var first := FrameAndTicks(n, frame, rxTs, j);
    var more := Frames(frame, rxTs, m - 2);
    FramesRaiseLevel(Run(s, first), frame, rxTs, m - 2);
    SafeThen(s, first, more);
    evs := first + more;
  }

  /** One frame more and the ring is full: producer and consumer index are equal. */
  lemma FullRingIsReached(n: nat, frame: seq<Block>, rxTs: uint32) returns (evs: seq<Event>)
    requires 1 <= |frame| && |frame| + 2 <= n
    ensures var s := Start(n, |frame|); var r := Run(s, evs);
            SafeRun(s, evs) && Ready(r, |frame|) && |r.fifo| == n && r.prod == r.cons
  {
    var s := Start(n, |frame|);
    var brink := BrinkIsReached(n, frame, rxTs);
    var r := Run(s, brink);
    FrameRaisesLevel(r, frame, rxTs);
    RunSplit(s, brink, FrameEvents(frame, rxTs));
    SafeSplit(s, brink, FrameEvents(frame, rxTs));
    evs := brink + FrameEvents(frame, rxTs);
  }

  /**
   For the headset's ring of 120 blocks, or any other: a run that keeps every rule, then one frame, which
   the fill check lets in; of the `n - 1` unread blocks and the new ones all but `|frame| - 1` are gone.
   */
  lemma FrameLossHappens(n: nat, frame: seq<Block>, rxTs: uint32) returns (evs: seq<Event>)
    requires 1 <= |frame| && |frame| + 2 <= n
    ensures var s := Start(n, |frame|); var r := Run(s, evs);
            SafeRun(s, evs) && Accepts(r, frame) && |Queue(r)| == n - 1 &&
            |Queue(Run(r, FrameEvents(frame, rxTs)))| == |frame| - 1
  {
    evs := FullRingIsReached(n, frame, rxTs);
    FrameAtFullLosesRing(Run(Start(n, |frame|), evs), frame, rxTs);
  }

  /** Likewise a run after which the last block of an accepted frame overwrites the one being played. */
  lemma OverwriteHappens(n: nat, frame: seq<Block>, rxTs: uint32) returns (evs: seq<Event>)
    requires 1 <= |frame| && |frame| + 2 <= n
    ensures var s := Start(n, |frame|); var r := Run(s, evs);
            var copied := Run(r, [FrameArrives(frame, rxTs)] + Copies(|frame|));
            SafeRun(s, evs) && Safe(r, FrameArrives(frame, rxTs)) && Accepts(r, frame) &&
            copied.playing == r.playing && Content(copied, r.playing) == frame[|frame| - 1]
  {
    evs := BrinkIsReached(n, frame, rxTs);
    LastBlockOverwritesPlaying(Run(Start(n, |frame|), evs), frame, rxTs);
  }

  /** And one after which a single inserted block silences the queued slot and loses the ring. */
  lemma InsertionLossHappens(n: nat, frame: seq<Block>, rxTs: uint32, ts: uint32)
    returns (evs: seq<Event>)
    requires 1 <= |frame| && |frame| + 2 <= n
    ensures var s := Start(n, |frame|); var r := Run(s, evs); var muted := Step(r, Mute(ts));
            SafeRun(s, evs) && |Queue(r)| == n - 1 && r.queued.Slot? &&
            Content(muted, r.queued) == Silence() && Queue(Step(muted, Advance)) == []
  {
    evs := FullRingIsReached(n, frame, rxTs);
    InsertAtFullLosesRing(Run(Start(n, |frame|), evs), ts);
  }
}
