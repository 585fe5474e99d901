/**
 Where the ring stops being a faithful FIFO, stated exactly, and what still holds up to there.
 */
module AudioRingLimits {
  import opened CInt
  import opened Common
  import opened AudioRing

  /* ---------- the full ring ---------- */

  /**
   The fill check decides correctly whether a frame fits if and only if the indices differ: a full
   ring has equal indices, counts as empty, and lets the frame in.
   */
  lemma FillCheckExact(s: Ring, frame: seq<Block>)
    requires Shape(s) && |frame| == s.frameBlks && 1 <= s.frameBlks <= |s.fifo|
    ensures (Accepts(s, frame) <==> Level(s) + s.frameBlks <= |s.fifo|) <==> s.prod != s.cons
  {
  }

  function Copies(k: nat): (evs: seq<Event>)
    ensures |evs| == k
    ensures forall i | 0 <= i < k :: evs[i] == CopyBlock
  {
    seq(k, _ => CopyBlock)
  }

  /** Copying without interruption moves nothing but the copying thread. */
  lemma {:induction false} CopyRun(s: Ring)
    requires Shape(s) && !s.halted && s.thread.Copying?
    requires |s.thread.frame| - s.thread.i < |s.fifo|
    ensures var t := s.thread;
            var k := |t.frame| - t.i;
            var r := Run(s, Copies(k));
            r == s.(fifo := r.fifo, ts := r.ts,
                    thread := Copying(t.frame, t.rxTs, |t.frame|, At(|s.fifo|, t.outIdx, k)))
    decreases |s.thread.frame| - s.thread.i
  {
    var k := |s.thread.frame| - s.thread.i;
    if k == 0 {
    } else {
      var s' := Step(s, CopyBlock);
      assert Copies(k)[1..] == Copies(k - 1);
      assert Run(s, Copies(k)) == Run(s', Copies(k - 1));
      assert At(|s.fifo|, s'.thread.outIdx, k - 1) == At(|s.fifo|, s.thread.outIdx, k);
      CopyRun(s');
    }
  }

  /** The last block copied is in the last slot passed. */
  lemma {:induction false} CopyRunLast(s: Ring)
    requires Shape(s) && !s.halted && s.thread.Copying? && s.thread.i < |s.thread.frame|
    requires |s.thread.frame| - s.thread.i < |s.fifo|
    ensures var t := s.thread;
            var k := |t.frame| - t.i;
            Run(s, Copies(k)).fifo[At(|s.fifo|, t.outIdx, k - 1)] == t.frame[|t.frame| - 1]
    decreases |s.thread.frame| - s.thread.i
  {
    var k := |s.thread.frame| - s.thread.i;
    var s' := Step(s, CopyBlock);
    assert Copies(k)[1..] == Copies(k - 1);
    assert Run(s, Copies(k)) == Run(s', Copies(k - 1));
    if k == 1 {
      assert Run(s', Copies(0)) == s';
    } else {
      assert At(|s.fifo|, s'.thread.outIdx, k - 2) == At(|s.fifo|, s.thread.outIdx, k - 1);
      CopyRunLast(s');
    }
  }

  /** The thread's work on one frame, uninterrupted. */
  function FrameEvents(frame: seq<Block>, rxTs: uint32): seq<Event> {
    [FrameArrives(frame, rxTs)] + Copies(|frame|) + [Publish]
  }

  lemma {:induction false} RunSplit(s: Ring, a: seq<Event>, b: seq<Event>)
    requires Shape(s)
    ensures Run(s, a + b) == Run(Run(s, a), b)
    decreases |a|
  {
    if a == [] {
      assert a + b == b;
    } else {
      assert (a + b)[1..] == a[1..] + b;
      RunSplit(Step(s, a[0]), a[1..], b);
    }
  }

  lemma {:induction false} SafeSplit(s: Ring, a: seq<Event>, b: seq<Event>)
    requires Shape(s)
    ensures SafeRun(s, a + b) <==> SafeRun(s, a) && SafeRun(Run(s, a), b)
    decreases |a|
  {
    if a == [] {
      assert a + b == b;
    } else {
      assert (a + b)[1..] == a[1..] + b;
      SafeSplit(Step(s, a[0]), a[1..], b);
    }
  }

  lemma RunOne(s: Ring, e: Event)
    requires Shape(s)
    ensures Run(s, [e]) == Step(s, e)
  {
    assert Run(Step(s, e), [e][1..]) == Step(s, e);
  }

  lemma FrameRun(s: Ring, frame: seq<Block>, rxTs: uint32)
    requires Shape(s)
    ensures var s1 := Step(s, FrameArrives(frame, rxTs));
            Run(s, FrameEvents(frame, rxTs)) == Step(Run(s1, Copies(|frame|)), Publish)
  {
    var arrive := [FrameArrives(frame, rxTs)];
    RunSplit(s, arrive + Copies(|frame|), [Publish]);
    RunSplit(s, arrive, Copies(|frame|));
    RunOne(s, arrive[0]);
    RunOne(Run(s, arrive + Copies(|frame|)), Publish);
  }

  /** An accepted frame moves the producer index by exactly the frame's length around the ring. */
  lemma FrameMovesProducer(s: Ring, frame: seq<Block>, rxTs: uint32)
    requires Shape(s) && !s.halted && s.thread.Idle? && Accepts(s, frame) && |frame| < |s.fifo|
    ensures var r := Run(s, FrameEvents(frame, rxTs));
            r == s.(fifo := r.fifo, ts := r.ts, prod := At(|s.fifo|, s.prod, |frame|))
  {
    CopyRun(Step(s, FrameArrives(frame, rxTs)));
    FrameRun(s, frame, rxTs);
  }

  /** A frame fills the ring up exactly when it finds room for itself and nothing else. */
  lemma FrameFillsRing(s: Ring, frame: seq<Block>, rxTs: uint32)
    requires Inv(s) && s.thread.Idle? && s.prod != s.cons
    requires Accepts(s, frame) && 1 <= |frame| < |s.fifo|
    ensures var r := Run(s, FrameEvents(frame, rxTs));
            r.prod == r.cons <==> FilledBlocks(|s.fifo|, s.prod, s.cons) + |frame| == |s.fifo|
  {
    FrameMovesProducer(s, frame, rxTs);
  }

  /**
   A frame that arrives while the ring is full wipes it: of the `n - 1` unread blocks and the `f` new
   ones, `f - 1` are left to play.
   */
  lemma FrameAtFullLosesRing(s: Ring, frame: seq<Block>, rxTs: uint32)
    requires Inv(s) && s.thread.Idle? && s.prod == s.cons
    requires |frame| == s.frameBlks && 1 <= |frame| < |s.fifo|
    ensures var r := Run(s, FrameEvents(frame, rxTs));
            |Queue(s)| == |s.fifo| - 1 && |Queue(r)| == |frame| - 1
  {
    FrameMovesProducer(s, frame, rxTs);
  }

  /* ---------- what I2S plays ---------- */

  /** What a transmit buffer holds; alternate buffers are muted when they are given out. */
  function Content(s: Ring, b: Buf): Block {
    if b.Slot? && b.idx < |s.fifo| then s.fifo[b.idx] else Silence()
  }

  function HeldBlocks(s: Ring): seq<Block> {
    [Content(s, s.playing), Content(s, s.queued)]
  }

  /** I2S holds the consumer's slot, the one before it, or (before the first interrupt) the next. */
  ghost predicate HeldInv(s: Ring)
    requires Shape(s)
  {
    var n := |s.fifo|;
    (s.queued.Slot? ==> s.queued.idx == s.cons) &&
    (s.playing.Slot? ==>
      s.playing.idx == s.cons || s.playing.idx == PrevIdx(n, s.cons) ||
      (s.playing.idx == NextIdx(n, s.cons) && Level(s) >= 2))
  }

  /**
   A copied block never lands in the queued buffer, and it lands in the buffer being played exactly
   when I2S still plays the slot before the consumer's and the ring is full but for that slot.
   */
  lemma CopyHitsPlaying(s: Ring)
    requires Inv(s) && HeldInv(s)
    requires s.thread.Copying? && s.thread.i < |s.thread.frame|
    ensures s.queued != Slot(s.thread.outIdx)
    ensures s.playing == Slot(s.thread.outIdx) <==>
            s.playing == Slot(PrevIdx(|s.fifo|, s.cons)) &&
            Level(s) + s.thread.i == |s.fifo| - 1
  {
    assert s.thread.outIdx == At(|s.fifo|, s.cons, Level(s) + s.thread.i);
  }

  /** Leaves at least one slot free beyond what a step claims. */
  predicate Spare(s: Ring, e: Event)
    requires Shape(s)
  {
    var n := |s.fifo|;
    match e
    case FrameArrives(_, _) => FilledBlocks(n, s.prod, s.cons) + s.frameBlks != n
    case Mute(_) => NextIdx(n, s.prod) != s.cons
    case Retreat =>
      s.playing == Slot(NextIdx(n, s.cons)) ==> NextIdx(n, NextIdx(n, s.cons)) != s.prod
    case _ => true
  }

  ghost predicate SpareRun(s: Ring, evs: seq<Event>)
    requires Shape(s)
    decreases |evs|
  {
    evs == [] || (Safe(s, evs[0]) && Spare(s, evs[0]) && SpareRun(Step(s, evs[0]), evs[1..]))
  }

  ghost predicate PlayInv(s: Ring) {
    Inv(s) && HeldInv(s) &&
    (s.thread.Copying? ==> Level(s) + |s.thread.frame| < |s.fifo|) &&
    (s.thread.Muted? ==> Level(s) + 1 < |s.fifo|)
  }

  /** Thread steps other than copying leave the held buffers and what is known of them. */
  lemma ThreadKeepsHeld(s: Ring, e: Event)
    requires PlayInv(s) && Safe(s, e) && Spare(s, e) && !e.I2s? && !e.CopyBlock?
    ensures var r := Step(s, e);
            HeldInv(r) && r.playing == s.playing && r.queued == s.queued &&
            Content(r, r.playing) == Content(s, s.playing) &&
            Content(r, r.queued) == Content(s, s.queued)
  {
  }

  lemma CopyKeepsHeld(s: Ring)
    requires PlayInv(s)
    ensures var r := Step(s, CopyBlock);
            HeldInv(r) && r.playing == s.playing && r.queued == s.queued &&
            Content(r, r.playing) == Content(s, s.playing) &&
            Content(r, r.queued) == Content(s, s.queued)
  {
    if s.thread.Copying? && s.thread.i < |s.thread.frame| {
      CopyHitsPlaying(s);
    }
  }

  lemma ThreadKeepsSpare(s: Ring, e: Event)
    requires PlayInv(s) && Safe(s, e) && Spare(s, e) && !e.I2s?
    ensures var r := Step(s, e);
            (r.thread.Copying? ==> Level(r) + |r.thread.frame| < |r.fifo|) &&
            (r.thread.Muted? ==> Level(r) + 1 < |r.fifo|)
  {
  }

  /** Thread steps leave both buffers I2S holds as they are. */
  lemma ThreadLeavesHeld(s: Ring, e: Event)
    requires PlayInv(s) && Safe(s, e) && Spare(s, e) && !e.I2s?
    ensures var r := Step(s, e);
            PlayInv(r) && HeldBlocks(r) == HeldBlocks(s)
  {
    StepRefines(s, e);
    ThreadKeepsSpare(s, e);
    if e.CopyBlock? {
      CopyKeepsHeld(s);
    } else {
      ThreadKeepsHeld(s, e);
    }
  }

  lemma I2sKeepsHeld(s: Ring, t: uint32)
    requires Shape(s) && HeldInv(s) && !s.halted && !Step(s, I2s(t)).halted
    ensures var r := Step(s, I2s(t));
            HeldInv(r) && r.playing == s.queued && r.fifo == s.fifo && r.thread == s.thread &&
            Level(r) <= Level(s)
  {
  }

  lemma I2sPassesOn(s: Ring, t: uint32)
    requires PlayInv(s)
    ensures var r := Step(s, I2s(t));
            PlayInv(r) && r.playing == s.queued && Content(r, r.playing) == Content(s, s.queued)
  {
    I2sRefines(s, t);
    I2sKeepsHeld(s, t);
  }

  /** The buffers the interrupts give to I2S, as they are then. */
  function GivenBy(s: Ring, evs: seq<Event>): seq<Block>
    requires Shape(s)
    decreases |evs|
  {
    if evs == [] then []
    else
      var r := Step(s, evs[0]);
      (if evs[0].I2s? then [Content(r, r.queued)] else []) + GivenBy(r, evs[1..])
  }

  /** The buffers I2S gives back, as they are then: what has been played. */
  function PlayedBy(s: Ring, evs: seq<Event>): seq<Block>
    requires Shape(s)
    decreases |evs|
  {
    if evs == [] then []
    else
      (if evs[0].I2s? then [Content(s, s.playing)] else []) + PlayedBy(Step(s, evs[0]), evs[1..])
  }

  /**
   No block is overwritten while I2S holds it: along every run that leaves a slot spare, the blocks
   come back from I2S as they were given, in the same order.
   */
  lemma {:induction false} PlayedAsGiven(s: Ring, evs: seq<Event>)
    requires PlayInv(s) && SpareRun(s, evs)
    ensures HeldBlocks(s) + GivenBy(s, evs) == PlayedBy(s, evs) + HeldBlocks(Run(s, evs))
    decreases |evs|
  {
    if evs == [] {
    } else {
      var r := Step(s, evs[0]);
      match evs[0] {
        case I2s(t) =>
          I2sPassesOn(s, t);
          PlayedAsGiven(r, evs[1..]);
          var given, back := [Content(r, r.queued)], [Content(s, s.playing)];
          assert HeldBlocks(s) + given == back + HeldBlocks(r);
          Assoc(HeldBlocks(s), given, GivenBy(r, evs[1..]));
          Assoc(back, HeldBlocks(r), GivenBy(r, evs[1..]));
          Assoc(back, PlayedBy(r, evs[1..]), HeldBlocks(Run(s, evs)));
        case _ =>
          ThreadLeavesHeld(s, evs[0]);
          PlayedAsGiven(r, evs[1..]);
          assert GivenBy(s, evs) == GivenBy(r, evs[1..]);
          assert PlayedBy(s, evs) == PlayedBy(r, evs[1..]);
      }
    }
  }

  /** The start state is one to which `PlayedAsGiven` applies. */
  lemma StartPlayInv(n: nat, frameBlks: nat)
    requires n >= 2
    ensures PlayInv(Start(n, frameBlks))
  {
    StartInv(n, frameBlks);
  }

  /** A whole frame copied up to the consumer ends in the slot before the consumer's. */
  lemma LastBlockLandsBefore(s: Ring)
    requires Shape(s) && !s.halted && s.thread.Copying? && s.thread.i == 0
    requires 1 <= |s.thread.frame| < |s.fifo| && s.prod != s.cons && s.thread.outIdx == s.prod
    requires FilledBlocks(|s.fifo|, s.prod, s.cons) + |s.thread.frame| == |s.fifo|
    ensures var r := Run(s, Copies(|s.thread.frame|));
            r.playing == s.playing && r.cons == s.cons && |r.fifo| == |s.fifo| &&
            r.fifo[PrevIdx(|s.fifo|, s.cons)] == s.thread.frame[|s.thread.frame| - 1]
  {
    CopyRun(s);
    CopyRunLast(s);
    assert At(|s.fifo|, s.prod, |s.thread.frame| - 1) == PrevIdx(|s.fifo|, s.cons);
  }

  /**
   Without the spare slot it fails: a frame accepted at the last moment the check allows puts its
   last block into the slot I2S is playing.
   */
  lemma LastBlockOverwritesPlaying(s: Ring, frame: seq<Block>, rxTs: uint32)
    requires Inv(s) && HeldInv(s) && s.thread.Idle? && s.prod != s.cons
    requires 1 <= |frame| == s.frameBlks
    requires FilledBlocks(|s.fifo|, s.prod, s.cons) + |frame| == |s.fifo|
    requires s.playing == Slot(PrevIdx(|s.fifo|, s.cons))
    ensures var r := Run(s, [FrameArrives(frame, rxTs)] + Copies(|frame|));
            Safe(s, FrameArrives(frame, rxTs)) &&
            r.playing == s.playing && Content(r, r.playing) == frame[|frame| - 1]
  {
    var s1 := Step(s, FrameArrives(frame, rxTs));
    LastBlockLandsBefore(s1);
    RunSplit(s, [FrameArrives(frame, rxTs)], Copies(|frame|));
    RunOne(s, FrameArrives(frame, rxTs));
  }
}
