/**
 The timestamps that presentation compensation and the frame that follows it leave in `prod_blk_ts`.
 */
module AudioStamps {
  import opened CInt
  import opened Common
  import opened AudioRing
  import opened AudioRingLimits
  import opened AudioCompensation

  /** The thread's steps for a frame that is accepted, or refused. */
  function OfferEvents(frame: seq<Block>, rxTs: uint32, accepted: bool): seq<Event> {
    if accepted then FrameEvents(frame, rxTs) else [FrameArrives(frame, rxTs)]
  }

  /** The first frame that arrives in the run is accepted, at the fill level it finds then. */
  predicate FrameGetsIn(s: Ring, evs: seq<Event>)
    requires Shape(s)
    decreases |evs|
  {
    evs != [] &&
    if evs[0].FrameArrives? then s.thread.Idle? && Accepts(s, evs[0].frame)
    else FrameGetsIn(Step(s, evs[0]), evs[1..])
  }

  /**
   What is left of inserting blocks `i` to `k - 1` and then offering the frame; the thread may be about
   to pass block `i`.
   */
  ghost predicate Scripted(s: Ring, evs: seq<Event>, i: nat, k: nat, frame: seq<Block>, recvTs: uint32)
    requires Shape(s)
  {
    var offer := OfferEvents(frame, recvTs, FrameGetsIn(s, evs));
    i <= k &&
    match s.thread
    case Idle => ThreadPart(evs) == Inserts(i, k, recvTs) + offer
    case Muted => i < k && ThreadPart(evs) == [Advance] + Inserts(i + 1, k, recvTs) + offer
    case _ => false
  }

  /** The blocks the thread writes in such a run. */
  function Written(k: nat, frame: seq<Block>, accepted: bool): nat {
    k + if accepted then |frame| else 0
  }

  /** Slots from `from` on, `m` of them, are stamped one block period apart, the first `first` periods after. */
  ghost predicate Stamped(ts: seq<uint32>, from: nat, m: nat, recvTs: uint32, first: int)
    requires from < |ts| && m < |ts|
  {
    forall j: nat | j < m :: ts[At(|ts|, from, j)] == U32(recvTs + (first + j) * BLK_PERIOD_US)
  }

  /** The other slots keep their stamps. */
  ghost predicate OthersKept(before: seq<uint32>, after: seq<uint32>, from: nat, m: nat)
    requires |before| == |after| && from < |before| && m < |before|
  {
    forall j: nat | m <= j < |before| ::
      after[At(|before|, from, j)] == before[At(|before|, from, j)]
  }

  lemma I2sKeepsStamps(s: Ring, e: Event)
    requires Shape(s) && AltInv(s) && e.I2s?
    ensures var r := Step(s, e);
            AltInv(r) && r.thread == s.thread && r.ts == s.ts && r.prod == s.prod
  {
    AltStep(s, e);
  }

  /** One slot more in front of a stamped stretch. */
  lemma StampedCons(
    before: seq<uint32>, mid: seq<uint32>, after: seq<uint32>, from: nat, m: nat,
    recvTs: uint32, first: int)
    requires |before| == |mid| == |after| && from < |before| && m + 1 < |before|
    requires mid == before[from := U32(recvTs + first * BLK_PERIOD_US)]
    requires Stamped(after, At(|before|, from, 1), m, recvTs, first + 1)
    requires OthersKept(mid, after, At(|before|, from, 1), m)
    ensures Stamped(after, from, m + 1, recvTs, first)
    ensures OthersKept(before, after, from, m + 1)
  {
    var n := |before|;
    var next := At(n, from, 1);
    forall j: nat | j < m + 1
      ensures after[At(n, from, j)] == U32(recvTs + (first + j) * BLK_PERIOD_US)
    {
      if j == 0 {
        assert At(n, next, n - 1) == from;
      } else {
        assert At(n, from, j) == At(n, next, j - 1);
        assert first + 1 + (j - 1) == first + j;
      }
    }
    forall j: nat | m + 1 <= j < n
      ensures after[At(n, from, j)] == before[At(n, from, j)]
    {
      assert At(n, from, j) == At(n, next, j - 1);
    }
  }

  /** A run of interrupts alone leaves the stamps. */
  lemma {:induction false} InterruptsKeepStamps(s: Ring, evs: seq<Event>)
    requires Shape(s) && AltInv(s) && ThreadPart(evs) == []
    ensures var r := Run(s, evs); r.ts == s.ts && r.prod == s.prod && r.thread == s.thread
    decreases |evs|
  {
    if evs == [] {
    } else {
      ThreadPartHead(evs);
      I2sKeepsStamps(s, evs[0]);
      InterruptsKeepStamps(Step(s, evs[0]), evs[1..]);
    }
  }

  /** The rest of the frame in hand is copied, stamped and published. */
  ghost predicate CopyDone(s: Ring, r: Ring)
    requires Shape(s) && Shape(r) && SameRing(s, r) && s.thread.Copying?
    requires |s.thread.frame| - s.thread.i < |s.fifo|
  {
    var t := s.thread; var m := |t.frame| - t.i;
    r.thread == Idle && r.prod == At(|s.fifo|, t.outIdx, m) &&
    Stamped(r.ts, t.outIdx, m, t.rxTs, t.i) && OthersKept(s.ts, r.ts, t.outIdx, m)
  }

  lemma CopyDoneAfterI2s(s: Ring, e: Event, r: Ring)
    requires Shape(s) && AltInv(s) && e.I2s? && s.thread.Copying?
    requires Shape(r) && SameRing(s, r) && |s.thread.frame| - s.thread.i < |s.fifo|
    requires Step(s, e).thread == s.thread && CopyDone(Step(s, e), r)
    ensures CopyDone(s, r)
  {
    I2sKeepsStamps(s, e);
  }

  lemma CopyDoneAfterBlock(s: Ring, r: Ring)
    requires Shape(s) && s.thread.Copying? && s.thread.i < |s.thread.frame|
    requires Shape(r) && SameRing(s, r) && |s.thread.frame| - s.thread.i < |s.fifo|
    requires CopyDone(CopyStep(s), r)
    ensures CopyDone(s, r)
  {
    var t := s.thread;
    StampedCons(s.ts, CopyStep(s).ts, r.ts, t.outIdx, |t.frame| - t.i - 1, t.rxTs, t.i);
  }

  lemma CopiesHead(m: nat)
    requires m > 0
    ensures (Copies(m) + [Publish])[0] == CopyBlock
    ensures (Copies(m) + [Publish])[1..] == Copies(m - 1) + [Publish]
  {
    assert Copies(m)[1..] == Copies(m - 1);
  }

  /** The rest of copying a frame, interrupts in between. */
  lemma {:induction false} CopyingStamps(s: Ring, evs: seq<Event>)
    requires Shape(s) && AltInv(s) && s.thread.Copying?
    requires ThreadPart(evs) == Copies(|s.thread.frame| - s.thread.i) + [Publish]
    requires |s.thread.frame| - s.thread.i < |s.fifo|
    ensures CopyDone(s, Run(s, evs))
    decreases |evs|
  {
    var m := |s.thread.frame| - s.thread.i;
    var r := Step(s, evs[0]);
    ThreadPartHead(evs);
    if evs[0].I2s? {
      I2sKeepsStamps(s, evs[0]);
      CopyingStamps(r, evs[1..]);
      CopyDoneAfterI2s(s, evs[0], Run(s, evs));
    } else if m > 0 {
      CopiesHead(m);
      CopyingStamps(r, evs[1..]);
      CopyDoneAfterBlock(s, Run(s, evs));
    } else {
      assert Copies(m) + [Publish] == [Publish];
      InterruptsKeepStamps(r, evs[1..]);
    }
  }

  /** The frame itself. */
  lemma {:induction false} OfferStamps(s: Ring, evs: seq<Event>, frame: seq<Block>, recvTs: uint32)
    requires Shape(s) && AltInv(s) && s.thread.Idle?
    requires ThreadPart(evs) == OfferEvents(frame, recvTs, FrameGetsIn(s, evs))
    requires Written(0, frame, FrameGetsIn(s, evs)) < |s.fifo|
    ensures var m := Written(0, frame, FrameGetsIn(s, evs)); var r := Run(s, evs);
            r.thread == Idle && r.prod == At(|s.fifo|, s.prod, m) &&
            Stamped(r.ts, s.prod, m, recvTs, 0) && OthersKept(s.ts, r.ts, s.prod, m)
    decreases |evs|
  {
    ThreadPartHead(evs);
    var r := Step(s, evs[0]);
    if evs[0].I2s? {
      I2sKeepsStamps(s, evs[0]);
      OfferStamps(r, evs[1..], frame, recvTs);
    } else if FrameGetsIn(s, evs) {
      assert FrameEvents(frame, recvTs)[1..] == Copies(|frame|) + [Publish];
      CopyingStamps(r, evs[1..]);
    } else {
      InterruptsKeepStamps(r, evs[1..]);
    }
  }

  /* ---------- the script, step by step ---------- */

  lemma ScriptedI2s(s: Ring, evs: seq<Event>, i: nat, k: nat, frame: seq<Block>, recvTs: uint32)
    requires Shape(s) && AltInv(s) && Scripted(s, evs, i, k, frame, recvTs)
    requires evs != [] && evs[0].I2s?
    ensures var r := Step(s, evs[0]);
            AltInv(r) && Scripted(r, evs[1..], i, k, frame, recvTs) &&
            r.ts == s.ts && r.prod == s.prod && r.thread == s.thread &&
            FrameGetsIn(r, evs[1..]) == FrameGetsIn(s, evs)
  {
    ThreadPartHead(evs);
    I2sKeepsStamps(s, evs[0]);
  }

  lemma InsertsHead(i: nat, k: nat, recvTs: uint32, rest: seq<Event>)
    requires i < k
    ensures var all := Inserts(i, k, recvTs) + rest;
            all[0] == Mute(U32(recvTs + (i - k) * BLK_PERIOD_US)) &&
            all[1..] == [Advance] + Inserts(i + 1, k, recvTs) + rest
  {
    var mute := Mute(U32(recvTs - (k - i) * BLK_PERIOD_US));
    var more := Inserts(i + 1, k, recvTs);
    assert Inserts(i, k, recvTs) == [mute, Advance] + more;
    assert ([mute, Advance] + more + rest)[1..] == [Advance] + more + rest;
  }

  lemma ScriptedMute(s: Ring, evs: seq<Event>, i: nat, k: nat, frame: seq<Block>, recvTs: uint32)
    requires Shape(s) && AltInv(s) && Scripted(s, evs, i, k, frame, recvTs)
    requires evs != [] && !evs[0].I2s? && s.thread.Idle? && i < k
    ensures var r := Step(s, evs[0]);
            AltInv(r) && Scripted(r, evs[1..], i, k, frame, recvTs) && r.thread == Muted &&
            r.ts == s.ts[s.prod := U32(recvTs + (i - k) * BLK_PERIOD_US)] && r.prod == s.prod &&
            FrameGetsIn(r, evs[1..]) == FrameGetsIn(s, evs)
  {
    ThreadPartHead(evs);
    InsertsHead(i, k, recvTs, OfferEvents(frame, recvTs, FrameGetsIn(s, evs)));
  }

  lemma ScriptedAdvance(s: Ring, evs: seq<Event>, i: nat, k: nat, frame: seq<Block>, recvTs: uint32)
    requires Shape(s) && AltInv(s) && Scripted(s, evs, i, k, frame, recvTs)
    requires evs != [] && !evs[0].I2s? && s.thread.Muted?
    ensures var r := Step(s, evs[0]);
            AltInv(r) && Scripted(r, evs[1..], i + 1, k, frame, recvTs) && r.thread == Idle &&
            r == s.(prod := At(|s.fifo|, s.prod, 1), thread := Idle) &&
            FrameGetsIn(r, evs[1..]) == FrameGetsIn(s, evs)
  {
    ThreadPartHead(evs);
    HeadAndRest(Advance, Inserts(i + 1, k, recvTs),
                OfferEvents(frame, recvTs, FrameGetsIn(s, evs)));
  }

  /** The stretch left to stamp, as the thread stands: a muted block has its stamp already. */
  ghost predicate StampsOk(
    s: Ring, r: Ring, i: nat, k: nat, frame: seq<Block>, recvTs: uint32, accepted: bool)
    requires Shape(s) && Shape(r) && |r.ts| == |s.ts| && i <= k
    requires Written(k - i, frame, accepted) < |s.fifo|
  {
    var m := Written(k - i, frame, accepted);
    r.thread == Idle && r.prod == At(|s.fifo|, s.prod, m) &&
    Stamped(r.ts, s.prod, m, recvTs, i - k) && OthersKept(s.ts, r.ts, s.prod, m)
  }

  /** The slot muted first belongs to the stretch. */
  lemma MuteThenRest(
    s: Ring, r: Ring, i: nat, k: nat, frame: seq<Block>, recvTs: uint32, accepted: bool)
    requires Shape(s) && Shape(r) && |r.ts| == |s.ts| && i < k
    requires Written(k - i, frame, accepted) < |s.fifo|
    requires var muted := s.(ts := s.ts[s.prod := U32(recvTs + (i - k) * BLK_PERIOD_US)]);
             StampsOk(muted, r, i, k, frame, recvTs, accepted)
    ensures StampsOk(s, r, i, k, frame, recvTs, accepted)
  {
    var n, muted := |s.ts|, s.ts[s.prod := U32(recvTs + (i - k) * BLK_PERIOD_US)];
    forall j: nat | Written(k - i, frame, accepted) <= j < n
      ensures r.ts[At(n, s.prod, j)] == s.ts[At(n, s.prod, j)]
    {
      assert At(n, s.prod, j) != s.prod;
      assert r.ts[At(n, s.prod, j)] == muted[At(n, s.prod, j)];
    }
  }

  /** The slot passed first has its stamp. */
  lemma AdvanceThenRest(
    s: Ring, r: Ring, i: nat, k: nat, frame: seq<Block>, recvTs: uint32, accepted: bool)
    requires Shape(s) && Shape(r) && |r.ts| == |s.ts| && i < k
    requires Written(k - i, frame, accepted) < |s.fifo|
    requires s.ts[s.prod] == U32(recvTs + (i - k) * BLK_PERIOD_US)
    requires var passed := s.(prod := At(|s.fifo|, s.prod, 1), thread := Idle);
             StampsOk(passed, r, i + 1, k, frame, recvTs, accepted)
    ensures StampsOk(s, r, i, k, frame, recvTs, accepted)
  {
    assert s.ts == s.ts[s.prod := s.ts[s.prod]];
    StampedCons(s.ts, s.ts, r.ts, s.prod, Written(k - i - 1, frame, accepted), recvTs, i - k);
  }

  /**
   Whatever interrupts come in between: of the `k - i` blocks a compensation inserts and, exactly when
   the frame is accepted as it arrives, the frame's blocks, the entries of `prod_blk_ts` read around the
   ring from the producer index on are one block period apart modulo 2^32, the first `k - i` periods
   before the frame's reception. The other entries stay, and the producer index is behind the last.
   */
  lemma {:induction false} StampsFormProgression(
    s: Ring, evs: seq<Event>, i: nat, k: nat, frame: seq<Block>, recvTs: uint32)
    requires Shape(s) && AltInv(s) && Scripted(s, evs, i, k, frame, recvTs)
    requires Written(k - i, frame, FrameGetsIn(s, evs)) < |s.fifo|
    requires s.thread.Muted? ==> s.ts[s.prod] == U32(recvTs + (i - k) * BLK_PERIOD_US)
    ensures StampsOk(s, Run(s, evs), i, k, frame, recvTs, FrameGetsIn(s, evs))
    decreases |evs|
  {
    var r := Step(s, evs[0]);
    var accepted := FrameGetsIn(s, evs);
    if evs[0].I2s? {
      ScriptedI2s(s, evs, i, k, frame, recvTs);
      StampsFormProgression(r, evs[1..], i, k, frame, recvTs);
    } else if s.thread.Muted? {
      ScriptedAdvance(s, evs, i, k, frame, recvTs);
      StampsFormProgression(r, evs[1..], i + 1, k, frame, recvTs);
      AdvanceThenRest(s, Run(s, evs), i, k, frame, recvTs, accepted);
    } else if i < k {
      ScriptedMute(s, evs, i, k, frame, recvTs);
      StampsFormProgression(r, evs[1..], i, k, frame, recvTs);
      MuteThenRest(s, Run(s, evs), i, k, frame, recvTs, accepted);
    } else {
      assert Inserts(i, k, recvTs) == [];
      assert Inserts(i, k, recvTs) + OfferEvents(frame, recvTs, accepted)
          == OfferEvents(frame, recvTs, accepted);
      OfferStamps(s, evs, frame, recvTs);
    }
  }

  predicate NoFrame(evs: seq<Event>) {
    forall i | 0 <= i < |evs| :: !evs[i].FrameArrives?
  }

  lemma {:induction false} InsertsHaveNoFrame(i: nat, k: nat, recvTs: uint32)
    requires i <= k
    ensures NoFrame(Inserts(i, k, recvTs))
    decreases k - i
  {
    if i == k {
    } else {
      InsertsHaveNoFrame(i + 1, k, recvTs);
    }
  }

  /** Whether the frame gets in is decided where it arrives. */
  lemma {:induction false} GetsInLater(s: Ring, a: seq<Event>, b: seq<Event>)
    requires Shape(s) && NoFrame(ThreadPart(a))
    ensures FrameGetsIn(s, a + b) == FrameGetsIn(Run(s, a), b)
    decreases |a|
  {
    if a == [] {
      assert a + b == b;
    } else {
      ThreadPartHead(a);
      assert !a[0].I2s? ==> ThreadPart(a)[0] == a[0];
      assert (a + b)[0] == a[0] && (a + b)[1..] == a[1..] + b;
      assert NoFrame(ThreadPart(a[1..]));
      GetsInLater(Step(s, a[0]), a[1..], b);
    }
  }
}
