/**
 The audio datapath as the firmware runs it: one control block updated in place by the stream-out
 thread and by the I2S interrupt. Each method is proved to do what the state machines of the other
 modules say, with interrupts allowed between any two iterations of the thread's loops.
 */
module AudioDatapath {
  import opened CInt
  import opened Common
  import opened AudioRing
  import opened AudioRingLimits
  import opened AudioCompensation
  import opened AudioStamps
  import P = PresentationComp
  import D = DriftComp
  import S = SduRef

  /** The interrupts at the given times. */
  function Irqs(times: seq<uint32>): (evs: seq<Event>)
    ensures |evs| == |times|
  {
    seq(|times|, i requires 0 <= i < |times| => I2s(times[i]))
  }

  /** The drift controller after interrupts at the given times, the SDU reference staying the same. */
  function DriftAfter(d: D.Drift, ref: uint32, times: seq<uint32>): D.Drift {
    if times == [] then d
    else D.DriftStep(DriftAfter(d, ref, times[..|times| - 1]), ref, times[|times| - 1])
  }

  lemma DriftOneMore(d: D.Drift, ref: uint32, times: seq<uint32>, t: uint32)
    ensures DriftAfter(d, ref, times + [t]) == D.DriftStep(DriftAfter(d, ref, times), ref, t)
  {
    assert (times + [t])[..|times|] == times;
  }

  lemma {:induction false} IrqsAreNotThread(times: seq<uint32>)
    ensures ThreadPart(Irqs(times)) == []
    decreases |times|
  {
    if times == [] {
    } else {
      assert Irqs(times)[1..] == Irqs(times[1..]);
      IrqsAreNotThread(times[1..]);
    }
  }

  lemma {:induction false} ThreadPartConcat(a: seq<Event>, b: seq<Event>)
    ensures ThreadPart(a + b) == ThreadPart(a) + ThreadPart(b)
    decreases |a|
  {
    if a == [] {
      assert a + b == b;
    } else {
      assert (a + b)[1..] == a[1..] + b;
      ThreadPartConcat(a[1..], b);
    }
  }

  /** Appending to a run. */
  lemma RunAppend(s: Ring, evs: seq<Event>, more: seq<Event>)
    requires Shape(s)
    ensures Run(s, evs + more) == Run(Run(s, evs), more)
    ensures ThreadPart(evs + more) == ThreadPart(evs) + ThreadPart(more)
  {
    RunSplit(s, evs, more);
    ThreadPartConcat(evs, more);
  }

  lemma RunAppendOne(s: Ring, evs: seq<Event>, e: Event)
    requires Shape(s)
    ensures Run(s, evs + [e]) == Step(Run(s, evs), e)
    ensures ThreadPart(evs + [e]) == ThreadPart(evs) + (if e.I2s? then [] else [e])
  {
    RunAppend(s, evs, [e]);
    RunOne(Run(s, evs), e);
  }

  lemma AppendAfterIrqs(s: Ring, times: seq<uint32>, evs: seq<Event>)
    requires Shape(s)
    ensures Run(s, Irqs(times) + evs) == Run(Run(s, Irqs(times)), evs)
    ensures ThreadPart(Irqs(times) + evs) == ThreadPart(evs)
  {
    RunAppend(s, Irqs(times), evs);
    IrqsAreNotThread(times);
  }

  lemma IrqsOneMore(times: seq<uint32>, i: nat)
    requires i < |times|
    ensures times[..i + 1] == times[..i] + [times[i]]
    ensures Irqs(times[..i + 1]) == Irqs(times[..i]) + [I2s(times[i])]
  {
  }

  /** What the presentation controller is given, after the interrupts before it. */
  function Measured(
    s: Ring, drift: D.Drift, presDelayUs: uint32, ref: uint32, notConsecutive: bool, rxTs: uint32,
    early: seq<uint32>): P.Input
    requires Shape(s)
  {
    P.Input(DriftAfter(drift, ref, early).state == D.Locked, notConsecutive,
            P.ErrUs(presDelayUs, rxTs, ref, Run(s, Irqs(early)).presDly))
  }

  /** The thread compensates by `k` blocks, then offers the frame to the ring as it then is. */
  ghost predicate Processed(
    s: Ring, before: seq<Event>, copy: seq<Event>, k: int, frame: seq<Block>, rxTs: uint32)
    requires Shape(s)
  {
    var met := Run(s, before);
    met.thread.Idle? && ThreadPart(before) == CompEvents(k, rxTs) &&
    copy != [] && copy[0] == FrameArrives(frame, rxTs) &&
    ThreadPart(copy) == OfferEvents(frame, rxTs, Accepts(met, frame))
  }

  /** The blocks written are stamped one period apart, the first inserted `k` periods before the frame. */
  ghost predicate InProgression(
    s: Ring, before: seq<Event>, copy: seq<Event>, k: int, frame: seq<Block>, rxTs: uint32)
    requires Shape(s)
  {
    k >= 0 && Written(k, frame, Accepts(Run(s, before), frame)) < |s.fifo| ==>
      Stamped(Run(s, before + copy).ts, s.prod,
              Written(k, frame, Accepts(Run(s, before), frame)), rxTs, -k)
  }

  /** What a compensation that inserts blocks and the frame after it leave in the stamps. */
  lemma OfferedStamps(
    s: Ring, before: seq<Event>, copy: seq<Event>, k: int, frame: seq<Block>, rxTs: uint32)
    requires Shape(s) && AltInv(s) && s.thread.Idle?
    requires Processed(s, before, copy, k, frame, rxTs)
    ensures InProgression(s, before, copy, k, frame, rxTs)
  {
    if k >= 0 && Written(k, frame, Accepts(Run(s, before), frame)) < |s.fifo| {
      InsertsHaveNoFrame(0, k, rxTs);
      GetsInLater(s, before, copy);
      ThreadPartConcat(before, copy);
      StampsFormProgression(s, before + copy, 0, k, frame, rxTs);
    }
  }

  /** The buffer that is queued once the played one is freed. */
  function Queued(s: Ring): Buf {
    var next := NextIdx(|s.fifo|, s.cons);
    if next != s.prod then Slot(next)
    else if !AltFree(s, s.playing).alt0InUse then Alt0 else Alt1
  }

  /** The interrupt step in one form for its three cases. */
  lemma ExchangeIsStep(s: Ring, t: uint32)
    requires Shape(s) && AltInv(s)
    ensures var f, next, buf := AltFree(s, s.playing), NextIdx(|s.fifo|, s.cons), Queued(s);
            !(f.alt0InUse && f.alt1InUse) &&
            Step(s, I2s(t))
            == f.(presDly := U32(t - s.ts[s.cons]), cons := if next == s.prod then s.cons else next,
                  alt0InUse := f.alt0InUse || buf == Alt0, alt1InUse := f.alt1InUse || buf == Alt1,
                  playing := s.queued, queued := buf)
  {
  }

  class AudioDatapath {
    const fifo: array<Block>
    const prodBlkTs: array<uint32>
    const frameBlks: nat
    const driftComp: D.DriftCompensation
    var prodBlkIdx: nat
    var consBlkIdx: nat
    var totalBlkUnderruns: uint32
    var prevDriftSduRef: uint32
    var prevPresSduRef: uint32
    var currentPresDly: uint32
    var alt0InUse: bool
    var alt1InUse: bool
    var pres: P.Pres
    var presDelayUs: uint32
    var streamStarted: bool
    // what `stream_state_get` reports
    var streaming: bool
    // what the I2S peripheral holds
    var i2sPlaying: Buf
    var i2sQueued: Buf
    // where the stream-out thread stands
    ghost var thread: Thread

    ghost function RingState(): Ring
      reads this, fifo, prodBlkTs
    {
      Ring(frameBlks, fifo[..], prodBlkTs[..], prodBlkIdx, consBlkIdx, alt0InUse, alt1InUse,
           i2sPlaying, i2sQueued, currentPresDly, thread, false)
    }

    ghost predicate Valid()
      reads this, fifo, prodBlkTs, driftComp
    {
      Shape(RingState()) && AltInv(RingState()) && driftComp.Valid() &&
      (!streamStarted ==> !alt0InUse && !alt1InUse)
    }

    /** `audio_datapath_init`. */
    constructor (fifoNumBlks: nat, numBlksInFrame: nat, delayUs: uint32)
      requires fifoNumBlks >= 2
      ensures Valid() && fresh(fifo) && fresh(prodBlkTs) && fresh(driftComp)
      ensures fifo.Length == fifoNumBlks && frameBlks == numBlksInFrame && thread == Idle
      ensures !streamStarted && presDelayUs == delayUs && prevPresSduRef == 0
      ensures driftComp.Value() == D.START && pres == P.Pres(P.Init, 0, 0)
    {
      fifo := new Block[fifoNumBlks](_ => Silence());
      prodBlkTs := new uint32[fifoNumBlks](_ => 0);
      frameBlks := numBlksInFrame;
      driftComp := new D.DriftCompensation();
      prodBlkIdx, consBlkIdx, totalBlkUnderruns := 0, 0, 0;
      prevDriftSduRef, prevPresSduRef, currentPresDly := 0, 0, 0;
      alt0InUse, alt1InUse, streamStarted, streaming := false, false, false, false;
      i2sPlaying, i2sQueued := Slot(0), Slot(0);
      pres, presDelayUs := P.Pres(P.Init, 0, 0), delayUs;
      thread := Idle;
    }

    /** Zeroes what `ctrl_blk.out` holds. */
    method ClearOut()
      modifies this`prodBlkIdx, this`consBlkIdx, this`totalBlkUnderruns, fifo, prodBlkTs
      ensures prodBlkIdx == consBlkIdx == totalBlkUnderruns == 0
      ensures fifo[..] == seq(fifo.Length, _ => Silence())
      ensures prodBlkTs[..] == seq(prodBlkTs.Length, _ => 0)
    {
      forall i | 0 <= i < fifo.Length {
        fifo[i] := Silence();
      }
      forall i | 0 <= i < prodBlkTs.Length {
        prodBlkTs[i] := 0;
      }
      prodBlkIdx, consBlkIdx, totalBlkUnderruns := 0, 0, 0;
    }

    /**
     `audio_datapath_start` on an initialised data path, with `audio_datapath_i2s_start`; false when
     the stream runs already (-EALREADY).
     */
    method StartStream() returns (ok: bool)
      requires Valid() && thread == Idle
      modifies this`prodBlkIdx, this`consBlkIdx, this`totalBlkUnderruns, this`i2sPlaying,
               this`i2sQueued, this`streamStarted, fifo, prodBlkTs
      ensures Valid() && streamStarted && ok == !old(streamStarted)
      ensures RingState() == if ok then Start(fifo.Length, frameBlks).(presDly := currentPresDly)
                             else old(RingState())
      ensures totalBlkUnderruns == if ok then 0 else old(totalBlkUnderruns)
    {
      if streamStarted {
        return false;
      }
      ClearOut();
      consBlkIdx := PrevIdx(fifo.Length, consBlkIdx);
      var txBuf0 := Slot(consBlkIdx);
      consBlkIdx := PrevIdx(fifo.Length, consBlkIdx);
      var txBuf1 := Slot(consBlkIdx);
      i2sPlaying, i2sQueued := txBuf0, txBuf1;
      streamStarted := true;
      return true;
    }

    /**
     `audio_datapath_stop`: I2S lets go of its buffers and the references are forgotten; false when no
     stream runs (-EALREADY).
     */
    method StopStream() returns (ok: bool)
      requires Valid() && thread == Idle
      modifies this`streamStarted, this`i2sPlaying, this`i2sQueued, this`alt0InUse, this`alt1InUse,
               this`prevPresSduRef, this`prevDriftSduRef, this`pres
      ensures Valid() && !streamStarted && ok == old(streamStarted)
      ensures ok ==> prevPresSduRef == 0 && prevDriftSduRef == 0
      ensures ok ==> pres == old(pres).(state := P.Init)
      ensures !ok ==> RingState() == old(RingState()) && pres == old(pres) &&
                      prevPresSduRef == old(prevPresSduRef) && prevDriftSduRef == old(prevDriftSduRef)
    {
      if !streamStarted {
        return false;
      }
      streamStarted := false;
      i2sPlaying, i2sQueued := Slot(0), Slot(0);
      alt0InUse, alt1InUse := false, false;
      prevPresSduRef, prevDriftSduRef := 0, 0;
      pres := pres.(state := P.Init);
      return true;
    }

    method FilledBlocksGet() returns (n: int)
      ensures n == FilledBlocks(fifo.Length, prodBlkIdx, consBlkIdx)
    {
      if consBlkIdx < prodBlkIdx {
        n := prodBlkIdx - consBlkIdx;
      } else if consBlkIdx > prodBlkIdx {
        n := (fifo.Length - consBlkIdx) + prodBlkIdx;
      } else {
        n := 0;
      }
    }

    /** `alt_buffer_get`; none when both are in use (-ENOMEM). */
    method AltBufferGet() returns (b: Option<Buf>)
      modifies this`alt0InUse, this`alt1InUse
      ensures b == if !old(alt0InUse) then Some(Alt0) else if !old(alt1InUse) then Some(Alt1) else None
      ensures alt0InUse && alt1InUse == (old(alt1InUse) || b == Some(Alt1))
    {
      if !alt0InUse {
        alt0InUse := true;
        return Some(Alt0);
      } else if !alt1InUse {
        alt1InUse := true;
        return Some(Alt1);
      }
      return None;
    }

    method AltBufferFree(b: Buf)
      modifies this`alt0InUse, this`alt1InUse
      ensures alt0InUse == (old(alt0InUse) && b != Alt0)
      ensures alt1InUse == (old(alt1InUse) && b != Alt1)
    {
      if b == Alt0 {
        alt0InUse := false;
      } else if b == Alt1 {
        alt1InUse := false;
      }
    }

    /** The next transmit buffer: the next block of the ring, or a muted one, counted while streaming. */
    method NextTxBuf() returns (txBuf: Buf)
      requires consBlkIdx < fifo.Length && !(alt0InUse && alt1InUse)
      modifies this`consBlkIdx, this`alt0InUse, this`alt1InUse, this`totalBlkUnderruns
      ensures var next := NextIdx(fifo.Length, old(consBlkIdx)); var underrun := next == prodBlkIdx;
              consBlkIdx == (if underrun then old(consBlkIdx) else next) &&
              txBuf == (if !underrun then Slot(next) else if !old(alt0InUse) then Alt0 else Alt1) &&
              alt0InUse == (old(alt0InUse) || txBuf == Alt0) &&
              alt1InUse == (old(alt1InUse) || txBuf == Alt1) &&
              totalBlkUnderruns == U32(old(totalBlkUnderruns) + Count(underrun && streaming))
    {
      var next := NextIdx(fifo.Length, consBlkIdx);
      if next != prodBlkIdx {
        consBlkIdx := next;
        return Slot(next);
      }
      if streaming {
        totalBlkUnderruns := U32(totalBlkUnderruns + 1);
      }
      var alt := AltBufferGet();
      return alt.value;
    }

    /** The played buffer is freed if it is an alternate one, and the delay measured. */
    method FreeAndMeasure(frameStart: uint32)
      requires prodBlkTs.Length == fifo.Length && consBlkIdx < fifo.Length
      modifies this`currentPresDly, this`alt0InUse, this`alt1InUse
      ensures RingState() == AltFree(old(RingState()), i2sPlaying)
                             .(presDly := U32(frameStart - prodBlkTs[..][consBlkIdx]))
    {
      AltBufferFree(i2sPlaying);
      currentPresDly := U32(frameStart - prodBlkTs[consBlkIdx]);
    }

    /** The queued buffer starts playing and the next one is queued. */
    method SetNextTxBuf()
      requires consBlkIdx < fifo.Length && !(alt0InUse && alt1InUse)
      modifies this`consBlkIdx, this`alt0InUse, this`alt1InUse, this`i2sPlaying, this`i2sQueued,
               this`totalBlkUnderruns
      ensures var s, next := old(RingState()), NextIdx(fifo.Length, old(consBlkIdx));
              var buf := if next != prodBlkIdx then Slot(next) else if !s.alt0InUse then Alt0 else Alt1;
              RingState()
              == s.(cons := if next == prodBlkIdx then s.cons else next,
                    alt0InUse := s.alt0InUse || buf == Alt0, alt1InUse := s.alt1InUse || buf == Alt1,
                    playing := s.queued, queued := buf)
      ensures totalBlkUnderruns
           == U32(old(totalBlkUnderruns) +
                  Count(NextIdx(fifo.Length, old(consBlkIdx)) == prodBlkIdx && streaming))
    {
      var txBuf := NextTxBuf();
      i2sPlaying, i2sQueued := i2sQueued, txBuf;
    }

    /** The delay measurement and the exchange of transmit buffers at the end of a block. */
    method ExchangeBuffers(frameStart: uint32)
      requires Valid() && streamStarted
      modifies this`currentPresDly, this`consBlkIdx, this`alt0InUse, this`alt1InUse,
               this`i2sPlaying, this`i2sQueued, this`totalBlkUnderruns
      ensures Valid() && RingState() == Step(old(RingState()), I2s(frameStart))
      ensures totalBlkUnderruns
           == U32(old(totalBlkUnderruns) +
                  Count(NextIdx(fifo.Length, old(consBlkIdx)) == prodBlkIdx && streaming))
    {
      ghost var s := RingState();
      AltStep(s, I2s(frameStart));
      ExchangeIsStep(s, frameStart);
      FreeAndMeasure(frameStart);
      SetNextTxBuf();
    }

    /** `audio_datapath_drift_compensation`, which leaves the ring alone. */
    method CompensateDrift(frameStart: uint32)
      requires Valid()
      modifies this`prevDriftSduRef, driftComp
      ensures Valid() && RingState() == old(RingState())
      ensures driftComp.Value() == D.DriftStep(old(driftComp.Value()), prevPresSduRef, frameStart)
    {
      prevDriftSduRef := prevPresSduRef;
      driftComp.Compensate(prevDriftSduRef, frameStart);
    }

    /** `audio_datapath_i2s_blk_complete`, called with the buffer I2S has finished playing. */
    method I2sBlkComplete(frameStart: uint32)
      requires Valid() && streamStarted
      modifies this`currentPresDly, this`consBlkIdx, this`alt0InUse, this`alt1InUse, this`i2sPlaying,
               this`i2sQueued, this`totalBlkUnderruns, this`prevDriftSduRef, driftComp
      ensures Valid() && RingState() == Step(old(RingState()), I2s(frameStart))
      ensures driftComp.Value() == D.DriftStep(old(driftComp.Value()), prevPresSduRef, frameStart)
      ensures totalBlkUnderruns
           == U32(old(totalBlkUnderruns) +
                  Count(NextIdx(fifo.Length, old(consBlkIdx)) == prodBlkIdx && streaming))
    {
      ExchangeBuffers(frameStart);
      CompensateDrift(frameStart);
    }

    /** Interrupts that come in between two steps of the thread. */
    method Interrupts(times: seq<uint32>, ghost start: Ring, ghost evs: seq<Event>)
      returns (ghost evs': seq<Event>)
      requires Valid() && streamStarted && Shape(start) && RingState() == Run(start, evs)
      modifies this`currentPresDly, this`consBlkIdx, this`alt0InUse, this`alt1InUse, this`i2sPlaying,
               this`i2sQueued, this`totalBlkUnderruns, this`prevDriftSduRef, driftComp
      ensures Valid() && RingState() == Run(start, evs')
      ensures evs' == evs + Irqs(times) && ThreadPart(evs') == ThreadPart(evs)
      ensures driftComp.Value() == DriftAfter(old(driftComp.Value()), prevPresSduRef, times)
    {
      evs' := evs;
      for i := 0 to |times|
        invariant Valid() && RingState() == Run(start, evs') && evs' == evs + Irqs(times[..i])
        invariant driftComp.Value() == DriftAfter(old(driftComp.Value()), prevPresSduRef, times[..i])
      {
        RunAppendOne(start, evs', I2s(times[i]));
        IrqsOneMore(times, i);
        DriftOneMore(old(driftComp.Value()), prevPresSduRef, times[..i], times[i]);
        I2sBlkComplete(times[i]);
        evs' := evs' + [I2s(times[i])];
      }
      assert times[..|times|] == times;
      IrqsAreNotThread(times);
      ThreadPartConcat(evs, Irqs(times));
    }

    /** Block `i` and its stamp go into slot `outBlkIdx`. */
    method CopyToSlot(frame: seq<Block>, rxTs: uint32, i: nat, outBlkIdx: nat) returns (next: nat)
      requires Valid() && i < |frame| && thread == Copying(frame, rxTs, i, outBlkIdx)
      modifies this`thread, fifo, prodBlkTs
      ensures Valid() && next < fifo.Length && thread == Copying(frame, rxTs, i + 1, next)
      ensures RingState() == CopyStep(old(RingState()))
    {
      fifo[outBlkIdx] := frame[i];
      prodBlkTs[outBlkIdx] := U32(rxTs + i * BLK_PERIOD_US);
      next := NextIdx(fifo.Length, outBlkIdx);
      thread := Copying(frame, rxTs, i + 1, next);
    }

    /** Interrupts, then one turn of the loop that copies a frame into the ring. */
    method CopyOneBlock(frame: seq<Block>, rxTs: uint32, i: nat, outBlkIdx: nat,
                        irqs: nat -> seq<uint32>, ghost start: Ring, ghost evs: seq<Event>)
      returns (next: nat, ghost evs': seq<Event>)
      requires Valid() && streamStarted && i < |frame| && thread == Copying(frame, rxTs, i, outBlkIdx)
      requires Shape(start) && RingState() == Run(start, evs)
      modifies this`thread, fifo, prodBlkTs,
               this`currentPresDly, this`consBlkIdx, this`alt0InUse, this`alt1InUse, this`i2sPlaying,
               this`i2sQueued, this`totalBlkUnderruns, this`prevDriftSduRef, driftComp
      ensures Valid() && next < fifo.Length && thread == Copying(frame, rxTs, i + 1, next)
      ensures RingState() == Run(start, evs') && evs <= evs'
      ensures ThreadPart(evs') == ThreadPart(evs) + [CopyBlock]
    {
      evs' := Interrupts(irqs(i), start, evs);
      RunAppendOne(start, evs', CopyBlock);
      next := CopyToSlot(frame, rxTs, i, outBlkIdx);
      evs' := evs' + [CopyBlock];
    }

    /** The loop that copies an accepted frame. `irqs(i)` are the interrupts before block `i`. */
    method CopyFrame(frame: seq<Block>, rxTs: uint32, irqs: nat -> seq<uint32>,
                     ghost start: Ring, ghost evs: seq<Event>)
      returns (outBlkIdx: nat, ghost evs': seq<Event>)
      requires Valid() && streamStarted && thread == Copying(frame, rxTs, 0, prodBlkIdx)
      requires Shape(start) && RingState() == Run(start, evs)
      modifies this`thread, fifo, prodBlkTs,
               this`currentPresDly, this`consBlkIdx, this`alt0InUse, this`alt1InUse, this`i2sPlaying,
               this`i2sQueued, this`totalBlkUnderruns, this`prevDriftSduRef, driftComp
      ensures Valid() && outBlkIdx < fifo.Length
      ensures thread == Copying(frame, rxTs, |frame|, outBlkIdx)
      ensures RingState() == Run(start, evs') && evs <= evs'
      ensures ThreadPart(evs') == ThreadPart(evs) + Copies(|frame|)
    {
      outBlkIdx, evs' := prodBlkIdx, evs;
      for i := 0 to |frame|
        invariant Valid() && outBlkIdx < fifo.Length
        invariant thread == Copying(frame, rxTs, i, outBlkIdx)
        invariant RingState() == Run(start, evs') && evs <= evs'
        invariant ThreadPart(evs') == ThreadPart(evs) + Copies(i)
      {
        outBlkIdx, evs' := CopyOneBlock(frame, rxTs, i, outBlkIdx, irqs, start, evs');
        assert Copies(i + 1) == Copies(i) + [CopyBlock];
        Assoc(ThreadPart(evs), Copies(i), [CopyBlock]);
      }
    }

    /** Interrupts, then the producer index moves past the copied frame. */
    method PublishFrame(outBlkIdx: nat, times: seq<uint32>, ghost start: Ring, ghost evs: seq<Event>)
      returns (ghost evs': seq<Event>)
      requires Valid() && streamStarted && Shape(start) && RingState() == Run(start, evs)
      requires thread.Copying? && thread.i == |thread.frame| && thread.outIdx == outBlkIdx
      modifies this`thread, this`prodBlkIdx,
               this`currentPresDly, this`consBlkIdx, this`alt0InUse, this`alt1InUse, this`i2sPlaying,
               this`i2sQueued, this`totalBlkUnderruns, this`prevDriftSduRef, driftComp
      ensures Valid() && thread == Idle && RingState() == Run(start, evs') && evs <= evs'
      ensures ThreadPart(evs') == ThreadPart(evs) + [Publish]
    {
      evs' := Interrupts(times, start, evs);
      prodBlkIdx := outBlkIdx;
      thread := Idle;
      RunAppendOne(start, evs', Publish);
      evs' := evs' + [Publish];
    }

    /**
     The last part of `audio_datapath_stream_out`: the checks on a decoded frame, its copying into the
     ring and the index update.
     */
    method AddFrame(frame: seq<Block>, rxTs: uint32, irqs: nat -> seq<uint32>)
      returns (ghost evs: seq<Event>)
      requires Valid() && streamStarted && thread == Idle
      modifies this`thread, this`prodBlkIdx, fifo, prodBlkTs,
               this`currentPresDly, this`consBlkIdx, this`alt0InUse, this`alt1InUse, this`i2sPlaying,
               this`i2sQueued, this`totalBlkUnderruns, this`prevDriftSduRef, driftComp
      ensures Valid() && thread == Idle && RingState() == Run(old(RingState()), evs)
      ensures evs != [] && evs[0] == FrameArrives(frame, rxTs)
      ensures ThreadPart(evs) == OfferEvents(frame, rxTs, Accepts(old(RingState()), frame))
    {
      ghost var s := RingState();
      evs := [FrameArrives(frame, rxTs)];
      RunOne(s, evs[0]);
      if |frame| != frameBlks {
        return;
      }
      var numBlksInFifo := FilledBlocksGet();
      if numBlksInFifo + frameBlks > fifo.Length {
        return;
      }
      thread := Copying(frame, rxTs, 0, prodBlkIdx);
      var outBlkIdx;
      outBlkIdx, evs := CopyFrame(frame, rxTs, irqs, s, evs);
      evs := PublishFrame(outBlkIdx, irqs(|frame|), s, evs);
    }

    /* ---------- presentation compensation ---------- */

    /** Interrupts, then the muted block and its stamp. */
    method MuteBlock(ts: uint32, times: seq<uint32>, ghost start: Ring, ghost evs: seq<Event>)
      returns (ghost evs': seq<Event>)
      requires Valid() && streamStarted && thread == Idle
      requires Shape(start) && RingState() == Run(start, evs)
      modifies this`thread, fifo, prodBlkTs,
               this`currentPresDly, this`consBlkIdx, this`alt0InUse, this`alt1InUse, this`i2sPlaying,
               this`i2sQueued, this`totalBlkUnderruns, this`prevDriftSduRef, driftComp
      ensures Valid() && thread == Muted && RingState() == Run(start, evs')
      ensures ThreadPart(evs') == ThreadPart(evs) + [Mute(ts)]
    {
      evs' := Interrupts(times, start, evs);
      fifo[prodBlkIdx] := Silence();
      prodBlkTs[prodBlkIdx] := ts;
      thread := Muted;
      RunAppendOne(start, evs', Mute(ts));
      evs' := evs' + [Mute(ts)];
    }

    /** Interrupts, then the index moves past the muted block. */
    method AdvanceProducer(times: seq<uint32>, ghost start: Ring, ghost evs: seq<Event>)
      returns (ghost evs': seq<Event>)
      requires Valid() && streamStarted && thread == Muted
      requires Shape(start) && RingState() == Run(start, evs)
      modifies this`thread, this`prodBlkIdx,
               this`currentPresDly, this`consBlkIdx, this`alt0InUse, this`alt1InUse, this`i2sPlaying,
               this`i2sQueued, this`totalBlkUnderruns, this`prevDriftSduRef, driftComp
      ensures Valid() && thread == Idle && RingState() == Run(start, evs')
      ensures ThreadPart(evs') == ThreadPart(evs) + [Advance]
    {
      evs' := Interrupts(times, start, evs);
      prodBlkIdx := NextIdx(fifo.Length, prodBlkIdx);
      thread := Idle;
      RunAppendOne(start, evs', Advance);
      evs' := evs' + [Advance];
    }

    /** One turn of the loop that inserts muted blocks. */
    method InsertBlock(i: nat, blks: nat, recvTs: uint32, irqs: nat -> seq<uint32>,
                       ghost start: Ring, ghost evs: seq<Event>)
      returns (ghost evs': seq<Event>)
      requires Valid() && streamStarted && thread == Idle && i < blks
      requires Shape(start) && RingState() == Run(start, evs)
      modifies this`thread, this`prodBlkIdx, fifo, prodBlkTs,
               this`currentPresDly, this`consBlkIdx, this`alt0InUse, this`alt1InUse, this`i2sPlaying,
               this`i2sQueued, this`totalBlkUnderruns, this`prevDriftSduRef, driftComp
      ensures Valid() && thread == Idle && RingState() == Run(start, evs')
      ensures ThreadPart(evs')
              == ThreadPart(evs) + [Mute(U32(recvTs - (blks - i) * BLK_PERIOD_US)), Advance]
    {
      var ts := U32(recvTs - (blks - i) * BLK_PERIOD_US);
      evs' := MuteBlock(ts, irqs(2 * i), start, evs);
      evs' := AdvanceProducer(irqs(2 * i + 1), start, evs');
      Assoc(ThreadPart(evs), [Mute(ts)], [Advance]);
    }

    /**
     Inserts muted blocks to increase the presentation delay. `irqs(2 * i)` are the interrupts before
     block `i` is muted, `irqs(2 * i + 1)` those before the index moves past it.
     */
    method InsertBlocks(blks: nat, recvTs: uint32, irqs: nat -> seq<uint32>)
      returns (ghost evs: seq<Event>)
      requires Valid() && streamStarted && thread == Idle
      modifies this`thread, this`prodBlkIdx, fifo, prodBlkTs,
               this`currentPresDly, this`consBlkIdx, this`alt0InUse, this`alt1InUse, this`i2sPlaying,
               this`i2sQueued, this`totalBlkUnderruns, this`prevDriftSduRef, driftComp
      ensures Valid() && thread == Idle && RingState() == Run(old(RingState()), evs)
      ensures ThreadPart(evs) == Inserts(0, blks, recvTs)
    {
      ghost var s := RingState();
      evs := [];
      for i := 0 to blks
        invariant Valid() && thread == Idle && RingState() == Run(s, evs)
        invariant ThreadPart(evs) + Inserts(i, blks, recvTs) == Inserts(0, blks, recvTs)
      {
        InsertsStep(ThreadPart(evs), i, blks, recvTs);
        evs := InsertBlock(i, blks, recvTs, irqs, s, evs);
      }
    }

    /** Interrupts, then the producer steps back. */
    method RemoveBlock(times: seq<uint32>, ghost start: Ring, ghost evs: seq<Event>)
      returns (ghost evs': seq<Event>)
      requires Valid() && streamStarted && thread == Idle
      requires Shape(start) && RingState() == Run(start, evs)
      modifies this`prodBlkIdx,
               this`currentPresDly, this`consBlkIdx, this`alt0InUse, this`alt1InUse, this`i2sPlaying,
               this`i2sQueued, this`totalBlkUnderruns, this`prevDriftSduRef, driftComp
      ensures Valid() && RingState() == Run(start, evs')
      ensures ThreadPart(evs') == ThreadPart(evs) + [Retreat]
    {
      evs' := Interrupts(times, start, evs);
      prodBlkIdx := PrevIdx(fifo.Length, prodBlkIdx);
      RunAppendOne(start, evs', Retreat);
      evs' := evs' + [Retreat];
    }

    /**
     Steps the producer back to reduce the presentation delay. `irqs(i)` are the interrupts before
     step `i`.
     */
    method RemoveBlocks(blks: nat, irqs: nat -> seq<uint32>)
      returns (ghost evs: seq<Event>)
      requires Valid() && streamStarted && thread == Idle
      modifies this`prodBlkIdx,
               this`currentPresDly, this`consBlkIdx, this`alt0InUse, this`alt1InUse, this`i2sPlaying,
               this`i2sQueued, this`totalBlkUnderruns, this`prevDriftSduRef, driftComp
      ensures Valid() && RingState() == Run(old(RingState()), evs)
      ensures ThreadPart(evs) == Retreats(blks)
    {
      ghost var s := RingState();
      evs := [];
      for i := 0 to blks
        invariant Valid() && RingState() == Run(s, evs)
        invariant ThreadPart(evs) == Retreats(i)
      {
        evs := RemoveBlock(irqs(i), s, evs);
        assert Retreats(i + 1) == Retreats(i) + [Retreat];
      }
    }

    /** The measuring half of presentation compensation; returns the adjustment in microseconds. */
    method MeasureDelay(recvTs: uint32, sduRef: uint32, notConsecutive: bool) returns (presAdjUs: int)
      modifies this`pres
      ensures var x := P.Input(driftComp.state == D.Locked, notConsecutive,
                               P.ErrUs(presDelayUs, recvTs, sduRef, currentPresDly));
              (pres, presAdjUs) == P.PresStep(old(pres), x)
    {
      if driftComp.state != D.Locked {
        pres := pres.(state := P.Init);
        return 0;
      }
      if notConsecutive {
        pres := pres.(ctr := 0, state := P.Wait);
      }
      var wantedPresDlyUs := I32(presDelayUs - U32(recvTs - sduRef));
      presAdjUs := 0;
      match pres.state
      case Init =>
        pres := P.Pres(P.Meas, 0, 0);
      case Meas =>
        if pres.ctr < P.PRES_COMP_NUM_DATA_PTS {
          pres := P.Pres(P.Meas, U16(pres.ctr + 1),
                         I32(pres.sumErrDlyUs + (wantedPresDlyUs - currentPresDly)));
        } else {
          presAdjUs := Div(pres.sumErrDlyUs, P.PRES_COMP_NUM_DATA_PTS);
          var wait := presAdjUs >= BLK_PERIOD_US / 2 || presAdjUs <= -(BLK_PERIOD_US / 2);
          pres := P.Pres(if wait then P.Wait else P.Locked, 0, pres.sumErrDlyUs);
        }
      case Wait =>
        var over := pres.ctr > P.FIFO_SMPL_PERIOD_US / FRAME_DURATION_US;
        pres := P.Pres(if over then P.Init else P.Wait, U16(pres.ctr + 1), pres.sumErrDlyUs);
      case Locked =>
    }

    /** `audio_datapath_presentation_compensation`. */
    method PresentationCompensation(recvTs: uint32, sduRef: uint32, notConsecutive: bool,
                                    irqs: nat -> seq<uint32>, ghost x: P.Input)
      returns (ghost evs: seq<Event>)
      requires Valid() && streamStarted && thread == Idle
      requires x == P.Input(driftComp.state == D.Locked, notConsecutive,
                            P.ErrUs(presDelayUs, recvTs, sduRef, currentPresDly))
      modifies this`pres, this`thread, this`prodBlkIdx, fifo, prodBlkTs,
               this`currentPresDly, this`consBlkIdx, this`alt0InUse, this`alt1InUse, this`i2sPlaying,
               this`i2sQueued, this`totalBlkUnderruns, this`prevDriftSduRef, driftComp
      ensures Valid() && thread == Idle && RingState() == Run(old(RingState()), evs)
      ensures pres == P.PresStep(old(pres), x).0
      ensures ThreadPart(evs) == CompEvents(P.AdjBlks(P.PresStep(old(pres), x).1), recvTs)
    {
      evs := [];
      var presAdjUs := MeasureDelay(recvTs, sduRef, notConsecutive);
      if presAdjUs == 0 {
        return;
      }
      var presAdjBlks := P.AdjBlks(presAdjUs);
      if presAdjBlks > 0 {
        evs := InsertBlocks(presAdjBlks, recvTs, irqs);
      } else if presAdjBlks < 0 {
        evs := RemoveBlocks(-presAdjBlks, irqs);
      }
    }

    /** The check of an incoming SDU reference: none when the frame is a duplicate. */
    method AcceptSduRef(refTs: uint32) returns (ref: Option<uint32>, notConsecutive: bool)
      ensures match S.Accept(prevPresSduRef, refTs)
              case Dropped => ref == None
              case Recorded(u, flag) => ref == Some(u) && notConsecutive == flag
    {
      if refTs == prevPresSduRef && refTs != 0 {
        return None, false;
      }
      ref, notConsecutive := Some(refTs), false;
      if prevPresSduRef != 0 {
        var delta := U32(refTs - prevPresSduRef);
        if delta < FRAME_DURATION_US + FRAME_DURATION_US / 2 {
          if delta > FRAME_DURATION_US + SDU_REF_CH_DELTA_MAX_US ||
             delta < FRAME_DURATION_US - SDU_REF_CH_DELTA_MAX_US {
            ref := Some(U32(prevPresSduRef + FRAME_DURATION_US));
          }
        } else {
          notConsecutive := true;
        }
      }
    }

    /** The reference is recorded, and interrupts may come before it is used. */
    method RecordSduRef(ref: uint32, early: seq<uint32>, notConsecutive: bool, rxTs: uint32)
      returns (ghost x: P.Input)
      requires Valid() && streamStarted
      modifies this`prevPresSduRef,
               this`currentPresDly, this`consBlkIdx, this`alt0InUse, this`alt1InUse, this`i2sPlaying,
               this`i2sQueued, this`totalBlkUnderruns, this`prevDriftSduRef, driftComp
      ensures Valid() && prevPresSduRef == ref && RingState() == Run(old(RingState()), Irqs(early))
      ensures x == Measured(old(RingState()), old(driftComp.Value()), presDelayUs, ref, notConsecutive,
                            rxTs, early)
      ensures x == P.Input(driftComp.state == D.Locked, notConsecutive,
                           P.ErrUs(presDelayUs, rxTs, ref, currentPresDly))
    {
      ghost var s := RingState();
      prevPresSduRef := ref;
      ghost var met := Interrupts(early, s, []);
      assert [] + Irqs(early) == Irqs(early);
      x := P.Input(driftComp.state == D.Locked, notConsecutive,
                   P.ErrUs(presDelayUs, rxTs, ref, RingState().presDly));
    }

    /** A reference is recorded and compensated for. */
    method Compensate(ref: uint32, notConsecutive: bool, rxTs: uint32, early: seq<uint32>,
                      irqsComp: nat -> seq<uint32>)
      returns (ghost before: seq<Event>, ghost x: P.Input)
      requires Valid() && streamStarted && thread == Idle
      modifies this`pres, this`prevPresSduRef, this`thread, this`prodBlkIdx, fifo, prodBlkTs,
               this`currentPresDly, this`consBlkIdx, this`alt0InUse, this`alt1InUse, this`i2sPlaying,
               this`i2sQueued, this`totalBlkUnderruns, this`prevDriftSduRef, driftComp
      ensures Valid() && thread == Idle && prevPresSduRef == ref
      ensures RingState() == Run(old(RingState()), before)
      ensures x == Measured(old(RingState()), old(driftComp.Value()), presDelayUs, ref, notConsecutive,
                            rxTs, early)
      ensures pres == P.PresStep(old(pres), x).0
      ensures Irqs(early) <= before &&
              ThreadPart(before) == CompEvents(P.AdjBlks(P.PresStep(old(pres), x).1), rxTs)
    {
      ghost var s, met := RingState(), Irqs(early);
      x := RecordSduRef(ref, early, notConsecutive, rxTs);
      ghost var comp := PresentationCompensation(rxTs, ref, notConsecutive, irqsComp, x);
      AppendAfterIrqs(s, early, comp);
      before := met + comp;
    }

    /** Interrupts while the frame is decoded, then the frame. */
    method DecodeAndAdd(frame: seq<Block>, rxTs: uint32, decoding: seq<uint32>,
                        irqsCopy: nat -> seq<uint32>, ghost start: Ring, ghost evs: seq<Event>)
      returns (ghost before: seq<Event>, ghost copy: seq<Event>)
      requires Valid() && streamStarted && thread == Idle
      requires Shape(start) && RingState() == Run(start, evs)
      modifies this`thread, this`prodBlkIdx, fifo, prodBlkTs,
               this`currentPresDly, this`consBlkIdx, this`alt0InUse, this`alt1InUse, this`i2sPlaying,
               this`i2sQueued, this`totalBlkUnderruns, this`prevDriftSduRef, driftComp
      ensures Valid() && thread == Idle && RingState() == Run(start, before + copy)
      ensures evs <= before && ThreadPart(before) == ThreadPart(evs) && Run(start, before).thread.Idle?
      ensures copy != [] && copy[0] == FrameArrives(frame, rxTs)
      ensures ThreadPart(copy) == OfferEvents(frame, rxTs, Accepts(Run(start, before), frame))
    {
      before := Interrupts(decoding, start, evs);
      copy := AddFrame(frame, rxTs, irqsCopy);
      RunSplit(start, before, copy);
    }

    /** The rest of `audio_datapath_stream_out` for a frame that is no duplicate. */
    method Process(ref: uint32, notConsecutive: bool, rxTs: uint32, frame: seq<Block>,
                   early: seq<uint32>, irqsComp: nat -> seq<uint32>, decoding: seq<uint32>,
                   irqsCopy: nat -> seq<uint32>)
      returns (ghost before: seq<Event>, ghost copy: seq<Event>, ghost x: P.Input)
      requires Valid() && streamStarted && thread == Idle
      modifies this`pres, this`prevPresSduRef, this`thread, this`prodBlkIdx, fifo, prodBlkTs,
               this`currentPresDly, this`consBlkIdx, this`alt0InUse, this`alt1InUse, this`i2sPlaying,
               this`i2sQueued, this`totalBlkUnderruns, this`prevDriftSduRef, driftComp
      ensures Valid() && thread == Idle && prevPresSduRef == ref
      ensures RingState() == Run(old(RingState()), before + copy)
      ensures x == Measured(old(RingState()), old(driftComp.Value()), presDelayUs, ref, notConsecutive,
                            rxTs, early)
      ensures pres == P.PresStep(old(pres), x).0
      ensures Irqs(early) <= before &&
              Processed(old(RingState()), before, copy, P.AdjBlks(P.PresStep(old(pres), x).1), frame, rxTs)
    {
      ghost var s := RingState();
      before, x := Compensate(ref, notConsecutive, rxTs, early, irqsComp);
      before, copy := DecodeAndAdd(frame, rxTs, decoding, irqsCopy, s, before);
    }

    /**
     `audio_datapath_stream_out` for a frame with reference `refTs` received at `rxTs`, decoded to
     `frame`. Without a stream, and for a duplicate, nothing changes; any other frame is recorded,
     compensated for and offered to the ring. `early` are the interrupts before the compensation, and
     `decoding` those while the frame is decoded. Blocks inserted and copied leave their stamps in one
     progression around the ring.
     */
    method StreamOut(refTs: uint32, rxTs: uint32, frame: seq<Block>, early: seq<uint32>,
                     irqsComp: nat -> seq<uint32>, decoding: seq<uint32>,
                     irqsCopy: nat -> seq<uint32>)
      returns (ghost before: seq<Event>, ghost copy: seq<Event>)
      requires Valid() && thread == Idle
      modifies this`pres, this`prevPresSduRef, this`thread, this`prodBlkIdx, fifo, prodBlkTs,
               this`currentPresDly, this`consBlkIdx, this`alt0InUse, this`alt1InUse, this`i2sPlaying,
               this`i2sQueued, this`totalBlkUnderruns, this`prevDriftSduRef, driftComp
      ensures Valid() && thread == Idle && RingState() == Run(old(RingState()), before + copy)
      ensures !streamStarted || S.Accept(old(prevPresSduRef), refTs).Dropped? ==>
                before + copy == [] && pres == old(pres) &&
                prevPresSduRef == old(prevPresSduRef) && driftComp.Value() == old(driftComp.Value())
      ensures streamStarted && S.Accept(old(prevPresSduRef), refTs).Recorded? ==>
                var Recorded(ref, flag) := S.Accept(old(prevPresSduRef), refTs);
                var s := old(RingState());
                var x := Measured(s, old(driftComp.Value()), presDelayUs, ref, flag, rxTs, early);
                var k := P.AdjBlks(P.PresStep(old(pres), x).1);
                prevPresSduRef == ref && pres == P.PresStep(old(pres), x).0 && Irqs(early) <= before &&
                Processed(s, before, copy, k, frame, rxTs) && InProgression(s, before, copy, k, frame, rxTs)
    {
      before, copy := [], [];
      if !streamStarted {
        return;
      }
      var ref, notConsecutive := AcceptSduRef(refTs);
      if ref.None? {
        return;
      }
      ghost var s := RingState();
      ghost var x;
      before, copy, x :=
        Process(ref.value, notConsecutive, rxTs, frame, early, irqsComp, decoding, irqsCopy);
      OfferedStamps(s, before, copy, P.AdjBlks(P.PresStep(old(pres), x).1), frame, rxTs);
    }
  }
}
