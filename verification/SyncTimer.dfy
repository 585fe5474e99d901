/**
 Timestamps from a 32768 Hz, 24-bit counter, its overflows, and a microsecond timer that restarts at
 every tick.
 */
module SyncTimer {
  import opened CInt
  import opened Common

  const RTC_TICKS_IN_FEMTO_UNITS: int := 30517578125
  const RTC_OVERFLOW_TIME_US: int := 512000000
  const TWO_POW_24: int := 0x100_0000
  const TWO_POW_64: int := 0x1_0000_0000_0000_0000

  /** `timestamp_from_rtc_and_timer_get`, with the widths of the C expression. */
  function Timestamp(overflows: uint32, ticks: uint32, remainderUs: uint32): uint32 {
    var ticksUs := ((ticks * RTC_TICKS_IN_FEMTO_UNITS) % TWO_POW_64) / 1000000000;
    U32((ticksUs + U32(overflows * RTC_OVERFLOW_TIME_US) + remainderUs) % TWO_POW_64)
  }

  /** The time that has passed, in whole microseconds, for any number of overflows. */
  function Elapsed(overflows: nat, ticks: nat, remainderUs: nat): nat {
    (overflows * TWO_POW_24 + ticks) * 1000000 / 32768 + remainderUs
  }

  /** `num_rtc_overflows` after a number of overflow interrupts. */
  function OverflowCount(overflows: nat): uint32 {
    U32(overflows)
  }

  lemma ElapsedSplits(overflows: nat, ticks: nat)
    ensures (overflows * TWO_POW_24 + ticks) * 1000000 / 32768
            == overflows * RTC_OVERFLOW_TIME_US + ticks * 15625 / 512
  {
    var whole := overflows * RTC_OVERFLOW_TIME_US;
    assert (overflows * TWO_POW_24 + ticks) * 1000000 == 32768 * whole + ticks * 1000000;
  }

  lemma WrapsOnce(a: nat, k: nat)
    ensures U32(a + TWO_POW_32 * k) == U32(a)
  {
  }

  lemma Wraps(a: nat, b: nat, k: nat)
    ensures U32(a + U32(b)) == U32(a + b + TWO_POW_32 * k)
  {
    assert a + b + TWO_POW_32 * k == a + U32(b) + TWO_POW_32 * (b / TWO_POW_32 + k);
    WrapsOnce(a + U32(b), b / TWO_POW_32 + k);
  }

  lemma TicksInUs(ticks: nat)
    requires ticks < TWO_POW_24
    ensures ticks * RTC_TICKS_IN_FEMTO_UNITS < TWO_POW_64
    ensures ticks * RTC_TICKS_IN_FEMTO_UNITS % TWO_POW_64 / 1000000000 == ticks * 15625 / 512 < TWO_POW_32
  {
  }

  lemma FitsIn64(x: nat)
    requires x < TWO_POW_64
    ensures x % TWO_POW_64 == x
  {
  }

  lemma OverflowsWrap(overflows: nat)
    ensures var o, w := U32(overflows), overflows / TWO_POW_32;
            overflows * RTC_OVERFLOW_TIME_US
            == o * RTC_OVERFLOW_TIME_US + TWO_POW_32 * (w * RTC_OVERFLOW_TIME_US)
  {
    var o, w := U32(overflows), overflows / TWO_POW_32;
    assert overflows == o + TWO_POW_32 * w;
  }

  lemma TimestampIsSum(overflows: uint32, ticks: nat, remainderUs: uint32)
    requires ticks < TWO_POW_24
    ensures Timestamp(overflows, ticks, remainderUs)
         == U32(ticks * 15625 / 512 + remainderUs + U32(overflows * RTC_OVERFLOW_TIME_US))
  {
    TicksInUs(ticks);
    FitsIn64(ticks * 15625 / 512 + U32(overflows * RTC_OVERFLOW_TIME_US) + remainderUs);
  }

  /**
   The timestamp is the time passed modulo 2^32, exactly: no rounding adds up over overflows, the
   64-bit product does not overflow, and neither wrap of the overflow count shows.
   */
  lemma TimestampExact(overflows: nat, ticks: nat, remainderUs: uint32)
    requires ticks < TWO_POW_24
    ensures ticks * RTC_TICKS_IN_FEMTO_UNITS < TWO_POW_64
    ensures Timestamp(OverflowCount(overflows), ticks, remainderUs)
            == U32(Elapsed(overflows, ticks, remainderUs))
  {
    TicksInUs(ticks);
    TimestampIsSum(OverflowCount(overflows), ticks, remainderUs);
    OverflowsWrap(overflows);
    ElapsedSplits(overflows, ticks);
    Wraps(ticks * 15625 / 512 + remainderUs, OverflowCount(overflows) * RTC_OVERFLOW_TIME_US,
          overflows / TWO_POW_32 * RTC_OVERFLOW_TIME_US);
  }

  lemma TickIsThirty(t: nat)
    ensures (t + 1) * 15625 / 512 >= t * 15625 / 512 + 30
  {
  }

  lemma TicksGrow(a: nat, b: nat)
    requires a <= b
    ensures a * 15625 / 512 <= b * 15625 / 512
  {
  }

  /**
   Time does not run backwards: while the microsecond timer reads at most 30, the time passed is
   monotone in overflows, ticks and timer taken in this order, across an overflow of the counter too.
   */
  lemma ElapsedMonotone(o1: nat, t1: nat, r1: nat, o2: nat, t2: nat, r2: nat)
    requires t1 < TWO_POW_24 && t2 < TWO_POW_24 && r1 <= 30
    requires o1 < o2 || (o1 == o2 && (t1 < t2 || (t1 == t2 && r1 <= r2)))
    ensures Elapsed(o1, t1, r1) <= Elapsed(o2, t2, r2)
  {
    ElapsedSplits(o1, t1);
    ElapsedSplits(o2, t2);
    TickIsThirty(t1);
    if o1 < o2 {
      assert (o2 - o1) * RTC_OVERFLOW_TIME_US >= RTC_OVERFLOW_TIME_US;
    } else if t1 < t2 {
      TicksGrow(t1 + 1, t2);
    }
  }

  /** The bound on the timer is the largest one: with 31 a tick can take the time back. */
  lemma TimerBoundIsTight()
    ensures Elapsed(0, 0, 31) > Elapsed(0, 1, 0)
  {
  }

  /** Counting so many overflows too few or too many does not show in 32 bits of microseconds. */
  const OVERFLOWS_HIDDEN: int := 0x2_0000

  lemma SameResidue(x: int, y: int)
    ensures U32(x) == U32(y) <==> (x - y) % TWO_POW_32 == 0
  {
  }

  /** The inverse of 15625 modulo 2^17, and how often the product goes around. */
  const INVERSE: int := 24889
  const AROUND: int := 2967

  lemma HideIf(m: int, q: int)
    requires m == q * OVERFLOWS_HIDDEN
    ensures m * RTC_OVERFLOW_TIME_US % TWO_POW_32 == 0
  {
    assert m * RTC_OVERFLOW_TIME_US == q * 15625 * TWO_POW_32;
  }

  lemma HideOnlyIf(m: int, q: int)
    requires m * RTC_OVERFLOW_TIME_US == q * TWO_POW_32
    ensures m % OVERFLOWS_HIDDEN == 0
  {
    assert m * 15625 == q * OVERFLOWS_HIDDEN;
    assert m == (INVERSE * q - AROUND * m) * OVERFLOWS_HIDDEN;
  }

  /** The overflow time has 15 factors of 2 and otherwise an odd number, 15625. */
  lemma OverflowsHide(m: int)
    ensures m * RTC_OVERFLOW_TIME_US % TWO_POW_32 == 0 <==> m % OVERFLOWS_HIDDEN == 0
  {
    if m * RTC_OVERFLOW_TIME_US % TWO_POW_32 == 0 {
      HideOnlyIf(m, m * RTC_OVERFLOW_TIME_US / TWO_POW_32);
    }
    if m % OVERFLOWS_HIDDEN == 0 {
      HideIf(m, m / OVERFLOWS_HIDDEN);
    }
  }

  /**
   The timestamp taken with `counted` overflows is the time after `wraps` overflows of the counter
   exactly when the count is right, but for a multiple of 2^17.
   */
  lemma TimestampTrueExactly(counted: nat, wraps: nat, ticks: nat, remainderUs: nat)
    ensures U32(Elapsed(counted, ticks, remainderUs)) == U32(Elapsed(wraps, ticks, remainderUs))
       <==> (wraps - counted) % OVERFLOWS_HIDDEN == 0
  {
    ElapsedSplits(counted, ticks);
    ElapsedSplits(wraps, ticks);
    SameResidue(Elapsed(wraps, ticks, remainderUs), Elapsed(counted, ticks, remainderUs));
    OverflowsHide(wraps - counted);
  }

  /** While one overflow waits for its interrupt, the time read is 512 seconds behind. */
  lemma PendingOverflowLags(counted: nat, ticks: nat, remainderUs: nat)
    ensures Elapsed(counted + 1, ticks, remainderUs)
         == Elapsed(counted, ticks, remainderUs) + RTC_OVERFLOW_TIME_US
  {
    ElapsedSplits(counted, ticks);
    ElapsedSplits(counted + 1, ticks);
  }

  const CC_GET_CALLS_MAX: nat := 20

  class AudioSyncTimer {
    var numRtcOverflows: uint32
    var prevTick: uint32
    /** The overflow event of the counter, set until its interrupt is handled. */
    var overflowEvent: bool
    /** How often the counter has overflowed, and how many overflow interrupts have been handled. */
    ghost var wraps: nat
    ghost var counted: nat

    ghost predicate Valid()
      reads this
    {
      numRtcOverflows == OverflowCount(counted) && counted + Count(overflowEvent) <= wraps
    }

    /** No overflow came while an earlier one still waited for its interrupt. */
    ghost predicate NoneMissed()
      reads this
    {
      wraps == counted + Count(overflowEvent)
    }

    constructor ()
      ensures Valid() && NoneMissed() && wraps == 0
    {
      numRtcOverflows, prevTick, overflowEvent, wraps, counted := 0, 0, false, 0, 0;
    }

    /** The counter overflows. */
    method CounterOverflow()
      requires Valid()
      modifies this`overflowEvent, this`wraps
      ensures Valid() && overflowEvent && wraps == old(wraps) + 1
      ensures NoneMissed() <==> old(NoneMissed() && !overflowEvent)
    {
      overflowEvent, wraps := true, wraps + 1;
    }

    /** `rtc_isr_handler`, called for an event that the driver has just cleared. */
    method RtcIsrHandler(isOverflow: bool)
      requires Valid() && (isOverflow ==> overflowEvent)
      modifies this`numRtcOverflows, this`counted, this`overflowEvent
      ensures Valid() && counted == old(counted) + Count(isOverflow)
      ensures overflowEvent == (old(overflowEvent) && !isOverflow) && NoneMissed() == old(NoneMissed())
    {
      if isOverflow {
        overflowEvent := false;
        numRtcOverflows := U32(numRtcOverflows + 1);
        counted := counted + 1;
      }
    }

    /**
     `audio_sync_timer_frame_start_capture_get`, where `captured` are the values the capture register gives
     one after the other: it takes the first that differs from the last call's, or the twenty-first. The
     time is true, if the counter has not overflowed since the capture, exactly when no overflow waits
     for its interrupt.
     */
    method FrameStartCaptureGet(captured: seq<uint32>, remainderUs: uint32)
      returns (timestamp: uint32, ghost k: nat)
      requires Valid() && |captured| > CC_GET_CALLS_MAX
      requires forall i | 0 <= i < |captured| :: captured[i] < TWO_POW_24
      modifies this`prevTick
      ensures k <= CC_GET_CALLS_MAX && (forall i | 0 <= i < k :: captured[i] == old(prevTick))
      ensures k < CC_GET_CALLS_MAX ==> captured[k] != old(prevTick)
      ensures prevTick == captured[k]
      ensures timestamp == U32(Elapsed(counted, captured[k], remainderUs))
      ensures timestamp == U32(Elapsed(wraps, captured[k], remainderUs))
         <==> (wraps - counted) % OVERFLOWS_HIDDEN == 0
      ensures NoneMissed() ==>
                (timestamp == U32(Elapsed(wraps, captured[k], remainderUs)) <==> !overflowEvent)
    {
      var ccGetCalls := 0;
      var tick := prevTick;
      while ccGetCalls == 0 || tick == prevTick
        invariant ccGetCalls <= CC_GET_CALLS_MAX && prevTick == old(prevTick)
        invariant ccGetCalls > 0 ==> tick == captured[ccGetCalls - 1]
        invariant forall i | 0 <= i < ccGetCalls - 1 :: captured[i] == prevTick
        decreases CC_GET_CALLS_MAX - ccGetCalls
      {
        tick := captured[ccGetCalls];
        ccGetCalls := ccGetCalls + 1;
        if ccGetCalls > CC_GET_CALLS_MAX {
          break;
        }
      }
      k := ccGetCalls - 1;
      prevTick := tick;
      TimestampExact(counted, tick, remainderUs);
      TimestampTrueExactly(counted, wraps, tick, remainderUs);
      timestamp := Timestamp(numRtcOverflows, tick, remainderUs);
    }
  }
}
