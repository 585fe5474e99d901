/**
 Drift compensation: tunes the audio PLL so that I2S blocks start a whole number of milliseconds from
 the SDU reference.
 */
module DriftComp {
  import opened CInt
  import opened Common

  const DRIFT_MEAS_PERIOD_US: int := 100000
  const DRIFT_COMP_WAITING_CNT: int := 100
  const DRIFT_ERR_THRESH_LOCK: int := 16
  const DRIFT_ERR_THRESH_UNLOCK: int := 32
  const DRIFT_REGULATOR_DIV_FACTOR: int := 2
  const APLL_FREQ_MIN: int := 0x8FD8
  const APLL_FREQ_CENTER: int := 0x9BA6
  const APLL_FREQ_MAX: int := 0xA774

  datatype DriftState = Init | Calib | Offset | Locked

  /** `freq` is the last value written to the PLL. */
  datatype Drift = Drift(
    state: DriftState,
    ctr: uint16,
    measStartUs: uint32,
    centerFreq: uint32,
    freq: uint16)

  /** `err_us_calculate`: the timestamp difference brought into one block period. */
  function ErrUs(sduRef: uint32, frameStart: uint32): int32 {
    var total := sduRef - frameStart;
    var rem := Abs(total) % BLK_PERIOD_US;
    var err := if rem > BLK_PERIOD_US / 2 then rem - BLK_PERIOD_US else rem;
    if total < 0 then -err else err
  }

  /** `APLL_FREQ_ADJ`; the product is a 32-bit one. */
  function FreqAdj(errUs: int32): int32 {
    Div(I32(0 - I32(errUs * 1000)), 331)
  }

  /** `hfclkaudio_set`: the value the PLL gets for a 16-bit argument. */
  function Clamp(freqValue: uint16): uint16 {
    var low := if freqValue < APLL_FREQ_MAX then freqValue else APLL_FREQ_MAX;
    if low > APLL_FREQ_MIN then low else APLL_FREQ_MIN
  }

  /** The error seen over one calibration period. */
  function CalibErr(prevSduRef: uint32, measStartUs: uint32): int32 {
    I32(DRIFT_MEAS_PERIOD_US - U32(prevSduRef - measStartUs))
  }

  /** The end of a calibration period that saw the given error. */
  function Calibrated(d: Drift, errUs: int32): Drift {
    var center := U32(APLL_FREQ_CENTER + FreqAdj(errUs));
    if center > APLL_FREQ_MAX || center < APLL_FREQ_MIN
    then d.(ctr := 0, centerFreq := center, state := Init)
    else d.(ctr := 0, centerFreq := center, freq := Clamp(U16(center)), state := Offset)
  }

  /** One call per completed I2S block. */
  function DriftStep(d: Drift, prevSduRef: uint32, frameStart: uint32): Drift {
    match d.state
    case Init =>
      if prevSduRef != 0 then d.(measStartUs := prevSduRef, state := Calib) else d
    case Calib =>
      if U16(d.ctr + 1) < DRIFT_COMP_WAITING_CNT then d.(ctr := U16(d.ctr + 1))
      else
        Calibrated(d, CalibErr(prevSduRef, d.measStartUs))
    case Offset =>
      if U16(d.ctr + 1) < DRIFT_COMP_WAITING_CNT then d.(ctr := U16(d.ctr + 1))
      else
        var err := Div(ErrUs(prevSduRef, frameStart), DRIFT_REGULATOR_DIV_FACTOR);
        d.(ctr := 0, freq := Clamp(U16(U32(d.centerFreq + FreqAdj(err)))),
           state := if -DRIFT_ERR_THRESH_LOCK < err < DRIFT_ERR_THRESH_LOCK then Locked else Offset)
    case Locked =>
      if U16(d.ctr + 1) < DRIFT_COMP_WAITING_CNT then d.(ctr := U16(d.ctr + 1))
      else
        var err := Div(ErrUs(prevSduRef, frameStart), DRIFT_REGULATOR_DIV_FACTOR);
        d.(ctr := 0, freq := Clamp(U16(U32(d.centerFreq + FreqAdj(err)))),
           state := if err > DRIFT_ERR_THRESH_UNLOCK || err < -DRIFT_ERR_THRESH_UNLOCK
                    then Init else Locked)
  }

  /* ---------- the error measure ---------- */

  /**
   The error is the difference of the timestamps modulo one block period, centred on zero; half a period
   has the sign of the difference.
   */
  lemma ErrUsIsCentredResidue(sduRef: uint32, frameStart: uint32)
    ensures var e := ErrUs(sduRef, frameStart);
            -500 <= e <= 500 && (e - (sduRef - frameStart)) % 1000 == 0 &&
            (e == -500 ==> sduRef < frameStart) && (e == 500 ==> sduRef > frameStart)
  {
  }

  lemma MulMod(a: int, k: int)
    ensures (a + 1000 * k) % 1000 == a % 1000
  {
  }

  lemma Residue125(r: nat)
    requires r < 125
    ensures (704 * r) % 1000 == 0 <==> r == 0
  {
  }

  lemma WrapResidue(q: int, w: int)
    ensures (1000 * q - w * TWO_POW_32) % 1000 == 0 <==> w % 125 == 0
  {
    assert 1000 * q - w * TWO_POW_32 == 704 * w + 1000 * (q - 4294968 * w);
    MulMod(704 * w, q - 4294968 * w);
    var v, r := w / 125, w % 125;
    assert 704 * w == 704 * r + 1000 * (88 * v);
    MulMod(704 * r, 88 * v);
    Residue125(r);
  }

  /**
   For times that have wrapped past 2^32 a different number of times the error is still the residue
   of the true difference if and only if the wraps differ by a multiple of 125, because 2^32 leaves
   296 modulo 1000: each wrap of one of the two more shifts the error by 296 us.
   */
  lemma ErrUsAcrossWraps(sduTime: int, frameTime: int)
    requires sduTime >= 0 && frameTime >= 0
    ensures var e := ErrUs(U32(sduTime), U32(frameTime));
            var w := sduTime / TWO_POW_32 - frameTime / TWO_POW_32;
            (e - (sduTime - frameTime) + 296 * w) % 1000 == 0 &&
            ((e - (sduTime - frameTime)) % 1000 == 0 <==> w % 125 == 0)
  {
    var w := sduTime / TWO_POW_32 - frameTime / TWO_POW_32;
    var e := ErrUs(U32(sduTime), U32(frameTime));
    ErrUsIsCentredResidue(U32(sduTime), U32(frameTime));
    var q := (e - (U32(sduTime) - U32(frameTime))) / 1000;
    assert sduTime - frameTime == (U32(sduTime) - U32(frameTime)) + w * TWO_POW_32;
    assert e - (sduTime - frameTime) == 1000 * q - w * TWO_POW_32;
    WrapResidue(q, w);
    assert e - (sduTime - frameTime) + 296 * w == 1000 * (q - 4294967 * w);
    MulMod(0, q - 4294967 * w);
  }

  /* ---------- calibration ---------- */

  /** The calibration error's product with 1000 fits 32 bits, which is all C defines. */
  predicate ProductFits(errUs: int) {
    -2147483 <= errUs <= 2147483
  }

  lemma FreqAdjPlain(e: int32)
    requires ProductFits(e)
    ensures FreqAdj(e) == Div(-1000 * e, 331)
  {
    I32Fits(e * 1000);
    I32Fits(0 - e * 1000);
  }

  lemma CalibrationRange(e: int32)
    requires ProductFits(e)
    ensures var c := U32(APLL_FREQ_CENTER + Div(-1000 * e, 331));
            APLL_FREQ_MIN <= c <= APLL_FREQ_MAX <==> -1000 <= e <= 1000
    ensures -1000 <= e <= 1000 ==> -3022 <= Div(-1000 * e, 331) <= 3022
  {
  }

  /** Near the centre frequency neither conversion changes anything. */
  lemma FrequencyFits(c: int, adj: int)
    requires APLL_FREQ_MIN <= c <= APLL_FREQ_MAX && -3022 <= adj <= 3022
    ensures 0 <= c + adj < 0x1_0000 && U16(U32(c + adj)) == U32(c + adj) == c + adj
    ensures APLL_FREQ_MIN <= c + adj <= APLL_FREQ_MAX ==> Clamp(c + adj) == c + adj
  {
  }

  lemma CalibratedExactly(d: Drift, e: int32)
    requires ProductFits(e)
    ensures var r := Calibrated(d, e);
            (r.state == Offset <==> -1000 <= e <= 1000) && (r.state == Offset || r.state == Init) &&
            r.centerFreq == U32(APLL_FREQ_CENTER + Div(-1000 * e, 331)) && r.ctr == 0 &&
            r.freq == if r.state == Offset then APLL_FREQ_CENTER + Div(-1000 * e, 331) else d.freq
  {
    FreqAdjPlain(e);
    CalibrationRange(e);
    var center := U32(APLL_FREQ_CENTER + Div(-1000 * e, 331));
    if APLL_FREQ_MIN <= center <= APLL_FREQ_MAX {
      FrequencyFits(APLL_FREQ_CENTER, Div(-1000 * e, 331));
    }
  }

  lemma DivWithin(x: int32)
    ensures -7000000 <= Div(x, 331) <= 7000000
    ensures -3022 <= Div(x, 331) <= 3022 <==> -1000612 <= x <= 1000612
  {
  }

  lemma ProductRange(p: int32)
    ensures var c := U32(APLL_FREQ_CENTER + Div(I32(0 - p), 331));
            APLL_FREQ_MIN <= c <= APLL_FREQ_MAX <==> -1000612 <= p <= 1000612
  {
    if p > -0x8000_0000 {
      I32Fits(0 - p);
    }
    DivWithin(I32(0 - p));
  }

  /** For every error, what decides is the wrapped product. */
  lemma CalibratedByProduct(d: Drift, e: int32)
    ensures Calibrated(d, e).state == Offset <==> -1000612 <= I32(e * 1000) <= 1000612
  {
    ProductRange(I32(e * 1000));
  }

  /** Calibration is accepted exactly for errors of at most 1000 us, when the product fits. */
  lemma CalibrationAcceptedExactly(d: Drift, prevSduRef: uint32, frameStart: uint32)
    requires d.state == Calib && d.ctr == 99
    requires ProductFits(CalibErr(prevSduRef, d.measStartUs))
    ensures var e := CalibErr(prevSduRef, d.measStartUs);
            var r := DriftStep(d, prevSduRef, frameStart);
            (r.state == Offset <==> -1000 <= e <= 1000) && (r.state == Offset || r.state == Init) &&
            r.centerFreq == U32(APLL_FREQ_CENTER + Div(-1000 * e, 331)) &&
            r.freq == if r.state == Offset then APLL_FREQ_CENTER + Div(-1000 * e, 331) else d.freq
  {
    CalibratedExactly(d, CalibErr(prevSduRef, d.measStartUs));
  }

  /**
   Without that bound it fails: with a wrapping product, references 4.4 s apart over a period of
   100 ms calibrate to the centre frequency.
   */
  lemma CalibrationAcceptsWrappedProduct(d: Drift, frameStart: uint32)
    requires d.state == Calib && d.ctr == 99 && d.measStartUs == 1
    ensures CalibErr(4394968, 1) == -4294967
    ensures DriftStep(d, 4394968, frameStart).state == Offset
    ensures DriftStep(d, 4394968, frameStart).freq == APLL_FREQ_CENTER
  {
  }

  /* ---------- all runs ---------- */

  datatype Call = Call(prevSduRef: uint32, frameStart: uint32)

  /** The zeroed control block, with the PLL at the frequency the I2S driver set. */
  const START: Drift := Drift(Init, 0, 0, 0, APLL_FREQ_CENTER)

  function DriftRun(calls: seq<Call>): Drift {
    if calls == [] then START
    else
      var c := calls[|calls| - 1];
      DriftStep(DriftRun(calls[..|calls| - 1]), c.prevSduRef, c.frameStart)
  }

  ghost predicate DriftInv(d: Drift) {
    d.ctr < 100 &&
    (d.state == Init ==> d.ctr == 0) &&
    (d.state == Offset || d.state == Locked ==> APLL_FREQ_MIN <= d.centerFreq <= APLL_FREQ_MAX) &&
    APLL_FREQ_MIN <= d.freq <= APLL_FREQ_MAX
  }

  lemma HalvedBounds(e: int32)
    requires -500 <= e <= 500
    ensures var adj := FreqAdj(Div(e, DRIFT_REGULATOR_DIV_FACTOR));
            -755 <= adj <= 755 && (e >= 2 ==> adj < 0) && (e <= -2 ==> adj > 0)
  {
    FreqAdjPlain(Div(e, DRIFT_REGULATOR_DIV_FACTOR));
  }

  /** The regulator's correction is small and turned against the error. */
  lemma CorrectionBounds(sduRef: uint32, frameStart: uint32)
    ensures var e := ErrUs(sduRef, frameStart);
            var adj := FreqAdj(Div(e, DRIFT_REGULATOR_DIV_FACTOR));
            -755 <= adj <= 755 && (e >= 2 ==> adj < 0) && (e <= -2 ==> adj > 0)
  {
    ErrUsIsCentredResidue(sduRef, frameStart);
    HalvedBounds(ErrUs(sduRef, frameStart));
  }

  /** A regulated frequency never leaves 16 bits, so only the clamp limits it. */
  lemma RegulatedFreqFits(d: Drift, prevSduRef: uint32, frameStart: uint32)
    requires DriftInv(d) && (d.state == Offset || d.state == Locked) && d.ctr == 99
    ensures var adj := FreqAdj(Div(ErrUs(prevSduRef, frameStart), DRIFT_REGULATOR_DIV_FACTOR));
            0 <= d.centerFreq + adj < 0x1_0000 &&
            DriftStep(d, prevSduRef, frameStart).freq == Clamp(d.centerFreq + adj)
  {
    CorrectionBounds(prevSduRef, frameStart);
    FrequencyFits(d.centerFreq, FreqAdj(Div(ErrUs(prevSduRef, frameStart), DRIFT_REGULATOR_DIV_FACTOR)));
  }

  lemma DriftInvStep(d: Drift, prevSduRef: uint32, frameStart: uint32)
    requires DriftInv(d)
    ensures DriftInv(DriftStep(d, prevSduRef, frameStart))
  {
  }

  /** Along every run the counter is below 100 and the PLL stays within its range. */
  lemma {:induction false} DriftInvHolds(calls: seq<Call>)
    ensures DriftInv(DriftRun(calls))
  {
    if calls == [] {
    } else {
      DriftInvHolds(calls[..|calls| - 1]);
      var c := calls[|calls| - 1];
      DriftInvStep(DriftRun(calls[..|calls| - 1]), c.prevSduRef, c.frameStart);
    }
  }

  /** The first reference starts a calibration, and nothing else happens in INIT. */
  lemma InitExactly(d: Drift, prevSduRef: uint32, frameStart: uint32)
    requires d.state == Init
    ensures var r := DriftStep(d, prevSduRef, frameStart);
            r.ctr == d.ctr && r.centerFreq == d.centerFreq && r.freq == d.freq &&
            (r.state == Calib <==> prevSduRef != 0) && (r.state == Init <==> prevSduRef == 0) &&
            r.measStartUs == if prevSduRef != 0 then prevSduRef else d.measStartUs
  {
  }

  /** In the other states 99 of 100 calls only count. */
  lemma CountsExactly(d: Drift, prevSduRef: uint32, frameStart: uint32)
    requires DriftInv(d) && d.state != Init
    ensures var r := DriftStep(d, prevSduRef, frameStart);
            (d.ctr < 99 ==> r == d.(ctr := d.ctr + 1)) &&
            (d.ctr == 99 ==> r.ctr == 0 && r.measStartUs == d.measStartUs)
  {
  }

  /**
   The lock has hysteresis: it is entered exactly from OFFSET, when the 100th call sees an error below
   32 us, and left exactly when the 100th call sees one of 66 us or more, so no error that locks can
   unlock. The centre frequency stays.
   */
  lemma LockHysteresis(d: Drift, prevSduRef: uint32, frameStart: uint32)
    requires DriftInv(d)
    ensures var r := DriftStep(d, prevSduRef, frameStart);
            var e := ErrUs(prevSduRef, frameStart);
            (d.state != Locked ==>
               (r.state == Locked <==> d.state == Offset && d.ctr == 99 && -32 < e < 32)) &&
            (d.state == Offset ==> r.state == Locked || r.state == Offset) &&
            (d.state == Locked ==>
               (r.state != Locked <==> d.ctr == 99 && (e >= 66 || e <= -66)) &&
               (r.state != Locked ==> r.state == Init)) &&
            (d.state == Offset || d.state == Locked ==> r.centerFreq == d.centerFreq)
  {
  }

  /* ---------- the way to the lock ---------- */

  /** The least number of calls from INIT to a state. */
  function Age(d: Drift): nat {
    match d.state
    case Init => 0
    case Calib => 1 + d.ctr
    case Offset => 101 + d.ctr
    case Locked => 201 + d.ctr
  }

  lemma AgeStep(d: Drift, prevSduRef: uint32, frameStart: uint32)
    requires DriftInv(d)
    ensures Age(DriftStep(d, prevSduRef, frameStart)) <= Age(d) + 1
  {
  }

  lemma {:induction false} RunNext(calls: seq<Call>, n: nat)
    requires n < |calls|
    ensures DriftRun(calls[..n + 1])
         == DriftStep(DriftRun(calls[..n]), calls[n].prevSduRef, calls[n].frameStart)
  {
    var all := calls[..n + 1];
    assert all[..|all| - 1] == calls[..n];
  }

  /** From INIT no state is reached before its age. */
  lemma {:induction false} NotEarlier(calls: seq<Call>, a: nat, n: nat)
    requires a <= n <= |calls| && DriftRun(calls[..a]).state == Init
    ensures Age(DriftRun(calls[..n])) <= n - a
    decreases n
  {
    if n == a {
    } else {
      NotEarlier(calls, a, n - 1);
      RunNext(calls, n - 1);
      DriftInvHolds(calls[..n - 1]);
      AgeStep(DriftRun(calls[..n - 1]), calls[n - 1].prevSduRef, calls[n - 1].frameStart);
    }
  }

  /** Calibrating from the first call on. */
  lemma {:induction false} Calibrating(calls: seq<Call>, n: nat)
    requires 1 <= n <= 100 && n <= |calls| && calls[0].prevSduRef != 0
    ensures var d := DriftRun(calls[..n]);
            d.state == Calib && d.ctr == n - 1 && d.measStartUs == calls[0].prevSduRef
    decreases n
  {
    RunNext(calls, n - 1);
    if n == 1 {
      assert calls[..0] == [];
      InitExactly(START, calls[0].prevSduRef, calls[0].frameStart);
    } else {
      Calibrating(calls, n - 1);
      DriftInvHolds(calls[..n - 1]);
      CountsExactly(DriftRun(calls[..n - 1]), calls[n - 1].prevSduRef, calls[n - 1].frameStart);
    }
  }

  /** And then in OFFSET. */
  lemma {:induction false} Offsetting(calls: seq<Call>, n: nat)
    requires 101 <= n <= 200 && n <= |calls| && DriftRun(calls[..101]).state == Offset
    requires DriftRun(calls[..101]).ctr == 0
    ensures var d := DriftRun(calls[..n]); d.state == Offset && d.ctr == n - 101
    decreases n
  {
    if n == 101 {
    } else {
      Offsetting(calls, n - 1);
      RunNext(calls, n - 1);
      DriftInvHolds(calls[..n - 1]);
      CountsExactly(DriftRun(calls[..n - 1]), calls[n - 1].prevSduRef, calls[n - 1].frameStart);
    }
  }

  /** The period of 100 calls that a calibration from the first call on has seen is accepted. */
  predicate Calibrates(calls: seq<Call>)
    requires |calls| > 100
  {
    -1000612 <= I32(CalibErr(calls[100].prevSduRef, calls[0].prevSduRef) * 1000) <= 1000612
  }

  lemma {:induction false} CalibrationEnds(calls: seq<Call>)
    requires |calls| > 100 && calls[0].prevSduRef != 0
    ensures var d := DriftRun(calls[..101]);
            d.ctr == 0 && d.state == if Calibrates(calls) then Offset else Init
  {
    Calibrating(calls, 100);
    RunNext(calls, 100);
    var d := DriftRun(calls[..100]);
    CalibratedByProduct(d, CalibErr(calls[100].prevSduRef, d.measStartUs));
  }

  /**
   From the start the lock takes 201 calls at least, and is there after 201 if and only if the first call
   had a reference, the calibration over the next 100 was accepted, and the last call saw an error below
   32 us.
   */
  lemma {:induction false} LocksFirstExactly(calls: seq<Call>)
    requires |calls| == 201
    ensures DriftRun(calls).state == Locked <==>
            calls[0].prevSduRef != 0 && Calibrates(calls) &&
            -32 < ErrUs(calls[200].prevSduRef, calls[200].frameStart) < 32
    ensures forall n: nat | n < 201 :: DriftRun(calls[..n]).state != Locked
  {
    assert calls[..0] == [] && calls[..201] == calls;
    forall n: nat | n < 201
      ensures DriftRun(calls[..n]).state != Locked
    {
      NotEarlier(calls, 0, n);
    }
    if calls[0].prevSduRef == 0 {
      RunNext(calls, 0);
      InitExactly(START, 0, calls[0].frameStart);
      NotEarlier(calls, 1, 201);
    } else {
      CalibrationEnds(calls);
      if Calibrates(calls) {
        Offsetting(calls, 200);
        RunNext(calls, 200);
        DriftInvHolds(calls[..200]);
        LockHysteresis(DriftRun(calls[..200]), calls[200].prevSduRef, calls[200].frameStart);
      } else {
        NotEarlier(calls, 101, 201);
      }
    }
  }

  lemma NoError(ref: uint32)
    ensures CalibErr(U32(ref + 100000), ref) == 0 && ErrUs(ref, ref) == 0
  {
  }

  /** A block that starts just at its reference. */
  function InTime(ref: uint32): Call {
    Call(ref, ref)
  }

  /** So it does lock: on references 100 ms apart, with blocks that start just there. */
  lemma {:induction false} PerfectClockLocks(ref: uint32)
    requires ref != 0
    ensures DriftRun(seq(201, i => InTime(if i < 100 then ref else U32(ref + 100000)))).state == Locked
  {
    var calls := seq(201, i => InTime(if i < 100 then ref else U32(ref + 100000)));
    NoError(ref);
    NoError(U32(ref + 100000));
    assert calls[0] == InTime(ref) && calls[100] == calls[200] == InTime(U32(ref + 100000));
    LocksFirstExactly(calls);
  }

  /* ---------- the code ---------- */

  class DriftCompensation {
    var state: DriftState
    var ctr: uint16
    var measStartTimeUs: uint32
    var centerFreq: uint32
    /** The value in the PLL register. */
    var hfclkaudio: uint16
    ghost var calls: seq<Call>

    ghost function Value(): Drift
      reads this
    {
      Drift(state, ctr, measStartTimeUs, centerFreq, hfclkaudio)
    }

    /** The control block is where the calls so far put it. */
    ghost predicate Valid()
      reads this
    {
      Value() == DriftRun(calls)
    }

    constructor ()
      ensures Valid() && calls == []
    {
      state, ctr, measStartTimeUs, centerFreq, hfclkaudio := Init, 0, 0, 0, APLL_FREQ_CENTER;
      calls := [];
    }

    /** `hfclkaudio_set`. */
    method HfclkaudioSet(freqValue: uint16)
      modifies this`hfclkaudio
      ensures hfclkaudio == Clamp(freqValue)
    {
      var freqVal := freqValue;
      if freqVal > APLL_FREQ_MAX {
        freqVal := APLL_FREQ_MAX;
      }
      if freqVal < APLL_FREQ_MIN {
        freqVal := APLL_FREQ_MIN;
      }
      hfclkaudio := freqVal;
    }

    /** The counter of the three waiting states; false while waiting. */
    method Elapsed() returns (done: bool)
      modifies this`ctr
      ensures done <==> U16(old(ctr) + 1) >= DRIFT_COMP_WAITING_CNT
      ensures ctr == if done then 0 else U16(old(ctr) + 1)
    {
      ctr := U16(ctr + 1);
      done := ctr >= DRIFT_COMP_WAITING_CNT;
      if done {
        ctr := 0;
      }
    }

    /** The regulator of the states OFFSET and LOCKED; returns the halved error. */
    method Regulate(prevSduRef: uint32, frameStart: uint32) returns (errUs: int32)
      modifies this`hfclkaudio
      ensures errUs == Div(ErrUs(prevSduRef, frameStart), DRIFT_REGULATOR_DIV_FACTOR)
      ensures hfclkaudio == Clamp(U16(U32(centerFreq + FreqAdj(errUs))))
    {
      errUs := Div(ErrUs(prevSduRef, frameStart), DRIFT_REGULATOR_DIV_FACTOR);
      HfclkaudioSet(U16(U32(centerFreq + FreqAdj(errUs))));
    }

    /**
     `audio_datapath_drift_compensation`. The PLL register stays within its range whatever the
     timestamps are.
     */
    method Compensate(prevSduRef: uint32, frameStart: uint32)
      requires Valid()
      modifies this
      ensures Valid() && calls == old(calls) + [Call(prevSduRef, frameStart)]
      ensures Value() == DriftStep(old(Value()), prevSduRef, frameStart)
      ensures APLL_FREQ_MIN <= hfclkaudio <= APLL_FREQ_MAX
    {
      ghost var next := calls + [Call(prevSduRef, frameStart)];
      assert next[..|next| - 1] == calls;
      match state {
        case Init =>
          if prevSduRef != 0 {
            measStartTimeUs := prevSduRef;
            state := Calib;
          }
        case Calib =>
          var done := Elapsed();
          if done {
            var errUs := CalibErr(prevSduRef, measStartTimeUs);
            centerFreq := U32(APLL_FREQ_CENTER + FreqAdj(errUs));
            if centerFreq > APLL_FREQ_MAX || centerFreq < APLL_FREQ_MIN {
              state := Init;
            } else {
              HfclkaudioSet(U16(centerFreq));
              state := Offset;
            }
          }
        case Offset =>
          var done := Elapsed();
          if done {
            var errUs := Regulate(prevSduRef, frameStart);
            if errUs < DRIFT_ERR_THRESH_LOCK && errUs > -DRIFT_ERR_THRESH_LOCK {
              state := Locked;
            }
          }
        case Locked =>
          var done := Elapsed();
          if done {
            var errUs := Regulate(prevSduRef, frameStart);
            if errUs > DRIFT_ERR_THRESH_UNLOCK || errUs < -DRIFT_ERR_THRESH_UNLOCK {
              state := Init;
            }
          }
      }
      calls := next;
      DriftInvHolds(next);
    }
  }
}
