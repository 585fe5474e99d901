/**
 The SDU reference of incoming frames: duplicates are dropped, implausible references replaced by an
 estimate, and gaps flagged.
 */
module SduRef {
  import opened CInt
  import opened Common

  /** The frame is dropped, or its reference is recorded. */
  datatype Outcome = Dropped | Recorded(ref: uint32, notConsecutive: bool)

  /** What becomes of a frame with reference `ref` after one recorded as `prev`; 0 means none. */
  function Accept(prev: uint32, ref: uint32): Outcome {
    if ref == prev && ref != 0 then Dropped
    else if prev == 0 then Recorded(ref, false)
    else
      var delta := U32(ref - prev);
      if delta < FRAME_DURATION_US + FRAME_DURATION_US / 2 then
        if delta > FRAME_DURATION_US + SDU_REF_CH_DELTA_MAX_US ||
           delta < FRAME_DURATION_US - SDU_REF_CH_DELTA_MAX_US
        then Recorded(U32(prev + FRAME_DURATION_US), false)
        else Recorded(ref, false)
      else Recorded(ref, true)
  }

  /** Dropped are duplicates, and no other frames. */
  lemma DroppedExactly(prev: uint32, ref: uint32)
    ensures Accept(prev, ref).Dropped? <==> ref == prev && ref != 0
  {
  }

  /**
   The reference is recorded as given, unless it follows the last one by less than 9990 us or by more
   than 10010 us but less than 15 ms: then it is taken to follow by 10 ms. A gap is a step of 15 ms or more.
   */
  lemma RecordedExactly(prev: uint32, ref: uint32)
    requires ref != prev || ref == 0
    ensures var o, delta := Accept(prev, ref), U32(ref - prev);
            o.Recorded? &&
            o.ref == (if prev != 0 && (delta < 9990 || 10010 < delta < 15000) then U32(prev + 10000) else ref) &&
            (o.notConsecutive <==> prev != 0 && delta >= 15000)
  {
  }

  /** A frame comes in, or the stream is stopped, which forgets the last reference. */
  datatype Input = Frame(ref: uint32) | Stop

  /** A reference as it is recorded: after which one, and whether a gap is flagged. */
  datatype Entry = Entry(prev: uint32, ref: uint32, notConsecutive: bool)

  /** The last reference, 0 for none, and all that were recorded. */
  datatype Record = Record(prev: uint32, log: seq<Entry>)

  function Next(r: Record, x: Input): Record {
    match x
    case Stop => r.(prev := 0)
    case Frame(ref) =>
      match Accept(r.prev, ref)
      case Dropped => r
      case Recorded(u, f) => Record(u, r.log + [Entry(r.prev, u, f)])
  }

  function Run(ins: seq<Input>): Record {
    if ins == [] then Record(0, []) else Next(Run(ins[..|ins| - 1]), ins[|ins| - 1])
  }

  /** The step from one recorded reference to the next, and the flag that goes with it. */
  ghost predicate StepOk(prev: uint32, ref: uint32, flag: bool) {
    prev != 0 ==>
      var delta := U32(ref - prev);
      (9990 <= delta <= 10010 || delta >= 15000) && (flag <==> delta >= 15000)
  }

  lemma EstimateStep(prev: uint32)
    ensures U32(U32(prev + FRAME_DURATION_US) - prev) == FRAME_DURATION_US
  {
  }

  lemma AcceptStepOk(prev: uint32, ref: uint32)
    requires Accept(prev, ref).Recorded?
    ensures StepOk(prev, Accept(prev, ref).ref, Accept(prev, ref).notConsecutive)
  {
    if prev != 0 && U32(ref - prev) < 15000 && !(9990 <= U32(ref - prev) <= 10010) {
      EstimateStep(prev);
    }
  }

  /** Each reference follows the one recorded before it, unless the stream was stopped in between. */
  ghost predicate Chained(r: Record, stopped: bool) {
    (forall i | 0 <= i < |r.log| ::
       r.log[i].prev == 0 || (i > 0 && r.log[i].prev == r.log[i - 1].ref)) &&
    (r.prev == 0 || (r.log != [] && r.prev == r.log[|r.log| - 1].ref)) &&
    (!stopped ==>
       (forall i | 0 <= i < |r.log| :: r.log[i].prev == if i == 0 then 0 else r.log[i - 1].ref) &&
       r.prev == if r.log == [] then 0 else r.log[|r.log| - 1].ref)
  }

  ghost predicate EntriesOk(r: Record) {
    forall i | 0 <= i < |r.log| ::
      var e := r.log[i];
      StepOk(e.prev, e.ref, e.notConsecutive) && (e.prev == 0 ==> !e.notConsecutive)
  }

  lemma NextChained(r: Record, x: Input, stopped: bool)
    requires Chained(r, stopped)
    ensures Chained(Next(r, x), stopped || x == Stop)
  {
  }

  lemma NextEntriesOk(r: Record, x: Input)
    requires EntriesOk(r)
    ensures EntriesOk(Next(r, x))
  {
    if x.Frame? && Accept(r.prev, x.ref).Recorded? {
      AcceptStepOk(r.prev, x.ref);
    }
  }

  /**
   Whatever references arrive and whenever the stream is stopped: each recorded reference follows a
   non-zero predecessor, modulo 2^32, either by one frame give or take 10 us or by at least one and a
   half frames, and only the latter is flagged. The predecessor is the reference recorded before,
   or none when the stream has been stopped since.
   */
  lemma {:induction false} RecordedStepsOk(ins: seq<Input>)
    ensures Chained(Run(ins), Stop in ins) && EntriesOk(Run(ins))
    decreases |ins|
  {
    if ins == [] {
    } else {
      var prefix, x := ins[..|ins| - 1], ins[|ins| - 1];
      RecordedStepsOk(prefix);
      assert ins == prefix + [x];
      NextChained(Run(prefix), x, Stop in prefix);
      NextEntriesOk(Run(prefix), x);
    }
  }

  /** The frames that repeat the reference recorded last, at the time they come in. */
  function Duplicates(ins: seq<Input>): nat {
    if ins == [] then 0
    else
      var most, x := ins[..|ins| - 1], ins[|ins| - 1];
      Duplicates(most) + Count(x.Frame? && x.ref == Run(most).prev && x.ref != 0)
  }

  function Frames(ins: seq<Input>): nat {
    if ins == [] then 0 else Frames(ins[..|ins| - 1]) + Count(ins[|ins| - 1].Frame?)
  }

  /** Every frame that is no duplicate is recorded, once. */
  lemma {:induction false} RecordsAllOthers(ins: seq<Input>)
    ensures |Run(ins).log| + Duplicates(ins) == Frames(ins)
    decreases |ins|
  {
    if ins == [] {
    } else {
      var most, x := ins[..|ins| - 1], ins[|ins| - 1];
      RecordsAllOthers(most);
      if x.Frame? {
        DroppedExactly(Run(most).prev, x.ref);
      }
    }
  }

  /** After a stop nothing is remembered: the next frame is recorded as it comes, whatever came before. */
  lemma {:induction false} StopForgets(ins: seq<Input>, ref: uint32)
    ensures Run(ins + [Stop]) == Run(ins).(prev := 0)
    ensures Run(ins + [Stop] + [Frame(ref)]) == Record(ref, Run(ins).log + [Entry(0, ref, false)])
  {
    var a := ins + [Stop];
    var b := a + [Frame(ref)];
    assert a[..|a| - 1] == ins && b[..|b| - 1] == a;
  }

  /** A frame comes one frame duration after another, give or take 10 us. */
  predicate OneFrameOn(prev: uint32, ref: uint32) {
    var delta := U32(ref - prev);
    9990 <= delta <= 10010
  }

  ghost predicate InPace(refs: seq<uint32>) {
    (forall i | 0 <= i < |refs| :: refs[i] != 0) &&
    forall i | 0 < i < |refs| :: OneFrameOn(refs[i - 1], refs[i])
  }

  function FramesOf(refs: seq<uint32>): (ins: seq<Input>)
    ensures |ins| == |refs| && forall i | 0 <= i < |refs| :: ins[i] == Frame(refs[i])
  {
    seq(|refs|, i requires 0 <= i < |refs| => Frame(refs[i]))
  }

  lemma InPaceNext(prev: uint32, ref: uint32)
    requires ref != 0 && (prev != 0 ==> OneFrameOn(prev, ref))
    ensures Accept(prev, ref) == Recorded(ref, false)
  {
  }

  /** A stream in pace is recorded reference by reference as it comes, and never flagged. */
  lemma {:induction false} InPaceIsRecorded(refs: seq<uint32>)
    requires InPace(refs)
    ensures var r := Run(FramesOf(refs));
            |r.log| == |refs| && r.prev == (if refs == [] then 0 else refs[|refs| - 1]) &&
            forall i | 0 <= i < |refs| :: r.log[i].ref == refs[i] && !r.log[i].notConsecutive
    decreases |refs|
  {
    if refs == [] {
    } else {
      var most, ref := refs[..|refs| - 1], refs[|refs| - 1];
      assert FramesOf(refs)[..|refs| - 1] == FramesOf(most);
      InPaceIsRecorded(most);
      if most != [] {
        assert most[|most| - 1] == refs[|refs| - 2];
      }
      InPaceNext(Run(FramesOf(most)).prev, ref);
    }
  }
}
