/**
 The streamer's functions as they are written, each run from start to end: they take the steps of
 `Lc3Streamer`, so what holds of all runs there holds of them.
 */
module Lc3StreamerCode {
  import opened CInt
  import opened Common
  import opened Lc3File
  import opened Lc3Streamer

  /** The active block goes back to the slab. */
  function Freed(s: Stream): (r: Stream)
    requires Shape(s) && !s.caller.Submit?
    ensures Shape(r)
  {
    if s.active.Some? then s.(free := s.free[s.active.value := true], active := None) else s
  }

  /** `lc3_streamer_next_frame_get`. */
  function CallToEnd(s: Stream): (r: (Stream, Result))
    requires Shape(s) && s.caller == Outside
    ensures Shape(r.0)
  {
    var freed := Freed(s);
    if s.state != Playing && s.state != PlayingLastFrame then (s, Fault)
    else if s.state == PlayingLastFrame then (freed.(state := Ended), EndOfStream)
    else if s.filled == [] then (freed, NotReady)
    else (freed.(active := Some(s.filled[0]), filled := s.filled[1..], pending := true),
          Success(s.slab[s.filled[0]]))
  }

  /** The end of `put_next_frame_to_fifo`, once the file has given `res` into block `b`. */
  function PutBlock(s: Stream, b: nat, res: ReadResult, next: nat): (r: Stream)
    requires Shape(s) && s.worker.Alloc? && b < NUM_FRAMES
    requires |Written(res)| <= MAX_FRAME_SIZE && next <= |s.file|
    ensures Shape(r) && (r.worker == Rest || r.worker == EndOfFile)
    ensures s.worker.again ==> r.worker == Rest
    ensures r.pending == s.pending && r.caller == s.caller
  {
    var slab := s.slab[b := Overwrite(s.slab[b], Written(res))];
    var read := s.(slab := slab, pos := next, free := s.free[b := false], worker := Rest);
    if res.Frame? then
      if |s.filled| >= NUM_FRAMES then read.(state := Ended) else read.(filled := s.filled + [b])
    else
      var undone := read.(free := s.free[b := false][b := true]);
      if res == NoData && !s.worker.again then undone.(worker := EndOfFile)
      else undone.(state := Ended)
  }

  /** `put_next_frame_to_fifo`. */
  function PutToEnd(s: Stream, second: bool, stale: uint8): (r: Stream)
    requires Shape(s) && s.worker.Alloc?
    ensures Shape(r) && (r.worker == Rest || r.worker == EndOfFile)
    ensures s.worker.again ==> r.worker == Rest
    ensures r.pending == s.pending && r.caller == s.caller
  {
    if !s.free[0] && !s.free[1] then s.(worker := Rest, state := Ended)
    else
      var b := Pick(s.free, second);
      FrameFits(s.file, s.pos, MAX_FRAME_SIZE, stale);
      PutBlock(s, b, FrameAt(s.file, s.pos, MAX_FRAME_SIZE, stale).0,
               FrameAt(s.file, s.pos, MAX_FRAME_SIZE, stale).1)
  }

  /** What `next_frame_load` does at the end of the file, `stream_loop` included. */
  function EndToEnd(s: Stream, second: bool, stale: uint8): (r: Stream)
    requires Shape(s) && s.worker == EndOfFile
    ensures Shape(r) && r.worker == Rest && r.pending == s.pending && r.caller == s.caller
  {
    var s1 := WorkerNext(s, second, stale);
    if s1.worker == Rest then s1 else PutToEnd(s1, second, stale)
  }

  /** `next_frame_load`, with the choices for its first load and for the one after a loop. */
  function LoadToEnd(s: Stream, first: Event, looped: Event): (r: Stream)
    requires Shape(s) && s.worker == Rest && s.pending && first.WorkerStep? && looped.WorkerStep?
    ensures Shape(r) && r.worker == Rest
  {
    var s1 := PutToEnd(WorkerNext(s, first.second, first.stale), first.second, first.stale);
    if s1.worker == Rest then s1 else EndToEnd(s1, looped.second, looped.stale)
  }

  lemma RunAppend(w: World, a: seq<Event>, b: seq<Event>)
    requires Shape(w.s)
    ensures Run(w, a + b) == Run(Run(w, a), b)
    decreases |a|
  {
    if a == [] {
      assert a + b == b;
    } else {
      assert (a + b)[1..] == a[1..] + b;
      RunAppend(Next(w, a[0]), a[1..], b);
    }
  }

  lemma RunOne(w: World, e: Event)
    requires Shape(w.s)
    ensures Run(w, [e]) == Next(w, e)
  {
    assert [e][1..] == [];
    assert Run(Next(w, e), []) == Next(w, e);
  }

  /** Reading and locking, uninterrupted. */
  function ReadToEnd(s: Stream, second: bool, stale: uint8): (r: Stream)
    requires Shape(s) && s.worker.Read?
    ensures Shape(r)
  {
    var read := WorkerRead(s, stale);
    if read.worker.Lock? then WorkerNext(read, second, stale) else read
  }

  lemma BlockReads(s: Stream, s1: Stream, b: nat, second: bool, stale: uint8)
    requires Shape(s) && s.worker.Alloc? && b < NUM_FRAMES
    requires s1 == s.(free := s.free[b := false], worker := Read(b, s.worker.again))
    ensures var (res, next) := FrameAt(s.file, s.pos, MAX_FRAME_SIZE, stale);
            |Written(res)| <= MAX_FRAME_SIZE && next <= |s.file| &&
            PutBlock(s, b, res, next) == ReadToEnd(s1, second, stale)
  {
    FrameFits(s.file, s.pos, MAX_FRAME_SIZE, stale);
  }

  lemma PutReads(s: Stream, second: bool, stale: uint8)
    requires Shape(s) && s.worker.Alloc?
    ensures var s1 := WorkerNext(s, second, stale);
            PutToEnd(s, second, stale) == if s1.worker.Read? then ReadToEnd(s1, second, stale) else s1
  {
    if s.free[0] || s.free[1] {
      var b := Pick(s.free, second);
      var s1 := s.(free := s.free[b := false], worker := Read(b, s.worker.again));
      assert WorkerNext(s, second, stale) == s1;
      var (res, next) := FrameAt(s.file, s.pos, MAX_FRAME_SIZE, stale);
      FrameFits(s.file, s.pos, MAX_FRAME_SIZE, stale);
      assert PutToEnd(s, second, stale) == PutBlock(s, b, res, next);
      BlockReads(s, s1, b, second, stale);
    }
  }

  lemma ReadIsRun(w: World, e: Event) returns (evs: seq<Event>)
    requires Shape(w.s) && w.s.worker.Read? && e.WorkerStep?
    ensures Run(w, evs).s == ReadToEnd(w.s, e.second, e.stale)
    ensures forall i | 0 <= i < |evs| :: evs[i].WorkerStep?
  {
    evs := [e];
    RunOne(w, e);
    var read := Next(w, e);
    if read.s.worker.Lock? {
      RunAppend(w, [e], [e]);
      RunOne(read, e);
      evs := [e] + [e];
    }
  }

  /** An uninterrupted load of one frame is a run of the worker. */
  lemma PutIsRun(w: World, e: Event) returns (evs: seq<Event>)
    requires Shape(w.s) && w.s.worker.Alloc? && e.WorkerStep?
    ensures Run(w, evs).s == PutToEnd(w.s, e.second, e.stale)
    ensures forall i | 0 <= i < |evs| :: evs[i].WorkerStep?
  {
    evs := [e];
    RunOne(w, e);
    PutReads(w.s, e.second, e.stale);
    var w1 := Next(w, e);
    if w1.s.worker.Read? {
      var read := ReadIsRun(w1, e);
      RunAppend(w, [e], read);
      evs := [e] + read;
    }
  }

  /** The end of the file, with the loop if there is one, is a run of the worker. */
  lemma EndIsRun(w: World, e: Event) returns (evs: seq<Event>)
    requires Shape(w.s) && w.s.worker == EndOfFile && e.WorkerStep?
    ensures Run(w, evs).s == EndToEnd(w.s, e.second, e.stale)
    ensures forall i | 0 <= i < |evs| :: evs[i].WorkerStep?
  {
    evs := [e];
    RunOne(w, e);
    var w1 := Next(w, e);
    if w1.s.worker != Rest {
      var put := PutIsRun(w1, e);
      RunAppend(w, evs, put);
      evs := evs + put;
    }
  }

  /** An uninterrupted load is one of the runs considered above. */
  lemma LoadIsRun(w: World, first: Event, looped: Event) returns (evs: seq<Event>)
    requires Shape(w.s) && w.s.worker == Rest && w.s.pending
    requires first.WorkerStep? && looped.WorkerStep?
    ensures Run(w, evs).s == LoadToEnd(w.s, first, looped)
    ensures forall i | 0 <= i < |evs| :: evs[i].WorkerStep?
  {
    RunOne(w, first);
    var w1 := Next(w, first);
    var put := PutIsRun(w1, first);
    RunAppend(w, [first], put);
    evs := [first] + put;
    var w2 := Run(w, evs);
    if w2.s.worker != Rest {
      var end := EndIsRun(w2, looped);
      RunAppend(w, evs, end);
      evs := evs + end;
    }
  }

  lemma {:induction false} WorkerRunKeepsOut(w: World, evs: seq<Event>)
    requires Shape(w.s) && forall i | 0 <= i < |evs| :: evs[i].WorkerStep?
    ensures Run(w, evs).out == w.out
    decreases |evs|
  {
    if evs == [] {
    } else {
      assert evs[0].WorkerStep?;
      WorkerRunKeepsOut(Next(w, evs[0]), evs[1..]);
    }
  }

  lemma Settled(w: World, r: World, frames: seq<Bytes>)
    requires Shape(w.s) && Shape(r.s) && |frames| > 0
    requires OneToken(r.s) && Ending(r, frames) && Ending(w, frames) && w.s.state == Playing
    requires r.out == w.out && r.s.loops == w.s.loops
    requires r.s.worker == Rest && !r.s.pending && r.s.caller == Outside
    ensures (r.s.state == Playing && |r.s.filled| == 1)
            || (r.s.state == PlayingLastFrame && !w.s.loops && Delivered(w.out) == |frames|)
  {
  }

  lemma LoadEnds(s: Stream, first: Event, looped: Event)
    requires Shape(s) && s.worker == Rest && s.pending && first.WorkerStep? && looped.WorkerStep?
    ensures var r := LoadToEnd(s, first, looped); !r.pending && r.caller == s.caller
  {
  }

  /**
   A load that is run does not fail: afterwards a block is ready, or the last frame of a stream that
   does not loop has been delivered.
   */
  lemma LoadSettles(w: World, frames: seq<Bytes>, first: Event, looped: Event)
    requires Inv(w, frames) && w.s.worker == Rest && w.s.pending && w.s.caller == Outside
    requires first.WorkerStep? && looped.WorkerStep?
    ensures var r := LoadToEnd(w.s, first, looped);
            (r.state == Playing && |r.filled| == 1)
            || (r.state == PlayingLastFrame && !w.s.loops && Delivered(w.out) == |frames|)
  {
    var evs := LoadIsRun(w, first, looped);
    WorkerRunKeepsOut(w, evs);
    DeliversFramesInOrder(w, evs, frames);
    RunKeepsFile(w, evs);
    LoadEnds(w.s, first, looped);
    assert OneToken(w.s) && w.s.state == Playing;
    Settled(w, Run(w, evs), frames);
  }

  /** A run of `n` caller steps. */
  function CallerSteps(n: nat): seq<Event> {
    seq(n, _ => CallerStep)
  }

  lemma OneMore(w: World, n: nat)
    requires Shape(w.s)
    ensures Run(w, CallerSteps(n + 1)) == Next(Run(w, CallerSteps(n)), CallerStep)
  {
    assert CallerSteps(n + 1) == CallerSteps(n) + [CallerStep];
    RunAppend(w, CallerSteps(n), [CallerStep]);
    RunOne(Run(w, CallerSteps(n)), CallerStep);
  }

  lemma FreesFirst(w: World)
    requires Shape(w.s) && w.s.caller == Outside
    requires w.s.state == Playing || w.s.state == PlayingLastFrame
    ensures Run(w, CallerSteps(2)) == w.(s := Freed(w.s).(caller := CheckLast))
  {
    assert Run(w, CallerSteps(0)) == w;
    OneMore(w, 0);
    OneMore(w, 1);
  }

  lemma EndsStream(w: World)
    requires Shape(w.s) && w.s.caller == Outside && w.s.state == PlayingLastFrame
    ensures Run(w, CallerSteps(3)) == w.(s := Freed(w.s).(state := Ended), out := w.out + [EndOfStream])
  {
    FreesFirst(w);
    OneMore(w, 2);
  }

  lemma LooksForBlock(w: World)
    requires Shape(w.s) && w.s.caller == Outside && w.s.state == Playing
    ensures Run(w, CallerSteps(3)) == w.(s := Freed(w.s).(caller := GetFilled))
  {
    FreesFirst(w);
    OneMore(w, 2);
  }

  lemma TakesBlock(w: World)
    requires Shape(w.s) && w.s.caller == Outside && w.s.state == Playing
    ensures var r := Run(w, CallerSteps(4));
            if w.s.filled == [] then r == w.(s := Freed(w.s), out := w.out + [NotReady])
            else r == w.(s := Freed(w.s).(active := Some(w.s.filled[0]), filled := w.s.filled[1..],
                                          caller := Submit))
  {
    LooksForBlock(w);
    OneMore(w, 3);
  }

  lemma SubmitStep(w: World)
    requires Shape(w.s) && w.s.caller == Submit
    ensures Next(w, CallerStep)
         == w.(s := w.s.(pending := true, caller := Outside),
               out := w.out + [Success(w.s.slab[w.s.active.value])])
  {
  }

  lemma SubmitsLoad(w: World)
    requires Shape(w.s) && w.s.caller == Outside && w.s.state == Playing && w.s.filled != []
    ensures var b := w.s.filled[0];
            Run(w, CallerSteps(5))
            == w.(s := Freed(w.s).(active := Some(b), filled := w.s.filled[1..], pending := true),
                  out := w.out + [Success(w.s.slab[b])])
  {
    TakesBlock(w);
    OneMore(w, 4);
    SubmitStep(Run(w, CallerSteps(4)));
  }

  /** The number of steps an uninterrupted call takes. */
  function CallLength(s: Stream): nat {
    if s.state != Playing && s.state != PlayingLastFrame then 1
    else if s.state == PlayingLastFrame then 3
    else if s.filled == [] then 4
    else 5
  }

  /** An uninterrupted call is one of the runs considered above, and returns its last result. */
  lemma CallIsRun(w: World)
    requires Shape(w.s) && w.s.caller == Outside
    ensures var (s, res) := CallToEnd(w.s);
            Run(w, CallerSteps(CallLength(w.s))) == w.(s := s, out := w.out + [res])
  {
    if w.s.state != Playing && w.s.state != PlayingLastFrame {
      assert Run(w, CallerSteps(0)) == w;
      OneMore(w, 0);
    } else if w.s.state == PlayingLastFrame {
      EndsStream(w);
    } else if w.s.filled == [] {
      TakesBlock(w);
    } else {
      SubmitsLoad(w);
    }
  }

  /** An uninterrupted call is told "not ready" exactly while the load it called for before is under way. */
  lemma CallNotReadyExactly(w: World, frames: seq<Bytes>)
    requires Inv(w, frames) && w.s.caller == Outside
    ensures CallToEnd(w.s).1 == NotReady <==> w.s.state == Playing && Busy(w.s)
  {
    assert OneToken(w.s);
  }

  /** What `put_next_frame_to_fifo` returns: 0, -ENODATA or another error. */
  datatype Put = Stored | Empty | Failed

  /** What `next_frame_load`, or `stream_loop` if `again`, makes of it. */
  function Reacts(s: Stream, ret: Put, again: bool): Stream {
    match ret
    case Stored => s
    case Empty => if again then s.(state := Ended) else s.(worker := EndOfFile)
    case Failed => s.(state := Ended)
  }

  /** What a load or registration that found its slot free can tell from the result. */
  lemma ReactsTells(t: Stream, ret: Put)
    requires t.worker == Rest && t.state == Idle
    ensures var r := Reacts(t, ret, false);
            if ret == Stored then r == t
            else !(r.worker == Rest && r.state == Idle) &&
                 r.(worker := Rest, state := Ended) == t.(state := Ended)
  {
  }

  /** How a load goes on after its first frame. */
  lemma LoadGoesOn(s: Stream, t: Stream, ret: Put, first: Event, looped: Event)
    requires Shape(s) && s.worker == Rest && s.pending && first.WorkerStep? && looped.WorkerStep?
    requires Shape(t) && t.worker == Rest
    requires Reacts(t, ret, false) == PutToEnd(s.(pending := false, worker := Alloc(false)), first.second, first.stale)
    ensures LoadToEnd(s, first, looped)
            == match ret
               case Stored => t
               case Failed => t.(state := Ended)
               case Empty => EndToEnd(t.(worker := EndOfFile), looped.second, looped.stale)
  {
    assert WorkerNext(s, first.second, first.stale) == s.(pending := false, worker := Alloc(false));
  }

  /** The distance between blocks: a frame, rounded up to whole words. */
  const BLOCK_SIZE: nat := 252

  /** The size of `slab_buffer`. */
  const SLAB_SIZE: nat := NUM_FRAMES * MAX_FRAME_SIZE

  /** The blocks in the memory of the slab. */
  function Blocks(slab: Bytes): (r: seq<Bytes>)
    requires |slab| == NUM_FRAMES * BLOCK_SIZE
    ensures |r| == NUM_FRAMES && |r[0]| == |r[1]| == MAX_FRAME_SIZE
  {
    [slab[..MAX_FRAME_SIZE], slab[BLOCK_SIZE..BLOCK_SIZE + MAX_FRAME_SIZE]]
  }

  /** `data` written over `slab` from `at` on. */
  function Spliced(slab: Bytes, at: nat, data: Bytes): (r: Bytes)
    requires at + |data| <= |slab|
    ensures |r| == |slab|
    ensures forall k | 0 <= k < |r| :: r[k] == if at <= k < at + |data| then data[k - at] else slab[k]
  {
    slab[..at] + data + slab[at + |data|..]
  }

  lemma WriteKeepsRest(slab: Bytes, b: nat, data: Bytes)
    requires |slab| == NUM_FRAMES * BLOCK_SIZE && b < NUM_FRAMES && |data| <= MAX_FRAME_SIZE
    requires b == 0 || |data| < MAX_FRAME_SIZE
    ensures Spliced(slab, b * BLOCK_SIZE, data)[SLAB_SIZE..] == slab[SLAB_SIZE..]
  {
    var after := Spliced(slab, b * BLOCK_SIZE, data);
    forall k | SLAB_SIZE <= k < |slab|
      ensures after[k] == slab[k]
    {
    }
  }

  lemma WriteBlock(slab: Bytes, b: nat, data: Bytes)
    requires |slab| == NUM_FRAMES * BLOCK_SIZE && b < NUM_FRAMES && |data| <= MAX_FRAME_SIZE
    ensures Blocks(Spliced(slab, b * BLOCK_SIZE, data))
         == Blocks(slab)[b := Overwrite(Blocks(slab)[b], data)]
  {
    var got := Blocks(Spliced(slab, b * BLOCK_SIZE, data));
    var want := Blocks(slab)[b := Overwrite(Blocks(slab)[b], data)];
    forall i | 0 <= i < MAX_FRAME_SIZE
      ensures got[0][i] == want[0][i] && got[1][i] == want[1][i]
    {
    }
    assert got[0] == want[0];
    assert got[1] == want[1];
  }

  /** A slot whose file has just been opened for registration. */
  function Opened(contents: Bytes, loops: bool, slab: seq<Bytes>): Stream {
    Stream(contents, loops, slab, [true, true], [], None, Idle, OpenPos(contents), false,
           Alloc(false), Outside)
  }

  /**
   Registering a well-formed file of at least one frame succeeds, and leaves the stream from which the
   runs above start.
   */
  lemma RegisterLoadsFirst(s: Stream, frames: seq<Bytes>, loop: bool, second: bool, stale: uint8)
    requires s == Opened(s.file, s.loops, s.slab) && Shape(s)
    requires WellFormed(s.file, frames, MAX_FRAME_SIZE) && frames != []
    ensures var r := PutToEnd(s, second, stale);
            r.worker == Rest && r.state == Idle &&
            Registered(World(r.(state := Playing, loops := loop), [], 1, 1), frames)
  {
    ReadsFramesInOrder(s.file, frames, MAX_FRAME_SIZE, 0, stale);
    assert frames[..0] == [];
    assert FrameAt(s.file, s.pos, MAX_FRAME_SIZE, stale).0 == Frame(frames[0]);
  }

  /** The search of `lc3_streamer_stream_register` for a slot: the first idle one. */
  method FindFreeSlot(states: seq<StreamState>) returns (slot: Option<nat>)
    ensures slot.Some? ==> slot.value < |states| && states[slot.value] == Idle &&
                           forall j | 0 <= j < slot.value :: states[j] != Idle
    ensures slot.None? ==> forall j | 0 <= j < |states| :: states[j] != Idle
  {
    for i := 0 to |states|
      invariant forall j | 0 <= j < i :: states[j] != Idle
    {
      if states[i] == Idle {
        return Some(i);
      }
    }
    return None;
  }

  class Lc3Stream {
    /** `slab_buffer` and the two bytes after it, over which the second block reaches. */
    const slab: array<uint8>
    var file: Lc3FileCtx
    var loops: bool
    var free: seq<bool>
    var filled: seq<nat>
    var active: Option<nat>
    var state: StreamState
    var pending: bool

    /** The stream as a value, given where worker and caller stand. */
    ghost function State(worker: Worker, caller: Caller): Stream
      requires slab.Length == NUM_FRAMES * BLOCK_SIZE
      reads this, slab, file
    {
      Stream(file.file, loops, Blocks(slab[..]), free, filled, active, state, file.pos, pending,
             worker, caller)
    }

    ghost predicate Valid()
      reads this, slab, file
    {
      slab.Length == NUM_FRAMES * BLOCK_SIZE && file.Valid() && Shape(State(Rest, Outside)) &&
      (|file.file| < 2 ==> file.fileId < 0x100)
    }

    /** `lc3_streamer_init` for one stream. */
    constructor ()
      ensures Valid() && state == Idle && active == None && fresh(slab) && fresh(file)
    {
      slab := new uint8[NUM_FRAMES * BLOCK_SIZE];
      file := new Lc3FileCtx([], 0);
      loops, free, filled, active, state, pending := false, [true, true], [], None, Idle, false;
    }

    /**
     Reads the next frame into block `b`. Only a frame of the maximum size in the second block reaches
     past `slab_buffer`.
     */
    method FillBlock(b: nat, stale: uint8) returns (res: ReadResult)
      requires Valid() && b < NUM_FRAMES
      modifies slab, file`pos
      ensures file.Valid() && (res, file.pos) == FrameAt(file.file, old(file.pos), MAX_FRAME_SIZE, stale)
      ensures |Written(res)| <= MAX_FRAME_SIZE
      ensures var blocks := old(Blocks(slab[..]));
              Blocks(slab[..]) == blocks[b := Overwrite(blocks[b], Written(res))]
      ensures b == 0 || |Written(res)| < MAX_FRAME_SIZE ==> slab[SLAB_SIZE..] == old(slab[SLAB_SIZE..])
    {
      res := file.FrameGet(slab, b * BLOCK_SIZE, MAX_FRAME_SIZE, stale);
      WriteBlock(old(slab[..]), b, Written(res));
      if b == 0 || |Written(res)| < MAX_FRAME_SIZE {
        WriteKeepsRest(old(slab[..]), b, Written(res));
        assert slab[SLAB_SIZE..] == slab[..][SLAB_SIZE..];
      }
    }

    /** Locks block `b` if a frame was read into it, and otherwise gives it back. */
    method KeepBlock(b: nat, res: ReadResult, ghost again: bool, ghost s: Stream) returns (ret: Put)
      requires Valid() && b < NUM_FRAMES && Shape(s) && s.worker == Alloc(again)
      requires |Written(res)| <= MAX_FRAME_SIZE && file.pos <= |s.file|
      requires State(Alloc(again), Outside)
            == s.(slab := s.slab[b := Overwrite(s.slab[b], Written(res))], pos := file.pos,
                  free := s.free[b := false])
      modifies this`free, this`filled
      ensures Valid() && Reacts(State(Rest, Outside), ret, again) == PutBlock(s, b, res, file.pos)
    {
      if !res.Frame? {
        free := free[b := true];
        return if res == NoData then Empty else Failed;
      }
      if |filled| >= NUM_FRAMES {
        return Failed;
      }
      filled := filled + [b];
      return Stored;
    }

    method PutNextFrameToFifo(second: bool, stale: uint8, ghost again: bool) returns (ret: Put)
      requires Valid()
      modifies this`free, this`filled, slab, file`pos
      ensures Valid()
      ensures Reacts(State(Rest, Outside), ret, again)
              == PutToEnd(old(State(Alloc(again), Outside)), second, stale)
    {
      if !free[0] && !free[1] {
        return Failed;
      }
      ghost var s := State(Alloc(again), Outside);
      var b := Pick(free, second);
      free := free[b := false];
      var res := FillBlock(b, stale);
      ret := KeepBlock(b, res, again, s);
    }

    /** False when the file cannot be reopened or read. */
    method StreamLoop(second: bool, stale: uint8) returns (ok: bool)
      requires Valid() && loops
      modifies this`free, this`filled, slab, file
      ensures Valid()
      ensures EndToEnd(old(State(EndOfFile, Outside)), second, stale)
              == if ok then State(Rest, Outside) else State(Rest, Outside).(state := Ended)
    {
      file.Close();
      OpensExactly(file.file, file.fileId);
      var isOpen := file.Open();
      if !isOpen {
        return false;
      }
      assert State(Alloc(true), Outside)
          == WorkerNext(old(State(EndOfFile, Outside)), second, stale);
      var put := PutNextFrameToFifo(second, stale, true);
      if put != Stored {
        file.Close();
        return false;
      }
      return true;
    }

    /** The branch of `next_frame_load` for the end of the file. */
    method ReachEnd(second: bool, stale: uint8)
      requires Valid()
      modifies this`free, this`filled, this`state, slab, file
      ensures Valid()
      ensures State(Rest, Outside) == EndToEnd(old(State(EndOfFile, Outside)), second, stale)
    {
      if loops {
        var ok := StreamLoop(second, stale);
        if !ok {
          state := Ended;
        }
      } else {
        state := PlayingLastFrame;
      }
    }

    /** The work item: `next_frame_load`. */
    method NextFrameLoad(first: Event, looped: Event)
      requires Valid() && pending && first.WorkerStep? && looped.WorkerStep?
      modifies this`free, this`filled, this`state, this`pending, slab, file
      ensures Valid()
      ensures State(Rest, Outside) == LoadToEnd(old(State(Rest, Outside)), first, looped)
    {
      ghost var s := State(Rest, Outside);
      pending := false;
      assert State(Alloc(false), Outside) == s.(pending := false, worker := Alloc(false));
      var put := PutNextFrameToFifo(first.second, first.stale, false);
      ghost var t := State(Rest, Outside);
      LoadGoesOn(s, t, put, first, looped);
      if put == Empty {
        assert State(EndOfFile, Outside) == t.(worker := EndOfFile);
        ReachEnd(looped.second, looped.stale);
      } else if put == Failed {
        state := Ended;
        assert State(Rest, Outside) == t.(state := Ended);
      }
    }

    /** `lc3_streamer_next_frame_get`. */
    method NextFrameGet() returns (ret: Result)
      requires Valid()
      modifies this`free, this`filled, this`active, this`state, this`pending
      ensures Valid()
      ensures (State(Rest, Outside), ret) == CallToEnd(old(State(Rest, Outside)))
    {
      if state != Playing && state != PlayingLastFrame {
        return Fault;
      }
      if active.Some? {
        free := free[active.value := true];
        active := None;
      }
      if state == PlayingLastFrame {
        state := Ended;
        return EndOfStream;
      }
      if filled == [] {
        return NotReady;
      }
      var b := filled[0];
      filled := filled[1..];
      active := Some(b);
      pending := true;
      ret := Success(slab[b * BLOCK_SIZE..b * BLOCK_SIZE + MAX_FRAME_SIZE]);
      assert ret.data == Blocks(slab[..])[b];
    }

    /** The first frame of a file just opened. */
    method LoadFirst(loop: bool, second: bool, stale: uint8) returns (ok: bool)
      requires Valid() && state == Idle
      modifies this`free, this`filled, this`state, this`loops, slab, file`pos
      ensures Valid()
      ensures var r := PutToEnd(old(State(Alloc(false), Outside)), second, stale);
              ok == (r.worker == Rest && r.state == Idle) &&
              State(Rest, Outside) == if ok then r.(state := Playing, loops := loop)
                                      else r.(worker := Rest, state := Ended)
    {
      var put := PutNextFrameToFifo(second, stale, false);
      ghost var t := State(Rest, Outside);
      ReactsTells(t, put);
      if put != Stored {
        state := Ended;
        assert State(Rest, Outside) == t.(state := Ended);
        return false;
      }
      state, loops := Playing, loop;
      assert State(Rest, Outside) == t.(state := Playing, loops := loop);
      return true;
    }

    /** `lc3_streamer_stream_register` on an idle slot. */
    method Register(contents: Bytes, loop: bool, second: bool, stale: uint8) returns (ok: bool)
      requires Valid() && state == Idle && active == None
      modifies this, slab
      ensures Valid()
      ensures !Opens(contents) ==> !ok && state == Idle
      ensures Opens(contents) ==>
                var r := PutToEnd(Opened(contents, old(loops), old(Blocks(slab[..]))), second, stale);
                ok == (r.worker == Rest && r.state == Idle) &&
                State(Rest, Outside) == if ok then r.(state := Playing, loops := loop)
                                        else r.(worker := Rest, state := Ended)
    {
      file := new Lc3FileCtx(contents, 0);
      OpensExactly(contents, 0);
      var isOpen := file.Open();
      if !isOpen {
        return false;
      }
      free, filled, pending := [true, true], [], false;
      assert State(Alloc(false), Outside) == Opened(contents, loops, old(Blocks(slab[..])));
      ok := LoadFirst(loop, second, stale);
    }
  }
}
