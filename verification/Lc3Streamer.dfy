/**
 The LC3 streamer: a caller takes frames, a work-queue worker loads them, and the two share a slab of
 two blocks and a FIFO of filled blocks. Caller and worker are cut into the steps between which the
 other one may run.
 */
module Lc3Streamer {
  import opened CInt
  import opened Common
  import opened Lc3File

  const MAX_FRAME_SIZE: nat := 251
  const NUM_FRAMES: nat := 2

  datatype StreamState = Idle | Playing | PlayingLastFrame | Ended

  /** Where the worker stands in `next_frame_load`; `again` while loading after a loop. */
  datatype Worker =
    | Rest
    | Alloc(again: bool)
    | Read(blk: nat, again: bool)
    | Lock(blk: nat)
    | EndOfFile

  /** Where the caller stands in `lc3_streamer_next_frame_get`. */
  datatype Caller = Outside | FreeActive | CheckLast | GetFilled | Submit

  /** What a call returns: success with the block's content, -ENODATA, -ENOMSG or -EFAULT. */
  datatype Result = Success(data: Bytes) | EndOfStream | NotReady | Fault

  datatype Stream = Stream(
    file: Bytes,
    loops: bool,
    slab: seq<Bytes>,
    free: seq<bool>,
    filled: seq<nat>,
    active: Option<nat>,
    state: StreamState,
    pos: nat,
    pending: bool,
    worker: Worker,
    caller: Caller)

  /** The worker's choices: which block the slab gives out and the byte a short read leaves. */
  datatype Event = CallerStep | WorkerStep(second: bool, stale: uint8)

  ghost predicate Shape(s: Stream) {
    |s.slab| == |s.free| == NUM_FRAMES && s.pos <= |s.file| &&
    (forall b | 0 <= b < NUM_FRAMES :: |s.slab[b]| == MAX_FRAME_SIZE) &&
    (forall i | 0 <= i < |s.filled| :: s.filled[i] < NUM_FRAMES) &&
    (s.active.Some? ==> s.active.value < NUM_FRAMES) &&
    (s.worker.Read? || s.worker.Lock? ==> s.worker.blk < NUM_FRAMES) &&
    (s.caller.Submit? ==> s.active.Some?)
  }

  /* ---------- the caller ---------- */

  function CallerNext(s: Stream): (r: (Stream, Option<Result>))
    requires Shape(s)
    ensures Shape(r.0) && r.0.file == s.file && r.0.loops == s.loops
  {
    match s.caller
    case Outside =>
      if s.state != Playing && s.state != PlayingLastFrame then (s, Some(Fault)) else (s.(caller := FreeActive), None)
    case FreeActive =>
      if s.active.Some?
      then (s.(free := s.free[s.active.value := true], active := None, caller := CheckLast), None)
      else (s.(caller := CheckLast), None)
    case CheckLast =>
      if s.state == PlayingLastFrame
      then (s.(state := Ended, caller := Outside), Some(EndOfStream))
      else (s.(caller := GetFilled), None)
    case GetFilled =>
      if s.filled == [] then (s.(caller := Outside), Some(NotReady))
      else (s.(active := Some(s.filled[0]), filled := s.filled[1..], caller := Submit), None)
    case Submit =>
      (s.(pending := true, caller := Outside), Some(Success(s.slab[s.active.value])))
  }

  /* ---------- the worker ---------- */

  function Overwrite(block: Bytes, data: Bytes): (r: Bytes)
    requires |data| <= |block|
    ensures |r| == |block| && data <= r
  {
    data + block[|data|..]
  }

  lemma FrameFits(file: Bytes, pos: nat, bufferSize: nat, stale: uint8)
    requires pos <= |file|
    ensures var (res, next) := FrameAt(file, pos, bufferSize, stale);
            |Written(res)| <= bufferSize && next <= |file|
  {
  }

  function WorkerRead(s: Stream, stale: uint8): (r: Stream)
    requires Shape(s) && s.worker.Read?
    ensures Shape(r) && r.file == s.file && r.loops == s.loops
  {
    var Read(b, again) := s.worker;
    FrameFits(s.file, s.pos, MAX_FRAME_SIZE, stale);
    var res := FrameAt(s.file, s.pos, MAX_FRAME_SIZE, stale).0;
    var slab := s.slab[b := Overwrite(s.slab[b], Written(res))];
    var next := FrameAt(s.file, s.pos, MAX_FRAME_SIZE, stale).1;
    if res.Frame? then s.(slab := slab, pos := next, worker := Lock(b))
    else if res == NoData && !again then
      s.(slab := slab, pos := next, free := s.free[b := true], worker := EndOfFile)
    else
      s.(slab := slab, pos := next, free := s.free[b := true], worker := Rest, state := Ended)
  }

  /**
   What a load makes of what it read, for a file of any form: a frame is going to be locked in its block;
   the end of the file is dealt with next, but ends the stream right after it was opened again; and any
   error ends the stream. Only a frame keeps the block.
   */
  lemma ReadExactly(s: Stream, stale: uint8)
    requires Shape(s) && s.worker.Read?
    ensures var r, b, again := WorkerRead(s, stale), s.worker.blk, s.worker.again;
            var res := FrameAt(s.file, s.pos, MAX_FRAME_SIZE, stale).0;
            r.worker == (if res.Frame? then Lock(b) else if res == NoData && !again then EndOfFile else Rest) &&
            r.state == (if res.Frame? || (res == NoData && !again) then s.state else Ended) &&
            (res.Frame? ==> r.free == s.free) && (!res.Frame? ==> r.free == s.free[b := true]) &&
            Written(res) <= r.slab[b] && r.slab[b][|Written(res)|..] == s.slab[b][|Written(res)|..] &&
            r.filled == s.filled && r.active == s.active && r.caller == s.caller && r.pending == s.pending &&
            r.slab[1 - b] == s.slab[1 - b] && r.pos == FrameAt(s.file, s.pos, MAX_FRAME_SIZE, stale).1
  {
    FrameFits(s.file, s.pos, MAX_FRAME_SIZE, stale);
  }

  /** The vacant block the slab gives out. */
  function Pick(free: seq<bool>, second: bool): nat
    requires |free| == NUM_FRAMES
  {
    if free[1] && (second || !free[0]) then 1 else 0
  }

  function WorkerNext(s: Stream, second: bool, stale: uint8): (r: Stream)
    requires Shape(s)
    ensures Shape(r) && r.file == s.file && r.loops == s.loops
  {
    match s.worker
    case Rest => if s.pending then s.(pending := false, worker := Alloc(false)) else s
    case Alloc(again) =>
      if !s.free[0] && !s.free[1] then s.(state := Ended, worker := Rest)
      else
        var b := Pick(s.free, second);
        s.(free := s.free[b := false], worker := Read(b, again))
    case Read(_, _) => WorkerRead(s, stale)
    case Lock(b) =>
      if |s.filled| >= NUM_FRAMES then s.(state := Ended, worker := Rest)
      else s.(filled := s.filled + [b], worker := Rest)
    case EndOfFile =>
      if !s.loops then s.(state := PlayingLastFrame, worker := Rest)
      else if Opens(s.file) then s.(pos := OpenPos(s.file), worker := Alloc(true))
      else s.(pos := OpenPos(s.file), state := Ended, worker := Rest)
  }

  /**
   The rest of the worker, error paths included: it takes a vacant block if there is one, locks a block if
   the FIFO has room, and else ends the stream; at the end of the file it plays on only when looping, and
   then only if the file opens again.
   */
  lemma WorkerExactly(s: Stream, second: bool, stale: uint8)
    requires Shape(s) && !s.worker.Read? && s.worker != Rest
    ensures var r := WorkerNext(s, second, stale);
            r.slab == s.slab && r.active == s.active && r.caller == s.caller && r.pending == s.pending &&
            match s.worker
            case Alloc(again) =>
              if s.free == [false, false] then r == s.(state := Ended, worker := Rest)
              else r.worker.Read? && r.worker.again == again && s.free[r.worker.blk] &&
                   r == s.(free := s.free[r.worker.blk := false], worker := r.worker)
            case Lock(b) =>
              r.worker == Rest && r.free == s.free && r.pos == s.pos &&
              r.filled == (if |s.filled| < NUM_FRAMES then s.filled + [b] else s.filled) &&
              r.state == if |s.filled| < NUM_FRAMES then s.state else Ended
            case EndOfFile =>
              r.free == s.free && r.filled == s.filled && r.pos == (if s.loops then OpenPos(s.file) else s.pos) &&
              r.worker == (if s.loops && Opens(s.file) then Alloc(true) else Rest) &&
              r.state == if !s.loops then PlayingLastFrame else if Opens(s.file) then s.state else Ended
            case _ => true
  {
  }

  /* ---------- the order of the frames ---------- */

  /** The position of frame `k` in a file of `n` frames played over and over. */
  function Lap(k: nat, n: nat): (r: nat)
    requires n > 0
    ensures r < n
  {
    if k < n then k else Lap(k - n, n)
  }

  lemma AtLeastOnce(n: int, d: int)
    requires n > 0 && d >= 1
    ensures n * d >= n
  {
  }

  lemma RemainderIsUnique(x: int, n: int, q: int, r: int, q': int, r': int)
    requires x == n * q + r == n * q' + r' && 0 <= r < n && 0 <= r' < n
    ensures r == r'
  {
    if q > q' {
      AtLeastOnce(n, q - q');
    } else if q < q' {
      AtLeastOnce(n, q' - q);
    }
  }

  /** Repeated subtraction leaves the remainder of a division with quotient `q`. */
  lemma {:induction false} LapDivides(k: nat, n: nat) returns (q: nat)
    requires n > 0
    ensures k == n * q + Lap(k, n)
    decreases k
  {
    if k < n {
      q := 0;
    } else {
      var p := LapDivides(k - n, n);
      q := p + 1;
      assert n * q == n * p + n;
    }
  }

  lemma LapIsMod(k: nat, n: nat)
    requires n > 0
    ensures Lap(k, n) == k % n
  {
    var q := LapDivides(k, n);
    RemainderIsUnique(k, n, k / n, k % n, q, Lap(k, n));
  }

  lemma {:induction false} LapNext(k: nat, n: nat)
    requires n > 0
    ensures Lap(k + 1, n) == if Lap(k, n) == n - 1 then 0 else Lap(k, n) + 1
    decreases k
  {
    if k < n {
    } else {
      LapNext(k - n, n);
    }
  }

  /** Frame number `k` when the frames are played over and over. */
  function Turn(frames: seq<Bytes>, k: nat): Bytes
    requires |frames| > 0
  {
    frames[Lap(k, |frames|)]
  }

  /* ---------- runs ---------- */

  /**
   A stream with what its calls have returned so far, the number of frames loaded in all, and the
   number loaded since the file was last opened.
   */
  datatype World = World(s: Stream, out: seq<Result>, loaded: nat, idx: nat)

  function Next(w: World, e: Event): (r: World)
    requires Shape(w.s)
    ensures Shape(r.s) && r.s.file == w.s.file && r.s.loops == w.s.loops
  {
    match e
    case CallerStep =>
      var (s, res) := CallerNext(w.s);
      w.(s := s, out := if res.Some? then w.out + [res.value] else w.out)
    case WorkerStep(second, stale) =>
      var s := WorkerNext(w.s, second, stale);
      var read := w.s.worker.Read? && s.worker.Lock?;
      World(s, w.out, if read then w.loaded + 1 else w.loaded,
            if read then w.idx + 1 else if w.s.worker.EndOfFile? && w.s.loops then 0 else w.idx)
  }

  function Run(w: World, evs: seq<Event>): (r: World)
    requires Shape(w.s)
    ensures Shape(r.s)
    decreases |evs|
  {
    if evs == [] then w else Run(Next(w, evs[0]), evs[1..])
  }

  /** The number of frames delivered. */
  function Delivered(out: seq<Result>): nat {
    if out == [] then 0
    else Delivered(out[..|out| - 1]) + (if out[|out| - 1].Success? then 1 else 0)
  }

  /** What a call may return after those in `before`. */
  ghost predicate ResultOk(before: seq<Result>, r: Result, frames: seq<Bytes>, loops: bool)
    requires |frames| > 0
  {
    var k := Delivered(before);
    match r
    case Success(data) => (loops || k < |frames|) && Turn(frames, k) <= data
    case EndOfStream => !loops && k == |frames|
    case NotReady => EndOfStream !in before
    case Fault => EndOfStream in before
  }

  /**
   What the calls may return, in order: the `k`-th success is frame `k`, or `k` modulo the number of
   frames when looping; the end comes after all frames, and never when looping; after it, only faults.
   */
  ghost predicate OutOk(out: seq<Result>, frames: seq<Bytes>, loops: bool)
    requires |frames| > 0
  {
    forall i | 0 <= i < |out| :: ResultOk(out[..i], out[i], frames, loops)
  }

  /** The stream as `lc3_streamer_stream_register` leaves it, with frame 0 loaded. */
  ghost predicate Registered(w: World, frames: seq<Bytes>) {
    var s := w.s;
    Shape(s) && |frames| > 0 && WellFormed(s.file, frames, MAX_FRAME_SIZE) &&
    w.out == [] && w.loaded == 1 && w.idx == 1 && s.pos == Offset(frames, 1) &&
    s.state == Playing && !s.pending && s.worker == Rest && s.caller == Outside && s.active == None &&
    |s.filled| == 1 && s.free == [s.filled[0] != 0, s.filled[0] != 1] &&
    frames[0] <= s.slab[s.filled[0]]
  }

  /* ---------- invariant ---------- */

  /** Block `b` is in exactly one of slab, FIFO, caller and worker. */
  ghost predicate OwnedOnce(s: Stream, b: nat)
    requires Shape(s) && b < NUM_FRAMES
  {
    Count(s.free[b]) + Count(b in s.filled) + Count(s.active == Some(b)) +
    Count((s.worker.Read? || s.worker.Lock?) && s.worker.blk == b) == 1
  }

  /** The load that a delivered frame calls for has not come to its end. */
  predicate Busy(s: Stream) {
    s.pending || s.worker != Rest
  }

  /** While playing there is exactly one of: a load under way, a filled block, a call about to submit. */
  ghost predicate OneToken(s: Stream) {
    |s.filled| <= 1 && (s.pending ==> s.worker == Rest) &&
    if s.state == Playing
    then Count(Busy(s)) + |s.filled| + Count(s.caller == Submit) == 1
    else !Busy(s) && s.filled == [] && s.caller != Submit
  }

  /** Frames taken out of the FIFO. */
  function Taken(w: World): nat {
    Delivered(w.out) + Count(w.s.caller == Submit)
  }

  ghost predicate FilePos(w: World, frames: seq<Bytes>)
    requires Shape(w.s) && |frames| > 0 && WellFormed(w.s.file, frames, MAX_FRAME_SIZE)
  {
    var n, s := |frames|, w.s;
    w.idx <= n && Lap(w.loaded, n) == (if w.idx == n then 0 else w.idx) && (!s.loops ==> w.loaded == w.idx) &&
    (s.state == Playing && s.worker != EndOfFile ==> s.pos == Offset(frames, w.idx)) &&
    (s.worker == EndOfFile ==> w.idx == n) &&
    ((s.worker.Alloc? || s.worker.Read?) && s.worker.again ==> w.idx == 0)
  }

  /** Blocks on their way to the caller hold the frame that comes next. */
  ghost predicate Contents(w: World, frames: seq<Bytes>)
    requires Shape(w.s) && |frames| > 0
  {
    var s := w.s;
    var next := Turn(frames, Taken(w));
    w.loaded == Taken(w) + |s.filled| + Count(s.worker.Lock?) &&
    (s.filled != [] ==> next <= s.slab[s.filled[0]]) &&
    (s.worker.Lock? ==> next <= s.slab[s.worker.blk]) &&
    (s.caller == Submit ==> Turn(frames, Delivered(w.out)) <= s.slab[s.active.value])
  }

  ghost predicate Ending(w: World, frames: seq<Bytes>) {
    var s := w.s;
    s.state != Idle && (s.state != Playing ==> !s.loops && Taken(w) == |frames|) &&
    (s.state == Ended <==> EndOfStream in w.out) &&
    (s.state == Ended ==> s.caller == Outside) &&
    (s.caller == CheckLast || s.caller == GetFilled ==> s.active == None)
  }

  ghost predicate Inv(w: World, frames: seq<Bytes>) {
    Shape(w.s) && |frames| > 0 && WellFormed(w.s.file, frames, MAX_FRAME_SIZE) &&
    (forall b | 0 <= b < NUM_FRAMES :: OwnedOnce(w.s, b)) &&
    OneToken(w.s) && FilePos(w, frames) && Contents(w, frames) && Ending(w, frames) &&
    OutOk(w.out, frames, w.s.loops)
  }

  lemma RegisteredInv(w: World, frames: seq<Bytes>)
    requires Registered(w, frames)
    ensures Inv(w, frames)
  {
  }

  /* ---------- steps ---------- */

  lemma OutAppend(out: seq<Result>, r: Result, frames: seq<Bytes>, loops: bool)
    requires |frames| > 0 && OutOk(out, frames, loops)
    requires ResultOk(out, r, frames, loops)
    ensures OutOk(out + [r], frames, loops)
  {
    var all := out + [r];
    forall i | 0 <= i < |all|
      ensures ResultOk(all[..i], all[i], frames, loops)
    {
      assert all[..i] == out[..i];
    }
  }

  lemma DeliveredAppend(out: seq<Result>, r: Result)
    ensures Delivered(out + [r]) == Delivered(out) + Count(r.Success?)
  {
    var all := out + [r];
    assert all[..|all| - 1] == out;
  }

  /** What a step keeps, invariant by invariant. */
  lemma CallerKeepsOwners(s: Stream, b: nat)
    requires Shape(s) && b < NUM_FRAMES && OwnedOnce(s, b)
    requires |s.filled| <= 1 && (s.caller == CheckLast || s.caller == GetFilled ==> s.active == None)
    ensures OwnedOnce(CallerNext(s).0, b)
  {
  }

  lemma ReadKeepsOwners(s: Stream, b: nat, stale: uint8)
    requires Shape(s) && b < NUM_FRAMES && OwnedOnce(s, b) && s.worker.Read?
    ensures OwnedOnce(WorkerRead(s, stale), b)
  {
    var r := WorkerRead(s, stale);
    assert r.filled == s.filled && r.active == s.active;
    assert r.free == if r.worker.Lock? then s.free else s.free[s.worker.blk := true];
  }

  lemma AllocKeepsOwners(s: Stream, b: nat, second: bool, stale: uint8)
    requires Shape(s) && b < NUM_FRAMES && OwnedOnce(s, b) && s.worker.Alloc?
    ensures OwnedOnce(WorkerNext(s, second, stale), b)
  {
  }

  lemma WorkerKeepsOwners(s: Stream, b: nat, second: bool, stale: uint8)
    requires Shape(s) && b < NUM_FRAMES && OwnedOnce(s, b)
    requires |s.filled| <= 1
    ensures OwnedOnce(WorkerNext(s, second, stale), b)
  {
    match s.worker
    case Read(_, _) => ReadKeepsOwners(s, b, stale);
    case Alloc(_) => AllocKeepsOwners(s, b, second, stale);
    case _ =>
  }

  lemma CallerKeepsToken(w: World, frames: seq<Bytes>)
    requires Inv(w, frames)
    ensures OneToken(Next(w, CallerStep).s)
  {
  }

  lemma CallerResultOk(w: World, frames: seq<Bytes>)
    requires Inv(w, frames) && CallerNext(w.s).1.Some?
    ensures ResultOk(w.out, CallerNext(w.s).1.value, frames, w.s.loops)
  {
  }

  lemma CallerOut(w: World, frames: seq<Bytes>)
    requires Shape(w.s) && |frames| > 0 && OutOk(w.out, frames, w.s.loops)
    requires CallerNext(w.s).1.Some? ==>
               ResultOk(w.out, CallerNext(w.s).1.value, frames, w.s.loops)
    ensures OutOk(Next(w, CallerStep).out, frames, w.s.loops)
  {
    var res := CallerNext(w.s).1;
    if res.Some? {
      OutAppend(w.out, res.value, frames, w.s.loops);
    }
  }

  lemma CallerTaken(w: World)
    requires Shape(w.s)
    ensures var r := Next(w, CallerStep); Taken(r) == Taken(w) + Count(r.s.caller == Submit)
  {
    var res := CallerNext(w.s).1;
    if res.Some? {
      DeliveredAppend(w.out, res.value);
    }
  }

  lemma CallerKeepsOut(w: World, frames: seq<Bytes>)
    requires Inv(w, frames)
    ensures var r := Next(w, CallerStep);
            OutOk(r.out, frames, r.s.loops) && Taken(r) == Taken(w) + Count(r.s.caller == Submit)
  {
    if CallerNext(w.s).1.Some? {
      CallerResultOk(w, frames);
    }
    CallerOut(w, frames);
    CallerTaken(w);
  }

  lemma CallerKeepsPos(w: World, frames: seq<Bytes>)
    requires Inv(w, frames)
    ensures FilePos(Next(w, CallerStep), frames)
  {
    var r := Next(w, CallerStep);
    assert r.s.pos == w.s.pos && r.s.worker == w.s.worker && r.idx == w.idx && r.loaded == w.loaded;
    assert r.s.state == Playing ==> w.s.state == Playing;
  }

  lemma TakenBlockIsNext(w: World, r: World, frames: seq<Bytes>)
    requires Shape(w.s) && Shape(r.s) && |frames| > 0 && OneToken(w.s) && Contents(w, frames)
    requires w.s.caller == GetFilled && w.s.filled != [] && r.out == w.out && r.loaded == w.loaded
    requires r.s == w.s.(active := Some(w.s.filled[0]), filled := w.s.filled[1..], caller := Submit)
    ensures Contents(r, frames)
  {
    assert Taken(w) == Delivered(w.out) && Taken(r) == Taken(w) + 1;
    assert r.s.filled == [] && !w.s.worker.Lock?;
  }

  lemma CallerContents(w: World, r: World, frames: seq<Bytes>)
    requires Shape(w.s) && Shape(r.s) && |frames| > 0 && OneToken(w.s) && Contents(w, frames)
    requires r == Next(w, CallerStep)
    requires Taken(r) == Taken(w) + Count(r.s.caller == Submit)
    ensures Contents(r, frames)
  {
    assert r.s.slab == w.s.slab && r.s.worker == w.s.worker && r.loaded == w.loaded;
    if w.s.caller == GetFilled && w.s.filled != [] {
      TakenBlockIsNext(w, r, frames);
    } else {
      assert r.s.filled == w.s.filled && r.s.caller != Submit && Taken(r) == Taken(w);
    }
  }

  lemma CallerKeepsContents(w: World, frames: seq<Bytes>)
    requires Inv(w, frames)
    ensures Contents(Next(w, CallerStep), frames)
  {
    CallerKeepsOut(w, frames);
    CallerContents(w, Next(w, CallerStep), frames);
  }

  lemma CallerEnding(w: World, r: World, frames: seq<Bytes>)
    requires Shape(w.s) && Shape(r.s) && |frames| > 0 && OneToken(w.s) && Ending(w, frames)
    requires r == Next(w, CallerStep)
    requires Taken(r) == Taken(w) + Count(r.s.caller == Submit)
    ensures Ending(r, frames)
  {
    match w.s.caller
    case CheckLast =>
      assert r.s.active == w.s.active;
      if w.s.state == PlayingLastFrame {
        assert r.out == w.out + [EndOfStream];
      }
    case GetFilled => assert r.s.state == w.s.state;
    case _ => assert r.s.state == w.s.state;
  }

  lemma CallerKeepsEnding(w: World, frames: seq<Bytes>)
    requires Inv(w, frames)
    ensures Ending(Next(w, CallerStep), frames)
  {
    CallerKeepsOut(w, frames);
    CallerEnding(w, Next(w, CallerStep), frames);
  }

  /** The slab always has a vacant block when the worker asks for one. */
  lemma AllocSucceeds(w: World, frames: seq<Bytes>)
    requires Inv(w, frames) && w.s.worker.Alloc?
    ensures w.s.free[0] || w.s.free[1]
  {
    assert OwnedOnce(w.s, 0) && OwnedOnce(w.s, 1);
  }

  lemma WorkerKeepsToken(w: World, frames: seq<Bytes>, second: bool, stale: uint8)
    requires Inv(w, frames)
    ensures OneToken(Next(w, WorkerStep(second, stale)).s)
  {
    if w.s.worker.Read? {
      ReadsFramesInOrder(w.s.file, frames, MAX_FRAME_SIZE, w.idx, stale);
    } else if w.s.worker.Alloc? {
      AllocSucceeds(w, frames);
    }
  }

  /** While there are frames left a read locks the next one; then it finds the end. */
  lemma ReadOutcome(w: World, frames: seq<Bytes>, second: bool, stale: uint8)
    requires Inv(w, frames) && w.s.worker.Read?
    ensures w.idx < |frames| ==>
              var r := Next(w, WorkerStep(second, stale));
              var b := w.s.worker.blk;
              r.s == w.s.(slab := w.s.slab[b := Overwrite(w.s.slab[b], frames[w.idx])],
                          pos := Offset(frames, w.idx + 1), worker := Lock(b)) &&
              r.out == w.out && r.loaded == w.loaded + 1 && r.idx == w.idx + 1
    ensures w.idx == |frames| ==>
              var r := Next(w, WorkerStep(second, stale));
              r.s == w.s.(slab := r.s.slab, pos := r.s.pos, free := r.s.free, worker := EndOfFile) &&
              r.out == w.out && r.loaded == w.loaded && r.idx == w.idx
  {
    ReadsFramesInOrder(w.s.file, frames, MAX_FRAME_SIZE, w.idx, stale);
  }

  lemma LockedPos(w: World, r: World, frames: seq<Bytes>)
    requires Shape(w.s) && Shape(r.s) && |frames| > 0
    requires WellFormed(w.s.file, frames, MAX_FRAME_SIZE) && FilePos(w, frames)
    requires w.idx < |frames|
    requires r.s.file == w.s.file && r.s.loops == w.s.loops && r.s.worker.Lock?
    requires r.s.pos == Offset(frames, w.idx + 1) && r.loaded == w.loaded + 1 && r.idx == w.idx + 1
    ensures FilePos(r, frames)
  {
    LapNext(w.loaded, |frames|);
  }

  lemma EndPos(w: World, r: World, frames: seq<Bytes>)
    requires Shape(w.s) && Shape(r.s) && |frames| > 0
    requires WellFormed(w.s.file, frames, MAX_FRAME_SIZE) && FilePos(w, frames)
    requires w.idx == |frames|
    requires r.s.file == w.s.file && r.s.loops == w.s.loops && r.s.worker == EndOfFile
    requires r.loaded == w.loaded && r.idx == w.idx
    ensures FilePos(r, frames)
  {
  }

  lemma ReadKeepsPos(w: World, frames: seq<Bytes>, second: bool, stale: uint8)
    requires Inv(w, frames) && w.s.worker.Read?
    ensures FilePos(Next(w, WorkerStep(second, stale)), frames)
  {
    ReadOutcome(w, frames, second, stale);
    var r := Next(w, WorkerStep(second, stale));
    if w.idx < |frames| {
      LockedPos(w, r, frames);
    } else {
      EndPos(w, r, frames);
    }
  }

  lemma LockedFrameIsNext(w: World, r: World, frames: seq<Bytes>)
    requires Shape(w.s) && Shape(r.s) && w.s.worker.Read? && OneToken(w.s)
    requires w.s.state == Playing && w.idx < |frames| && Contents(w, frames)
    requires Turn(frames, w.loaded) == frames[w.idx] <= r.s.slab[w.s.worker.blk]
    requires r.s == w.s.(slab := r.s.slab, pos := r.s.pos, worker := Lock(w.s.worker.blk))
    requires r.out == w.out && r.loaded == w.loaded + 1
    ensures Contents(r, frames)
  {
    assert Taken(r) == Taken(w) == w.loaded;
  }

  lemma ReadKeepsContents(w: World, frames: seq<Bytes>, second: bool, stale: uint8)
    requires Inv(w, frames) && w.s.worker.Read?
    ensures Contents(Next(w, WorkerStep(second, stale)), frames)
  {
    ReadOutcome(w, frames, second, stale);
    if w.idx < |frames| {
      LockedFrameIsNext(w, Next(w, WorkerStep(second, stale)), frames);
    }
  }

  lemma ReadKeepsEnding(w: World, frames: seq<Bytes>, second: bool, stale: uint8)
    requires Inv(w, frames) && w.s.worker.Read?
    ensures Ending(Next(w, WorkerStep(second, stale)), frames)
  {
    ReadOutcome(w, frames, second, stale);
  }

  lemma WorkerKeepsPos(w: World, frames: seq<Bytes>, second: bool, stale: uint8)
    requires Inv(w, frames) && !w.s.worker.Read?
    ensures FilePos(Next(w, WorkerStep(second, stale)), frames)
  {
    match w.s.worker
    case Alloc(again) => AllocSucceeds(w, frames);
    case EndOfFile =>
      assert frames[..0] == [];
    case _ =>
  }

  lemma FilledBlockIsNext(w: World, r: World, frames: seq<Bytes>)
    requires Shape(w.s) && Shape(r.s) && |frames| > 0 && OneToken(w.s) && Contents(w, frames)
    requires w.s.worker.Lock? && w.s.filled == []
    requires r == w.(s := w.s.(filled := [w.s.worker.blk], worker := Rest))
    ensures Contents(r, frames)
  {
    assert Taken(r) == Taken(w);
  }

  lemma SameContents(w: World, r: World, frames: seq<Bytes>)
    requires Shape(w.s) && Shape(r.s) && |frames| > 0 && Contents(w, frames)
    requires !w.s.worker.Lock? && !r.s.worker.Lock? && r.out == w.out && r.loaded == w.loaded
    requires (r.s.slab, r.s.filled, r.s.caller, r.s.active)
          == (w.s.slab, w.s.filled, w.s.caller, w.s.active)
    ensures Contents(r, frames)
  {
    assert Taken(r) == Taken(w);
  }

  lemma WorkerKeepsContents(w: World, frames: seq<Bytes>, second: bool, stale: uint8)
    requires Inv(w, frames) && !w.s.worker.Read?
    ensures Contents(Next(w, WorkerStep(second, stale)), frames)
  {
    var r := Next(w, WorkerStep(second, stale));
    if w.s.worker.Lock? {
      assert OneToken(w.s);
      FilledBlockIsNext(w, r, frames);
    } else {
      SameContents(w, r, frames);
    }
  }

  lemma WorkerKeepsEnding(w: World, frames: seq<Bytes>, second: bool, stale: uint8)
    requires Inv(w, frames) && !w.s.worker.Read?
    ensures Ending(Next(w, WorkerStep(second, stale)), frames)
  {
    match w.s.worker
    case Alloc(again) => AllocSucceeds(w, frames);
    case Lock(b) => assert w.s.filled == [];
    case _ =>
  }

  lemma StepKeepsInv(w: World, frames: seq<Bytes>, e: Event)
    requires Inv(w, frames)
    ensures Inv(Next(w, e), frames)
  {
    forall b | 0 <= b < NUM_FRAMES
      ensures OwnedOnce(Next(w, e).s, b)
    {
      assert OwnedOnce(w.s, b);
      match e
      case CallerStep => CallerKeepsOwners(w.s, b);
      case WorkerStep(second, stale) => WorkerKeepsOwners(w.s, b, second, stale);
    }
    match e
    case CallerStep =>
      CallerKeepsToken(w, frames);
      CallerKeepsOut(w, frames);
      CallerKeepsPos(w, frames);
      CallerKeepsContents(w, frames);
      CallerKeepsEnding(w, frames);
    case WorkerStep(second, stale) =>
      WorkerKeepsToken(w, frames, second, stale);
      if w.s.worker.Read? {
        ReadKeepsPos(w, frames, second, stale);
        ReadKeepsContents(w, frames, second, stale);
        ReadKeepsEnding(w, frames, second, stale);
      } else {
        WorkerKeepsPos(w, frames, second, stale);
        WorkerKeepsContents(w, frames, second, stale);
        WorkerKeepsEnding(w, frames, second, stale);
      }
  }

  /** The block last returned is neither given out nor written until the caller comes back. */
  lemma ActiveBlockStays(w: World, frames: seq<Bytes>, second: bool, stale: uint8)
    requires Inv(w, frames) && w.s.active.Some?
    ensures var r := Next(w, WorkerStep(second, stale)).s; var b := w.s.active.value;
            r.active == w.s.active && r.slab[b] == w.s.slab[b] && !r.free[b]
  {
    assert OwnedOnce(w.s, w.s.active.value);
  }

  /**
   Whatever the interleaving of caller and worker, the calls return the frames of the file in order,
   round and round when looping, and the end of the stream exactly after the last one.
   */
  lemma {:induction false} DeliversFramesInOrder(w: World, evs: seq<Event>, frames: seq<Bytes>)
    requires Inv(w, frames)
    ensures Inv(Run(w, evs), frames)
    decreases |evs|
  {
    if evs == [] {
    } else {
      StepKeepsInv(w, frames, evs[0]);
      DeliversFramesInOrder(Next(w, evs[0]), evs[1..], frames);
    }
  }

  lemma {:induction false} RunKeepsFile(w: World, evs: seq<Event>)
    requires Shape(w.s)
    ensures Run(w, evs).s.file == w.s.file && Run(w, evs).s.loops == w.s.loops
    decreases |evs|
  {
    if evs == [] {
    } else {
      RunKeepsFile(Next(w, evs[0]), evs[1..]);
    }
  }

  lemma StreamsFile(w: World, evs: seq<Event>, frames: seq<Bytes>)
    requires Registered(w, frames)
    ensures OutOk(Run(w, evs).out, frames, w.s.loops)
  {
    RegisteredInv(w, frames);
    DeliversFramesInOrder(w, evs, frames);
    RunKeepsFile(w, evs);
  }

  /**
   While playing, a call that looks for a block when no load is under way finds the frame that comes
   next.
   */
  lemma IdleWorkerIsReady(w: World, frames: seq<Bytes>)
    requires Inv(w, frames) && w.s.caller == GetFilled && w.s.state == Playing && !Busy(w.s)
    ensures var r := Next(Next(w, CallerStep), CallerStep);
            |r.out| == |w.out| + 1 && r.out[|w.out|].Success? &&
            Turn(frames, Delivered(w.out)) <= r.out[|w.out|].data
  {
    assert OneToken(w.s) && Contents(w, frames);
  }

  /**
   A call that looks for a block is told "not ready" exactly when a load is under way, or when the worker
   has marked the last frame since the call looked for that mark.
   */
  lemma NotReadyExactly(w: World, frames: seq<Bytes>)
    requires Inv(w, frames) && w.s.caller == GetFilled
    ensures CallerNext(w.s).1 == Some(NotReady) <==> Busy(w.s) || w.s.state == PlayingLastFrame
  {
    assert OneToken(w.s) && Ending(w, frames);
  }
}
