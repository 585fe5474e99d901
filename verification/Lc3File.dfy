/**
 LC3 files on the SD card: an 18-byte header followed by frames, each preceded by its length.
 */
module Lc3File {
  import opened CInt
  import opened Common

  const LC3_FILE_ID: int := 0xCC1C
  const HEADER_SIZE: nat := 18

  /** The outcome of `lc3_file_frame_get`, with what it wrote to the buffer. */
  datatype ReadResult = Frame(data: Bytes) | NoData | NoMem | IoError(data: Bytes)

  function Written(res: ReadResult): Bytes {
    if res.Frame? || res.IoError? then res.data else []
  }

  /**
   Reads the frame at `pos`; returns the outcome and the new position. `stale` stands for the high
   byte of the length, which the code leaves uninitialised when a single byte is left in the file.
   */
  function FrameAt(file: Bytes, pos: nat, bufferSize: nat, stale: uint8): (ReadResult, nat)
    requires pos <= |file|
  {
    var got := Min(2, |file| - pos);
    if got == 0 then (NoData, pos)
    else
      var header := Le16(file[pos], if got == 2 then file[pos + 1] else stale);
      var dataPos := pos + got;
      if header == 0 then (NoData, dataPos)
      else if bufferSize < header then (NoMem, dataPos)
      else
        var size := Min(header, |file| - dataPos);
        var data := file[dataPos..dataPos + size];
        (if size != header then IoError(data) else Frame(data), dataPos + size)
  }

  /**
   Exactly when reading at `pos` gives which outcome, and where it stops, for a file of any form. With one
   byte left the length's high byte is whatever was there before.
   */
  lemma FrameAtExactly(file: Bytes, pos: nat, bufferSize: nat, stale: uint8)
    requires pos <= |file|
    ensures var (res, next) := FrameAt(file, pos, bufferSize, stale);
            var left := |file| - pos;
            if left == 0 then res == NoData && next == pos
            else
              var from := if left == 1 then |file| else pos + 2;
              var size := file[pos] + 0x100 * if left == 1 then stale else file[pos + 1];
              (res == NoData <==> size == 0) && (res == NoMem <==> size > bufferSize) &&
              (res == NoData || res == NoMem ==> next == from) &&
              (res.Frame? <==> 0 < size <= bufferSize && from + size <= |file|) &&
              (res.Frame? ==> next == from + size && res.data == file[from..next]) &&
              (res.IoError? <==> 0 < size <= bufferSize && from + size > |file|) &&
              (res.IoError? ==> next == |file| && res.data == file[from..]) &&
              Written(res) == file[from..next]
  {
  }

  /** The id that reading the header leaves, over one read earlier, in a file of any size. */
  function IdRead(file: Bytes, earlier: uint16): uint16 {
    if |file| >= 2 then Le16(file[0], file[1])
    else if |file| == 1 then Le16(file[0], earlier / 0x100)
    else earlier
  }

  /** The file begins with the LC3 id. */
  predicate Opens(file: Bytes) {
    |file| >= 2 && Le16(file[0], file[1]) == LC3_FILE_ID
  }

  /** The position after opening. */
  function OpenPos(file: Bytes): nat {
    Min(HEADER_SIZE, |file|)
  }

  /** A file too short for an id passes only with what an earlier file has left. */
  lemma OpensExactly(file: Bytes, earlier: uint16)
    ensures |file| >= 2 || earlier < 0x100 ==> (IdRead(file, earlier) == LC3_FILE_ID <==> Opens(file))
    ensures |file| == 1 ==> IdRead(file, earlier) % 0x100 == file[0] && IdRead(file, earlier) / 0x100 == earlier / 0x100
    ensures |file| == 0 ==> IdRead(file, earlier) == earlier
    ensures !Opens(file) && IdRead(file, earlier) == LC3_FILE_ID ==>
              |file| < 2 && earlier / 0x100 == LC3_FILE_ID / 0x100
  {
  }

  /* ---------- well-formed files ---------- */

  ghost predicate FramesOk(frames: seq<Bytes>, maxSize: nat) {
    forall i | 0 <= i < |frames| :: 1 <= |frames[i]| <= maxSize && |frames[i]| < 0x1_0000
  }

  function EncodeFrame(data: Bytes): Bytes
    requires |data| < 0x1_0000
  {
    [|data| % 0x100, |data| / 0x100] + data
  }

  /** The frames as they are stored. */
  function Encode(frames: seq<Bytes>): Bytes
    requires forall i | 0 <= i < |frames| :: |frames[i]| < 0x1_0000
  {
    if frames == [] then [] else Encode(frames[..|frames| - 1]) + EncodeFrame(frames[|frames| - 1])
  }

  /** What may follow the last frame: nothing, or a length of zero and then anything. */
  predicate TailOk(tail: Bytes) {
    tail == [] || (|tail| >= 2 && tail[0] == 0 && tail[1] == 0)
  }

  /** `file` is a header, the frames, and a tail. */
  ghost predicate WellFormed(file: Bytes, frames: seq<Bytes>, maxSize: nat) {
    FramesOk(frames, maxSize) && Opens(file) && |file| >= HEADER_SIZE &&
    Encode(frames) <= file[HEADER_SIZE..] && TailOk(file[HEADER_SIZE + |Encode(frames)|..])
  }

  /** Where frame `k` is stored. */
  function Offset(frames: seq<Bytes>, k: nat): nat
    requires k <= |frames| && forall i | 0 <= i < |frames| :: |frames[i]| < 0x1_0000
  {
    HEADER_SIZE + |Encode(frames[..k])|
  }

  lemma {:induction false} EncodePrefix(frames: seq<Bytes>, k: nat)
    requires k <= |frames| && forall i | 0 <= i < |frames| :: |frames[i]| < 0x1_0000
    ensures Encode(frames[..k]) <= Encode(frames)
    decreases |frames|
  {
    if k == |frames| {
      assert frames[..k] == frames;
    } else {
      var most := frames[..|frames| - 1];
      EncodePrefix(most, k);
      assert most[..k] == frames[..k];
    }
  }

  lemma FrameAtOffset(file: Bytes, frames: seq<Bytes>, maxSize: nat, k: nat, stale: uint8)
    requires FramesOk(frames, maxSize) && |file| >= HEADER_SIZE && k < |frames|
    requires Encode(frames[..k + 1]) <= file[HEADER_SIZE..]
    ensures Offset(frames, k + 1) <= |file|
    ensures Offset(frames, k + 1) == Offset(frames, k) + 2 + |frames[k]|
    ensures FrameAt(file, Offset(frames, k), maxSize, stale)
            == (Frame(frames[k]), Offset(frames, k + 1))
  {
    var pos, f := Offset(frames, k), frames[k];
    assert frames[..k + 1][..k] == frames[..k];
    var enc := Encode(frames[..k + 1]);
    assert enc == Encode(frames[..k]) + EncodeFrame(f);
    assert file[HEADER_SIZE..HEADER_SIZE + |enc|] == enc;
    assert file[pos..pos + 2 + |f|] == enc[pos - HEADER_SIZE..] == EncodeFrame(f);
    assert file[pos] == EncodeFrame(f)[0] && file[pos + 1] == EncodeFrame(f)[1];
    assert file[pos + 2..pos + 2 + |f|] == EncodeFrame(f)[2..] == f;
  }

  /**
   Reading a well-formed file frame by frame returns exactly the frames it was written from, then
   reports the end.
   */
  lemma ReadsFramesInOrder(file: Bytes, frames: seq<Bytes>, maxSize: nat, k: nat, stale: uint8)
    requires WellFormed(file, frames, maxSize) && k <= |frames|
    ensures Offset(frames, k) <= |file|
    ensures k < |frames| ==>
              FrameAt(file, Offset(frames, k), maxSize, stale)
              == (Frame(frames[k]), Offset(frames, k + 1))
    ensures k == |frames| ==> FrameAt(file, Offset(frames, k), maxSize, stale).0 == NoData
  {
    EncodePrefix(frames, k);
    if k < |frames| {
      EncodePrefix(frames, k + 1);
      FrameAtOffset(file, frames, maxSize, k, stale);
    } else {
      assert frames[..k] == frames;
      var pos := Offset(frames, k);
      if pos < |file| {
        assert file[HEADER_SIZE + |Encode(frames)|..][0] == file[pos];
        assert file[HEADER_SIZE + |Encode(frames)|..][1] == file[pos + 1];
      }
    }
  }

  /* ---------- the file context ---------- */

  class Lc3FileCtx {
    const file: Bytes
    var pos: nat
    var open: bool
    /** `lc3_header.file_id`, which a file too short for it leaves as it is. */
    var fileId: uint16

    ghost predicate Valid()
      reads this
    {
      pos <= |file|
    }

    constructor (contents: Bytes, earlier: uint16)
      ensures Valid() && file == contents && !open && pos == 0 && fileId == earlier
    {
      file := contents;
      pos := 0;
      open := false;
      fileId := earlier;
    }

    /** `lc3_file_open`; false when the id then in the header is not that of an LC3 file. */
    method Open() returns (ok: bool)
      requires Valid()
      modifies this
      ensures Valid() && pos == OpenPos(file) && open && fileId == IdRead(file, old(fileId))
      ensures ok == (IdRead(file, old(fileId)) == LC3_FILE_ID)
    {
      pos := Min(HEADER_SIZE, |file|);
      open := true;
      if pos >= 2 {
        fileId := Le16(file[0], file[1]);
      } else if pos == 1 {
        fileId := Le16(file[0], fileId / 0x100);
      }
      ok := fileId == LC3_FILE_ID;
    }

    /** `lc3_file_close`. */
    method Close()
      modifies this`open
      ensures !open
    {
      open := false;
    }

    /** `sd_card_read`: at most `size` bytes, moving the position. */
    method Read(size: nat) returns (data: Bytes)
      requires Valid()
      modifies this`pos
      ensures Valid() && pos == old(pos) + |data| && |data| == Min(size, |file| - old(pos))
      ensures data == file[old(pos)..pos]
    {
      var n := Min(size, |file| - pos);
      data := file[pos..pos + n];
      pos := pos + n;
    }

    /** The bytes read arrive in the caller's buffer. */
    static method CopyInto(buffer: array<uint8>, at: nat, data: Bytes)
      requires at + |data| <= buffer.Length
      modifies buffer
      ensures buffer[..] == old(buffer[..at]) + data + old(buffer[at + |data|..])
    {
      for i := 0 to |data|
        invariant buffer[..] == old(buffer[..at]) + data[..i] + old(buffer[at + i..])
      {
        buffer[at + i] := data[i];
        assert buffer[..] == old(buffer[..at]) + data[..i + 1] + old(buffer[at + i + 1..]);
      }
      assert data[..|data|] == data;
    }

    /** `lc3_file_frame_get` into `bufferSize` bytes of `buffer` from `at` on. */
    method FrameGet(buffer: array<uint8>, at: nat, bufferSize: nat, stale: uint8)
      returns (res: ReadResult)
      requires Valid() && at + bufferSize <= buffer.Length
      modifies this`pos, buffer
      ensures Valid() && (res, pos) == FrameAt(file, old(pos), bufferSize, stale)
      ensures |Written(res)| <= bufferSize
      ensures buffer[..] == old(buffer[..at]) + Written(res) + old(buffer[at + |Written(res)|..])
    {
      var head := Read(2);
      if |head| == 0 {
        return NoData;
      }
      var header := Le16(head[0], if |head| == 2 then head[1] else stale);
      if header == 0 {
        return NoData;
      }
      if bufferSize < header {
        return NoMem;
      }
      var data := Read(header);
      assert |data| <= bufferSize;
      CopyInto(buffer, at, data);
      if |data| != header {
        return IoError(data);
      }
      return Frame(data);
    }
  }
}
