/**
 The commands of the PA data protocol: parsing of requests, serialisation of responses, and the same
 two seen from the host.
 */
module PaCommand {
  import opened CInt
  import opened Common
  import opened UartFramer

  const OPCODE_STATUS_GET_REQ: uint8 := 0x00
  const OPCODE_STATUS_GET_RSP: uint8 := 0x01
  const OPCODE_DATA_SEND_REQ: uint8 := 0x10
  const OPCODE_DATA_SEND_RSP: uint8 := 0x11
  const OPCODE_DATA_SEND_COMPLETE: uint8 := 0x12

  const PA_MAX_ADV_SETS: nat := 4

  datatype Command = StatusGet | DataSend(sid: uint8, data: Bytes)

  /** Errors -1, -2 and -3 of the parser. */
  datatype ParseError = BadArgument | BadLength | BadOpcode

  datatype Parsed = Ok(cmd: Command) | Err(error: ParseError)

  /** `pa_cmd_parse`. */
  function Parse(buf: Bytes): Parsed {
    if |buf| < 2 then Err(BadArgument)
    else if buf[0] + 1 > |buf| then Err(BadLength)
    else if buf[1] == OPCODE_STATUS_GET_REQ then Ok(StatusGet)
    else if buf[1] == OPCODE_DATA_SEND_REQ then
      if buf[0] < 3 then Err(BadLength)
      else if buf[3] > PA_MAX_DATA_SIZE then Err(BadLength)
      else if buf[0] < U8(3 + buf[3]) then Err(BadLength)
      else Ok(DataSend(buf[2], buf[4..4 + buf[3]]))
    else Err(BadOpcode)
  }

  /** A request as the host sends it. */
  function EncodeCommand(cmd: Command): Bytes
    requires cmd.DataSend? ==> |cmd.data| <= PA_MAX_DATA_SIZE
  {
    match cmd
    case StatusGet => [1, OPCODE_STATUS_GET_REQ]
    case DataSend(sid, data) => [3 + |data|, OPCODE_DATA_SEND_REQ, sid, |data|] + data
  }

  /** A data send request is recognised exactly when it is there, within the length announced. */
  lemma ParseExact(buf: Bytes, sid: uint8, data: Bytes)
    ensures Parse(buf) == Ok(DataSend(sid, data)) <==>
            |data| <= PA_MAX_DATA_SIZE && |buf| > 0 && 3 + |data| <= buf[0] < |buf| &&
            buf[1..4 + |data|] == [OPCODE_DATA_SEND_REQ, sid, |data|] + data
  {
    if |data| <= PA_MAX_DATA_SIZE && |buf| > 0 && 3 + |data| <= buf[0] < |buf| {
      var n := |data|;
      var found := buf[1..4 + n];
      assert found[3..] == buf[4..4 + n];
      assert found[0] == buf[1] && found[1] == buf[2] && found[2] == buf[3];
      assert ([OPCODE_DATA_SEND_REQ, sid, n] + data)[3..] == data;
      if buf[1] == OPCODE_DATA_SEND_REQ && buf[2] == sid && buf[3] == n && buf[4..4 + n] == data {
        assert found == [OPCODE_DATA_SEND_REQ, sid, n] + data;
      }
    }
  }

  /**
   Encoded, framed by the receiver and parsed, a request comes back the same for every payload of at
   most 251 bytes. 252 bytes, which the protocol allows, are announced by a length the framer skips.
   */
  lemma RoundTripExactly(sid: uint8, data: Bytes)
    requires |data| <= PA_MAX_DATA_SIZE
    ensures var f := EncodeCommand(DataSend(sid, data));
            Parse(f) == Ok(DataSend(sid, data)) && (Frames(f) == [f] <==> |data| <= 251)
  {
    var f := EncodeCommand(DataSend(sid, data));
    assert f[1..4 + |data|] == [OPCODE_DATA_SEND_REQ, sid, |data|] + data;
    ParseExact(f, sid, data);
    if |data| <= 251 {
      assert f[..f[0] + 1] == f && f[f[0] + 1..] == [];
    } else {
      FramesHaveTheirLength(f);
      if |Frames(f)| > 0 {
        assert IsFrame(Frames(f)[0]) && Frames(f)[0] != f;
      }
    }
  }

  lemma StatusGetRoundTrip()
    ensures var f := EncodeCommand(StatusGet); Frames(f) == [f] && Parse(f) == Ok(StatusGet)
  {
    var f := EncodeCommand(StatusGet);
    FramesOfConcat([f]);
    assert Concat([f]) == f + Concat([][..]) == f;
  }

  /* ---------- responses ---------- */

  datatype Adv = Adv(sid: uint8, available: uint8)

  datatype Response =
    | StatusRsp(advs: seq<Adv>)
    | DataSendRsp(result: uint8)
    | Complete

  function Sids(advs: seq<Adv>): (r: Bytes)
    ensures |r| == |advs| && forall i | 0 <= i < |advs| :: r[i] == advs[i].sid
  {
    seq(|advs|, i requires 0 <= i < |advs| => advs[i].sid)
  }

  function Available(advs: seq<Adv>): (r: Bytes)
    ensures |r| == |advs| && forall i | 0 <= i < |advs| :: r[i] == advs[i].available
  {
    seq(|advs|, i requires 0 <= i < |advs| => advs[i].available)
  }

  /** A response as the service sends it. */
  function Encode(rsp: Response): Bytes
    requires rsp.StatusRsp? ==> |rsp.advs| <= PA_MAX_ADV_SETS
  {
    match rsp
    case StatusRsp(advs) =>
      [2 + 2 * |advs|, OPCODE_STATUS_GET_RSP, |advs|] + Sids(advs) + Available(advs)
    case DataSendRsp(result) => [2, OPCODE_DATA_SEND_RSP, result]
    case Complete => [1, OPCODE_DATA_SEND_COMPLETE]
  }

  /** A frame as the host reads it. */
  function Decode(f: Bytes): Option<Response> {
    if |f| < 2 || |f| - 1 != f[0] then None
    else if f[1] == OPCODE_STATUS_GET_RSP then
      var n: int := if |f| < 3 then 0 else f[2];
      if |f| < 3 || |f| != 3 + 2 * n then None
      else
        Some(StatusRsp(seq(n, i requires 0 <= i < n => Adv(f[3 + i], f[3 + n + i]))))
    else if f[1] == OPCODE_DATA_SEND_RSP && |f| == 3 then Some(DataSendRsp(f[2]))
    else if f[1] == OPCODE_DATA_SEND_COMPLETE && |f| == 2 then Some(Complete)
    else None
  }

  lemma ThirdPart(a: Bytes, b: Bytes, c: Bytes, i: nat)
    requires i < |b| && i < |c|
    ensures (a + b + c)[|a| + i] == b[i] && (a + b + c)[|a| + |b| + i] == c[i]
  {
  }

  lemma StatusBytes(advs: seq<Adv>)
    requires |advs| <= PA_MAX_ADV_SETS
    ensures var f, n := Encode(StatusRsp(advs)), |advs|;
            |f| == 3 + 2 * n && f[0] == 2 + 2 * n && f[1] == OPCODE_STATUS_GET_RSP && f[2] == n &&
            forall i | 0 <= i < n :: f[3 + i] == advs[i].sid && f[3 + n + i] == advs[i].available
  {
    var f, n := Encode(StatusRsp(advs)), |advs|;
    var head: Bytes := [2 + 2 * n, OPCODE_STATUS_GET_RSP, n];
    forall i | 0 <= i < n
      ensures f[3 + i] == advs[i].sid && f[3 + n + i] == advs[i].available
    {
      ThirdPart(head, Sids(advs), Available(advs), i);
    }
  }

  lemma ResponseRoundTrip(rsp: Response)
    requires rsp.StatusRsp? ==> |rsp.advs| <= PA_MAX_ADV_SETS
    ensures IsFrame(Encode(rsp)) && Decode(Encode(rsp)) == Some(rsp)
  {
    if rsp.StatusRsp? {
      StatusBytes(rsp.advs);
      assert Decode(Encode(rsp)).value.advs == rsp.advs;
    }
  }

  function EncodeAll(rsps: seq<Response>): (r: seq<Bytes>)
    requires forall i | 0 <= i < |rsps| :: rsps[i].StatusRsp? ==> |rsps[i].advs| <= PA_MAX_ADV_SETS
    ensures |r| == |rsps| && forall i | 0 <= i < |rsps| :: r[i] == Encode(rsps[i])
  {
    seq(|rsps|, i requires 0 <= i < |rsps| => Encode(rsps[i]))
  }

  /** The host, framing the service's output by the same rule, reads exactly the responses sent. */
  lemma OutputDecodes(rsps: seq<Response>)
    requires forall i | 0 <= i < |rsps| :: rsps[i].StatusRsp? ==> |rsps[i].advs| <= PA_MAX_ADV_SETS
    ensures var frames := Frames(Concat(EncodeAll(rsps)));
            |frames| == |rsps| && forall i | 0 <= i < |rsps| :: Decode(frames[i]) == Some(rsps[i])
  {
    forall i | 0 <= i < |rsps|
      ensures IsFrame(EncodeAll(rsps)[i]) && Decode(EncodeAll(rsps)[i]) == Some(rsps[i])
    {
      ResponseRoundTrip(rsps[i]);
    }
    FramesOfConcat(EncodeAll(rsps));
  }

  /* ---------- the code ---------- */

  /** `pa_cmd_parse` with the payload copied out. */
  method PaCmdParse(buf: Bytes, payload: array<uint8>)
    returns (ret: int, opcode: uint8, sid: uint8, length: uint8)
    requires payload.Length == PA_MAX_DATA_SIZE
    modifies payload
    ensures match Parse(buf)
            case Ok(StatusGet) => ret == 0 && opcode == OPCODE_STATUS_GET_REQ
            case Ok(DataSend(s, data)) =>
              ret == 0 && opcode == OPCODE_DATA_SEND_REQ && sid == s && length == |data| &&
              payload[..] == data + old(payload[|data|..])
            case Err(BadArgument) => ret == -1
            case Err(BadLength) => ret == -2
            case Err(BadOpcode) => ret == -3
    ensures ret != 0 ==> payload[..] == old(payload[..])
  {
    opcode, sid, length := 0, 0, 0;
    if |buf| < 2 {
      return -1, opcode, sid, length;
    }
    var cmdLength := buf[0];
    if cmdLength + 1 > |buf| {
      return -2, opcode, sid, length;
    }
    opcode := buf[1];
    if opcode == OPCODE_DATA_SEND_REQ {
      if cmdLength < 3 {
        return -2, opcode, sid, length;
      }
      sid, length := buf[2], buf[3];
      if length > PA_MAX_DATA_SIZE {
        return -2, opcode, sid, length;
      }
      if cmdLength < U8(3 + length) {
        return -2, opcode, sid, length;
      }
      forall i | 0 <= i < length {
        payload[i] := buf[4 + i];
      }
      assert payload[..length] == buf[4..4 + length];
    } else if opcode != OPCODE_STATUS_GET_REQ {
      return -3, opcode, sid, length;
    }
    return 0, opcode, sid, length;
  }

  /** Writes `bytes` from position `pos` on. */
  method Put(buf: array<uint8>, pos: nat, bytes: Bytes)
    requires pos + |bytes| <= buf.Length
    modifies buf
    ensures buf[..pos + |bytes|] == old(buf[..pos]) + bytes
    ensures forall i | pos + |bytes| <= i < buf.Length :: buf[i] == old(buf[i])
  {
    for i := 0 to |bytes|
      invariant buf[..pos + i] == old(buf[..pos]) + bytes[..i]
      invariant forall j | pos + i <= j < buf.Length :: buf[j] == old(buf[j])
    {
      buf[pos + i] := bytes[i];
      assert buf[..pos + i + 1] == buf[..pos + i] + [bytes[i]];
    }
  }

  /** The three bytes in front of a status response. */
  method PutHeader(buf: array<uint8>, length: uint8, n: uint8)
    requires buf.Length >= 3
    modifies buf
    ensures buf[..3] == [length, OPCODE_STATUS_GET_RSP, n]
    ensures forall i | 3 <= i < buf.Length :: buf[i] == old(buf[i])
  {
    buf[0], buf[1], buf[2] := length, OPCODE_STATUS_GET_RSP, n;
  }

  /** `pa_cmd_serialize_status_rsp`. */
  method SerializeStatusRsp(advs: seq<Adv>, buf: array<uint8>) returns (ret: int)
    requires |advs| <= PA_MAX_ADV_SETS
    modifies buf
    ensures var bytes := Encode(StatusRsp(advs));
            if buf.Length < |bytes| then ret == -1 && buf[..] == old(buf[..])
            else ret == |bytes| && buf[..] == bytes + old(buf[|bytes|..])
  {
    var n := |advs|;
    var total := 1 + 1 + 1 + n * 2;
    if buf.Length < total {
      return -1;
    }
    PutHeader(buf, U8(total - 1), n);
    Put(buf, 3, Sids(advs));
    Put(buf, 3 + n, Available(advs));
    assert buf[total..] == old(buf[total..]);
    assert buf[..] == buf[..total] + buf[total..];
    return total;
  }

  /** `pa_cmd_serialize_data_send_rsp`. */
  method SerializeDataSendRsp(result: uint8, buf: array<uint8>) returns (ret: int)
    modifies buf
    ensures var bytes := Encode(DataSendRsp(result));
            if buf.Length < |bytes| then ret == -1 && buf[..] == old(buf[..])
            else ret == |bytes| && buf[..] == bytes + old(buf[|bytes|..])
  {
    if buf.Length < 3 {
      return -1;
    }
    buf[0], buf[1], buf[2] := 0x02, OPCODE_DATA_SEND_RSP, result;
    return 3;
  }

  /** `pa_cmd_serialize_data_send_complete`. */
  method SerializeDataSendComplete(buf: array<uint8>) returns (ret: int)
    modifies buf
    ensures var bytes := Encode(Complete);
            if buf.Length < |bytes| then ret == -1 && buf[..] == old(buf[..])
            else ret == |bytes| && buf[..] == bytes + old(buf[|bytes|..])
  {
    if buf.Length < 2 {
      return -1;
    }
    buf[0], buf[1] := 0x01, OPCODE_DATA_SEND_COMPLETE;
    return 2;
  }
}
