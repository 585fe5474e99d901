/**
 Advertising data structures (section 11 of Vol 3, Part C, Bluetooth Core Specification): length, type,
 data. The source composes periodic advertising data from the BASE and one vendor-specific structure;
 the sink takes the vendor-specific one out again and reports its changes.
 */
module AdStructures {
  import opened CInt
  import opened Common

  const BT_DATA_VS: uint8 := 0xFF
  const PA_MAX_DATA_LEN: nat := 255

  datatype Ad = Ad(kind: uint8, data: Bytes)

  /** The structures in a buffer, up to the first that does not fit. */
  function Parse(buf: Bytes): seq<Ad> {
    if |buf| <= 1 then []
    else
      var len: int := buf[0];
      if len == 0 || len > |buf| - 1 then []
      else [Ad(buf[1], buf[2..1 + len])] + Parse(buf[1 + len..])
  }

  function EncodeOne(ad: Ad): Bytes
    requires |ad.data| <= 254
  {
    [|ad.data| + 1, ad.kind] + ad.data
  }

  ghost predicate Encodable(ads: seq<Ad>) {
    forall i | 0 <= i < |ads| :: |ads[i].data| <= 254
  }

  function Encode(ads: seq<Ad>): Bytes
    requires Encodable(ads)
  {
    if ads == [] then [] else EncodeOne(ads[0]) + Encode(ads[1..])
  }

  lemma {:induction false} ParseEncode(ads: seq<Ad>)
    requires Encodable(ads)
    ensures Parse(Encode(ads)) == ads
    decreases |ads|
  {
    if ads == [] {
    } else {
      var buf, one := Encode(ads), EncodeOne(ads[0]);
      ParseEncode(ads[1..]);
      assert buf[0] == one[0] && buf[1] == one[1];
      assert buf[2..|one|] == one[2..] == ads[0].data;
      assert buf[|one|..] == Encode(ads[1..]);
    }
  }

  /** The structure at `pos`, if it fits, comes before those after it. */
  lemma ParseAt(buf: Bytes, pos: nat)
    requires pos + 1 < |buf| && 0 < buf[pos] <= |buf| - pos - 1
    ensures var len: nat := buf[pos];
            Parse(buf[pos..])
            == [Ad(buf[pos + 1], buf[pos + 2..pos + 1 + len])] + Parse(buf[pos + 1 + len..])
  {
    var rest, len: nat := buf[pos..], buf[pos];
    assert rest[2..1 + len] == buf[pos + 2..pos + 1 + len];
    assert rest[1 + len..] == buf[pos + 1 + len..];
  }

  /* ---------- the source ---------- */

  /** What `adapter_set_data` hands to the controller: the BASE, if any, and the payload. */
  function Compose(base: seq<Ad>, payload: Bytes): seq<Ad> {
    base + [Ad(BT_DATA_VS, payload)]
  }

  /** The payload the sink takes: that of the first vendor-specific structure. */
  function Vendor(ads: seq<Ad>): Option<Bytes> {
    if ads == [] then None
    else if ads[0].kind == BT_DATA_VS then Some(ads[0].data)
    else Vendor(ads[1..])
  }

  lemma {:induction false} VendorAfterBase(base: seq<Ad>, payload: Bytes)
    requires forall i | 0 <= i < |base| :: base[i].kind != BT_DATA_VS
    ensures Vendor(Compose(base, payload)) == Some(payload)
    decreases |base|
  {
    if base == [] {
    } else {
      assert Compose(base, payload)[1..] == Compose(base[1..], payload);
      VendorAfterBase(base[1..], payload);
    }
  }

  /** What the source sends is what the sink takes out. */
  lemma SourceToSink(base: seq<Ad>, payload: Bytes)
    requires forall i | 0 <= i < |base| :: base[i].kind != BT_DATA_VS
    requires Encodable(base) && |payload| <= PA_MAX_DATA_SIZE
    ensures Encodable(Compose(base, payload))
    ensures Vendor(Parse(Encode(Compose(base, payload)))) == Some(payload)
  {
    ParseEncode(Compose(base, payload));
    VendorAfterBase(base, payload);
  }

  /**
   The room reported for a BASE structure of `baseLen` data bytes. The overhead passes through two
   8-bit sums: the caller's data length + 2 and the adapter's + 2.
   */
  function Reported(baseLen: uint8): uint8 {
    var baseDataOverhead := U8(baseLen + 2);
    var overhead := U8(baseDataOverhead + 2);
    if overhead >= PA_MAX_DATA_SIZE then 0 else PA_MAX_DATA_SIZE - overhead
  }

  /** The size of the composed data, for a BASE and a payload of these lengths. */
  function ComposedSize(baseLen: nat, payloadLen: nat): nat {
    baseLen + 2 + payloadLen + 2
  }

  lemma ComposedSizeIsEncoded(base: Ad, payload: Bytes)
    requires |base.data| <= 254 && |payload| <= PA_MAX_DATA_SIZE
    ensures |Encode(Compose([base], payload))| == ComposedSize(|base.data|, |payload|)
  {
    var vs := Ad(BT_DATA_VS, payload);
    var all := Compose([base], payload);
    assert all[1..] == [vs] && [vs][1..] == [];
    assert Encode(all) == EncodeOne(base) + Encode([vs]);
    assert Encode([vs]) == EncodeOne(vs) + Encode([]);
  }

  /**
   The report is exact - a non-empty payload fits the 252 bytes just when it is no longer than
   reported - precisely for BASE data of at most 251 bytes; beyond, the sums wrap.
   */
  lemma ReportExactly(baseLen: uint8)
    ensures (forall n: nat | 1 <= n <= PA_MAX_DATA_SIZE ::
               n <= Reported(baseLen) <==> ComposedSize(baseLen, n) <= PA_MAX_DATA_SIZE)
            <==> baseLen <= 251
  {
    assert ComposedSize(baseLen, 1) == baseLen as int + 5;
  }

  /** `struct pa_adv_info`. */
  datatype AdvInfo = AdvInfo(sid: uint8, availableBytes: uint8)

  /** `struct zephyr_ble_pa_adapter_state`, without the controller handles. */
  class BlePaAdapter {
    var ready: bool
    var basePerAdv: seq<Ad>
    var baseDataOverhead: uint8
    const customAdBuf: array<uint8>
    /** What the controller was last given. */
    var perAdvData: seq<Ad>

    ghost predicate Valid()
      reads this
    {
      customAdBuf.Length == PA_MAX_DATA_SIZE
    }

    constructor ()
      ensures Valid() && fresh(customAdBuf)
      ensures !ready && basePerAdv == [] && baseDataOverhead == 0 && perAdvData == []
    {
      ready, basePerAdv, baseDataOverhead, perAdvData := false, [], 0, [];
      customAdBuf := new uint8[PA_MAX_DATA_SIZE];
    }

    method SetExtAdv()
      modifies this`ready
      ensures ready
    {
      ready := true;
    }

    method SetBasePerAdv(base: seq<Ad>, overhead: uint8)
      requires Valid()
      modifies this`basePerAdv, this`baseDataOverhead
      ensures Valid() && basePerAdv == base && baseDataOverhead == overhead
    {
      basePerAdv, baseDataOverhead := base, overhead;
    }

    /**
     `adapter_set_data`; `ret` is what the controller answers. 0, -EAGAIN, -EINVAL or `ret`. There is room
     for one BASE structure.
     */
    method SetData(data: Bytes, ret: int) returns (r: int)
      requires Valid() && |basePerAdv| <= 1
      modifies this`perAdvData, customAdBuf
      ensures Valid()
      ensures !ready ==> r == -11
      ensures ready && |data| > PA_MAX_DATA_SIZE ==> r == -22
      ensures ready && |data| <= PA_MAX_DATA_SIZE ==> r == ret
      ensures perAdvData == if ready && |data| <= PA_MAX_DATA_SIZE && ret == 0
                            then Compose(basePerAdv, data) else old(perAdvData)
    {
      if !ready {
        return -11;
      }
      if |data| > PA_MAX_DATA_SIZE {
        return -22;
      }
      forall i | 0 <= i < |data| {
        customAdBuf[i] := data[i];
      }
      assert customAdBuf[..|data|] == data;
      var combinedPerAdv := basePerAdv + [Ad(BT_DATA_VS, customAdBuf[..|data|])];
      if ret == 0 {
        perAdvData := combinedPerAdv;
      }
      return ret;
    }

    /**
     `adapter_get_status`: the number of sets, and SID and room of the first if there is space for it.
     `ret` and `id` are what the controller answers about the set.
     */
    method GetStatus(maxEntries: uint8, ret: int, id: uint8) returns (numAdv: uint8, info: Option<AdvInfo>)
      requires Valid()
      ensures numAdv == if ready then 1 else 0
      ensures info.Some? <==> ready && maxEntries >= 1
      ensures info.Some? ==> info.value.sid == if ret == 0 then id else 0
      ensures forall baseLen: uint8 {:trigger Reported(baseLen)} |
                info.Some? && baseDataOverhead == U8(baseLen + 2) ::
                  info.value.availableBytes == Reported(baseLen)
    {
      if !ready {
        return 0, None;
      }
      numAdv, info := 1, None;
      if maxEntries >= 1 {
        var sid := if ret == 0 then id else 0;
        var overhead := U8(baseDataOverhead + 2);
        if overhead >= PA_MAX_DATA_SIZE {
          info := Some(AdvInfo(sid, 0));
        } else {
          info := Some(AdvInfo(sid, PA_MAX_DATA_SIZE - overhead));
        }
      }
    }
  }

  /** The broadcaster's start-up: the BASE is stored, and then the advertiser is ready. */
  method SetUp(base: Ad) returns (adapter: BlePaAdapter)
    requires |base.data| < 0x100
    ensures fresh(adapter) && fresh(adapter.customAdBuf) && adapter.Valid() && adapter.ready
    ensures adapter.basePerAdv == [base] && adapter.baseDataOverhead == U8(|base.data| + 2)
  {
    adapter := new BlePaAdapter();
    adapter.SetBasePerAdv([base], U8(|base.data| + 2));
    adapter.SetExtAdv();
  }

  /** A payload sent from there on is aired exactly when it is taken, and the sink gets it. */
  method SetUpAndSend(base: Ad, data: Bytes, ret: int) returns (r: int, aired: seq<Ad>)
    requires base.kind != BT_DATA_VS && |base.data| <= 254
    ensures r == 0 <==> |data| <= PA_MAX_DATA_SIZE && ret == 0
    ensures r == 0 ==> Encodable(aired) && Vendor(Parse(Encode(aired))) == Some(data)
  {
    var adapter := SetUp(base);
    r := adapter.SetData(data, ret);
    aired := adapter.perAdvData;
    if r == 0 {
      SourceToSink([base], data);
    }
  }

  /* ---------- the sink ---------- */

  /** The payload differs from the one before, or is the first. */
  predicate IsNews(heard: seq<Bytes>, payload: Bytes) {
    heard == [] || heard[|heard| - 1] != payload
  }

  /** A sequence with consecutive repeats removed. */
  function NoRepeats(s: seq<Bytes>): seq<Bytes> {
    if s == [] then []
    else
      var most, last := s[..|s| - 1], s[|s| - 1];
      NoRepeats(most) + if IsNews(most, last) then [last] else []
  }

  lemma NoRepeatsNext(s: seq<Bytes>, last: Bytes)
    ensures NoRepeats(s + [last]) == NoRepeats(s) + if IsNews(s, last) then [last] else []
  {
    var all := s + [last];
    assert all[..|all| - 1] == s;
  }

  lemma {:induction false} NoRepeatsEnd(s: seq<Bytes>)
    ensures s != [] ==> NoRepeats(s) != [] && NoRepeats(s)[|NoRepeats(s)| - 1] == s[|s| - 1]
    ensures forall i | 0 < i < |NoRepeats(s)| :: NoRepeats(s)[i] != NoRepeats(s)[i - 1]
    decreases |s|
  {
    if s == [] {
    } else {
      NoRepeatsEnd(s[..|s| - 1]);
    }
  }

  /** `pa_recv_cb` with `pa_data_parse_cb`. */
  class PaDataMonitor {
    const prevPaData: array<uint8>
    var prevPaDataLen: uint8
    var paDataReceivedOnce: bool
    /** The payloads received since the last reset, and those reported as changed. */
    ghost var heard: seq<Bytes>
    ghost var changes: seq<Bytes>

    ghost predicate Valid()
      reads this, prevPaData
    {
      Remembers() && changes == NoRepeats(heard)
    }

    /** The buffer holds the payload received last. */
    ghost predicate Remembers()
      reads this, prevPaData
    {
      prevPaData.Length == PA_MAX_DATA_LEN && (paDataReceivedOnce <==> heard != []) &&
      (heard != [] ==> prevPaData[..prevPaDataLen] == heard[|heard| - 1])
    }

    constructor ()
      ensures Valid() && heard == [] && changes == []
    {
      prevPaData := new uint8[PA_MAX_DATA_LEN];
      prevPaDataLen, paDataReceivedOnce, heard, changes := 0, false, [], [];
    }

    /** `bt_data_parse`, which stops at the first structure the callback takes. */
    static method FindVendor(buf: Bytes) returns (found: Option<Bytes>)
      ensures found == Vendor(Parse(buf)) && (found.Some? ==> |found.value| <= PA_MAX_DATA_LEN)
    {
      var pos := 0;
      assert buf[0..] == buf;
      while |buf| - pos > 1
        invariant pos <= |buf| && Vendor(Parse(buf)) == Vendor(Parse(buf[pos..]))
      {
        ghost var start := pos;
        var len: nat := buf[pos];
        pos := pos + 1;
        if len == 0 || len > |buf| - pos {
          return None;
        }
        ParseAt(buf, start);
        var ad := Ad(buf[pos], buf[pos + 1..pos + len]);
        pos := pos + len;
        if ad.kind == BT_DATA_VS {
          return Some(ad.data);
        }
        assert Parse(buf[start..])[1..] == Parse(buf[pos..]);
      }
      return None;
    }

    /** `pa_data_parse_cb` on the vendor-specific structure. */
    method Remember(data: Bytes) returns (changed: bool)
      requires Remembers() && |data| <= PA_MAX_DATA_LEN
      modifies this`prevPaDataLen, this`paDataReceivedOnce, this`heard, prevPaData
      ensures Remembers() && heard == old(heard) + [data]
      ensures changed <==> IsNews(old(heard), data)
    {
      changed := !paDataReceivedOnce || |data| != prevPaDataLen || data != prevPaData[..|data|];
      if changed {
        forall i | 0 <= i < |data| {
          prevPaData[i] := data[i];
        }
        prevPaDataLen := |data|;
        paDataReceivedOnce := true;
      }
      heard := heard + [data];
    }

    /** One report; `changed` says whether the payload is to be notified. */
    method PaReceived(buf: Bytes) returns (changed: bool, payload: Bytes)
      requires Valid()
      modifies this, prevPaData
      ensures Valid() && changes == old(changes) + if changed then [payload] else []
      ensures var found := Vendor(Parse(buf));
              heard == old(heard) + (if found.Some? then [found.value] else []) &&
              (changed <==> found.Some? && IsNews(old(heard), found.value)) &&
              (changed ==> found == Some(payload))
    {
      var found := FindVendor(buf);
      changed, payload := false, [];
      if found.Some? {
        payload := found.value;
        NoRepeatsNext(heard, payload);
        changed := Remember(payload);
        changes := changes + if changed then [payload] else [];
      }
    }

    /** The sync is lost or released. */
    method Forget()
      requires Valid()
      modifies this`paDataReceivedOnce, this`heard, this`changes
      ensures Valid() && heard == [] && changes == []
    {
      paDataReceivedOnce := false;
      heard, changes := [], [];
    }
  }
}
