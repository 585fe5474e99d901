/** The scan callback of the sink: what it takes from an advertisement, and the notification it sends. */
module AdScan {
  import opened CInt
  import opened Common
  import opened AdStructures

  const BT_DATA_BROADCAST_NAME: uint8 := 0x30
  const BT_DATA_SVC_DATA16: uint8 := 0x16
  const BT_UUID_BAAS_VAL: uint16 := 0x1852
  const BT_UUID_PBA_VAL: uint16 := 0x1856
  const NAME_MAX: nat := 128

  /** The name in a structure, cut to 128 bytes. */
  function NameOf(ad: Ad): Option<Bytes> {
    if ad.kind == BT_DATA_BROADCAST_NAME && |ad.data| > 0
    then Some(if |ad.data| > NAME_MAX then ad.data[..NAME_MAX] else ad.data)
    else None
  }

  predicate ServiceData(ad: Ad, uuid: uint16, size: nat) {
    ad.kind == BT_DATA_SVC_DATA16 && |ad.data| >= 2 && |ad.data| >= size &&
    Le16(ad.data[0], ad.data[1]) == uuid
  }

  /** The three bytes of the broadcast id in a Broadcast Audio Announcement. */
  function IdOf(ad: Ad): Option<Bytes> {
    if ServiceData(ad, BT_UUID_BAAS_VAL, 5) then Some(ad.data[2..5]) else None
  }

  /** The encryption bit in a Public Broadcast Announcement. */
  function EncryptionOf(ad: Ad): Option<uint8> {
    if ServiceData(ad, BT_UUID_PBA_VAL, 3) then Some(ad.data[2] % 2) else None
  }

  /** The last structure that carries the item wins. */
  function LastOf<T>(ads: seq<Ad>, item: Ad -> Option<T>, otherwise: T): T {
    if ads == [] then otherwise
    else
      var v := item(ads[|ads| - 1]);
      if v.Some? then v.value else LastOf(ads[..|ads| - 1], item, otherwise)
  }

  datatype Found = Found(name: Bytes, id: Option<Bytes>, encrypted: uint8)

  function SomeIdOf(ad: Ad): Option<Option<Bytes>> {
    if IdOf(ad).Some? then Some(IdOf(ad)) else None
  }

  /** What an advertisement says, by its list of structures. */
  function Look(ads: seq<Ad>): Found {
    Found(LastOf(ads, NameOf, []), LastOf(ads, SomeIdOf, None), LastOf(ads, EncryptionOf, 0))
  }

  /** A last item is one of the items, and none comes after it. */
  lemma {:induction false} LastOfIsLast<T>(ads: seq<Ad>, item: Ad -> Option<T>, otherwise: T)
    ensures var r := LastOf(ads, item, otherwise);
            (exists i :: 0 <= i < |ads| && item(ads[i]) == Some(r) &&
                         forall j | i < j < |ads| :: item(ads[j]) == None)
            || (r == otherwise && forall j | 0 <= j < |ads| :: item(ads[j]) == None)
    decreases |ads|
  {
    if ads == [] || item(ads[|ads| - 1]).Some? {
    } else {
      var most := ads[..|ads| - 1];
      LastOfIsLast(most, item, otherwise);
      forall j | 0 <= j < |most|
        ensures most[j] == ads[j]
      {
      }
    }
  }

  /** Names are cut to 128 bytes, ids have three. */
  lemma LookFits(ads: seq<Ad>)
    ensures |Look(ads).name| <= NAME_MAX && (Look(ads).id.Some? ==> |Look(ads).id.value| == 3)
  {
    LastOfIsLast(ads, NameOf, []);
    LastOfIsLast(ads, SomeIdOf, None);
  }

  lemma LookAppend(ads: seq<Ad>, ad: Ad)
    ensures var before, after := Look(ads), Look(ads + [ad]);
            after.name == (if NameOf(ad).Some? then NameOf(ad).value else before.name) &&
            after.id == (if IdOf(ad).Some? then IdOf(ad) else before.id) &&
            after.encrypted == (if EncryptionOf(ad).Some? then EncryptionOf(ad).value
                                else before.encrypted)
  {
    var all := ads + [ad];
    assert all[..|all| - 1] == ads;
  }

  /** The structures from `pos` on come after those in `seen`. */
  ghost predicate Taken(buf: Bytes, seen: seq<Ad>, pos: nat) {
    pos <= |buf| && Parse(buf) == seen + Parse(buf[pos..])
  }

  /** The next structure of the advertisement, if one is left that fits. */
  method NextStructure(buf: Bytes, pos: nat, ghost seen: seq<Ad>) returns (ad: Option<Ad>, next: nat)
    requires Taken(buf, seen, pos)
    ensures ad.Some? ==> next > pos && Taken(buf, seen + [ad.value], next)
    ensures ad.None? ==> Parse(buf) == seen
  {
    ad, next := None, pos;
    if |buf| - pos > 1 {
      var len: nat := buf[pos];
      if len != 0 && len <= |buf| - pos - 1 {
        ParseAt(buf, pos);
        return Some(Ad(buf[pos + 1], buf[pos + 2..pos + 1 + len])), pos + 1 + len;
      }
    }
    assert Parse(buf[pos..]) == [];
  }

  predicate FoundOk(found: Found) {
    |found.name| <= NAME_MAX && (found.id.Some? ==> |found.id.value| == 3) && found.encrypted <= 1
  }

  /** One structure of the advertisement. */
  method TakeStructure(found: Found, ad: Ad, ghost seen: seq<Ad>) returns (r: Found)
    requires found == Look(seen) && FoundOk(found)
    ensures r == Look(seen + [ad]) && FoundOk(r)
  {
    LookAppend(seen, ad);
    var Ad(kind, data) := ad;
    r := found;
    if kind == BT_DATA_BROADCAST_NAME && |data| > 0 {
      r := r.(name := if |data| > NAME_MAX then data[..NAME_MAX] else data);
    } else if kind == BT_DATA_SVC_DATA16 && |data| >= 2 {
      var uuid := Le16(data[0], data[1]);
      if uuid == BT_UUID_BAAS_VAL && |data| >= 5 {
        r := r.(id := Some(data[2..5]));
      } else if uuid == BT_UUID_PBA_VAL && |data| >= 3 {
        r := r.(encrypted := if data[2] % 2 == 1 then 0x01 else 0x00);
      }
    }
  }

  /**
   The loop of `scan_recv_cb`: it ends on every string of bytes, and takes from it what the list of
   well-formed structures says.
   */
  method ScanParse(buf: Bytes) returns (found: Found)
    ensures found == Look(Parse(buf)) && FoundOk(found)
  {
    found := Found([], None, 0);
    ghost var seen: seq<Ad> := [];
    assert buf[0..] == buf;
    var ad, pos := NextStructure(buf, 0, seen);
    while ad.Some?
      invariant ad.Some? ==> Taken(buf, seen + [ad.value], pos)
      invariant ad.None? ==> Parse(buf) == seen
      invariant found == Look(seen) && FoundOk(found)
      decreases ad.Some?, |buf| - pos
    {
      found := TakeStructure(found, ad.value, seen);
      seen := seen + [ad.value];
      ad, pos := NextStructure(buf, pos, seen);
    }
  }

  /* ---------- the notification ---------- */

  datatype Addr = Addr(kind: uint8, val: Bytes)

  datatype SearchResult = SearchResult(
    sid: uint8, addr: Addr, name: Bytes, id: Bytes, encrypted: uint8, rssi: int)

  ghost predicate ResultOk(r: SearchResult) {
    |r.addr.val| == 6 && 1 <= |r.name| <= NAME_MAX && |r.id| == 3 && -128 <= r.rssi < 128
  }

  /** The parameters of the notification. */
  function Notification(r: SearchResult): Bytes
    requires |r.name| <= 0xFF
  {
    [r.sid, r.addr.kind] + r.addr.val + [|r.name|] + r.name + r.id + [r.encrypted, U8(r.rssi)]
  }

  /** The notification as the app reads it. */
  function ReadNotification(p: Bytes): Option<SearchResult> {
    if |p| < 9 || |p| - 14 != p[8] then None
    else
      var n := |p| - 14;
      var rssi: int := p[13 + n];
      Some(SearchResult(p[0], Addr(p[1], p[2..8]), p[9..9 + n], p[9 + n..12 + n], p[12 + n],
                        if rssi < 128 then rssi else rssi - 256))
  }

  /**
   Every search result fits the 256-byte buffer, and with its 4-byte header the 512-byte frame; the app
   reads back the same fields.
   */
  lemma NotificationReadsBack(r: SearchResult)
    requires ResultOk(r)
    ensures |Notification(r)| <= 142 && ReadNotification(Notification(r)) == Some(r)
  {
    var p, n := Notification(r), |r.name|;
    assert p[8] == n && p[12 + n] == r.encrypted && p[13 + n] == U8(r.rssi);
    assert p[2..8] == r.addr.val;
    assert p[9..9 + n] == r.name;
    assert p[9 + n..12 + n] == r.id;
  }

  /** The broadcast id as a number. */
  function BroadcastId(id: Bytes): nat
    requires |id| == 3
  {
    var lo: nat, mid: nat, hi: nat := id[0], id[1], id[2];
    lo + 0x100 * mid + 0x1_0000 * hi
  }

  /* ---------- from the broadcaster's advertisement ---------- */

  /** `sys_put_le16` and `sys_put_le24`. */
  function PutLe16(n: uint16): Bytes {
    [n % 0x100, n / 0x100]
  }

  function PutLe24(n: nat): Bytes {
    [n % 0x100, n / 0x100 % 0x100, n / 0x1_0000 % 0x100]
  }

  lemma BroadcastIdReadsBack(n: nat)
    requires n < 0x100_0000
    ensures BroadcastId(PutLe24(n)) == n
  {
  }

  /**
   The extended advertising data of the broadcaster: service UUIDs, name, broadcast id, appearance, and
   the public broadcast announcement with its features and metadata.
   */
  function Advertisement(
    uuids: Bytes, name: Bytes, id: nat, appearance: uint16, features: uint8, metadata: Bytes): seq<Ad>
    requires |metadata| < 0x100
  {
    [Ad(0x03, uuids), Ad(0x30, name), Ad(0x16, PutLe16(0x1852) + PutLe24(id)),
     Ad(0x19, PutLe16(appearance)), Ad(0x16, PutLe16(0x1856) + [features, |metadata|] + metadata)]
  }

  /** What its structures say, one after the other. */
  lemma LookAtAdvertisement(
    uuids: Bytes, name: Bytes, id: nat, appearance: uint16, features: uint8, metadata: Bytes)
    requires 1 <= |name| && |metadata| < 0x100
    ensures Look(Advertisement(uuids, name, id, appearance, features, metadata))
         == Found(if |name| <= NAME_MAX then name else name[..NAME_MAX], Some(PutLe24(id)), features % 2)
  {
    var ads := Advertisement(uuids, name, id, appearance, features, metadata);
    assert ads[2].data[2..5] == PutLe24(id);
    LookAppend([], ads[0]);
    LookAppend([ads[0]], ads[1]);
    LookAppend([ads[0], ads[1]], ads[2]);
    LookAppend([ads[0], ads[1], ads[2]], ads[3]);
    LookAppend([ads[0], ads[1], ads[2], ads[3]], ads[4]);
    assert [] + [ads[0]] == [ads[0]];
    assert [ads[0]] + [ads[1]] == [ads[0], ads[1]];
    assert [ads[0], ads[1]] + [ads[2]] == [ads[0], ads[1], ads[2]];
    assert [ads[0], ads[1], ads[2]] + [ads[3]] == [ads[0], ads[1], ads[2], ads[3]];
    assert [ads[0], ads[1], ads[2], ads[3]] + [ads[4]] == ads;
  }

  /** The sink finds name, id and encryption bit of the broadcaster in the bytes on the air. */
  lemma AdvertisementIsFound(
    uuids: Bytes, name: Bytes, id: nat, appearance: uint16, features: uint8, metadata: Bytes)
    requires |uuids| <= 254 && 1 <= |name| <= 254 && id < 0x100_0000 && |metadata| <= 250
    ensures var ads := Advertisement(uuids, name, id, appearance, features, metadata);
            Encodable(ads) && var found := Look(Parse(Encode(ads)));
            found.name == (if |name| <= NAME_MAX then name else name[..NAME_MAX]) &&
            found.id.Some? && |found.id.value| == 3 && BroadcastId(found.id.value) == id &&
            found.encrypted == features % 2
  {
    ParseEncode(Advertisement(uuids, name, id, appearance, features, metadata));
    LookAtAdvertisement(uuids, name, id, appearance, features, metadata);
    BroadcastIdReadsBack(id);
  }

  datatype ScanOutcome = Ignored | Reported(result: SearchResult, broadcastId: nat)

  /**
   `scan_recv_cb` from start to end. It reports an advertisement that has both a name and an id, and
   caches the id.
   */
  method ScanRecv(listening: bool, sid: uint8, addr: Addr, rssi: int, buf: Bytes)
    returns (outcome: ScanOutcome, ntf: Bytes)
    requires |addr.val| == 6 && -128 <= rssi < 128
    ensures var f := Look(Parse(buf));
            outcome.Reported? <==> listening && f.id.Some? && f.name != []
    ensures outcome.Reported? ==>
              var f := Look(Parse(buf));
              ResultOk(outcome.result) && ntf == Notification(outcome.result) && |ntf| <= 256 &&
              outcome.result == SearchResult(sid, addr, f.name, f.id.value, f.encrypted, rssi) &&
              |f.id.value| == 3 && outcome.broadcastId == BroadcastId(f.id.value)
  {
    ntf := [];
    if !listening {
      return Ignored, ntf;
    }
    var found := ScanParse(buf);
    if found.id.None? || found.name == [] {
      return Ignored, ntf;
    }
    var id := found.id.value;
    var result := SearchResult(sid, addr, found.name, id, found.encrypted, rssi);
    NotificationReadsBack(result);
    ntf := [sid, addr.kind];
    ntf := ntf + addr.val;
    ntf := ntf + [|found.name|];
    ntf := ntf + found.name;
    ntf := ntf + id;
    ntf := ntf + [found.encrypted, U8(rssi)];
    return Reported(result, BroadcastId(id)), ntf;
  }
}
