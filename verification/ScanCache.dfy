/**
 The 16-slot cache of scan results, from which the broadcast id is looked up when a sync is started.
 When it is full every new source goes to slot 0.
 */
module ScanCache {
  import opened CInt
  import opened AdScan

  const SCAN_CACHE_SIZE: nat := 16
  /** One more than the largest 24-bit broadcast id. */
  const BRDCAST_ID_NOT_USED: nat := 0x100_0000

  datatype Key = Key(addr: Addr, sid: uint8)

  datatype Entry = Entry(key: Key, broadcastId: nat)

  /* ---------- what the reports so far say ---------- */

  /** The sources in the order in which they were first reported. */
  function Firsts(h: seq<Entry>): seq<Key> {
    if h == [] then []
    else
      var most, k := Firsts(h[..|h| - 1]), h[|h| - 1].key;
      if k in most then most else most + [k]
  }

  /** The second to the sixteenth of them. */
  function Kept(h: seq<Entry>): seq<Key> {
    var f := Firsts(h);
    if f == [] then [] else if |f| <= SCAN_CACHE_SIZE then f[1..] else f[1..SCAN_CACHE_SIZE]
  }

  /** The source reported last among those not in `kept`; `h[0]`'s key if need be. */
  function LastOther(h: seq<Entry>, kept: seq<Key>): Key
    requires h != []
  {
    var k := h[|h| - 1].key;
    if k !in kept || |h| == 1 then k else LastOther(h[..|h| - 1], kept)
  }

  /** The id reported last for a source. */
  function Latest(h: seq<Entry>, k: Key): nat {
    if h == [] then BRDCAST_ID_NOT_USED
    else if h[|h| - 1].key == k then h[|h| - 1].broadcastId
    else Latest(h[..|h| - 1], k)
  }

  /** The cache still knows the source. */
  predicate Remembered(h: seq<Entry>, k: Key) {
    h != [] && (k in Kept(h) || k == LastOther(h, Kept(h)))
  }

  /** The id to be found for a source. */
  function IdAfter(h: seq<Entry>, k: Key): nat {
    if Remembered(h, k) then Latest(h, k) else BRDCAST_ID_NOT_USED
  }

  /* ---------- the cache as a value ---------- */

  /** The first slot with this key, or the number of valid slots. */
  function IndexOf(es: seq<Entry>, k: Key): (i: nat)
    ensures i <= |es| && forall j | 0 <= j < i :: es[j].key != k
    ensures i < |es| ==> es[i].key == k
  {
    if es == [] then 0 else if es[0].key == k then 0 else 1 + IndexOf(es[1..], k)
  }

  function Cache(es: seq<Entry>, e: Entry): (r: seq<Entry>)
    requires |es| <= SCAN_CACHE_SIZE
    ensures |r| <= SCAN_CACHE_SIZE
  {
    var i := IndexOf(es, e.key);
    if i < |es| then es[i := e]
    else if |es| < SCAN_CACHE_SIZE then es + [e]
    else es[0 := e]
  }

  function Lookup(es: seq<Entry>, k: Key): nat {
    var i := IndexOf(es, k);
    if i < |es| then es[i].broadcastId else BRDCAST_ID_NOT_USED
  }

  function Run(h: seq<Entry>): (es: seq<Entry>)
    ensures |es| <= SCAN_CACHE_SIZE
  {
    if h == [] then [] else Cache(Run(h[..|h| - 1]), h[|h| - 1])
  }

  /* ---------- the history ---------- */

  ghost predicate Distinct(ks: seq<Key>) {
    forall i, j | 0 <= i < j < |ks| :: ks[i] != ks[j]
  }

  lemma {:induction false} FirstsAreAll(h: seq<Entry>)
    ensures Distinct(Firsts(h))
    ensures forall i | 0 <= i < |h| :: h[i].key in Firsts(h)
    ensures h != [] ==> Firsts(h) != [] && Firsts(h)[0] == h[0].key
    decreases |h|
  {
    if h == [] {
    } else {
      var most := h[..|h| - 1];
      FirstsAreAll(most);
      forall i | 0 <= i < |h|
        ensures h[i].key in Firsts(h)
      {
        if i < |most| {
          assert most[i].key in Firsts(most);
        }
      }
    }
  }

  /** A source that has not been reported does not matter. */
  lemma {:induction false} NewKeyMattersNot(h: seq<Entry>, kept: seq<Key>, k: Key)
    requires h != [] && forall i | 0 <= i < |h| :: h[i].key != k
    ensures LastOther(h, kept + [k]) == LastOther(h, kept)
    decreases |h|
  {
    if h[|h| - 1].key !in kept || |h| == 1 {
    } else {
      NewKeyMattersNot(h[..|h| - 1], kept, k);
    }
  }

  lemma {:induction false} OtherIsNotKept(h: seq<Entry>, kept: seq<Key>)
    requires h != [] && h[0].key !in kept
    ensures LastOther(h, kept) !in kept
    decreases |h|
  {
    if h[|h| - 1].key !in kept || |h| == 1 {
    } else {
      OtherIsNotKept(h[..|h| - 1], kept);
    }
  }

  /** How one more report changes the sources that are kept. */
  lemma {:induction false} KeptNext(h: seq<Entry>, e: Entry)
    requires h != []
    ensures var next := h + [e]; var f := Firsts(h);
            Kept(next) == Kept(h) + (if e.key !in f && |f| < SCAN_CACHE_SIZE then [e.key] else []) &&
            |Kept(next)| == (if |Firsts(next)| < SCAN_CACHE_SIZE then |Firsts(next)|
                             else SCAN_CACHE_SIZE) - 1
  {
    FirstsAreAll(h);
    assert (h + [e])[..|h|] == h;
  }

  lemma {:induction false} HeadIsNotKept(h: seq<Entry>)
    requires h != []
    ensures h[0].key !in Kept(h)
  {
    FirstsAreAll(h);
  }

  /* ---------- agreement ---------- */

  /** Slot 0 holds the other source reported last, slots 1 to 15 the second to sixteenth; all ids fresh. */
  ghost predicate Agrees(es: seq<Entry>, h: seq<Entry>) {
    if h == [] then es == []
    else
      var kept := Kept(h);
      |es| == 1 + |kept| && es[0].key == LastOther(h, kept) &&
      (forall i | 1 <= i < |es| :: es[i].key == kept[i - 1]) &&
      (forall i | 0 <= i < |es| :: es[i].broadcastId == Latest(h, es[i].key))
  }

  lemma {:induction false} OtherWasReported(h: seq<Entry>, kept: seq<Key>)
    requires h != []
    ensures exists i :: 0 <= i < |h| && h[i].key == LastOther(h, kept)
    decreases |h|
  {
    if h[|h| - 1].key !in kept || |h| == 1 {
      assert h[|h| - 1].key == LastOther(h, kept);
    } else {
      OtherWasReported(h[..|h| - 1], kept);
    }
  }

  lemma {:induction false} KeysAreFirsts(es: seq<Entry>, h: seq<Entry>)
    requires h != [] && Agrees(es, h)
    ensures forall i | 0 <= i < |es| :: es[i].key in Firsts(h)
  {
    FirstsAreAll(h);
    OtherWasReported(h, Kept(h));
  }

  lemma {:induction false} KeysDistinct(es: seq<Entry>, h: seq<Entry>)
    requires h != [] && Agrees(es, h)
    ensures forall i, j | 0 <= i < j < |es| :: es[i].key != es[j].key
  {
    FirstsAreAll(h);
    HeadIsNotKept(h);
    OtherIsNotKept(h, Kept(h));
    assert Distinct(Kept(h));
  }

  lemma {:induction false} OneMoreReport(h: seq<Entry>, kept: seq<Key>, e: Entry)
    requires h != []
    ensures LastOther(h + [e], kept) == if e.key in kept then LastOther(h, kept) else e.key
  {
    assert (h + [e])[..|h|] == h;
  }

  lemma {:induction false} LatestNext(h: seq<Entry>, e: Entry, k: Key)
    ensures Latest(h + [e], k) == if e.key == k then e.broadcastId else Latest(h, k)
  {
    assert (h + [e])[..|h|] == h;
  }

  lemma {:induction false} NextHit(es: seq<Entry>, h: seq<Entry>, e: Entry)
    requires |es| <= SCAN_CACHE_SIZE && h != [] && Agrees(es, h) && IndexOf(es, e.key) < |es|
    ensures Agrees(Cache(es, e), h + [e])
  {
    var next, i := h + [e], IndexOf(es, e.key);
    FirstsAreAll(h);
    KeptNext(h, e);
    assert next[..|next| - 1] == h;
    KeysAreFirsts(es, h);
    assert Kept(next) == Kept(h);
    HeadIsNotKept(h);
    OtherIsNotKept(h, Kept(h));
    OneMoreReport(h, Kept(h), e);
    KeysDistinct(es, h);
    forall j | 0 <= j < |es|
      ensures Cache(es, e)[j].broadcastId == Latest(next, es[j].key)
    {
      LatestNext(h, e, es[j].key);
    }
  }

  /** Before the cache is full it knows every source. */
  lemma {:induction false} AllFirstsCached(es: seq<Entry>, h: seq<Entry>)
    requires |es| < SCAN_CACHE_SIZE && h != [] && Agrees(es, h)
    ensures |Firsts(h)| == |es|
    ensures forall k | k in Firsts(h) :: exists i :: 0 <= i < |es| && es[i].key == k
  {
    FirstsAreAll(h);
    HeadIsNotKept(h);
    OtherIsNotKept(h, Kept(h));
    KeysAreFirsts(es, h);
    var f := Firsts(h);
    assert Kept(h) == f[1..];
    assert es[0].key in f && es[0].key !in f[1..];
    assert es[0].key == f[0];
    forall k | k in f
      ensures exists i :: 0 <= i < |es| && es[i].key == k
    {
      var i :| 0 <= i < |f| && f[i] == k;
      assert es[i].key == k;
    }
  }

  lemma {:induction false} NextNew(es: seq<Entry>, h: seq<Entry>, e: Entry)
    requires |es| < SCAN_CACHE_SIZE && h != [] && Agrees(es, h) && IndexOf(es, e.key) == |es|
    ensures Agrees(Cache(es, e), h + [e])
  {
    var next, f := h + [e], Firsts(h);
    FirstsAreAll(h);
    KeptNext(h, e);
    assert next[..|next| - 1] == h;
    AllFirstsCached(es, h);
    NewKeyMattersNot(h, Kept(h), e.key);
  }

  lemma {:induction false} NextFull(es: seq<Entry>, h: seq<Entry>, e: Entry)
    requires |es| == SCAN_CACHE_SIZE && h != [] && Agrees(es, h) && IndexOf(es, e.key) == |es|
    ensures Agrees(Cache(es, e), h + [e])
  {
    var next := h + [e];
    FirstsAreAll(h);
    KeptNext(h, e);
    assert next[..|next| - 1] == h;
    assert |Kept(h)| == SCAN_CACHE_SIZE - 1 && Kept(next) == Kept(h);
    forall i | 0 <= i < |Kept(h)|
      ensures Kept(h)[i] != e.key
    {
      assert es[i + 1].key == Kept(h)[i];
    }
    assert e.key !in Kept(h);
  }

  /** After any sequence of scan results the cache agrees with its history. */
  lemma {:induction false} CacheAgrees(h: seq<Entry>)
    ensures Agrees(Run(h), h)
    decreases |h|
  {
    if h == [] {
    } else if |h| == 1 {
      assert h[..0] == [];
      assert Run(h) == [h[0]] && Firsts(h) == [h[0].key];
    } else {
      var most, e := h[..|h| - 1], h[|h| - 1];
      CacheAgrees(most);
      assert h == most + [e];
      var es := Run(most);
      if IndexOf(es, e.key) < |es| {
        NextHit(es, most, e);
      } else if |es| < SCAN_CACHE_SIZE {
        NextNew(es, most, e);
      } else {
        NextFull(es, most, e);
      }
    }
  }

  /**
   A lookup returns the id reported last for the source, or that there is none - never a stale id. It
   knows exactly the second to sixteenth source ever reported and the last reported of all others.
   */
  lemma {:induction false} LookupIsLatest(h: seq<Entry>, k: Key)
    ensures Lookup(Run(h), k) == IdAfter(h, k)
  {
    CacheAgrees(h);
    if h != [] {
      var es, kept := Run(h), Kept(h);
      if k in kept {
        var i :| 0 <= i < |kept| && kept[i] == k;
        assert es[i + 1].key == k;
      }
    }
  }

  /** What has just been reported is found at once. */
  lemma {:induction false} JustReported(h: seq<Entry>, e: Entry)
    ensures Lookup(Run(h + [e]), e.key) == e.broadcastId
  {
    var all := h + [e];
    LookupIsLatest(all, e.key);
    assert all[..|all| - 1] == h && all[|all| - 1] == e;
  }

  lemma {:induction false} KeptGrows(h: seq<Entry>, e: Entry)
    requires h != []
    ensures Kept(h) <= Kept(h + [e])
  {
    KeptNext(h, e);
  }

  /** The second to sixteenth source are never evicted. */
  lemma {:induction false} KeptForEver(h: seq<Entry>, more: seq<Entry>)
    requires h != []
    ensures Kept(h) <= Kept(h + more)
    decreases |more|
  {
    if more == [] {
      assert h + more == h;
    } else {
      var most, e := more[..|more| - 1], more[|more| - 1];
      KeptForEver(h, most);
      KeptGrows(h + most, e);
      assert h + more == h + most + [e];
    }
  }

  /* ---------- the code ---------- */

  /** `struct scan_cache_entry`. */
  datatype Slot = Slot(entry: Entry, valid: bool)

  lemma {:induction false} RunNext(h: seq<Entry>, e: Entry)
    ensures Run(h + [e]) == Cache(Run(h), e)
  {
    assert (h + [e])[..|h|] == h;
  }

  class Table {
    const slots: array<Slot>
    ghost var history: seq<Entry>

    /** The number of valid slots. */
    ghost function Used(): nat
      reads this
    {
      |Run(history)|
    }

    ghost predicate Holds(es: seq<Entry>)
      reads this, slots
    {
      slots.Length == SCAN_CACHE_SIZE && |es| <= SCAN_CACHE_SIZE &&
      (forall i | 0 <= i < SCAN_CACHE_SIZE :: slots[i].valid <==> i < |es|) &&
      (forall i | 0 <= i < |es| :: slots[i].entry == es[i])
    }

    /** The valid slots come first and hold what the history says. */
    ghost predicate Valid()
      reads this, slots
    {
      Holds(Run(history))
    }

    constructor ()
      ensures Valid() && history == [] && fresh(slots)
    {
      slots := new Slot[SCAN_CACHE_SIZE](_ => Slot(Entry(Key(Addr(0, []), 0), 0), false));
      history := [];
    }

    /** The first valid slot with this key. */
    method Find(k: Key) returns (i: nat)
      requires Valid()
      ensures i == if IndexOf(Run(history), k) < Used() then IndexOf(Run(history), k)
                   else SCAN_CACHE_SIZE
    {
      ghost var es := Run(history);
      i := 0;
      while i < SCAN_CACHE_SIZE
        invariant i <= SCAN_CACHE_SIZE && forall j | 0 <= j < i && j < |es| :: es[j].key != k
      {
        if slots[i].valid && slots[i].entry.key == k {
          return;
        }
        i := i + 1;
      }
    }

    /** The first slot not in use, if any. */
    method FirstInvalid(ghost es: seq<Entry>) returns (i: nat)
      requires slots.Length == SCAN_CACHE_SIZE && |es| <= SCAN_CACHE_SIZE
      requires forall i | 0 <= i < SCAN_CACHE_SIZE :: slots[i].valid <==> i < |es|
      ensures i == |es|
    {
      i := 0;
      while i < SCAN_CACHE_SIZE
        invariant i <= |es|
      {
        if !slots[i].valid {
          return;
        }
        i := i + 1;
      }
    }

    /** Into slot `i`, if that is one, or the first not in use, or slot 0. */
    method Store(i: nat, e: Entry, ghost es: seq<Entry>)
      requires Holds(es)
      requires i == if IndexOf(es, e.key) < |es| then IndexOf(es, e.key) else SCAN_CACHE_SIZE
      modifies slots
      ensures Holds(Cache(es, e))
    {
      if i < SCAN_CACHE_SIZE {
        slots[i] := Slot(e, true);
        return;
      }
      var j := FirstInvalid(es);
      if j < SCAN_CACHE_SIZE {
        slots[j] := Slot(e, true);
        return;
      }
      slots[0] := slots[0].(entry := e);
    }

    /** `cache_scan_result`. */
    method CacheScanResult(addr: Addr, sid: uint8, broadcastId: nat)
      requires Valid()
      modifies this`history, slots
      ensures Valid() && history == old(history) + [Entry(Key(addr, sid), broadcastId)]
    {
      var e := Entry(Key(addr, sid), broadcastId);
      RunNext(history, e);
      var i := Find(e.key);
      Store(i, e, Run(history));
      history := history + [e];
    }

    /** `lookup_broadcast_id`: the id reported last, if the source is remembered. */
    method LookupBroadcastId(addr: Addr, sid: uint8) returns (id: nat)
      requires Valid()
      ensures id == IdAfter(history, Key(addr, sid))
    {
      LookupIsLatest(history, Key(addr, sid));
      var i := Find(Key(addr, sid));
      if i < SCAN_CACHE_SIZE {
        return slots[i].entry.broadcastId;
      }
      return BRDCAST_ID_NOT_USED;
    }
  }
}
