// The operations of the image cache, their accounting, and what a hit means.
module ImageCacheService {
  import opened Prelude
  import opened ImageCache

  datatype Op =
    | Get(key: string, ttl: Option<int>, now: int)
    | Set(key: string, data: ImageResponse, now: int)
    | Delete(key: string)
    | Clear

  /** Seconds an entry stays valid; an absent or zero option means the default. */
  function Ttl(option: Option<int>): int {
    if option.Some? && option.value != 0 then option.value else DEFAULT_TTL
  }

  predicate Expired(e: Entry, ttl: Option<int>, now: int) {
    now - e.timestamp > Ttl(ttl) * 1000
  }

  function Remove(c: Contents, key: string): Contents {
    match Find(c.slots, key)
    case Some(i) => Contents(Without(c.slots, {key}), c.currentCacheSize - c.slots[i].entry.size)
    case None => c
  }

  function Lookup(c: Contents, key: string, ttl: Option<int>, now: int): Option<ImageResponse> {
    match Find(c.slots, key)
    case Some(i) => if Expired(c.slots[i].entry, ttl, now) then None else Some(c.slots[i].entry.data)
    case None => None
  }

  function AfterGet(c: Contents, key: string, ttl: Option<int>, now: int): Contents {
    match Find(c.slots, key)
    case Some(i) => if Expired(c.slots[i].entry, ttl, now) then Remove(c, key) else c
    case None => c
  }

  /** Room is made before the write, and before the replaced entry is discounted. */
  function Roomy(c: Contents, size: nat): Contents {
    if c.currentCacheSize + size > MAX_CACHE_SIZE then Evict(c, size) else c
  }

  function AfterSet(c: Contents, key: string, data: ImageResponse, now: int): Contents {
    var size := |data.buffer|;
    var r := Roomy(c, size);
    var replaced := match Find(r.slots, key) case Some(i) => r.slots[i].entry.size case None => 0;
    Contents(Put(r.slots, key, Entry(data, now, size)), r.currentCacheSize - replaced + size)
  }

  function Apply(c: Contents, op: Op): Contents {
    match op
    case Get(key, ttl, now) => AfterGet(c, key, ttl, now)
    case Set(key, data, now) => AfterSet(c, key, data, now)
    case Delete(key) => Remove(c, key)
    case Clear => Contents([], 0)
  }

  function Run(ops: seq<Op>): Contents {
    if ops == [] then Contents([], 0) else Apply(Run(ops[..|ops| - 1]), ops[|ops| - 1])
  }

  // ---------------------------------------------------------------------- accounting

  lemma SubsetFacts(slots: seq<Slot>, keys: set<string>)
    requires Distinct(slots) && Sized(slots)
    ensures Distinct(Without(slots, keys)) && Sized(Without(slots, keys))
  {
    WithoutDistinct(slots, keys);
    var kept := Without(slots, keys);
    forall i | 0 <= i < |kept| ensures kept[i].entry.size == |kept[i].entry.data.buffer| {
      WithoutMembers(slots, keys, kept[i]);
      var j :| 0 <= j < |slots| && slots[j] == kept[i];
    }
  }

  lemma {:induction false} WithoutLength(slots: seq<Slot>, keys: set<string>)
    ensures |Without(slots, keys)| <= |slots|
  {
    if slots != [] { WithoutLength(slots[..|slots| - 1], keys); }
  }

  lemma RemoveConsistent(c: Contents, key: string)
    requires Consistent(c)
    ensures Consistent(Remove(c, key))
  {
    if Find(c.slots, key).Some? {
      var i := Find(c.slots, key).value;
      WithoutSize(c.slots, i);
      SubsetFacts(c.slots, {key});
      WithoutLength(c.slots, {key});
      if |c.slots| == 1 {
        assert c.slots[..0] == [];
      }
    }
  }

  /** After an eviction for a write of some size either the write fits or nothing is left. */
  lemma RoomyFits(c: Contents, size: nat)
    requires Consistent(c)
    ensures var r := Roomy(c, size);
      && Distinct(r.slots) && Sized(r.slots) && r.currentCacheSize == Total(r.slots, SizeOf())
      && (r.currentCacheSize + size <= MAX_CACHE_SIZE || r.slots == [])
  {
    if c.currentCacheSize + size > MAX_CACHE_SIZE {
      var sorted := SortByTimestamp(c.slots);
      var n := EvictFrom(sorted, size + SLACK, 0);
      SortFacts(c.slots);
      SubsetFacts(c.slots, Keys(sorted[..n]));
      WithoutManySize(c.slots, sorted, n);
      EvictedExactly(c.slots, size);
      if n == |sorted| {
        assert sorted[..n] == sorted;
        EvictedAll(c.slots, sorted);
      } else if c.currentCacheSize > MAX_CACHE_SIZE {
        assert false;
      }
    }
  }

  lemma EvictedAll(slots: seq<Slot>, sorted: seq<Slot>)
    requires Distinct(sorted) && SameMembers(sorted, slots)
    ensures Without(slots, Keys(sorted)) == []
  {
    var kept := Without(slots, Keys(sorted));
    if kept != [] {
      assert sorted[..|sorted|] == sorted;
      KeptIffNotOut(slots, sorted, |sorted|, kept[0]);
    }
  }

  lemma PutFacts(slots: seq<Slot>, key: string, e: Entry)
    requires Distinct(slots) && Sized(slots) && e.size == |e.data.buffer|
    ensures Distinct(Put(slots, key, e)) && Sized(Put(slots, key, e))
    ensures Total(Put(slots, key, e), SizeOf()) == Total(slots, SizeOf()) + e.size
      - match Find(slots, key) case Some(i) => slots[i].entry.size case None => 0
    ensures slots == [] ==> |Put(slots, key, e)| == 1
  {}

  lemma SetConsistent(c: Contents, key: string, data: ImageResponse, now: int)
    requires Consistent(c)
    ensures Consistent(AfterSet(c, key, data, now))
  {
    var size := |data.buffer|;
    RoomyFits(c, size);
    PutFacts(Roomy(c, size).slots, key, Entry(data, now, size));
  }

  lemma ApplyConsistent(c: Contents, op: Op)
    requires Consistent(c)
    ensures Consistent(Apply(c, op))
  {
    match op
    case Get(key, _, _) => RemoveConsistent(c, key);
    case Set(key, data, now) => SetConsistent(c, key, data, now);
    case Delete(key) => RemoveConsistent(c, key);
    case Clear =>
  }

  /** After any run the counter is the sum of the stored sizes and within the capacity, unless
      the cache is one single entry larger than it. */
  lemma {:induction false} RunConsistent(ops: seq<Op>)
    ensures Consistent(Run(ops))
  {
    if ops != [] {
      RunConsistent(ops[..|ops| - 1]);
      ApplyConsistent(Run(ops[..|ops| - 1]), ops[|ops| - 1]);
    }
  }

  // ------------------------------------------------------ an unbounded write history

  /** The last value written to the key and when, whatever else happened. */
  function LatestSet(ops: seq<Op>, key: string): Option<(ImageResponse, int)> {
    if ops == [] then None
    else
      var op := ops[|ops| - 1];
      if op.Set? && op.key == key then Some((op.data, op.now)) else LatestSet(ops[..|ops| - 1], key)
  }

  predicate Latest(ops: seq<Op>, x: Slot) {
    LatestSet(ops, x.key) == Some((x.entry.data, x.entry.timestamp))
  }

  lemma RemainsAfterRemove(c: Contents, key: string, x: Slot)
    ensures x in Remove(c, key).slots ==> x in c.slots && (x.key != key)
  {
    if Find(c.slots, key).Some? {
      WithoutMembers(c.slots, {key}, x);
    } else if x in c.slots {
      var i :| 0 <= i < |c.slots| && c.slots[i] == x;
      assert !Has(c.slots, key);
    }
  }

  /** Where a slot of the cache after a write comes from. */
  lemma SlotsAfterSet(c: Contents, key: string, data: ImageResponse, now: int, x: Slot)
    requires Consistent(c)
    ensures x in AfterSet(c, key, data, now).slots <==>
      (x == Slot(key, Entry(data, now, |data.buffer|)) || (x.key != key && x in Roomy(c, |data.buffer|).slots))
  {
    RoomyFits(c, |data.buffer|);
    var slots := Roomy(c, |data.buffer|).slots;
    PutMembers(slots, key, Entry(data, now, |data.buffer|), x);
  }

  lemma PutMembers(slots: seq<Slot>, key: string, e: Entry, x: Slot)
    requires Distinct(slots)
    ensures x in Put(slots, key, e) <==> x == Slot(key, e) || (x.key != key && x in slots)
  {
    var p := Put(slots, key, e);
    var at := match Find(slots, key) case Some(i) => i case None => |slots|;
    assert p[at] == Slot(key, e);
    if x in slots && x.key != key {
      var i :| 0 <= i < |slots| && slots[i] == x;
      assert p[i] == x;
    }
    if x in p && x != Slot(key, e) {
      var i :| 0 <= i < |p| && p[i] == x;
      assert i != at && slots[i] == x;
      assert Has(slots, x.key);
    }
  }

  lemma SlotsAfterApply(c: Contents, op: Op, x: Slot)
    requires Consistent(c) && x in Apply(c, op).slots
    ensures if op.Set? && op.key == x.key then x.entry == Entry(op.data, op.now, |op.data.buffer|) else x in c.slots
  {
    match op
    case Get(key, _, _) => RemainsAfterRemove(c, key, x);
    case Set(key, data, now) =>
      SlotsAfterSet(c, key, data, now, x);
      SurvivorsExactly(c, |data.buffer|, x);
    case Delete(key) => RemainsAfterRemove(c, key, x);
    case Clear =>
  }

  /** After any run every stored entry is the latest write of its key. */
  lemma {:induction false} StoredIsLatest(ops: seq<Op>, x: Slot)
    requires x in Run(ops).slots
    ensures Latest(ops, x)
  {
    var before := Run(ops[..|ops| - 1]);
    RunConsistent(ops[..|ops| - 1]);
    SlotsAfterApply(before, ops[|ops| - 1], x);
    if x in before.slots { StoredIsLatest(ops[..|ops| - 1], x); }
  }

  /** The bounded cache refines the write history: a hit is the latest value written to that
      key, and that write is not older than the time to live. */
  lemma HitIsLatest(ops: seq<Op>, key: string, ttl: Option<int>, now: int)
    requires Lookup(Run(ops), key, ttl, now).Some?
    ensures var latest := LatestSet(ops, key);
      latest.Some? && Lookup(Run(ops), key, ttl, now).value == latest.value.0 && now - latest.value.1 <= Ttl(ttl) * 1000
  {
    StoredIsLatest(ops, Run(ops).slots[Find(Run(ops).slots, key).value]);
  }

  lemma FindMember(slots: seq<Slot>, x: Slot)
    requires Distinct(slots) && x in slots
    ensures Find(slots, x.key).Some? && slots[Find(slots, x.key).value] == x
  {}

  /** And what was just written is hit, whatever had to be evicted for it. */
  lemma WriteIsHit(ops: seq<Op>, key: string, data: ImageResponse, at: int, ttl: Option<int>, now: int)
    ensures Lookup(Run(ops + [Set(key, data, at)]), key, ttl, now)
         == if now - at <= Ttl(ttl) * 1000 then Some(data) else None
  {
    var all := ops + [Set(key, data, at)];
    assert all[..|ops|] == ops;
    var x := Slot(key, Entry(data, at, |data.buffer|));
    var c := Run(ops);
    RunConsistent(ops);
    SetConsistent(c, key, data, at);
    SlotsAfterSet(c, key, data, at, x);
    FindMember(AfterSet(c, key, data, at).slots, x);
    assert Run(all) == AfterSet(c, key, data, at);
  }

  /** Reading a live entry answers it and leaves the whole cache as it is; reading any other key
      answers nothing and at most drops what is stored under that key. */
  lemma ReadExactly(c: Contents, key: string, ttl: Option<int>, now: int)
    requires Consistent(c)
    ensures var limit := 1000 * if ttl.Some? && ttl.value != 0 then ttl.value else 3600;
      var c' := Apply(c, Get(key, ttl, now));
      && (forall x :: x in c.slots && x.key == key && now - x.entry.timestamp <= limit ==>
            Lookup(c, key, ttl, now) == Some(x.entry.data) && c' == c)
      && ((forall x :: x in c.slots && x.key == key ==> now - x.entry.timestamp > limit) ==>
            Lookup(c, key, ttl, now) == None && forall x :: x in c'.slots <==> x in c.slots && x.key != key)
  {
    forall x | x in c.slots && x.key == key ensures Find(c.slots, key).Some? && c.slots[Find(c.slots, key).value] == x {
      FindMember(c.slots, x);
    }
    if Find(c.slots, key).Some? { assert c.slots[Find(c.slots, key).value] in c.slots; }
    forall x ensures x in Remove(c, key).slots <==> x in c.slots && x.key != key { DeleteExactly(c, key, x); }
  }

  /** Deleting a key drops what is stored under it and no other entry. */
  lemma DeleteExactly(c: Contents, key: string, x: Slot)
    ensures x in Apply(c, Delete(key)).slots <==> x in c.slots && x.key != key
  {
    RemainsAfterRemove(c, key, x);
    if Find(c.slots, key).Some? { WithoutMembers(c.slots, {key}, x); }
  }

  lemma LookupAfterDelete(c: Contents, key: string, other: string, now: int)
    requires Consistent(c)
    ensures Lookup(Apply(c, Delete(key)), other, None, now)
         == if key == other then None else Lookup(c, other, None, now)
  {
    var c' := Apply(c, Delete(key));
    RemoveConsistent(c, key);
    if Find(c'.slots, other).Some? {
      var x := c'.slots[Find(c'.slots, other).value];
      DeleteExactly(c, key, x);
      FindMember(c.slots, x);
    } else if Find(c.slots, other).Some? {
      var x := c.slots[Find(c.slots, other).value];
      DeleteExactly(c, key, x);
      if key != other { FindMember(c'.slots, x); }
    }
  }

  /** Clearing leaves nothing stored and nothing counted. */
  lemma ClearExactly(c: Contents, x: Slot)
    ensures x !in Apply(c, Clear).slots && Apply(c, Clear).currentCacheSize == 0
  {}

  /** An operation that leaves an entry alone: reads, unless they find it expired; deletes of
      other keys; writes of other keys that fit beside what is stored. */
  predicate Spares(c: Contents, op: Op, x: Slot) {
    match op
    case Get(key, ttl, now) =>
      key == x.key ==> now - x.entry.timestamp <= 1000 * if ttl.Some? && ttl.value != 0 then ttl.value else 3600
    case Set(key, data, _) => key != x.key && c.currentCacheSize + |data.buffer| <= 104857600
    case Delete(key) => key != x.key
    case Clear => false
  }

  predicate SparesAll(ops: seq<Op>, more: seq<Op>, x: Slot) {
    more == [] ||
    (SparesAll(ops, more[..|more| - 1], x) && Spares(Run(ops + more[..|more| - 1]), more[|more| - 1], x))
  }

  lemma SparedStays(c: Contents, op: Op, x: Slot)
    requires Consistent(c) && x in c.slots && Spares(c, op, x)
    ensures x in Apply(c, op).slots
  {
    match op
    case Get(key, ttl, now) => ReadExactly(c, key, ttl, now);
    case Set(key, data, now) => FittingWriteKeepsAll(c, key, data, now, x);
    case Delete(key) => DeleteExactly(c, key, x);
  }

  lemma {:induction false} SparedRun(ops: seq<Op>, more: seq<Op>, x: Slot)
    requires x in Run(ops).slots && SparesAll(ops, more, x)
    ensures x in Run(ops + more).slots
  {
    if more == [] {
      assert ops + more == ops;
    } else {
      var n := |more| - 1;
      SparedRun(ops, more[..n], x);
      RunConsistent(ops + more[..n]);
      SparedStays(Run(ops + more[..n]), more[n], x);
      assert (ops + more)[..|ops + more| - 1] == ops + more[..n];
    }
  }

  /** What was written is found as often as it is looked up, until its time to live passes, as
      long as all that happens in between spares it. */
  lemma WriteStaysHit(
    ops: seq<Op>, key: string, data: ImageResponse, at: int, more: seq<Op>, ttl: Option<int>, now: int
  )
    requires SparesAll(ops + [Set(key, data, at)], more, Slot(key, Entry(data, at, |data.buffer|)))
    ensures Lookup(Run(ops + [Set(key, data, at)] + more), key, ttl, now)
         == if now - at <= 1000 * (if ttl.Some? && ttl.value != 0 then ttl.value else 3600) then Some(data) else None
  {
    var written, x := ops + [Set(key, data, at)], Slot(key, Entry(data, at, |data.buffer|));
    assert written[..|ops|] == ops;
    RunConsistent(ops);
    SlotsAfterSet(Run(ops), key, data, at, x);
    SparedRun(written, more, x);
    RunConsistent(written + more);
    FindMember(Run(written + more).slots, x);
  }

  /** A write that fits beside what is stored evicts nothing. */
  lemma FittingWriteKeepsAll(c: Contents, key: string, data: ImageResponse, now: int, x: Slot)
    requires Consistent(c) && c.currentCacheSize + |data.buffer| <= MAX_CACHE_SIZE && x in c.slots && x.key != key
    ensures x in AfterSet(c, key, data, now).slots
  {
    SlotsAfterSet(c, key, data, now, x);
  }

  // ------------------------------------------------------------------------ the service

  /** The cache once the first k slots of the sorted list are deleted. */
  function WithoutFirst(c: Contents, entries: seq<Slot>, k: nat): Contents
    requires k <= |entries|
  {
    Contents(Without(c.slots, Keys(entries[..k])), c.currentCacheSize - Total(entries[..k], SizeOf()))
  }

  lemma NoneDeleted(c: Contents, entries: seq<Slot>)
    ensures WithoutFirst(c, entries, 0) == c && Total(entries[..0], SizeOf()) == 0
  {
    WithoutNone(c.slots);
    assert entries[..0] == [];
  }

  lemma OneMoreDeleted(c: Contents, entries: seq<Slot>, k: nat)
    requires k < |entries|
    ensures var before, x := WithoutFirst(c, entries, k), entries[k];
      WithoutFirst(c, entries, k + 1)
      == Contents(Without(before.slots, {x.key}), before.currentCacheSize - x.entry.size)
    ensures Total(entries[..k + 1], SizeOf()) == Total(entries[..k], SizeOf()) + entries[k].entry.size
  {
    OneMoreOut(c.slots, entries, k);
  }

  class Cache {
    var cache: seq<Slot>
    var currentCacheSize: int

    function State(): Contents
      reads this
    {
      Contents(cache, currentCacheSize)
    }

    constructor ()
      ensures State() == Run([])
    {
      cache, currentCacheSize := [], 0;
    }

    method GetEntry(key: string, ttl: Option<int>, now: int) returns (r: Option<ImageResponse>)
      modifies this
      ensures r == Lookup(old(State()), key, ttl, now) && State() == AfterGet(old(State()), key, ttl, now)
    {
      var found := Find(cache, key);
      if found.None? {
        return None;
      }
      var entry := cache[found.value].entry;
      if now - entry.timestamp > Ttl(ttl) * 1000 {
        var _ := DeleteEntry(key);
        return None;
      }
      return Some(entry.data);
    }

    method SetEntry(key: string, data: ImageResponse, now: int)
      requires Consistent(State())
      modifies this
      ensures State() == AfterSet(old(State()), key, data, now) && Consistent(State())
    {
      SetConsistent(State(), key, data, now);
      var size := |data.buffer|;
      if currentCacheSize + size > MAX_CACHE_SIZE {
        EvictLeastRecentlyUsed(size);
      }
      var entry := Entry(data, now, size);
      var found := Find(cache, key);
      if found.Some? {
        currentCacheSize := currentCacheSize - cache[found.value].entry.size;
      }
      cache := Put(cache, key, entry);
      currentCacheSize := currentCacheSize + size;
    }

    method DeleteEntry(key: string) returns (deleted: bool)
      modifies this
      ensures State() == Remove(old(State()), key) && (deleted <==> Has(old(cache), key))
    {
      var found := Find(cache, key);
      if found.None? {
        return false;
      }
      currentCacheSize := currentCacheSize - cache[found.value].entry.size;
      cache := Without(cache, {key});
      return true;
    }

    method ClearAll()
      modifies this
      ensures State() == Contents([], 0)
    {
      cache := [];
      currentCacheSize := 0;
    }

    method EvictLeastRecentlyUsed(requiredSpace: nat)
      modifies this
      ensures State() == Evict(old(State()), requiredSpace)
    {
      var entries := SortByTimestamp(cache);
      var freedSpace := 0;
      var k := 0;
      var enough := false;
      ghost var before, goal := State(), requiredSpace + SLACK;
      NoneDeleted(before, entries);
      while k < |entries| && !enough
        invariant 0 <= k <= |entries|
        invariant freedSpace == Total(entries[..k], SizeOf())
        invariant State() == WithoutFirst(before, entries, k)
        invariant enough <==> freedSpace >= goal
        invariant EvictFrom(entries, goal, 0) == EvictFrom(entries, goal, k)
        decreases |entries| - k
      {
        var slot := entries[k];
        OneMoreDeleted(before, entries, k);
        cache := Without(cache, {slot.key});
        currentCacheSize := currentCacheSize - slot.entry.size;
        freedSpace := freedSpace + slot.entry.size;
        k := k + 1;
        enough := freedSpace >= requiredSpace + SLACK;
      }
      assert EvictFrom(entries, goal, 0) == k;
    }
  }
}
