// The image cache: a map in insertion order with a byte counter, a time to live, and
// eviction of the oldest writes first.
module ImageCache {
  import opened Prelude

  datatype ImageResponse = ImageResponse(buffer: seq<byte>, contentType: string)

  datatype Entry = Entry(data: ImageResponse, timestamp: int, size: nat)

  datatype Slot = Slot(key: string, entry: Entry)

  datatype Contents = Contents(slots: seq<Slot>, currentCacheSize: int)

  const DEFAULT_TTL := 3600

  const MAX_CACHE_SIZE := 100 * 1024 * 1024

  /** The slack freed beyond the space required: a tenth of the capacity. */
  const SLACK := 10 * 1024 * 1024

  // ------------------------------------------------- a map that remembers its order

  predicate Distinct(slots: seq<Slot>) {
    forall i, j :: 0 <= i < j < |slots| ==> slots[i].key != slots[j].key
  }

  predicate Has(slots: seq<Slot>, key: string) {
    exists i :: 0 <= i < |slots| && slots[i].key == key
  }

  function Find(slots: seq<Slot>, key: string): (r: Option<nat>)
    ensures r.Some? ==> r.value < |slots| && slots[r.value].key == key
    ensures r.None? <==> !Has(slots, key)
  {
    if slots == [] then None
    else if slots[|slots| - 1].key == key then Some(|slots| - 1)
    else
      var r := Find(slots[..|slots| - 1], key);
      assert r.Some? ==> Has(slots, key);
      r
  }

  /** Overwriting keeps the position of the key; a new key goes last. */
  function Put(slots: seq<Slot>, key: string, entry: Entry): seq<Slot> {
    match Find(slots, key)
    case Some(i) => slots[i := Slot(key, entry)]
    case None => slots + [Slot(key, entry)]
  }

  /** The slots whose key is not among the given ones, in the same order. */
  function Without(slots: seq<Slot>, keys: set<string>): seq<Slot> {
    if slots == [] then []
    else
      var last := slots[|slots| - 1];
      Without(slots[..|slots| - 1], keys) + if last.key in keys then [] else [last]
  }

  /** A JavaScript map: overwriting a key leaves the order of keys as it is, a new one goes last. */
  lemma PutOrder(slots: seq<Slot>, key: string, entry: Entry)
    ensures var p := Put(slots, key, entry);
      && |slots| <= |p| <= |slots| + 1
      && (forall i :: 0 <= i < |slots| ==> p[i].key == slots[i].key)
      && (|p| > |slots| ==> !Has(slots, key) && p[|slots|] == Slot(key, entry))
  {}

  lemma {:induction false} WithoutMembers(slots: seq<Slot>, keys: set<string>, x: Slot)
    ensures x in Without(slots, keys) <==> x in slots && x.key !in keys
  {
    if slots != [] {
      var n := |slots| - 1;
      WithoutMembers(slots[..n], keys, x);
      assert slots == slots[..n] + [slots[n]];
    }
  }

  lemma {:induction false} WithoutTwice(slots: seq<Slot>, a: set<string>, b: set<string>)
    ensures Without(Without(slots, a), b) == Without(slots, a + b)
  {
    if slots != [] {
      var n := |slots| - 1;
      WithoutTwice(slots[..n], a, b);
      var kept := Without(slots[..n], a);
      assert (kept + [slots[n]])[..|kept|] == kept;
      assert kept + [] == kept && Without(kept, b) + [] == Without(kept, b);
    }
  }

  lemma {:induction false} WithoutNone(slots: seq<Slot>)
    ensures Without(slots, {}) == slots
  {
    if slots != [] {
      WithoutNone(slots[..|slots| - 1]);
    }
  }

  lemma {:induction false} WithoutAbsent(slots: seq<Slot>, key: string)
    requires !Has(slots, key)
    ensures Without(slots, {key}) == slots
  {
    if slots != [] {
      var n := |slots| - 1;
      assert forall i :: 0 <= i < n ==> slots[..n][i] == slots[i];
      assert !Has(slots[..n], key);
      assert slots[n].key != key;
      WithoutAbsent(slots[..n], key);
      assert slots[..n] + [slots[n]] == slots;
    }
  }

  lemma WithoutDistinct(slots: seq<Slot>, keys: set<string>)
    requires Distinct(slots)
    ensures Distinct(Without(slots, keys))
  {
    if slots != [] {
      var n := |slots| - 1;
      var kept := Without(slots[..n], keys);
      forall i | 0 <= i < |kept| ensures kept[i].key != slots[n].key {
        WithoutMembers(slots[..n], keys, kept[i]);
        var j :| 0 <= j < n && slots[..n][j] == kept[i];
      }
    }
  }

  function SizeOf(): Slot -> int {
    (s: Slot) => s.entry.size
  }

  /** Deleting one key frees exactly its size. */
  lemma {:induction false} WithoutSize(slots: seq<Slot>, i: nat)
    requires Distinct(slots) && i < |slots|
    ensures Total(Without(slots, {slots[i].key}), SizeOf()) == Total(slots, SizeOf()) - slots[i].entry.size
  {
    var n := |slots| - 1;
    var kept := Without(slots[..n], {slots[i].key});
    if i == n {
      assert !Has(slots[..n], slots[n].key);
      WithoutAbsent(slots[..n], slots[n].key);
      assert kept + [] == slots[..n];
    } else {
      WithoutSize(slots[..n], i);
      assert (kept + [slots[n]])[..|kept|] == kept;
    }
  }

  // ------------------------------------------------------------- sorting by timestamp

  predicate Ordered(slots: seq<Slot>) {
    forall i, j :: 0 <= i < j < |slots| ==> slots[i].entry.timestamp <= slots[j].entry.timestamp
  }

  /** Behind every slot at least as old. */
  function InsertSorted(slots: seq<Slot>, x: Slot): seq<Slot> {
    if slots == [] || slots[|slots| - 1].entry.timestamp <= x.entry.timestamp then slots + [x]
    else InsertSorted(slots[..|slots| - 1], x) + [slots[|slots| - 1]]
  }

  /** Ascending timestamps, earlier insertion first among equals. */
  function SortByTimestamp(slots: seq<Slot>): seq<Slot> {
    if slots == [] then []
    else InsertSorted(SortByTimestamp(slots[..|slots| - 1]), slots[|slots| - 1])
  }

  function Alone(x: Slot, t: int): seq<Slot> {
    if x.entry.timestamp == t then [x] else []
  }

  /** The slots of one timestamp, in their order. */
  function AtTime(slots: seq<Slot>, t: int): seq<Slot> {
    if slots == [] then [] else AtTime(slots[..|slots| - 1], t) + Alone(slots[|slots| - 1], t)
  }

  predicate SameMembers(s: seq<Slot>, t: seq<Slot>) {
    (forall i :: 0 <= i < |s| ==> s[i] in t) && (forall i :: 0 <= i < |t| ==> t[i] in s)
  }

  lemma {:induction false} InsertMembers(slots: seq<Slot>, x: Slot)
    ensures SameMembers(InsertSorted(slots, x), slots + [x])
    ensures |InsertSorted(slots, x)| == |slots| + 1
  {
    var n := |slots| - 1;
    if slots != [] && slots[n].entry.timestamp > x.entry.timestamp {
      InsertMembers(slots[..n], x);
      var r := InsertSorted(slots[..n], x);
      forall i | 0 <= i < |slots + [x]| ensures (slots + [x])[i] in r + [slots[n]] {
        assert i < n ==> (slots[..n] + [x])[i] in r;
        assert (slots[..n] + [x])[n] in r;
      }
    }
  }

  lemma {:induction false} InsertOrdered(slots: seq<Slot>, x: Slot)
    requires Ordered(slots)
    ensures Ordered(InsertSorted(slots, x))
  {
    var n := |slots| - 1;
    if slots != [] && slots[n].entry.timestamp > x.entry.timestamp {
      InsertOrdered(slots[..n], x);
      InsertMembers(slots[..n], x);
      var r := InsertSorted(slots[..n], x);
      forall i | 0 <= i < |r| ensures r[i].entry.timestamp <= slots[n].entry.timestamp {
        assert r[i] in slots[..n] + [x];
      }
    }
  }

  lemma {:induction false} InsertDistinct(slots: seq<Slot>, x: Slot)
    requires Distinct(slots) && !Has(slots, x.key)
    ensures Distinct(InsertSorted(slots, x))
  {
    var n := |slots| - 1;
    if slots != [] && slots[n].entry.timestamp > x.entry.timestamp {
      assert !Has(slots[..n], x.key);
      InsertDistinct(slots[..n], x);
      InsertMembers(slots[..n], x);
      var r := InsertSorted(slots[..n], x);
      forall i | 0 <= i < |r| ensures r[i].key != slots[n].key {
        assert r[i] in slots[..n] + [x];
      }
    }
  }

  lemma AtTimeSnoc(slots: seq<Slot>, x: Slot, t: int)
    ensures AtTime(slots + [x], t) == AtTime(slots, t) + Alone(x, t)
  {
    assert (slots + [x])[..|slots|] == slots;
  }

  lemma EitherOrder(slots: seq<Slot>, x: Slot, y: Slot, t: int)
    requires x.entry.timestamp != y.entry.timestamp
    ensures slots + Alone(x, t) + Alone(y, t) == slots + Alone(y, t) + Alone(x, t)
  {}

  lemma {:induction false} InsertStable(slots: seq<Slot>, x: Slot, t: int)
    requires Ordered(slots)
    ensures AtTime(InsertSorted(slots, x), t) == AtTime(slots, t) + Alone(x, t)
  {
    var n := |slots| - 1;
    if slots == [] || slots[n].entry.timestamp <= x.entry.timestamp {
      AtTimeSnoc(slots, x, t);
    } else {
      InsertStable(slots[..n], x, t);
      AtTimeSnoc(InsertSorted(slots[..n], x), slots[n], t);
      EitherOrder(AtTime(slots[..n], t), x, slots[n], t);
    }
  }

  lemma {:induction false} InsertSize(slots: seq<Slot>, x: Slot)
    ensures Total(InsertSorted(slots, x), SizeOf()) == Total(slots, SizeOf()) + x.entry.size
  {
    var n := |slots| - 1;
    if slots == [] || slots[n].entry.timestamp <= x.entry.timestamp {
      assert (slots + [x])[..|slots|] == slots;
    } else {
      InsertSize(slots[..n], x);
      var r := InsertSorted(slots[..n], x);
      assert (r + [slots[n]])[..|r|] == r;
    }
  }

  /** The sort is a rearrangement in ascending order, of the same total size. */
  lemma {:induction false} SortFacts(slots: seq<Slot>)
    requires Distinct(slots)
    ensures var s := SortByTimestamp(slots);
      && Ordered(s) && Distinct(s) && SameMembers(s, slots) && |s| == |slots|
      && Total(s, SizeOf()) == Total(slots, SizeOf())
  {
    if slots != [] {
      var n := |slots| - 1;
      var r := SortByTimestamp(slots[..n]);
      SortFacts(slots[..n]);
      assert !Has(r, slots[n].key) by {
        forall i | 0 <= i < |r| ensures r[i].key != slots[n].key { assert r[i] in slots[..n]; }
      }
      InsertMembers(r, slots[n]);
      InsertOrdered(r, slots[n]);
      InsertDistinct(r, slots[n]);
      InsertSize(r, slots[n]);
      SameMembersSnoc(slots, r, SortByTimestamp(slots));
    }
  }

  lemma SameMembersSnoc(slots: seq<Slot>, r: seq<Slot>, s: seq<Slot>)
    requires slots != [] && SameMembers(r, slots[..|slots| - 1]) && SameMembers(s, r + [slots[|slots| - 1]])
    ensures SameMembers(s, slots)
  {
    var n := |slots| - 1;
    forall i | 0 <= i < |s| ensures s[i] in slots {
      assert s[i] in r + [slots[n]];
      if s[i] in r {
        var j :| 0 <= j < |r| && r[j] == s[i];
        assert r[j] in slots[..n];
      }
    }
    forall i | 0 <= i < |slots| ensures slots[i] in s {
      if i < n {
        assert slots[..n][i] in r;
        var j :| 0 <= j < |r| && r[j] == slots[i];
        assert (r + [slots[n]])[j] in s;
      } else {
        assert (r + [slots[n]])[|r|] in s;
      }
    }
  }

  /** Equal timestamps keep their insertion order. */
  lemma {:induction false} SortStable(slots: seq<Slot>, t: int)
    requires Distinct(slots)
    ensures AtTime(SortByTimestamp(slots), t) == AtTime(slots, t)
  {
    if slots != [] {
      var n := |slots| - 1;
      SortFacts(slots[..n]);
      SortStable(slots[..n], t);
      InsertStable(SortByTimestamp(slots[..n]), slots[n], t);
    }
  }

  // ------------------------------------------------------------------------- eviction

  /** How many slots of the sorted list are evicted when the first k already are. */
  function EvictFrom(sorted: seq<Slot>, goal: int, k: nat): (n: nat)
    requires k <= |sorted|
    ensures k <= n <= |sorted|
    decreases |sorted| - k
  {
    if k == |sorted| || Total(sorted[..k], SizeOf()) >= goal then k else EvictFrom(sorted, goal, k + 1)
  }

  function Keys(slots: seq<Slot>): set<string> {
    if slots == [] then {} else Keys(slots[..|slots| - 1]) + {slots[|slots| - 1].key}
  }

  lemma {:induction false} KeysMembers(slots: seq<Slot>, key: string)
    ensures key in Keys(slots) <==> Has(slots, key)
  {
    if slots != [] {
      var n := |slots| - 1;
      KeysMembers(slots[..n], key);
      if Has(slots[..n], key) {
        var i :| 0 <= i < n && slots[..n][i].key == key;
        assert slots[i].key == key;
      }
      if Has(slots, key) && slots[n].key != key {
        var i :| 0 <= i < |slots| && slots[i].key == key;
        assert slots[..n][i].key == key;
      }
    }
  }

  /** The slots an eviction removes, oldest first. */
  function Evicted(slots: seq<Slot>, requiredSpace: nat): seq<Slot> {
    var sorted := SortByTimestamp(slots);
    sorted[..EvictFrom(sorted, requiredSpace + SLACK, 0)]
  }

  function Evict(c: Contents, requiredSpace: nat): Contents {
    var out := Evicted(c.slots, requiredSpace);
    Contents(Without(c.slots, Keys(out)), c.currentCacheSize - Total(out, SizeOf()))
  }

  lemma {:induction false} EvictFromIsLeast(sorted: seq<Slot>, goal: int, k: nat)
    requires k <= |sorted|
    ensures var n := EvictFrom(sorted, goal, k);
      && (n < |sorted| ==> Total(sorted[..n], SizeOf()) >= goal)
      && (forall j :: k <= j < n ==> Total(sorted[..j], SizeOf()) < goal)
    decreases |sorted| - k
  {
    if k < |sorted| && Total(sorted[..k], SizeOf()) < goal {
      EvictFromIsLeast(sorted, goal, k + 1);
    }
  }

  /** What is evicted: the shortest prefix of the slots in ascending write order that frees the
      required space plus the slack, or all of them when none does. */
  lemma EvictedExactly(slots: seq<Slot>, requiredSpace: nat)
    ensures var out, sorted, goal := Evicted(slots, requiredSpace), SortByTimestamp(slots), requiredSpace + SLACK;
      && out <= sorted
      && (out == sorted || Total(out, SizeOf()) >= goal)
      && (forall j :: 0 <= j < |out| ==> Total(sorted[..j], SizeOf()) < goal)
      && 10 * SLACK == MAX_CACHE_SIZE == 104857600
  {
    EvictFromIsLeast(SortByTimestamp(slots), requiredSpace + SLACK, 0);
  }

  lemma {:induction false} KeptIffNotOut(slots: seq<Slot>, sorted: seq<Slot>, n: nat, x: Slot)
    requires Distinct(sorted) && SameMembers(sorted, slots) && n <= |sorted|
    ensures x in Without(slots, Keys(sorted[..n])) <==> x in slots && x !in sorted[..n]
  {
    WithoutMembers(slots, Keys(sorted[..n]), x);
    KeysMembers(sorted[..n], x.key);
    if x in sorted[..n] {
      var i :| 0 <= i < n && sorted[..n][i] == x;
      assert Has(sorted[..n], x.key);
    }
    if x in slots {
      var k :| 0 <= k < |slots| && slots[k] == x;
      assert slots[k] in sorted;
      var j :| 0 <= j < |sorted| && sorted[j] == x;
      if x.key in Keys(sorted[..n]) {
        var i :| 0 <= i < n && sorted[..n][i].key == x.key;
        assert sorted[i].key == sorted[j].key;
        assert i == j;
        assert x == sorted[..n][i];
      }
    }
  }

  lemma PrefixIsOlder(sorted: seq<Slot>, n: nat, x: Slot, y: Slot)
    requires Ordered(sorted) && n <= |sorted| && y in sorted[..n] && x in sorted && x !in sorted[..n]
    ensures y.entry.timestamp <= x.entry.timestamp
  {}

  /** What stays: every other slot, unchanged. */
  lemma SurvivorsExactly(c: Contents, requiredSpace: nat, x: Slot)
    requires Distinct(c.slots)
    ensures x in Evict(c, requiredSpace).slots <==> x in c.slots && x !in Evicted(c.slots, requiredSpace)
  {
    var sorted := SortByTimestamp(c.slots);
    SortFacts(c.slots);
    KeptIffNotOut(c.slots, sorted, EvictFrom(sorted, requiredSpace + SLACK, 0), x);
  }

  /** No survivor is older than an evicted slot. */
  lemma SurvivorsAreNewer(c: Contents, requiredSpace: nat, x: Slot, y: Slot)
    requires Distinct(c.slots) && x in Evict(c, requiredSpace).slots && y in Evicted(c.slots, requiredSpace)
    ensures y.entry.timestamp <= x.entry.timestamp
  {
    var sorted := SortByTimestamp(c.slots);
    SortFacts(c.slots);
    SurvivorsExactly(c, requiredSpace, x);
    var k :| 0 <= k < |c.slots| && c.slots[k] == x;
    assert c.slots[k] in sorted;
    PrefixIsOlder(sorted, EvictFrom(sorted, requiredSpace + SLACK, 0), x, y);
  }

  // ---------------------------------------------------------------- accounting

  predicate Sized(slots: seq<Slot>) {
    forall i :: 0 <= i < |slots| ==> slots[i].entry.size == |slots[i].entry.data.buffer|
  }

  /** The counter is the sum of the sizes, within the capacity unless one oversized entry is
      all there is. */
  predicate Consistent(c: Contents) {
    && Distinct(c.slots) && Sized(c.slots)
    && c.currentCacheSize == Total(c.slots, SizeOf())
    && (c.currentCacheSize <= MAX_CACHE_SIZE || |c.slots| == 1)
  }

  /** Deleting the first n of the sorted slots frees exactly their sizes. */
  lemma {:induction false} WithoutManySize(slots: seq<Slot>, sorted: seq<Slot>, n: nat)
    requires Distinct(slots) && Distinct(sorted) && SameMembers(sorted, slots) && n <= |sorted|
    ensures Total(Without(slots, Keys(sorted[..n])), SizeOf()) == Total(slots, SizeOf()) - Total(sorted[..n], SizeOf())
  {
    if n == 0 {
      WithoutNone(slots);
    } else {
      WithoutManySize(slots, sorted, n - 1);
      NextIsKept(slots, sorted, n - 1);
      WithoutDistinct(slots, Keys(sorted[..n - 1]));
      WithoutMemberSize(Without(slots, Keys(sorted[..n - 1])), sorted[n - 1]);
      OneMoreOut(slots, sorted, n - 1);
    }
  }

  lemma WithoutMemberSize(slots: seq<Slot>, x: Slot)
    requires Distinct(slots) && x in slots
    ensures Total(Without(slots, {x.key}), SizeOf()) == Total(slots, SizeOf()) - x.entry.size
  {
    var i :| 0 <= i < |slots| && slots[i] == x;
    WithoutSize(slots, i);
  }

  lemma NextIsKept(slots: seq<Slot>, sorted: seq<Slot>, k: nat)
    requires Distinct(sorted) && SameMembers(sorted, slots) && k < |sorted|
    ensures sorted[k] in Without(slots, Keys(sorted[..k]))
  {
    assert sorted[k] !in sorted[..k];
    KeptIffNotOut(slots, sorted, k, sorted[k]);
  }

  /** Deleting the next slot of the sorted list. */
  lemma OneMoreOut(slots: seq<Slot>, entries: seq<Slot>, k: nat)
    requires k < |entries|
    ensures Without(Without(slots, Keys(entries[..k])), {entries[k].key}) == Without(slots, Keys(entries[..k + 1]))
    ensures Total(entries[..k + 1], SizeOf()) == Total(entries[..k], SizeOf()) + entries[k].entry.size
  {
    WithoutTwice(slots, Keys(entries[..k]), {entries[k].key});
    assert entries[..k + 1][..k] == entries[..k];
  }
}
