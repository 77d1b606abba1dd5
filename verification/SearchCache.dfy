/** The recent-search cache: canonical keys, the bounded LRU vector with its
  * epoch, and the recovering lock in front of it.
  */
module SearchCache {
  import opened Wrappers
  import opened Ordering

  // --- Keys --------------------------------------------------------------------

  datatype ContentKind = Text | Url | Code | Image | FileList | RichText | UnknownKind

  datatype SearchMode = Auto | Recent | Exact | Fuzzy | FullText | Semantic
  datatype RecentOrder = ByRecency | ByUseCount | PinnedFirstThenRecency

  datatype SearchFilters = SearchFilters(
    kinds: seq<ContentKind>, pinnedOnly: bool, sourceApp: Option<string>,
    createdAfter: Option<int>, createdBefore: Option<int>)

  datatype SearchQuery = SearchQuery(
    raw: string, normalized: string, mode: SearchMode, limit: nat, filters: SearchFilters, recentOrder: RecentOrder)

  datatype CacheKey = CacheKey(
    normalized: string, mode: SearchMode, recentOrder: RecentOrder, limit: nat, filters: SearchFilters)

  function KindRank(k: ContentKind): nat {
    match k
    case Text => 0
    case Url => 1
    case Code => 2
    case Image => 3
    case FileList => 4
    case RichText => 5
    case UnknownKind => 6
  }

  function KindLe(a: ContentKind, b: ContentKind): bool {
    KindRank(a) <= KindRank(b)
  }

  function FromQuery(q: SearchQuery): CacheKey {
    CacheKey(q.normalized, q.mode, q.recentOrder, q.limit,
             q.filters.(kinds := Canonical(KindLe, q.filters.kinds)))
  }

  /** Two queries share a slot exactly when they ask the same thing, listing the
    * same kinds in any order and with any repeats.
    */
  lemma SameKeyIff(a: SearchQuery, b: SearchQuery)
    ensures FromQuery(a) == FromQuery(b) <==>
      && a.normalized == b.normalized && a.mode == b.mode && a.recentOrder == b.recentOrder && a.limit == b.limit
      && a.filters.(kinds := []) == b.filters.(kinds := [])
      && Elements(a.filters.kinds) == Elements(b.filters.kinds)
  {
    CanonicalIff(KindLe, a.filters.kinds, b.filters.kinds);
    var fa, fb := FromQuery(a).filters, FromQuery(b).filters;
    assert fa == fb <==> fa.kinds == fb.kinds && a.filters.(kinds := []) == b.filters.(kinds := []);
  }

  // --- The cache as a value --------------------------------------------------------

  const U64: nat := 0x1_0000_0000_0000_0000

  datatype Cache<K, V> = Cache(capacity: nat, entries: seq<(K, V)>, epoch: nat)

  datatype Lookup<V> = Hit(value: V) | Miss(epoch: nat)

  function Keys<K, V>(entries: seq<(K, V)>): seq<K> {
    seq(|entries|, i requires 0 <= i < |entries| => entries[i].0)
  }

  ghost predicate WellFormed<K, V>(c: Cache<K, V>) {
    && 1 <= c.capacity
    && |c.entries| <= c.capacity
    && Distinct(Keys(c.entries))
    && c.epoch < U64
  }

  function Find<K(==), V>(entries: seq<(K, V)>, k: K): (r: Option<V>)
    ensures r.Some? ==> (k, r.value) in entries
    ensures r.None? <==> k !in Keys(entries)
  {
    if entries == [] then None
    else if entries[0].0 == k then
      assert Keys(entries)[0] == k;
      Some(entries[0].1)
    else
      var r := Find(entries[1..], k);
      assert Keys(entries) == [entries[0].0] + Keys(entries[1..]);
      r
  }

  function Without<K(==,!new), V(!new)>(entries: seq<(K, V)>, k: K): (r: seq<(K, V)>)
    ensures forall e :: e in r <==> e in entries && e.0 != k
    ensures |r| <= |entries|
  {
    if entries == [] then []
    else if entries[0].0 == k then Without(entries[1..], k)
    else [entries[0]] + Without(entries[1..], k)
  }

  /** A hit moves its entry to the most-recent end. */
  function Touched<K(==,!new), V(!new)>(c: Cache<K, V>, k: K): Cache<K, V> {
    match Find(c.entries, k)
    case None => c
    case Some(v) => c.(entries := Without(c.entries, k) + [(k, v)])
  }

  function LookedUp<K(==,!new), V(!new)>(c: Cache<K, V>, k: K): Lookup<V> {
    match Find(c.entries, k)
    case None => Miss(c.epoch)
    case Some(v) => Hit(v)
  }

  function Stored<K(==,!new), V(!new)>(c: Cache<K, V>, k: K, v: V): Cache<K, V> {
    var room :=
      if Find(c.entries, k).Some? then Without(c.entries, k)
      else if |c.entries| == c.capacity && c.entries != [] then c.entries[1..]
      else c.entries;
    c.(entries := room + [(k, v)])
  }

  function StoredIfEpoch<K(==,!new), V(!new)>(c: Cache<K, V>, k: K, v: V, epoch: nat): Cache<K, V> {
    if c.epoch == epoch then Stored(c, k, v) else c
  }

  function Invalidated<K, V>(c: Cache<K, V>): Cache<K, V> {
    c.(entries := [], epoch := (c.epoch + 1) % U64)
  }

  // --- The cache as the source keeps it --------------------------------------------

  class RecentSearchCache<K(==,!new), V(!new)> {
    const capacity: nat
    var entries: seq<(K, V)>
    var epoch: nat

    ghost function Model(): Cache<K, V>
      reads this
    {
      Cache(capacity, entries, epoch)
    }

    ghost predicate Valid()
      reads this
    {
      WellFormed(Model())
    }

    constructor (capacity: nat)
      ensures Valid() && this.capacity == (if capacity < 1 then 1 else capacity) && entries == [] && epoch == 0
    {
      this.capacity := if capacity < 1 then 1 else capacity;
      entries, epoch := [], 0;
    }

    method Position(key: K) returns (pos: Option<nat>)
      requires Valid()
      ensures pos.None? ==> Find(entries, key).None?
      ensures pos.Some? ==> pos.value < |entries| && entries[pos.value].0 == key
      ensures pos.Some? ==> Find(entries, key) == Some(entries[pos.value].1)
      ensures pos.Some? ==> Without(entries, key) == entries[..pos.value] + entries[pos.value + 1..]
    {
      var i := 0;
      while i < |entries|
        invariant 0 <= i <= |entries|
        invariant forall j :: 0 <= j < i ==> entries[j].0 != key
      {
        if entries[i].0 == key {
          RemoveAt(entries, i);
          return Some(i);
        }
        i := i + 1;
      }
      assert forall j :: 0 <= j < |Keys(entries)| ==> Keys(entries)[j] != key;
      pos := None;
    }

    method Get(key: K) returns (value: Option<V>)
      requires Valid()
      modifies this
      ensures Valid()
      ensures value == Find(old(entries), key)
      ensures Model() == Touched(old(Model()), key)
    {
      var pos := Position(key);
      match pos {
        case None => return None;
        case Some(p) =>
          var entry := entries[p];
          TouchKeepsShape(Model(), key);
          entries := entries[..p] + entries[p + 1..];
          entries := entries + [entry];
          value := Some(entry.1);
      }
    }

    method LookUp(key: K) returns (r: Lookup<V>)
      requires Valid()
      modifies this
      ensures Valid()
      ensures r == LookedUp(old(Model()), key)
      ensures Model() == Touched(old(Model()), key)
    {
      var hit := Get(key);
      r := if hit.Some? then Hit(hit.value) else Miss(epoch);
    }

    method Put(key: K, value: V)
      requires Valid()
      modifies this
      ensures Valid()
      ensures Model() == Stored(old(Model()), key, value)
    {
      StoreKeepsShape(Model(), key, value);
      var pos := Position(key);
      if pos.Some? {
        entries := entries[..pos.value] + entries[pos.value + 1..];
      } else if |entries| == capacity {
        entries := entries[1..];
      }
      entries := entries + [(key, value)];
    }

    method PutIfEpoch(key: K, value: V, seen: nat) returns (accepted: bool)
      requires Valid()
      modifies this
      ensures Valid()
      ensures accepted <==> old(epoch) == seen
      ensures Model() == StoredIfEpoch(old(Model()), key, value, seen)
    {
      if epoch != seen { return false; }
      Put(key, value);
      accepted := true;
    }

    method Invalidate()
      modifies this
      ensures Model() == Invalidated(old(Model()))
      ensures old(Valid()) ==> Valid()
    {
      entries := [];
      epoch := (epoch + 1) % U64;
    }
  }

  lemma {:induction false} RemoveAt<K(!new), V(!new)>(entries: seq<(K, V)>, i: nat)
    requires i < |entries| && Distinct(Keys(entries))
    ensures Find(entries, entries[i].0) == Some(entries[i].1)
    ensures Without(entries, entries[i].0) == entries[..i] + entries[i + 1..]
  {
    var keys := Keys(entries);
    var rest := entries[1..];
    assert Keys(rest) == keys[1..];
    if i == 0 {
      WithoutAbsent(rest, keys[0]);
    } else {
      assert keys[0] != keys[i];
      RemoveAt(rest, i - 1);
      assert entries[..i] + entries[i + 1..] == [entries[0]] + (rest[..i - 1] + rest[i..]);
    }
  }

  lemma {:induction false} WithoutAbsent<K(!new), V(!new)>(entries: seq<(K, V)>, k: K)
    requires k !in Keys(entries)
    ensures Without(entries, k) == entries
  {
    if entries != [] {
      assert Keys(entries)[0] == entries[0].0;
      assert Keys(entries[1..]) == Keys(entries)[1..];
      WithoutAbsent(entries[1..], k);
    }
  }

  lemma {:induction false} WithoutKeepsDistinct<K(!new), V(!new)>(entries: seq<(K, V)>, k: K)
    requires Distinct(Keys(entries))
    ensures Distinct(Keys(Without(entries, k)))
    ensures k !in Keys(Without(entries, k))
    ensures k in Keys(entries) ==> |Without(entries, k)| == |entries| - 1
  {
    var keys := Keys(entries);
    if i :| 0 <= i < |keys| && keys[i] == k {
      RemoveAt(entries, i);
      assert Keys(Without(entries, k)) == keys[..i] + keys[i + 1..];
      DistinctWithoutAt(keys, i);
    } else {
      WithoutAbsent(entries, k);
    }
  }

  lemma DistinctWithoutAt<K(!new)>(keys: seq<K>, i: nat)
    requires i < |keys| && Distinct(keys)
    ensures Distinct(keys[..i] + keys[i + 1..]) && keys[i] !in keys[..i] + keys[i + 1..]
  {
  }

  lemma TouchKeepsShape<K(!new), V(!new)>(c: Cache<K, V>, k: K)
    requires WellFormed(c)
    ensures WellFormed(Touched(c, k))
  {
    WithoutKeepsDistinct(c.entries, k);
    if Find(c.entries, k).Some? {
      assert Keys(Touched(c, k).entries) == Keys(Without(c.entries, k)) + [k];
    }
  }

  lemma StoreKeepsShape<K(!new), V(!new)>(c: Cache<K, V>, k: K, v: V)
    requires WellFormed(c)
    ensures WellFormed(Stored(c, k, v))
  {
    WithoutKeepsDistinct(c.entries, k);
    var after := Stored(c, k, v).entries;
    assert Keys(after) == Keys(after[..|after| - 1]) + [k];
    if Find(c.entries, k).None? && |c.entries| == c.capacity {
      assert Keys(c.entries[1..]) == Keys(c.entries)[1..];
    }
  }

  // --- The recovering lock ----------------------------------------------------------

  /** The shared handle: a mutex that stays poisoned once a holder panicked. */
  class SharedSearchCache<K(==,!new), V(!new)> {
    const cache: RecentSearchCache<K, V>
    var poisoned: bool

    constructor (cache: RecentSearchCache<K, V>)
      ensures this.cache == cache && !poisoned
    {
      this.cache, poisoned := cache, false;
    }

    /** What the caller of `lock_or_recover` finds behind the guard. */
    method LockOrRecover()
      modifies cache
      ensures cache.Model() == if poisoned then Invalidated(old(cache.Model())) else old(cache.Model())
    {
      if poisoned { cache.Invalidate(); }
    }
  }
}
