/** The cache vector refines a timestamped LRU map: every sequence of gets and
  * puts returns the same answers, and the vector is ordered by last use.
  */
module LruRefinement {
  import opened Wrappers
  import opened Ordering
  import opened SearchCache

  datatype Slot<V> = Slot(value: V, lastUse: nat)

  /** The textbook LRU map: slots stamped with the time of their last use. */
  datatype Lru<K, V> = Lru(capacity: nat, slots: map<K, Slot<V>>, clock: nat)

  ghost predicate Oldest<K(!new), V(!new)>(slots: map<K, Slot<V>>, k: K) {
    k in slots && forall j :: j in slots ==> slots[k].lastUse <= slots[j].lastUse
  }

  lemma {:induction false} OldestExists<K(!new), V(!new)>(slots: map<K, Slot<V>>)
    requires slots != map[]
    ensures exists k :: Oldest(slots, k)
    decreases |slots|
  {
    var k :| k in slots;
    var rest := slots - {k};
    if rest == map[] {
      assert slots.Keys == {k} + rest.Keys;
      assert Oldest(slots, k);
    } else {
      assert k !in rest.Keys && slots.Keys == rest.Keys + {k};
      assert |rest.Keys| < |slots.Keys|;
      OldestExists(rest);
      var r :| Oldest(rest, r);
      assert Oldest(slots, if slots[k].lastUse < slots[r].lastUse then k else r);
    }
  }

  ghost function LruGet<K(!new), V(!new)>(l: Lru<K, V>, k: K): (Lru<K, V>, Option<V>) {
    if k in l.slots
    then (l.(slots := l.slots[k := l.slots[k].(lastUse := l.clock)], clock := l.clock + 1), Some(l.slots[k].value))
    else (l, None)
  }

  ghost function LruPut<K(!new), V(!new)>(l: Lru<K, V>, k: K, v: V): Lru<K, V> {
    var room :=
      if k !in l.slots && |l.slots| == l.capacity && l.slots != map[]
      then OldestExists(l.slots); var victim :| Oldest(l.slots, victim); l.slots - {victim}
      else l.slots;
    l.(slots := room[k := Slot(v, l.clock)], clock := l.clock + 1)
  }

  datatype Op<K, V> = Get(key: K) | Put(key: K, value: V)

  ghost function CacheStep<K(!new), V(!new)>(c: Cache<K, V>, op: Op<K, V>): (Cache<K, V>, Option<V>) {
    match op
    case Get(k) => (Touched(c, k), Find(c.entries, k))
    case Put(k, v) => (Stored(c, k, v), None)
  }

  ghost function LruStep<K(!new), V(!new)>(l: Lru<K, V>, op: Op<K, V>): (Lru<K, V>, Option<V>) {
    match op
    case Get(k) => LruGet(l, k)
    case Put(k, v) => (LruPut(l, k, v), None)
  }

  ghost function CacheAnswers<K(!new), V(!new)>(c: Cache<K, V>, ops: seq<Op<K, V>>): seq<Option<V>>
    decreases |ops|
  {
    if ops == [] then [] else var s := CacheStep(c, ops[0]); [s.1] + CacheAnswers(s.0, ops[1..])
  }

  ghost function LruAnswers<K(!new), V(!new)>(l: Lru<K, V>, ops: seq<Op<K, V>>): seq<Option<V>>
    decreases |ops|
  {
    if ops == [] then [] else var s := LruStep(l, ops[0]); [s.1] + LruAnswers(s.0, ops[1..])
  }

  ghost function CacheAfter<K(!new), V(!new)>(c: Cache<K, V>, ops: seq<Op<K, V>>): Cache<K, V>
    decreases |ops|
  {
    if ops == [] then c else CacheAfter(CacheStep(c, ops[0]).0, ops[1..])
  }

  ghost function LruAfter<K(!new), V(!new)>(l: Lru<K, V>, ops: seq<Op<K, V>>): Lru<K, V>
    decreases |ops|
  {
    if ops == [] then l else LruAfter(LruStep(l, ops[0]).0, ops[1..])
  }

  /** The vector lists the map's slots, least recently used first. */
  ghost predicate Refines<K(!new), V(!new)>(c: Cache<K, V>, l: Lru<K, V>) {
    && WellFormed(c)
    && l.capacity == c.capacity
    && Elements(Keys(c.entries)) == l.slots.Keys
    && (forall i :: 0 <= i < |c.entries| ==>
          c.entries[i].0 in l.slots && l.slots[c.entries[i].0].value == c.entries[i].1
          && l.slots[c.entries[i].0].lastUse < l.clock)
    && (forall i, j :: 0 <= i < j < |c.entries| ==>
          l.slots[c.entries[i].0].lastUse < l.slots[c.entries[j].0].lastUse)
  }

  lemma HitIndex<K(!new), V(!new)>(c: Cache<K, V>, k: K) returns (i: nat)
    requires WellFormed(c) && Find(c.entries, k).Some?
    ensures i < |c.entries| && c.entries[i].0 == k && Find(c.entries, k) == Some(c.entries[i].1)
    ensures Without(c.entries, k) == c.entries[..i] + c.entries[i + 1..]
  {
    i :| 0 <= i < |c.entries| && Keys(c.entries)[i] == k;
    RemoveAt(c.entries, i);
  }

  /** Restamping one key with the current time is moving its entry to the end. */
  lemma AppendRefines<K(!new), V(!new)>(c: Cache<K, V>, l: Lru<K, V>, rest: seq<(K, V)>, k: K, v: V,
                                        room: map<K, Slot<V>>)
    requires Refines(c, l)
    requires WellFormed(c.(entries := rest + [(k, v)]))
    requires k !in Keys(rest)
    requires Elements(Keys(rest)) == room.Keys - {k}
    requires forall j :: j in room ==> j in l.slots && room[j] == l.slots[j]
    requires InOrder(l, rest)
    ensures Refines(c.(entries := rest + [(k, v)]), l.(slots := room[k := Slot(v, l.clock)], clock := l.clock + 1))
  {
    var after := rest + [(k, v)];
    var slots := room[k := Slot(v, l.clock)];
    assert Keys(after) == Keys(rest) + [k];
    assert Elements(Keys(after)) == Elements(Keys(rest)) + {k} == slots.Keys;
    forall i | 0 <= i < |rest| ensures rest[i].0 != k && rest[i].0 in room && slots[rest[i].0] == l.slots[rest[i].0] {
      assert Keys(rest)[i] == rest[i].0 && rest[i].0 in Elements(Keys(rest));
    }
  }

  /** What is left after taking one entry out still lists its slots in order of last use. */
  ghost predicate InOrder<K(!new), V(!new)>(l: Lru<K, V>, rest: seq<(K, V)>) {
    && (forall i :: 0 <= i < |rest| ==> rest[i].0 in l.slots && l.slots[rest[i].0].value == rest[i].1
                                        && l.slots[rest[i].0].lastUse < l.clock)
    && (forall i, j :: 0 <= i < j < |rest| ==> l.slots[rest[i].0].lastUse < l.slots[rest[j].0].lastUse)
  }

  lemma RestInOrder<K(!new), V(!new)>(c: Cache<K, V>, l: Lru<K, V>, i: nat)
    requires Refines(c, l) && i < |c.entries|
    ensures InOrder(l, c.entries[..i] + c.entries[i + 1..])
    ensures Elements(Keys(c.entries[..i] + c.entries[i + 1..])) == l.slots.Keys - {c.entries[i].0}
    ensures c.entries[i].0 !in Keys(c.entries[..i] + c.entries[i + 1..])
  {
    var rest := c.entries[..i] + c.entries[i + 1..];
    forall a | 0 <= a < |rest| ensures rest[a] == c.entries[if a < i then a else a + 1] {}
    RemovedKeys(c.entries, i);
    assert c.entries[i].0 !in Elements(Keys(rest));
  }

  lemma GetRefines<K(!new), V(!new)>(c: Cache<K, V>, l: Lru<K, V>, k: K)
    requires Refines(c, l)
    ensures Refines(Touched(c, k), LruGet(l, k).0)
    ensures Find(c.entries, k) == LruGet(l, k).1
  {
    if k in l.slots {
      var i := HitIndex(c, k);
      var rest := c.entries[..i] + c.entries[i + 1..];
      TouchKeepsShape(c, k);
      RestInOrder(c, l, i);
      AppendRefines(c, l, rest, k, c.entries[i].1, l.slots);
    }
  }

  lemma RemovedKeys<K(!new), V(!new)>(entries: seq<(K, V)>, i: nat)
    requires i < |entries| && Distinct(Keys(entries))
    ensures Elements(Keys(entries[..i] + entries[i + 1..])) == Elements(Keys(entries)) - {entries[i].0}
  {
    var keys, rest := Keys(entries), Keys(entries[..i] + entries[i + 1..]);
    assert rest == keys[..i] + keys[i + 1..];
    forall x | x in keys && x != keys[i] ensures x in rest {
      var j :| 0 <= j < |keys| && keys[j] == x;
      assert rest[if j < i then j else j - 1] == x;
    }
    forall x | x in rest ensures x in keys && x != keys[i] {
      var j :| 0 <= j < |rest| && rest[j] == x;
      assert x == keys[if j < i then j else j + 1];
    }
  }

  lemma PutPresentRefines<K(!new), V(!new)>(c: Cache<K, V>, l: Lru<K, V>, k: K, v: V)
    requires Refines(c, l) && k in l.slots
    ensures Refines(Stored(c, k, v), LruPut(l, k, v))
  {
    StoreKeepsShape(c, k, v);
    var i := HitIndex(c, k);
    RestInOrder(c, l, i);
    AppendRefines(c, l, c.entries[..i] + c.entries[i + 1..], k, v, l.slots);
  }

  lemma TailKeys<K(!new), V(!new)>(entries: seq<(K, V)>, k: K)
    requires entries != [] && k !in Keys(entries)
    ensures k !in Keys(entries[1..])
  {
    forall j | 0 <= j < |entries| - 1 ensures Keys(entries[1..])[j] != k {
      assert Keys(entries)[j + 1] in Keys(entries);
    }
  }

  lemma StoredEvicting<K(!new), V(!new)>(c: Cache<K, V>, k: K, v: V)
    requires WellFormed(c) && Find(c.entries, k).None? && |c.entries| == c.capacity
    ensures c.entries != [] && Stored(c, k, v) == c.(entries := c.entries[1..] + [(k, v)])
    ensures WellFormed(c.(entries := c.entries[1..] + [(k, v)]))
    ensures k !in Keys(c.entries[1..])
  {
    StoreKeepsShape(c, k, v);
    TailKeys(c.entries, k);
  }

  lemma RoomKeys<K(!new), V(!new)>(slots: map<K, Slot<V>>, first: K, k: K)
    requires k !in slots
    ensures (slots - {first}).Keys - {k} == slots.Keys - {first}
    ensures forall j :: j in slots - {first} ==> j in slots && (slots - {first})[j] == slots[j]
  {
  }

  /** Without its first entry the cache still lists the other slots in order of last use. */
  lemma EvictedRest<K(!new), V(!new)>(c: Cache<K, V>, l: Lru<K, V>)
    requires Refines(c, l) && c.entries != []
    ensures Elements(Keys(c.entries[1..])) == l.slots.Keys - {c.entries[0].0} && InOrder(l, c.entries[1..])
  {
    RestInOrder(c, l, 0);
    assert c.entries[..0] + c.entries[0 + 1..] == c.entries[1..];
  }

  /** Dropping the first entry and the map's slot for it, then appending a new key. */
  lemma EvictedRefines<K(!new), V(!new)>(c: Cache<K, V>, l: Lru<K, V>, k: K, v: V)
    requires Refines(c, l) && k !in l.slots && c.entries != []
    requires WellFormed(c.(entries := c.entries[1..] + [(k, v)])) && k !in Keys(c.entries[1..])
    ensures Refines(c.(entries := c.entries[1..] + [(k, v)]),
                    l.(slots := (l.slots - {c.entries[0].0})[k := Slot(v, l.clock)], clock := l.clock + 1))
  {
    EvictedRest(c, l);
    RoomKeys(l.slots, c.entries[0].0, k);
    AppendRefines(c, l, c.entries[1..], k, v, l.slots - {c.entries[0].0});
  }

  lemma PutEvictingRefines<K(!new), V(!new)>(c: Cache<K, V>, l: Lru<K, V>, k: K, v: V)
    requires Refines(c, l) && k !in l.slots && |c.entries| == c.capacity && |l.slots| == l.capacity
    ensures Refines(Stored(c, k, v), LruPut(l, k, v))
  {
    StoredEvicting(c, k, v);
    EvictedRefines(c, l, k, v);
  }

  lemma PutRefines<K(!new), V(!new)>(c: Cache<K, V>, l: Lru<K, V>, k: K, v: V)
    requires Refines(c, l)
    ensures Refines(Stored(c, k, v), LruPut(l, k, v))
  {
    ElementsBound(Keys(c.entries));
    assert |l.slots| == |l.slots.Keys| == |c.entries|;
    if k in l.slots {
      PutPresentRefines(c, l, k, v);
    } else if |c.entries| == c.capacity {
      PutEvictingRefines(c, l, k, v);
    } else {
      StoreKeepsShape(c, k, v);
      AppendRefines(c, l, c.entries, k, v, l.slots);
    }
  }

  /** Over every sequence of operations the vector and the LRU map answer alike,
    * and the vector stays the map's slots in order of last use.
    */
  lemma {:induction false} VectorRefinesLru<K(!new), V(!new)>(c: Cache<K, V>, l: Lru<K, V>, ops: seq<Op<K, V>>)
    requires Refines(c, l)
    ensures CacheAnswers(c, ops) == LruAnswers(l, ops)
    ensures Refines(CacheAfter(c, ops), LruAfter(l, ops))
    decreases |ops|
  {
    if ops != [] {
      match ops[0] {
        case Get(k) => GetRefines(c, l, k);
        case Put(k, v) => PutRefines(c, l, k, v);
      }
      VectorRefinesLru(CacheStep(c, ops[0]).0, LruStep(l, ops[0]).0, ops[1..]);
    }
  }
}
