/** The search cache under any interleaving of readers and mutators. */
module CacheCoherence {
  import opened Wrappers
  import opened Ordering
  import opened SearchCache

  type Corpus = map<nat, string>
  type Rows = seq<nat>
  type Query = (Corpus, CacheKey) -> Rows
  type MutatorId = nat
  type ReaderId = nat

  /** Cached rows, with the corpus version current when their query began. */
  datatype Stamped = Stamped(rows: Rows, since: nat)

  /** A search between its miss and its put. `bumps` counts the invalidations so far. */
  datatype Reader = Reader(key: CacheKey, epoch: nat, bumps: nat, since: nat, rows: Option<Rows>)

  /** A reader looks up, queries the store, and puts its rows back only if the epoch it saw still
    * stands; a mutator commits and then invalidates; a lock holder may panic part-way.
    */
  datatype System = System(
    corpus: Corpus,
    version: nat,                       // commits so far
    pending: map<nat, MutatorId>,       // commits not yet followed by their mutator's invalidate
    cache: Cache<CacheKey, Stamped>,
    bumps: nat,
    poisoned: bool,
    readers: map<ReaderId, Reader>)

  datatype Action =
    | Commit(m: MutatorId, corpus: Corpus)
    | InvalidateBy(m: MutatorId)
    | LookUp(r: ReaderId, key: CacheKey)
    | ReadRows(r: ReaderId, rows: Rows)   // the store search: several statements, not one snapshot
    | PutRows(r: ReaderId)
    | Abandon(r: ReaderId)
    | Panic(left: seq<(CacheKey, Stamped)>, bumped: bool)   // a holder panics part-way through its update

  /** Taking the lock: a poisoned mutex forces an invalidation every time. */
  function Locked(s: System): System {
    if s.poisoned then s.(cache := Invalidated(s.cache), bumps := s.bumps + 1) else s
  }

  function Served(s: System, key: CacheKey): Lookup<Stamped> {
    LookedUp(Locked(s).cache, key)
  }

  function Step(q: Query, s: System, a: Action): System {
    match a
    case Commit(m, corpus) =>
      s.(corpus := corpus, version := s.version + 1, pending := s.pending[s.version + 1 := m])
    case InvalidateBy(m) =>
      var t := Locked(s);
      t.(cache := Invalidated(t.cache), bumps := t.bumps + 1,
         pending := map c | c in s.pending && s.pending[c] != m :: s.pending[c])
    case LookUp(r, key) =>
      var t := Locked(s);
      (match LookedUp(t.cache, key)
       case Hit(_) => t.(cache := Touched(t.cache, key))
       case Miss(epoch) => t.(readers := t.readers[r := Reader(key, epoch, t.bumps, t.version, None)]))
    case ReadRows(r, rows) =>
      if r in s.readers && s.readers[r].rows.None?
         && (s.version == s.readers[r].since ==> rows == q(s.corpus, s.readers[r].key))
      then s.(readers := s.readers[r := s.readers[r].(rows := Some(rows))])
      else s
    case PutRows(r) =>
      if r in s.readers && s.readers[r].rows.Some? then
        var t := Locked(s);
        var reader := t.readers[r];
        t.(cache := StoredIfEpoch(t.cache, reader.key, Stamped(reader.rows.value, reader.since), reader.epoch),
           readers := t.readers - {r})
      else s
    case Abandon(r) => s.(readers := s.readers - {r})
    case Panic(left, bumped) =>
      s.(cache := Cache(s.cache.capacity, left, if bumped then (s.cache.epoch + 1) % U64 else s.cache.epoch),
         bumps := if bumped then s.bumps + 1 else s.bumps, poisoned := true)
  }

  /** A put or an abandon ends its search; nothing else does, and no search ends another's. */
  lemma SearchEnds(q: Query, s: System, a: Action, r: ReaderId)
    requires r in s.readers
    ensures var t := Step(q, s, a);
      && (a == Abandon(r) || (a == PutRows(r) && s.readers[r].rows.Some?) ==> r !in t.readers)
      && (!(a == Abandon(r) || a == PutRows(r) || (a.LookUp? && a.r == r) || (a.ReadRows? && a.r == r)) ==>
            r in t.readers && t.readers[r] == s.readers[r])
  {
  }

  /** The one timing assumption: fewer than 2^64 invalidations between a lookup and its put. */
  ghost predicate InTime(s: System, a: Action) {
    a.PutRows? && a.r in s.readers ==> Locked(s).bumps - s.readers[a.r].bumps < U64
  }

  ghost function Run(q: Query, s: System, actions: seq<Action>): System {
    if actions == [] then s
    else Step(q, Run(q, s, actions[..|actions| - 1]), actions[|actions| - 1])
  }

  ghost predicate RunInTime(q: Query, s: System, actions: seq<Action>) {
    forall i :: 0 <= i < |actions| ==> InTime(Run(q, s, actions[..i]), actions[i])
  }

  // --- The invariant -------------------------------------------------------------

  /** A query begun at `since` missed only commits still awaiting their invalidate. */
  ghost predicate MissedOnlyPending(s: System, since: nat) {
    && since <= s.version
    && forall c :: since < c <= s.version ==> c in s.pending
  }

  ghost predicate Current(q: Query, s: System, key: CacheKey, rows: Rows, since: nat) {
    since == s.version ==> rows == q(s.corpus, key)
  }

  ghost predicate CacheOk(q: Query, s: System) {
    forall i :: 0 <= i < |s.cache.entries| ==>
      && MissedOnlyPending(s, s.cache.entries[i].1.since)
      && Current(q, s, s.cache.entries[i].0, s.cache.entries[i].1.rows, s.cache.entries[i].1.since)
  }

  ghost predicate ReaderOk(q: Query, s: System, r: Reader) {
    && r.bumps <= s.bumps
    && r.epoch == r.bumps % U64
    && r.since <= s.version
    && (r.bumps == s.bumps ==> MissedOnlyPending(s, r.since))
    && (r.rows.Some? ==> Current(q, s, r.key, r.rows.value, r.since))
  }

  ghost predicate Inv(q: Query, s: System) {
    && 1 <= s.cache.capacity
    && s.cache.epoch == s.bumps % U64
    && (!s.poisoned ==> WellFormed(s.cache) && CacheOk(q, s))
    && (forall c :: c in s.pending ==> c <= s.version)
    && (forall r :: r in s.readers ==> ReaderOk(q, s, s.readers[r]))
  }

  ghost predicate Init(s: System) {
    && 1 <= s.cache.capacity && s.cache.entries == [] && s.cache.epoch == 0 && s.bumps == 0
    && s.version == 0 && s.pending == map[] && !s.poisoned && s.readers == map[]
  }

  lemma NextEpoch(bumps: nat)
    ensures (bumps % U64 + 1) % U64 == (bumps + 1) % U64
  {
    var k := bumps / U64;
    assert bumps == U64 * k + bumps % U64;
    if bumps % U64 + 1 == U64 {
      assert bumps + 1 == U64 * (k + 1);
    }
  }

  /** Equal epochs mean equal counts when the counts are less than 2^64 apart. */
  lemma EpochMatchIff(seen: nat, now: nat)
    requires seen <= now
    ensures seen % U64 == now % U64 <==> (now - seen) % U64 == 0
    ensures now - seen < U64 ==> (seen % U64 == now % U64 <==> seen == now)
  {
    var a, b := seen / U64, now / U64;
    assert seen == U64 * a + seen % U64 && now == U64 * b + now % U64;
    var gap := now - seen;
    var g := gap / U64;
    assert gap == U64 * g + gap % U64;
    if seen % U64 == now % U64 {
      assert gap == U64 * (b - a);
    }
    if gap % U64 == 0 {
      assert now == U64 * (a + g) + seen % U64;
    }
  }

  lemma LockedKeepsInv(q: Query, s: System)
    requires Inv(q, s)
    ensures Inv(q, Locked(s)) && WellFormed(Locked(s).cache) && CacheOk(q, Locked(s))
    ensures s.poisoned ==> Locked(s).cache.entries == []
    ensures s.poisoned ==> forall r :: r in s.readers ==> s.readers[r].bumps < Locked(s).bumps
  {
    NextEpoch(s.bumps);
  }

  lemma CommitKeepsInv(q: Query, s: System, m: MutatorId, corpus: Corpus)
    requires Inv(q, s)
    ensures Inv(q, Step(q, s, Commit(m, corpus)))
  {
  }

  lemma InvalidateKeepsInv(q: Query, s: System, m: MutatorId)
    requires Inv(q, s)
    ensures Inv(q, Step(q, s, InvalidateBy(m)))
  {
    LockedKeepsInv(q, s);
    NextEpoch(Locked(s).bumps);
  }

  lemma WithoutSubset(q: Query, s: System, key: CacheKey)
    requires WellFormed(s.cache) && CacheOk(q, s)
    ensures WellFormed(Touched(s.cache, key)) && CacheOk(q, s.(cache := Touched(s.cache, key)))
  {
    TouchKeepsShape(s.cache, key);
    var t := s.(cache := Touched(s.cache, key));
    forall i | 0 <= i < |t.cache.entries| ensures t.cache.entries[i] in s.cache.entries {}
  }

  lemma LookUpKeepsInv(q: Query, s: System, r: ReaderId, key: CacheKey)
    requires Inv(q, s)
    ensures Inv(q, Step(q, s, LookUp(r, key)))
  {
    LockedKeepsInv(q, s);
    WithoutSubset(q, Locked(s), key);
  }

  lemma PutKeepsInv(q: Query, s: System, r: ReaderId)
    requires Inv(q, s) && InTime(s, PutRows(r)) && r in s.readers && s.readers[r].rows.Some?
    ensures Inv(q, Step(q, s, PutRows(r)))
  {
    LockedKeepsInv(q, s);
    var t, reader := Locked(s), s.readers[r];
    EpochMatchIff(reader.bumps, t.bumps);
    var value := Stamped(reader.rows.value, reader.since);
    StoreKeepsShape(t.cache, reader.key, value);
    if t.cache.epoch == reader.epoch {
      var after := Stored(t.cache, reader.key, value).entries;
      forall i | 0 <= i < |after| ensures after[i] in t.cache.entries || after[i] == (reader.key, value) {}
    }
  }

  lemma StepKeepsInv(q: Query, s: System, a: Action)
    requires Inv(q, s) && InTime(s, a)
    ensures Inv(q, Step(q, s, a))
  {
    match a {
      case Commit(m, corpus) => CommitKeepsInv(q, s, m, corpus);
      case InvalidateBy(m) => InvalidateKeepsInv(q, s, m);
      case LookUp(r, key) => LookUpKeepsInv(q, s, r, key);
      case ReadRows(r, rows) =>
      case PutRows(r) => if r in s.readers && s.readers[r].rows.Some? { PutKeepsInv(q, s, r); }
      case Abandon(r) =>
      case Panic(left, bumped) => NextEpoch(s.bumps);
    }
  }

  lemma {:induction false} RunKeepsInv(q: Query, s: System, actions: seq<Action>)
    requires Init(s) && RunInTime(q, s, actions)
    ensures Inv(q, Run(q, s, actions))
  {
    if actions != [] {
      var before := actions[..|actions| - 1];
      forall i | 0 <= i < |before| ensures InTime(Run(q, s, before[..i]), before[i]) {
        assert before[..i] == actions[..i];
      }
      RunKeepsInv(q, s, before);
      assert InTime(Run(q, s, actions[..|before|]), actions[|before|]);
      StepKeepsInv(q, Run(q, s, before), actions[|actions| - 1]);
    }
  }

  // --- What readers may rely on ------------------------------------------------------

  lemma HitIsCoherent(q: Query, s: System, key: CacheKey)
    requires Inv(q, s) && Served(s, key).Hit?
    ensures var hit := Served(s, key).value;
      MissedOnlyPending(s, hit.since) && (s.pending == map[] ==> hit.rows == q(s.corpus, key))
  {
    LockedKeepsInv(q, s);
    var hit := Served(s, key).value;
    assert (key, hit) in s.cache.entries;
    var i :| 0 <= i < |s.cache.entries| && s.cache.entries[i] == (key, hit);
    assert MissedOnlyPending(s, hit.since);
    assert hit.since < s.version ==> s.version in s.pending;
  }

  /** In every reachable state a hit was answered by a query that saw every commit whose
    * invalidate has run; with no commit pending it is the answer on the current corpus.
    */
  lemma HitsAreCoherent(q: Query, s: System, actions: seq<Action>, key: CacheKey)
    requires Init(s) && RunInTime(q, s, actions)
    requires Served(Run(q, s, actions), key).Hit?
    ensures var now := Run(q, s, actions);
      && MissedOnlyPending(now, Served(now, key).value.since)
      && (now.pending == map[] ==> Served(now, key).value.rows == q(now.corpus, key))
  {
    RunKeepsInv(q, s, actions);
    HitIsCoherent(q, Run(q, s, actions), key);
  }

  /** Once a holder has panicked no lookup is ever answered from the cache. */
  lemma PoisonedNeverHits(s: System, key: CacheKey)
    requires s.poisoned
    ensures Served(s, key).Miss?
  {
  }

  lemma {:induction false} PoisonIsForever(q: Query, s: System, actions: seq<Action>)
    requires s.poisoned
    ensures Run(q, s, actions).poisoned
  {
    if actions != [] {
      PoisonIsForever(q, s, actions[..|actions| - 1]);
    }
  }

  /** A wrap is not harmless: exactly 2^64 invalidations after a lookup, its stale put is accepted. */
  lemma WrapAcceptsStalePut(c: Cache<CacheKey, Stamped>, seen: nat, now: nat, key: CacheKey, stale: Stamped)
    requires WellFormed(c) && c.epoch == now % U64 && seen <= now
    ensures Find(StoredIfEpoch(c, key, stale, seen % U64).entries, key) == Some(stale)
       <==> (now - seen) % U64 == 0 || Find(c.entries, key) == Some(stale)
  {
    EpochMatchIff(seen, now);
    StoreKeepsShape(c, key, stale);
    if c.epoch == seen % U64 {
      var after := Stored(c, key, stale).entries;
      RemoveAt(after, |after| - 1);
    }
  }
}
