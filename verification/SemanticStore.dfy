/** The stored semantic index and its transactions. Stored vectors and refusals
  * remember the settings and the row they were shaped from.
  */
module SemanticStore {
  import opened Wrappers
  import opened Ordering
  import opened Policy
  import opened PolicyFacts

  /** What the index is run against: the detectors, the digest of the policy payload, the built-in settings. */
  datatype World = World(d: Detectors, digest: PolicyPayload -> string, defaults: AppSettings)

  function PolicyHash(w: World, s: AppSettings): string {
    w.digest(Payload(s))
  }

  /** The digest tells these two settings' policies apart, if they differ. */
  ghost predicate DigestTells(w: World, a: AppSettings, b: AppSettings) {
    PolicyHash(w, a) == PolicyHash(w, b) ==> Payload(a) == Payload(b)
  }

  datatype SettingsRow = Missing | Unreadable | Readable(settings: AppSettings)

  function CommittedHash(w: World, row: SettingsRow): Option<string> {
    match row
    case Missing => Some(PolicyHash(w, w.defaults))
    case Unreadable => None
    case Readable(s) => Some(PolicyHash(w, s))
  }

  /** The settings in force, where they can be read at all. */
  function InForce(w: World, row: SettingsRow): Option<AppSettings> {
    match row
    case Missing => Some(w.defaults)
    case Unreadable => None
    case Readable(s) => Some(s)
  }

  datatype Meta = Meta(model: string, revision: nat, dimension: nat, maxSequenceLength: nat,
                       languages: seq<string>, indexVersion: nat, policyHash: string)

  predicate Compatible(a: Meta, b: Meta) {
    && a.model == b.model
    && a.revision == b.revision
    && a.dimension == b.dimension
    && a.indexVersion == b.indexVersion
    && a.policyHash == b.policyHash
  }

  /** Where a stored decision came from: the settings and row it was made on, and when. */
  datatype Origin = Origin(settings: AppSettings, row: PendingEmbedding, at: nat)

  datatype Vector = Vector(contentHash: string, values: seq<real>, origin: Origin)
  datatype Exclusion = Exclusion(contentHash: string, origin: Origin)
  datatype Row = Row(entry: PendingEmbedding, deleted: bool)

  datatype Store = Store(
    settings: SettingsRow,
    meta: Option<Meta>,
    vectors: map<EntryId, Vector>,
    exclusions: map<EntryId, Exclusion>,
    rows: map<EntryId, Row>,
    recency: seq<EntryId>)      // newest first

  /** How a transaction ends; anything but a commit leaves the store as it was. */
  datatype Tx = Committed(store: Store) | Conflict | Failed

  // --- Transactions ------------------------------------------------------------

  function Erased(st: Store): Store {
    st.(meta := None, vectors := map[], exclusions := map[])
  }

  /** A settings save: in the same transaction, a changed fingerprint erases the index. */
  function Saved(w: World, st: Store, s: AppSettings): Store {
    var kept := if CommittedHash(w, st.settings) == Some(PolicyHash(w, s)) then st else Erased(st);
    kept.(settings := Readable(s))
  }

  function RebuildMeta(w: World, st: Store, meta: Meta): Tx {
    if CommittedHash(w, st.settings) != Some(meta.policyHash) then Conflict
    else Committed(Erased(st).(meta := Some(meta)))
  }

  predicate GuardPasses(st: Store, expected: Option<string>) {
    expected.None? || (st.meta.Some? && st.meta.value.policyHash == expected.value)
  }

  /** Each vector lands only where its entry still holds the body it was made from. */
  function Upserted(vectors: map<EntryId, Vector>, rows: map<EntryId, Row>, items: seq<(EntryId, Vector)>)
    : map<EntryId, Vector>
    decreases |items|
  {
    if items == [] then vectors
    else
      var (id, v) := items[0];
      var next := if id in rows && rows[id].entry.contentHash == v.contentHash then vectors[id := v] else vectors;
      Upserted(next, rows, items[1..])
  }

  function UpsertGuarded(st: Store, items: seq<(EntryId, Vector)>, expected: Option<string>): Tx {
    if items == [] then Committed(st)
    else if exists i :: 0 <= i < |items| && items[i].1.values == [] then Failed
    else if !GuardPasses(st, expected) then Conflict
    else Committed(st.(vectors := Upserted(st.vectors, st.rows, items)))
  }

  function Excluded(st: Store, items: seq<(EntryId, Exclusion)>): Store
    decreases |items|
  {
    if items == [] then st
    else
      var (id, e) := items[0];
      Excluded(st.(exclusions := st.exclusions[id := e], vectors := st.vectors - {id}), items[1..])
  }

  /** Refusals reference their entries, so one for a vanished row fails the whole batch. */
  function ExcludeGuarded(st: Store, items: seq<(EntryId, Exclusion)>, expected: Option<string>): Tx {
    if items == [] then Committed(st)
    else if !GuardPasses(st, expected) then Conflict
    else if exists i :: 0 <= i < |items| && items[i].0 !in st.rows then Failed
    else Committed(Excluded(st, items))
  }

  // --- The corpus ------------------------------------------------------------------

  function Inserted(st: Store, entry: PendingEmbedding): Store {
    if entry.entryId in st.rows then st
    else st.(rows := st.rows[entry.entryId := Row(entry, false)], recency := [entry.entryId] + st.recency)
  }

  /** A new body for a live row takes its vector with the old one. */
  function Replaced(st: Store, entry: PendingEmbedding): Store {
    if entry.entryId !in st.rows || st.rows[entry.entryId].deleted then st
    else st.(rows := st.rows[entry.entryId := Row(entry, false)], vectors := st.vectors - {entry.entryId})
  }

  function SoftDeleted(st: Store, id: EntryId): Store {
    if id !in st.rows then st else st.(rows := st.rows[id := st.rows[id].(deleted := true)])
  }

  function WithoutId(ids: seq<EntryId>, id: EntryId): seq<EntryId> {
    if ids == [] then [] else (if ids[0] == id then [] else [ids[0]]) + WithoutId(ids[1..], id)
  }

  /** A hard delete cascades to the row's vector and refusal. */
  function HardDeleted(st: Store, id: EntryId): Store {
    st.(rows := st.rows - {id}, vectors := st.vectors - {id}, exclusions := st.exclusions - {id},
        recency := WithoutId(st.recency, id))
  }

  /** Text recognized in a live, readable image with these bytes becomes its text, and may raise it. */
  function TextRecorded(st: Store, id: EntryId, hash: string, text: string, raises: Option<Sensitivity>): Store {
    if id !in st.rows || st.rows[id].deleted || st.rows[id].entry.contentHash != hash
       || !(st.rows[id].entry.sensitivity.Public? || st.rows[id].entry.sensitivity.Unknown?) then st
    else
      var entry := st.rows[id].entry;
      var sensitivity := if raises.Some? then MostRestrictive(entry.sensitivity, raises.value) else entry.sensitivity;
      st.(rows := st.rows[id := Row(entry.(text := text, sensitivity := sensitivity), false)])
  }

  /** Recognized text is taken back from these images. Neither write touches the body's hash or a vector. */
  function TextCleared(st: Store, ids: set<EntryId>): Store {
    st.(rows := map id | id in st.rows :: if id in ids then st.rows[id].(entry := st.rows[id].entry.(text := "")) else st.rows[id])
  }

  predicate Embeddable(row: Row) {
    !row.deleted && !row.entry.sensitivity.Secret? && !row.entry.sensitivity.Blocked? && row.entry.text != ""
  }

  /** Whether the row still waits for a decision on the body it holds. */
  predicate Outstanding(st: Store, id: EntryId) {
    && id in st.rows
    && Embeddable(st.rows[id])
    && (id in st.vectors ==> st.vectors[id].contentHash != st.rows[id].entry.contentHash)
    && (id in st.exclusions ==> st.exclusions[id].contentHash != st.rows[id].entry.contentHash)
  }

  function OutstandingIn(st: Store, ids: seq<EntryId>): (r: seq<PendingEmbedding>)
    ensures |r| <= |ids|
    ensures forall i :: 0 <= i < |r| ==> exists id :: id in ids && Outstanding(st, id) && r[i] == st.rows[id].entry
  {
    if ids == [] then []
    else
      var rest := OutstandingIn(st, ids[1..]);
      assert ids == [ids[0]] + ids[1..];
      if Outstanding(st, ids[0]) then [st.rows[ids[0]].entry] + rest else rest
  }

  function Backlog(st: Store): seq<PendingEmbedding> {
    OutstandingIn(st, st.recency)
  }

  const MAX_READ_LIMIT: nat := 200

  function Clamp(limit: nat): nat {
    if limit < 1 then 1 else if limit > MAX_READ_LIMIT then MAX_READ_LIMIT else limit
  }

  /** A fetch: the newest part of the backlog, as much of it as the clamped limit allows. */
  function Pending(st: Store, limit: nat): (r: seq<PendingEmbedding>)
    ensures r <= Backlog(st)
    ensures |r| == Clamp(limit) || (r == Backlog(st) && |r| < Clamp(limit))
  {
    if |Backlog(st)| <= Clamp(limit) then Backlog(st) else Backlog(st)[..Clamp(limit)]
  }

  /** What a pinned ranking query may return. */
  predicate Rankable(st: Store, dimension: nat, pin: Option<string>, id: EntryId) {
    && id in st.vectors && id in st.rows
    && !st.rows[id].deleted
    && !st.rows[id].entry.sensitivity.Secret? && !st.rows[id].entry.sensitivity.Blocked?
    && |st.vectors[id].values| == dimension
    && st.vectors[id].contentHash == st.rows[id].entry.contentHash
    && (id in st.exclusions ==> st.exclusions[id].contentHash != st.rows[id].entry.contentHash)
    && GuardPasses(st, pin)
  }

  /** What is stored for one entry is the same. */
  ghost predicate SameAt(st: Store, after: Store, id: EntryId) {
    && (id in after.vectors <==> id in st.vectors) && (id in st.vectors ==> after.vectors[id] == st.vectors[id])
    && (id in after.exclusions <==> id in st.exclusions)
    && (id in st.exclusions ==> after.exclusions[id] == st.exclusions[id])
  }

  // --- What every committed store keeps ---------------------------------------------

  ghost predicate Keyed(st: Store) {
    && (forall id :: id in st.rows ==> st.rows[id].entry.entryId == id)
    && Distinct(st.recency)
    && Elements(st.recency) == st.rows.Keys
  }

  ghost predicate VectorOk(w: World, st: Store, id: EntryId, v: Vector) {
    && st.meta.Some? && PolicyHash(w, v.origin.settings) == st.meta.value.policyHash
    && Accepts(w.d, v.origin.settings, v.origin.row)
    && v.origin.row.entryId == id && v.origin.row.contentHash == v.contentHash
    && id in st.rows && st.rows[id].entry.contentHash == v.contentHash
  }

  ghost predicate ExclusionOk(w: World, st: Store, id: EntryId, e: Exclusion) {
    && st.meta.Some? && PolicyHash(w, e.origin.settings) == st.meta.value.policyHash
    && !Accepts(w.d, e.origin.settings, e.origin.row)
    && e.origin.row.entryId == id && e.origin.row.contentHash == e.contentHash
    && id in st.rows
  }

  /** The barrier: whatever is stored was decided under the committed policy. */
  ghost predicate Barrier(w: World, st: Store) {
    && Keyed(st)
    && (st.meta.Some? ==> CommittedHash(w, st.settings) == Some(st.meta.value.policyHash))
    && (forall id :: id in st.vectors ==> VectorOk(w, st, id, st.vectors[id]))
    && (forall id :: id in st.exclusions ==> ExclusionOk(w, st, id, st.exclusions[id]))
  }

  /** Under the barrier every stored decision was made under a policy with the fingerprint of the one
    * in force, and unreadable settings go with an empty index.
    */
  lemma BarrierMeansCommittedHash(w: World, st: Store, id: EntryId)
    requires Barrier(w, st) && (id in st.vectors || id in st.exclusions)
    ensures InForce(w, st.settings).Some?
    ensures id in st.vectors ==> PolicyHash(w, st.vectors[id].origin.settings) == PolicyHash(w, InForce(w, st.settings).value)
    ensures id in st.exclusions ==> PolicyHash(w, st.exclusions[id].origin.settings) == PolicyHash(w, InForce(w, st.settings).value)
  {
  }

  /** So where the digest tells the two settings apart, the settings in force themselves accept a
    * stored vector's row and refuse a stored refusal's.
    */
  lemma BarrierMeansCommittedPolicy(w: World, st: Store, id: EntryId)
    requires Barrier(w, st) && (id in st.vectors || id in st.exclusions)
    ensures InForce(w, st.settings).Some?
    ensures id in st.vectors && DigestTells(w, st.vectors[id].origin.settings, InForce(w, st.settings).value) ==>
      Accepts(w.d, InForce(w, st.settings).value, st.vectors[id].origin.row)
    ensures id in st.exclusions && DigestTells(w, st.exclusions[id].origin.settings, InForce(w, st.settings).value) ==>
      !Accepts(w.d, InForce(w, st.settings).value, st.exclusions[id].origin.row)
  {
    BarrierMeansCommittedHash(w, st, id);
    var s := InForce(w, st.settings).value;
    if id in st.vectors && DigestTells(w, st.vectors[id].origin.settings, s) {
      FingerprintPinsVerdicts(w.d, st.vectors[id].origin.settings, s, st.vectors[id].origin.row);
    }
    if id in st.exclusions && DigestTells(w, st.exclusions[id].origin.settings, s) {
      FingerprintPinsVerdicts(w.d, st.exclusions[id].origin.settings, s, st.exclusions[id].origin.row);
    }
  }

  /** A pinned query ranks only vectors of the policy it was pinned to, which is the one in force, and
    * only for bodies their entries still hold; the digest need only tell the pin, the settings in
    * force and the vector's own settings apart.
    */
  lemma PinnedQueryRanksOnePolicy(w: World, st: Store, q: AppSettings, dimension: nat, id: EntryId)
    requires Barrier(w, st) && Rankable(st, dimension, Some(PolicyHash(w, q)), id)
    ensures InForce(w, st.settings).Some?
    ensures DigestTells(w, q, InForce(w, st.settings).value) ==> SamePolicy(q, InForce(w, st.settings).value)
    ensures DigestTells(w, st.vectors[id].origin.settings, q) ==>
      SamePolicy(q, st.vectors[id].origin.settings) && Accepts(w.d, q, st.vectors[id].origin.row)
    ensures st.vectors[id].origin.row.contentHash == st.rows[id].entry.contentHash
  {
    BarrierMeansCommittedHash(w, st, id);
    var o := st.vectors[id].origin;
    var s := InForce(w, st.settings).value;
    assert PolicyHash(w, o.settings) == PolicyHash(w, q) == PolicyHash(w, s);
    FingerprintIff(q, s);
    FingerprintIff(q, o.settings);
    if DigestTells(w, o.settings, q) { FingerprintPinsVerdicts(w.d, o.settings, q, o.row); }
  }

  // --- Each transaction keeps the barrier ----------------------------------------------

  lemma SavedKeeps(w: World, st: Store, s: AppSettings)
    requires Barrier(w, st)
    ensures Barrier(w, Saved(w, st, s))
  {
  }

  /** Even from a store that breaks the barrier, a save whose fingerprint differs from the
    * committed one (or finds it unreadable) restores it.
    */
  lemma ChangingSaveRestores(w: World, st: Store, s: AppSettings)
    requires Keyed(st) && CommittedHash(w, st.settings) != Some(PolicyHash(w, s))
    ensures Barrier(w, Saved(w, st, s))
    ensures Saved(w, st, s).vectors == map[] && Saved(w, st, s).exclusions == map[] && Saved(w, st, s).meta.None?
  {
  }

  lemma RebuildKeeps(w: World, st: Store, meta: Meta)
    requires Barrier(w, st)
    ensures RebuildMeta(w, st, meta).Committed? <==> CommittedHash(w, st.settings) == Some(meta.policyHash)
    ensures RebuildMeta(w, st, meta).Committed? ==> Barrier(w, RebuildMeta(w, st, meta).store)
  {
  }

  /** A batch shaped under `s`: each item carries its own row's id and hash. */
  ghost predicate ShapedUnder(w: World, s: AppSettings, items: seq<(EntryId, Vector)>) {
    forall i :: 0 <= i < |items| ==>
      && items[i].1.origin.settings == s
      && Accepts(w.d, s, items[i].1.origin.row)
      && items[i].1.origin.row.entryId == items[i].0
      && items[i].1.origin.row.contentHash == items[i].1.contentHash
  }

  ghost predicate RefusedUnder(w: World, s: AppSettings, items: seq<(EntryId, Exclusion)>) {
    forall i :: 0 <= i < |items| ==>
      && items[i].1.origin.settings == s
      && !Accepts(w.d, s, items[i].1.origin.row)
      && items[i].1.origin.row.entryId == items[i].0
      && items[i].1.origin.row.contentHash == items[i].1.contentHash
  }

  lemma {:induction false} UpsertedKeeps(w: World, st: Store, s: AppSettings, items: seq<(EntryId, Vector)>)
    requires Barrier(w, st) && ShapedUnder(w, s, items)
    requires st.meta.Some? && st.meta.value.policyHash == PolicyHash(w, s)
    ensures Barrier(w, st.(vectors := Upserted(st.vectors, st.rows, items)))
    decreases |items|
  {
    if items != [] {
      var (id, v) := items[0];
      assert items[0].1.origin.settings == s;
      var next := if id in st.rows && st.rows[id].entry.contentHash == v.contentHash
                  then st.(vectors := st.vectors[id := v]) else st;
      UpsertedKeeps(w, next, s, items[1..]);
    }
  }

  /** The guard alone keeps a batch shaped under any settings, however stale, from breaking the barrier. */
  lemma GuardedUpsertKeeps(w: World, st: Store, s: AppSettings, items: seq<(EntryId, Vector)>)
    requires Barrier(w, st) && ShapedUnder(w, s, items)
    ensures var tx := UpsertGuarded(st, items, Some(PolicyHash(w, s))); tx.Committed? ==> Barrier(w, tx.store)
  {
    if items != [] && GuardPasses(st, Some(PolicyHash(w, s))) {
      UpsertedKeeps(w, st, s, items);
    }
  }

  lemma {:induction false} ExcludedKeeps(w: World, st: Store, s: AppSettings, items: seq<(EntryId, Exclusion)>)
    requires Barrier(w, st) && RefusedUnder(w, s, items)
    requires st.meta.Some? && st.meta.value.policyHash == PolicyHash(w, s)
    requires forall i :: 0 <= i < |items| ==> items[i].0 in st.rows
    ensures Barrier(w, Excluded(st, items))
    ensures Excluded(st, items).rows == st.rows && Excluded(st, items).vectors.Keys <= st.vectors.Keys
    ensures forall id :: id in Excluded(st, items).vectors ==> Excluded(st, items).vectors[id] == st.vectors[id]
    decreases |items|
  {
    if items != [] {
      var (id, e) := items[0];
      assert items[0].1.origin.settings == s;
      var next := st.(exclusions := st.exclusions[id := e], vectors := st.vectors - {id});
      ExcludedKeeps(w, next, s, items[1..]);
    }
  }

  lemma GuardedExcludeKeeps(w: World, st: Store, s: AppSettings, items: seq<(EntryId, Exclusion)>)
    requires Barrier(w, st) && RefusedUnder(w, s, items)
    ensures var tx := ExcludeGuarded(st, items, Some(PolicyHash(w, s)));
      tx.Committed? ==>
        && Barrier(w, tx.store)
        && tx.store.vectors.Keys <= st.vectors.Keys
        && (forall id :: id in tx.store.vectors ==> tx.store.vectors[id] == st.vectors[id])
  {
    if items != [] && GuardPasses(st, Some(PolicyHash(w, s))) && ExcludeGuarded(st, items, Some(PolicyHash(w, s))).Committed? {
      ExcludedKeeps(w, st, s, items);
    }
  }

  lemma {:induction false} WithoutIdMembers(ids: seq<EntryId>, id: EntryId)
    requires Distinct(ids)
    ensures Distinct(WithoutId(ids, id))
    ensures forall x :: x in WithoutId(ids, id) <==> x in ids && x != id
  {
    if ids != [] {
      var head, rest := ids[0], WithoutId(ids[1..], id);
      WithoutIdMembers(ids[1..], id);
      assert ids == [head] + ids[1..];
      assert head !in ids[1..];
      if head != id {
        assert WithoutId(ids, id) == [head] + rest;
      }
    }
  }

  lemma InsertedKeeps(w: World, st: Store, entry: PendingEmbedding)
    requires Barrier(w, st)
    ensures Barrier(w, Inserted(st, entry))
  {
    if entry.entryId !in st.rows {
      var next := Inserted(st, entry);
      assert entry.entryId !in Elements(st.recency);
      assert forall x :: x in Elements(next.recency) <==> x in next.recency;
      assert Keyed(next);
    }
  }

  /** A live row's new body takes the old one's vector with it; everything else keeps its own. */
  lemma ReplacedKeeps(w: World, st: Store, entry: PendingEmbedding)
    requires Barrier(w, st)
    ensures Barrier(w, Replaced(st, entry))
    ensures var id, after := entry.entryId, Replaced(st, entry);
      if id in st.rows && !st.rows[id].deleted then after.vectors == st.vectors - {id} && after.rows == st.rows[id := Row(entry, false)]
      else after == st
  {
    var id := entry.entryId;
    if id in st.rows && !st.rows[id].deleted { NewBodyKeeps(w, st, entry); }
  }

  lemma NewBodyKeeps(w: World, st: Store, entry: PendingEmbedding)
    requires Barrier(w, st) && entry.entryId in st.rows
    ensures Barrier(w, st.(rows := st.rows[entry.entryId := Row(entry, false)], vectors := st.vectors - {entry.entryId}))
  {
    var id := entry.entryId;
    var after := st.(rows := st.rows[id := Row(entry, false)], vectors := st.vectors - {id});
    assert after.rows.Keys == st.rows.Keys;
    forall x | x in after.vectors ensures VectorOk(w, after, x, after.vectors[x]) {
      assert VectorOk(w, st, x, st.vectors[x]);
    }
    forall x | x in after.exclusions ensures ExclusionOk(w, after, x, after.exclusions[x]) {
      assert ExclusionOk(w, st, x, st.exclusions[x]);
    }
  }

  lemma SoftDeletedKeeps(w: World, st: Store, id: EntryId)
    requires Barrier(w, st)
    ensures Barrier(w, SoftDeleted(st, id))
  {
    assert SoftDeleted(st, id).rows.Keys == st.rows.Keys;
    SameBodiesKeep(w, st, SoftDeleted(st, id));
  }

  lemma TextRecordedKeeps(w: World, st: Store, id: EntryId, hash: string, text: string, raises: Option<Sensitivity>)
    requires Barrier(w, st)
    ensures Barrier(w, TextRecorded(st, id, hash, text, raises))
  {
    var after := TextRecorded(st, id, hash, text, raises);
    assert after.rows.Keys == st.rows.Keys;
    SameBodiesKeep(w, st, after);
  }

  lemma TextClearedKeeps(w: World, st: Store, ids: set<EntryId>)
    requires Barrier(w, st)
    ensures Barrier(w, TextCleared(st, ids))
  {
    var after := TextCleared(st, ids);
    assert after.rows.Keys == st.rows.Keys;
    SameBodiesKeep(w, st, after);
  }

  /** Rows may change in everything but their ids and body hashes. */
  lemma SameBodiesKeep(w: World, st: Store, after: Store)
    requires Barrier(w, st) && after == st.(rows := after.rows) && after.rows.Keys == st.rows.Keys
    requires forall id :: id in st.rows ==>
      after.rows[id].entry.entryId == st.rows[id].entry.entryId && after.rows[id].entry.contentHash == st.rows[id].entry.contentHash
    ensures Barrier(w, after)
  {
    forall id | id in after.vectors ensures VectorOk(w, after, id, after.vectors[id]) {
      assert VectorOk(w, st, id, st.vectors[id]);
    }
    forall id | id in after.exclusions ensures ExclusionOk(w, after, id, after.exclusions[id]) {
      assert ExclusionOk(w, st, id, st.exclusions[id]);
    }
  }

  lemma HardDeletedKeeps(w: World, st: Store, id: EntryId)
    requires Barrier(w, st)
    ensures Barrier(w, HardDeleted(st, id))
  {
    var next := HardDeleted(st, id);
    WithoutIdMembers(st.recency, id);
    assert Keyed(next) by {
      forall x ensures x in Elements(next.recency) <==> x in next.rows {
        assert x in Elements(st.recency) <==> x in st.rows;
      }
    }
  }
}
