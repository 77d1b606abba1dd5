/** The semantic indexer as interleaved steps of any number of workers. */
module SemanticProtocol {
  import opened Wrappers
  import opened Ordering
  import opened Policy
  import opened PolicyFacts
  import opened SemanticStore

  const INDEX_VERSION: nat := 2

  type WorkerId = nat

  /** What the model answered, by entry. */
  type Embedding = EntryId -> seq<real>

  /** Where a worker's pass stands, with everything it carries from one step to the next. */
  datatype Phase =
    | Idle
    | Started(settings: AppSettings)
    | SawFlag(settings: AppSettings, rebuild: bool)
    | SawMeta(settings: AppSettings, rebuild: bool, live: Meta, mustRebuild: bool)
    | Rebuilt(settings: AppSettings)       // a requested rebuild has committed; the flag still stands
    | Ready(settings: AppSettings)
    | Fetched(settings: AppSettings, rows: seq<PendingEmbedding>)
    | Shaped(settings: AppSettings, rows: seq<PendingEmbedding>)
    | Embedded(settings: AppSettings, rows: seq<PendingEmbedding>, embedding: Embedding, at: nat)

  /** Workers hold settings snapshots that may be arbitrarily stale; settings saves, rebuild
    * requests, corpus edits and purges happen between any two of their steps. Only the store's
    * transactions look at the committed policy.
    */
  datatype State = State(store: Store, flag: bool, clock: nat, lastRequest: Option<nat>, workers: map<WorkerId, Phase>)

  datatype Action =
    | Save(settings: AppSettings)
    | RequestRebuild
    | InsertEntry(entry: PendingEmbedding)
    | ReplaceEntry(entry: PendingEmbedding)
    | RecordText(id: EntryId, hash: string, text: string, raises: Option<Sensitivity>)
    | TakeTextBack(ids: set<EntryId>)
    | SoftDelete(id: EntryId)
    | HardDelete(id: EntryId)
    | Purge                                 // an unguarded clear, whatever stale probe led to it
    | Begin(k: WorkerId, settings: AppSettings)
    | ReadFlag(k: WorkerId)
    | ReadMeta(k: WorkerId, model: Meta)
    | RebuildIndex(k: WorkerId)
    | ClearFlag(k: WorkerId)
    | Fetch(k: WorkerId, limit: nat)
    | Refuse(k: WorkerId)
    | Embed(k: WorkerId, embedding: Embedding)
    | Upsert(k: WorkerId)
    | BackOff(k: WorkerId)                  // a transient model error: the pass tries again as it is
    | Abort(k: WorkerId)                    // a watch check, a store error, a cancel or a crash

  function PhaseOf(s: State, k: WorkerId): Phase {
    if k in s.workers then s.workers[k] else Idle
  }

  function At(s: State, k: WorkerId, p: Phase): State {
    s.(workers := s.workers[k := p])
  }

  function LiveMeta(w: World, model: Meta, s: AppSettings): Meta {
    model.(indexVersion := INDEX_VERSION, policyHash := PolicyHash(w, s))
  }

  function ItemsFor(s: AppSettings, rows: seq<PendingEmbedding>, embedding: Embedding, at: nat): (r: seq<(EntryId, Vector)>)
    ensures |r| == |rows|
  {
    seq(|rows|, i requires 0 <= i < |rows| =>
      (rows[i].entryId, Vector(rows[i].contentHash, embedding(rows[i].entryId), Origin(s, rows[i], at))))
  }

  function RefusalsFor(s: AppSettings, rows: seq<PendingEmbedding>, at: nat): (r: seq<(EntryId, Exclusion)>)
    ensures |r| == |rows|
  {
    seq(|rows|, i requires 0 <= i < |rows| => (rows[i].entryId, Exclusion(rows[i].contentHash, Origin(s, rows[i], at))))
  }

  /** A store transaction by worker `k`: on a commit it goes on to `next`, on anything else it drops the pass. */
  function AfterTx(s: State, k: WorkerId, tx: Tx, next: Phase): State {
    if tx.Committed? then At(s.(store := tx.store), k, next) else At(s, k, Idle)
  }

  ghost function WorkerStep(w: World, s: State, k: WorkerId, a: Action): State {
    match (a, PhaseOf(s, k))
    case (Begin(_, settings), Idle) => At(s, k, Started(settings))
    case (ReadFlag(_), Started(settings)) => At(s, k, SawFlag(settings, s.flag))
    case (ReadMeta(_, model), SawFlag(settings, rebuild)) =>
      var live := LiveMeta(w, model, settings);
      var incompatible := s.store.meta.None? || !Compatible(s.store.meta.value, live);
      At(s, k, SawMeta(settings, rebuild, live, rebuild || incompatible))
    case (RebuildIndex(_), SawMeta(settings, rebuild, live, mustRebuild)) =>
      if !mustRebuild then At(s, k, Ready(settings))
      else AfterTx(s, k, RebuildMeta(w, s.store, live), if rebuild then Rebuilt(settings) else Ready(settings))
    case (ClearFlag(_), Rebuilt(settings)) => At(s.(flag := false), k, Ready(settings))
    case (Fetch(_, limit), Ready(settings)) => At(s, k, Fetched(settings, Pending(s.store, limit)))
    case (Refuse(_), Fetched(settings, rows)) =>
      var refused := RefusalsFor(settings, Keep(Refusing(w.d, settings), rows), s.clock);
      AfterTx(s, k, ExcludeGuarded(s.store, refused, Some(PolicyHash(w, settings))),
              Shaped(settings, Keep(Accepting(w.d, settings), rows)))
    case (BackOff(_), Shaped(settings, _)) => At(s, k, Ready(settings))
    case (Embed(_, embedding), Shaped(settings, rows)) => At(s, k, Embedded(settings, rows, embedding, s.clock))
    case (Upsert(_), Embedded(settings, rows, embedding, at)) =>
      AfterTx(s, k, UpsertGuarded(s.store, ItemsFor(settings, rows, embedding, at), Some(PolicyHash(w, settings))),
              Ready(settings))
    case (Abort(_), _) => At(s, k, Idle)
    case _ => s
  }

  lemma RefuseIs(w: World, s: State, k: WorkerId, p: AppSettings, rows: seq<PendingEmbedding>)
    requires PhaseOf(s, k) == Fetched(p, rows)
    ensures WorkerStep(w, s, k, Refuse(k)) ==
      AfterTx(s, k, ExcludeGuarded(s.store, RefusalsFor(p, Keep(Refusing(w.d, p), rows), s.clock), Some(PolicyHash(w, p))),
              Shaped(p, Keep(Accepting(w.d, p), rows)))
  {
  }

  ghost function EnvStep(w: World, s: State, a: Action): State {
    match a
    case Save(settings) => s.(store := Saved(w, s.store, settings))
    case RequestRebuild => s.(flag := true, lastRequest := Some(s.clock))
    case InsertEntry(entry) => s.(store := Inserted(s.store, entry))
    case ReplaceEntry(entry) => s.(store := Replaced(s.store, entry))
    case RecordText(id, hash, text, raises) => s.(store := TextRecorded(s.store, id, hash, text, raises))
    case TakeTextBack(ids) => s.(store := TextCleared(s.store, ids))
    case SoftDelete(id) => s.(store := SoftDeleted(s.store, id))
    case HardDelete(id) => s.(store := HardDeleted(s.store, id))
    case Purge => s.(store := Erased(s.store))
    case _ => s
  }

  function WorkerOf(a: Action): Option<WorkerId> {
    match a
    case Begin(k, _) => Some(k)
    case ReadFlag(k) => Some(k)
    case ReadMeta(k, _) => Some(k)
    case RebuildIndex(k) => Some(k)
    case ClearFlag(k) => Some(k)
    case Fetch(k, _) => Some(k)
    case Refuse(k) => Some(k)
    case Embed(k, _) => Some(k)
    case Upsert(k) => Some(k)
    case BackOff(k) => Some(k)
    case Abort(k) => Some(k)
    case _ => None
  }

  ghost function Step(w: World, s: State, a: Action): State {
    var next := if WorkerOf(a).Some? then WorkerStep(w, s, WorkerOf(a).value, a) else EnvStep(w, s, a);
    next.(clock := s.clock + 1)
  }

  ghost function Run(w: World, s: State, actions: seq<Action>): State {
    if actions == [] then s
    else Step(w, Run(w, s, actions[..|actions| - 1]), actions[|actions| - 1])
  }

  /** A start of the daemon: no pass under way, and a store that keeps the barrier. */
  ghost predicate Init(w: World, s: State) {
    Barrier(w, s.store) && s.workers == map[] && s.clock > 0
  }

  // --- The policy barrier ---------------------------------------------------------

  ghost predicate PhaseOk(w: World, p: Phase) {
    p.Shaped? || p.Embedded? ==> forall i :: 0 <= i < |p.rows| ==> Accepts(w.d, p.settings, p.rows[i])
  }

  ghost predicate Inv(w: World, s: State) {
    Barrier(w, s.store) && forall k :: k in s.workers ==> PhaseOk(w, s.workers[k])
  }

  lemma {:induction false} KeepAll(keep: PendingEmbedding -> bool, rows: seq<PendingEmbedding>)
    ensures forall i :: 0 <= i < |Keep(keep, rows)| ==> keep(Keep(keep, rows)[i])
  {
    if rows != [] {
      KeepAll(keep, rows[1..]);
    }
  }

  lemma RefuseKeepsInv(w: World, s: State, k: WorkerId)
    requires Inv(w, s) && PhaseOf(s, k).Fetched?
    ensures Inv(w, WorkerStep(w, s, k, Refuse(k)))
  {
    var p := PhaseOf(s, k);
    KeepAll(Refusing(w.d, p.settings), p.rows);
    KeepAll(Accepting(w.d, p.settings), p.rows);
    var refusedRows := Keep(Refusing(w.d, p.settings), p.rows);
    var refused := RefusalsFor(p.settings, refusedRows, s.clock);
    forall i | 0 <= i < |refused| ensures !Accepts(w.d, p.settings, refused[i].1.origin.row) {
      assert Refusing(w.d, p.settings)(refusedRows[i]);
    }
    var accepted := Keep(Accepting(w.d, p.settings), p.rows);
    forall i | 0 <= i < |accepted| ensures Accepts(w.d, p.settings, accepted[i]) {
      assert Accepting(w.d, p.settings)(accepted[i]);
    }
    GuardedExcludeKeeps(w, s.store, p.settings, refused);
  }

  lemma ItemsAreShaped(w: World, s: AppSettings, rows: seq<PendingEmbedding>, embedding: Embedding, at: nat)
    requires forall i :: 0 <= i < |rows| ==> Accepts(w.d, s, rows[i])
    ensures ShapedUnder(w, s, ItemsFor(s, rows, embedding, at))
  {
    var items := ItemsFor(s, rows, embedding, at);
    forall i | 0 <= i < |items| ensures items[i].1.origin.row == rows[i] {}
  }

  lemma UpsertKeepsInv(w: World, s: State, k: WorkerId)
    requires Inv(w, s) && PhaseOf(s, k).Embedded?
    ensures Inv(w, WorkerStep(w, s, k, Upsert(k)))
  {
    var p := PhaseOf(s, k);
    assert PhaseOk(w, s.workers[k]);
    ItemsAreShaped(w, p.settings, p.rows, p.embedding, p.at);
    var items := ItemsFor(p.settings, p.rows, p.embedding, p.at);
    GuardedUpsertKeeps(w, s.store, p.settings, items);
    var t := AfterTx(s, k, UpsertGuarded(s.store, items, Some(PolicyHash(w, p.settings))), Ready(p.settings));
    assert Barrier(w, t.store);
    assert forall j :: j in t.workers ==> PhaseOk(w, t.workers[j]);
  }

  lemma RebuildKeepsInv(w: World, s: State, k: WorkerId)
    requires Inv(w, s) && PhaseOf(s, k).SawMeta?
    ensures Inv(w, WorkerStep(w, s, k, RebuildIndex(k)))
  {
    RebuildKeeps(w, s.store, PhaseOf(s, k).live);
  }

  lemma WorkerStepKeepsInv(w: World, s: State, k: WorkerId, a: Action)
    requires Inv(w, s)
    ensures Inv(w, WorkerStep(w, s, k, a))
  {
    match (a, PhaseOf(s, k)) {
      case (RebuildIndex(_), SawMeta(_, _, _, _)) => RebuildKeepsInv(w, s, k);
      case (Refuse(_), Fetched(_, _)) => RefuseKeepsInv(w, s, k);
      case (Upsert(_), Embedded(_, _, _, _)) => UpsertKeepsInv(w, s, k);
      case _ =>
    }
  }

  lemma EnvStepKeepsInv(w: World, s: State, a: Action)
    requires Inv(w, s)
    ensures Inv(w, EnvStep(w, s, a))
  {
    match a {
      case Save(settings) => SavedKeeps(w, s.store, settings);
      case InsertEntry(entry) => InsertedKeeps(w, s.store, entry);
      case ReplaceEntry(entry) => ReplacedKeeps(w, s.store, entry);
      case RecordText(id, hash, text, raises) => TextRecordedKeeps(w, s.store, id, hash, text, raises);
      case TakeTextBack(ids) => TextClearedKeeps(w, s.store, ids);
      case SoftDelete(id) => SoftDeletedKeeps(w, s.store, id);
      case HardDelete(id) => HardDeletedKeeps(w, s.store, id);
      case _ =>
    }
  }

  lemma {:induction false} RunKeepsInv(w: World, s: State, actions: seq<Action>)
    requires Init(w, s)
    ensures Inv(w, Run(w, s, actions))
  {
    if actions != [] {
      var before, a := Run(w, s, actions[..|actions| - 1]), actions[|actions| - 1];
      RunKeepsInv(w, s, actions[..|actions| - 1]);
      if WorkerOf(a).Some? { WorkerStepKeepsInv(w, before, WorkerOf(a).value, a); } else { EnvStepKeepsInv(w, before, a); }
    }
  }

  /** The digest tells the settings behind every stored decision apart from those in force. */
  ghost predicate DigestTellsStored(w: World, st: Store) {
    && (forall id :: id in st.vectors && InForce(w, st.settings).Some? ==>
          DigestTells(w, st.vectors[id].origin.settings, InForce(w, st.settings).value))
    && (forall id :: id in st.exclusions && InForce(w, st.settings).Some? ==>
          DigestTells(w, st.exclusions[id].origin.settings, InForce(w, st.settings).value))
  }

  /** The policy barrier, over every interleaving: present metadata and every stored decision carry
    * the fingerprint of the settings in force, and where the digest tells those settings apart they
    * accept the row behind every stored vector and refuse the row behind every stored refusal.
    */
  lemma PolicyBarrier(w: World, s: State, actions: seq<Action>)
    requires Init(w, s)
    ensures var st := Run(w, s, actions).store; var now := InForce(w, st.settings);
      && (st.meta.Some? || st.vectors != map[] || st.exclusions != map[] ==> now.Some?)
      && (st.meta.Some? ==> st.meta.value.policyHash == PolicyHash(w, now.value))
      && (forall id :: id in st.vectors ==>
            && PolicyHash(w, st.vectors[id].origin.settings) == PolicyHash(w, now.value)
            && id in st.rows && st.rows[id].entry.contentHash == st.vectors[id].origin.row.contentHash)
      && (forall id :: id in st.exclusions ==> PolicyHash(w, st.exclusions[id].origin.settings) == PolicyHash(w, now.value))
      && (DigestTellsStored(w, st) ==>
            && (forall id :: id in st.vectors ==> Accepts(w.d, now.value, st.vectors[id].origin.row))
            && (forall id :: id in st.exclusions ==> !Accepts(w.d, now.value, st.exclusions[id].origin.row)))
  {
    RunKeepsInv(w, s, actions);
    StoredUnderForce(w, Run(w, s, actions).store);
  }

  lemma StoredUnderForce(w: World, st: Store)
    requires Barrier(w, st)
    ensures st.vectors != map[] || st.exclusions != map[] ==> InForce(w, st.settings).Some?
    ensures forall id :: id in st.vectors ==>
      && PolicyHash(w, st.vectors[id].origin.settings) == PolicyHash(w, InForce(w, st.settings).value)
      && id in st.rows && st.rows[id].entry.contentHash == st.vectors[id].origin.row.contentHash
    ensures forall id :: id in st.exclusions ==>
      PolicyHash(w, st.exclusions[id].origin.settings) == PolicyHash(w, InForce(w, st.settings).value)
    ensures DigestTellsStored(w, st) ==>
      && (forall id :: id in st.vectors ==> Accepts(w.d, InForce(w, st.settings).value, st.vectors[id].origin.row))
      && (forall id :: id in st.exclusions ==> !Accepts(w.d, InForce(w, st.settings).value, st.exclusions[id].origin.row))
  {
    if st.vectors != map[] { var id :| id in st.vectors; BarrierMeansCommittedHash(w, st, id); }
    if st.exclusions != map[] { var id :| id in st.exclusions; BarrierMeansCommittedHash(w, st, id); }
    forall id | id in st.vectors || id in st.exclusions
      ensures id in st.vectors ==>
        PolicyHash(w, st.vectors[id].origin.settings) == PolicyHash(w, InForce(w, st.settings).value)
        && (DigestTellsStored(w, st) ==> Accepts(w.d, InForce(w, st.settings).value, st.vectors[id].origin.row))
      ensures id in st.exclusions ==>
        PolicyHash(w, st.exclusions[id].origin.settings) == PolicyHash(w, InForce(w, st.settings).value)
        && (DigestTellsStored(w, st) ==> !Accepts(w.d, InForce(w, st.settings).value, st.exclusions[id].origin.row))
    {
      BarrierMeansCommittedHash(w, st, id);
      BarrierMeansCommittedPolicy(w, st, id);
    }
  }

  /** A query pinned to settings `q`, however stale: in every reachable store it ranks only vectors
    * whose rows `q` accepts, and only while `q` is the policy in force.
    */
  lemma QueriesRankOnePolicy(w: World, s: State, actions: seq<Action>, q: AppSettings, dimension: nat, id: EntryId)
    requires Init(w, s)
    requires Rankable(Run(w, s, actions).store, dimension, Some(PolicyHash(w, q)), id)
    ensures var st := Run(w, s, actions).store;
      && InForce(w, st.settings).Some? && PolicyHash(w, q) == PolicyHash(w, InForce(w, st.settings).value)
      && (DigestTells(w, q, InForce(w, st.settings).value) ==> SamePolicy(q, InForce(w, st.settings).value))
      && (DigestTells(w, st.vectors[id].origin.settings, q) ==> Accepts(w.d, q, st.vectors[id].origin.row))
      && st.rows[id].entry.contentHash == st.vectors[id].origin.row.contentHash
  {
    RunKeepsInv(w, s, actions);
    var st := Run(w, s, actions).store;
    BarrierMeansCommittedHash(w, st, id);
    PinnedQueryRanksOnePolicy(w, st, q, dimension, id);
  }
}
