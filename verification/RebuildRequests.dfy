/** Rebuild requests are honoured before the flag reads clear: always with one worker, with more
  * exactly when no older batch is under way. A worker dropped in the middle of its last store call
  * counts as one that still has that step to take.
  */
module RebuildRequests {
  import opened Wrappers
  import opened Ordering
  import opened Policy
  import opened PolicyFacts
  import opened SemanticStore
  import opened SemanticProtocol

  ghost predicate OneWorker(actions: seq<Action>, k: WorkerId) {
    forall i :: 0 <= i < |actions| && WorkerOf(actions[i]).Some? ==> WorkerOf(actions[i]).value == k
  }

  ghost predicate Later(at: nat, request: Option<nat>) {
    request.Some? ==> at > request.value
  }

  ghost predicate VectorsLater(vectors: map<EntryId, Vector>, request: Option<nat>) {
    forall id :: id in vectors ==> Later(vectors[id].origin.at, request)
  }

  /** No stored vector, and no batch in flight, predates the last request. */
  ghost predicate AllLater(s: State, k: WorkerId) {
    && VectorsLater(s.store.vectors, s.lastRequest)
    && (PhaseOf(s, k).Embedded? ==> Later(PhaseOf(s, k).at, s.lastRequest))
  }

  ghost predicate FlagInv(s: State, k: WorkerId) {
    && (s.lastRequest.Some? ==> s.lastRequest.value < s.clock)
    && (PhaseOf(s, k).Rebuilt? ==> s.store.vectors == map[])
    && (!s.flag ==> AllLater(s, k))
  }

  lemma {:induction false} UpsertedLater(vectors: map<EntryId, Vector>, rows: map<EntryId, Row>,
                                        items: seq<(EntryId, Vector)>, request: Option<nat>)
    requires VectorsLater(vectors, request)
    requires forall i :: 0 <= i < |items| ==> Later(items[i].1.origin.at, request)
    ensures VectorsLater(Upserted(vectors, rows, items), request)
    decreases |items|
  {
    if items != [] {
      var (id, v) := items[0];
      assert Later(items[0].1.origin.at, request);
      var next := if id in rows && rows[id].entry.contentHash == v.contentHash then vectors[id := v] else vectors;
      UpsertedLater(next, rows, items[1..], request);
    }
  }

  lemma {:induction false} ExcludedVectors(st: Store, items: seq<(EntryId, Exclusion)>)
    ensures forall id :: id in Excluded(st, items).vectors ==>
      id in st.vectors && Excluded(st, items).vectors[id] == st.vectors[id]
    decreases |items|
  {
    if items != [] {
      var (id, e) := items[0];
      ExcludedVectors(st.(exclusions := st.exclusions[id := e], vectors := st.vectors - {id}), items[1..]);
    }
  }

  lemma UpsertKeepsFlagInv(w: World, s: State, k: WorkerId)
    requires FlagInv(s, k) && PhaseOf(s, k).Embedded?
    ensures FlagInv(WorkerStep(w, s, k, Upsert(k)), k)
  {
    var p := PhaseOf(s, k);
    var items := ItemsFor(p.settings, p.rows, p.embedding, p.at);
    if !s.flag {
      forall i | 0 <= i < |items| ensures Later(items[i].1.origin.at, s.lastRequest) {
        assert items[i].1.origin.at == p.at;
      }
      UpsertedLater(s.store.vectors, s.store.rows, items, s.lastRequest);
    }
  }

  /** Ending a step with a transaction that adds no vector keeps the invariant. */
  lemma AfterTxKeepsFlagInv(s: State, k: WorkerId, tx: Tx, next: Phase)
    requires FlagInv(s, k) && !next.Embedded? && !next.Rebuilt?
    requires tx.Committed? ==> VectorsLater(s.store.vectors, s.lastRequest) ==> VectorsLater(tx.store.vectors, s.lastRequest)
    ensures FlagInv(AfterTx(s, k, tx, next), k)
  {
  }

  lemma RefuseKeepsFlagInv(w: World, s: State, k: WorkerId)
    requires FlagInv(s, k) && PhaseOf(s, k).Fetched?
    ensures FlagInv(WorkerStep(w, s, k, Refuse(k)), k)
  {
    var p := PhaseOf(s, k);
    var refused := RefusalsFor(p.settings, Keep(Refusing(w.d, p.settings), p.rows), s.clock);
    ExcludedVectors(s.store, refused);
    RefuseIs(w, s, k, p.settings, p.rows);
    AfterTxKeepsFlagInv(s, k, ExcludeGuarded(s.store, refused, Some(PolicyHash(w, p.settings))),
                        Shaped(p.settings, Keep(Accepting(w.d, p.settings), p.rows)));
  }

  lemma RebuildKeepsFlagInv(w: World, s: State, k: WorkerId)
    requires FlagInv(s, k) && PhaseOf(s, k).SawMeta?
    ensures FlagInv(WorkerStep(w, s, k, RebuildIndex(k)), k)
  {
  }

  /** What a worker's step leaves alone. */
  lemma WorkerStepFrame(w: World, s: State, k: WorkerId, a: Action)
    ensures var t := WorkerStep(w, s, k, a); t.lastRequest == s.lastRequest && t.clock == s.clock
    ensures !(a.RebuildIndex? || a.Refuse? || a.Upsert?) ==> WorkerStep(w, s, k, a).store == s.store
  {
  }

  lemma WorkerStepKeepsFlagInv(w: World, s: State, k: WorkerId, a: Action)
    requires FlagInv(s, k) && WorkerOf(a) == Some(k)
    ensures var t := WorkerStep(w, s, k, a); t.lastRequest == s.lastRequest && FlagInv(t.(clock := s.clock + 1), k)
  {
    WorkerStepFrame(w, s, k, a);
    match (a, PhaseOf(s, k)) {
      case (RebuildIndex(_), SawMeta(_, _, _, _)) => RebuildKeepsFlagInv(w, s, k);
      case (Refuse(_), Fetched(_, _)) => RefuseKeepsFlagInv(w, s, k);
      case (Upsert(_), Embedded(settings, rows, _, at)) => UpsertKeepsFlagInv(w, s, k);
      case _ =>
    }
  }

  lemma EnvStepKeepsFlagInv(w: World, s: State, k: WorkerId, a: Action)
    requires FlagInv(s, k) && WorkerOf(a).None?
    ensures FlagInv(EnvStep(w, s, a).(clock := s.clock + 1), k)
  {
  }

  lemma {:induction false} RunKeepsFlagInv(w: World, s: State, actions: seq<Action>, k: WorkerId)
    requires Init(w, s) && s.lastRequest.None? && OneWorker(actions, k)
    ensures FlagInv(Run(w, s, actions), k)
  {
    if actions != [] {
      var before, a := actions[..|actions| - 1], actions[|actions| - 1];
      RunKeepsFlagInv(w, s, before, k);
      if WorkerOf(a).Some? {
        WorkerStepKeepsFlagInv(w, Run(w, s, before), k, a);
      } else {
        EnvStepKeepsFlagInv(w, Run(w, s, before), k, a);
      }
    }
  }

  /** Whenever the flag reads clear, every stored vector was embedded after the latest
    * request, wherever that request fell between the worker's steps.
    */
  lemma RebuildRequestsAreNotLost(w: World, s: State, actions: seq<Action>, k: WorkerId, id: EntryId)
    requires Init(w, s) && s.lastRequest.None? && OneWorker(actions, k)
    requires var now := Run(w, s, actions); !now.flag && now.lastRequest.Some? && id in now.store.vectors
    ensures var now := Run(w, s, actions); now.store.vectors[id].origin.at > now.lastRequest.value
  {
    RunKeepsFlagInv(w, s, actions, k);
  }

  // --- Two workers lose one ---------------------------------------------------------

  /** The first worker embeds, a request arrives, the second serves it, the first then stores. */
  ghost function LosingRun(s: AppSettings, m: Meta, e: Embedding): seq<Action> {
    [Begin(1, s), ReadFlag(1), ReadMeta(1, m), RebuildIndex(1)]
    + ([Fetch(1, 1), Refuse(1), Embed(1, e)]
    + ([RequestRebuild, Begin(2, s), ReadFlag(2), ReadMeta(2, m)]
    + [RebuildIndex(2), ClearFlag(2), Upsert(1)]))
  }

  lemma {:induction false} RunConcat(w: World, s: State, a: seq<Action>, b: seq<Action>)
    ensures Run(w, s, a + b) == Run(w, Run(w, s, a), b)
    decreases |b|
  {
    if b == [] {
      assert a + b == a;
    } else {
      var last := |b| - 1;
      RunConcat(w, s, a, b[..last]);
      assert (a + b)[..|a + b| - 1] == a + b[..last];
    }
  }

  lemma RunOne(w: World, s: State, a: Action, rest: seq<Action>)
    ensures Run(w, s, [a] + rest) == Run(w, Step(w, s, a), rest)
  {
    RunConcat(w, s, [a], rest);
    assert [a][..0] == [];
  }

  ghost function OneRow(row: PendingEmbedding, meta: Option<Meta>): Store {
    Store(Missing, meta, map[], map[], map[row.entryId := Row(row, false)], [row.entryId])
  }

  ghost function Start(row: PendingEmbedding): State {
    State(OneRow(row, None), false, 1, None, map[])
  }

  ghost function Indexed(w: World, row: PendingEmbedding, m: Meta): Store {
    OneRow(row, Some(LiveMeta(w, m, w.defaults)))
  }

  lemma FirstReconciles(w: World, row: PendingEmbedding, m: Meta)
    ensures Run(w, Start(row), [Begin(1, w.defaults), ReadFlag(1), ReadMeta(1, m), RebuildIndex(1)])
         == State(Indexed(w, row, m), false, 5, None, map[1 := Ready(w.defaults)])
  {
    var d, live := w.defaults, LiveMeta(w, m, w.defaults);
    var s1 := State(OneRow(row, None), false, 2, None, map[1 := Started(d)]);
    var s2 := State(OneRow(row, None), false, 3, None, map[1 := SawFlag(d, false)]);
    var s3 := State(OneRow(row, None), false, 4, None, map[1 := SawMeta(d, false, live, true)]);
    FirstRebuilds(w, row, m);
    RunFour(w, Start(row), s1, s2, s3, Begin(1, d), ReadFlag(1), ReadMeta(1, m), RebuildIndex(1));
  }

  lemma FirstRebuilds(w: World, row: PendingEmbedding, m: Meta)
    ensures var d := w.defaults;
      Step(w, State(OneRow(row, None), false, 4, None, map[1 := SawMeta(d, false, LiveMeta(w, m, d), true)]), RebuildIndex(1))
        == State(Indexed(w, row, m), false, 5, None, map[1 := Ready(d)])
  {
  }

  lemma RunFour(w: World, s0: State, s1: State, s2: State, s3: State, a: Action, b: Action, c: Action, d: Action)
    requires Step(w, s0, a) == s1 && Step(w, s1, b) == s2 && Step(w, s2, c) == s3
    ensures Run(w, s0, [a, b, c, d]) == Step(w, s3, d)
  {
    RunThree(w, s1, s2, s3, b, c, d);
    RunOne(w, s0, a, [b, c, d]);
    assert [a] + [b, c, d] == [a, b, c, d];
  }

  lemma RunThree(w: World, s0: State, s1: State, s2: State, a: Action, b: Action, c: Action)
    requires Step(w, s0, a) == s1 && Step(w, s1, b) == s2
    ensures Run(w, s0, [a, b, c]) == Step(w, s2, c)
  {
    RunOne(w, s0, a, [b, c]);
    RunOne(w, s1, b, [c]);
    RunOne(w, s2, c, []);
    assert [a] + [b, c] == [a, b, c] && [b] + [c] == [b, c] && [c] + [] == [c];
  }

  lemma FirstEmbeds(w: World, st: Store, row: PendingEmbedding, e: Embedding)
    requires Pending(st, 1) == [row]
    requires Keep(Refusing(w.d, w.defaults), [row]) == [] && Keep(Accepting(w.d, w.defaults), [row]) == [row]
    ensures Run(w, State(st, false, 5, None, map[1 := Ready(w.defaults)]), [Fetch(1, 1), Refuse(1), Embed(1, e)])
         == State(st, false, 8, None, map[1 := Embedded(w.defaults, [row], e, 7)])
  {
    var d := w.defaults;
    var s1 := State(st, false, 6, None, map[1 := Fetched(d, [row])]);
    var s2 := State(st, false, 7, None, map[1 := Shaped(d, [row])]);
    RefuseNothing(w, st, row);
    FetchOne(w, st, row);
    EmbedOne(w, st, row, e);
    RunThree(w, State(st, false, 5, None, map[1 := Ready(d)]), s1, s2, Fetch(1, 1), Refuse(1), Embed(1, e));
  }

  lemma FetchOne(w: World, st: Store, row: PendingEmbedding)
    requires Pending(st, 1) == [row]
    ensures Step(w, State(st, false, 5, None, map[1 := Ready(w.defaults)]), Fetch(1, 1))
         == State(st, false, 6, None, map[1 := Fetched(w.defaults, [row])])
  {
  }

  lemma EmbedOne(w: World, st: Store, row: PendingEmbedding, e: Embedding)
    ensures Step(w, State(st, false, 7, None, map[1 := Shaped(w.defaults, [row])]), Embed(1, e))
         == State(st, false, 8, None, map[1 := Embedded(w.defaults, [row], e, 7)])
  {
  }

  lemma RefuseNothing(w: World, st: Store, row: PendingEmbedding)
    requires Keep(Refusing(w.d, w.defaults), [row]) == [] && Keep(Accepting(w.d, w.defaults), [row]) == [row]
    ensures Step(w, State(st, false, 6, None, map[1 := Fetched(w.defaults, [row])]), Refuse(1))
         == State(st, false, 7, None, map[1 := Shaped(w.defaults, [row])])
  {
    FirstRefuses(w, State(st, false, 6, None, map[1 := Fetched(w.defaults, [row])]), row);
  }

  lemma FirstRefuses(w: World, s: State, row: PendingEmbedding)
    requires Keep(Refusing(w.d, w.defaults), [row]) == [] && Keep(Accepting(w.d, w.defaults), [row]) == [row]
    requires PhaseOf(s, 1) == Fetched(w.defaults, [row]) && s.clock == 6
    ensures Step(w, s, Refuse(1)) == At(s, 1, Shaped(w.defaults, [row])).(clock := 7)
  {
    RefuseIs(w, s, 1, w.defaults, [row]);
    NothingToExclude(s.store, w.defaults, 6, Some(PolicyHash(w, w.defaults)));
    CommitChangesNothing(s, 1, Shaped(w.defaults, [row]));
  }

  lemma CommitChangesNothing(s: State, k: WorkerId, next: Phase)
    ensures AfterTx(s, k, Committed(s.store), next) == At(s, k, next)
  {
  }

  lemma NothingToExclude(st: Store, p: AppSettings, at: nat, expected: Option<string>)
    ensures ExcludeGuarded(st, RefusalsFor(p, [], at), expected) == Committed(st)
  {
  }

  lemma SecondStarts(w: World, row: PendingEmbedding, m: Meta, batch: Phase)
    ensures Run(w, State(Indexed(w, row, m), false, 8, None, map[1 := batch]),
                [RequestRebuild, Begin(2, w.defaults), ReadFlag(2), ReadMeta(2, m)])
         == State(Indexed(w, row, m), true, 12, Some(8),
                  map[1 := batch, 2 := SawMeta(w.defaults, true, LiveMeta(w, m, w.defaults), true)])
  {
    var d, st := w.defaults, Indexed(w, row, m);
    var s1 := State(st, true, 9, Some(8), map[1 := batch]);
    var s2 := State(st, true, 10, Some(8), map[1 := batch, 2 := Started(d)]);
    var s3 := State(st, true, 11, Some(8), map[1 := batch, 2 := SawFlag(d, true)]);
    SecondReadsMeta(w, st, m, batch);
    RunFour(w, State(st, false, 8, None, map[1 := batch]), s1, s2, s3, RequestRebuild, Begin(2, d), ReadFlag(2), ReadMeta(2, m));
  }

  lemma SecondReadsMeta(w: World, st: Store, m: Meta, batch: Phase)
    ensures Step(w, State(st, true, 11, Some(8), map[1 := batch, 2 := SawFlag(w.defaults, true)]), ReadMeta(2, m))
         == State(st, true, 12, Some(8), map[1 := batch, 2 := SawMeta(w.defaults, true, LiveMeta(w, m, w.defaults), true)])
  {
  }

  lemma OneUpsert(w: World, row: PendingEmbedding, m: Meta, e: Embedding)
    requires e(row.entryId) != []
    ensures var v := Vector(row.contentHash, e(row.entryId), Origin(w.defaults, row, 7));
      UpsertGuarded(Indexed(w, row, m), ItemsFor(w.defaults, [row], e, 7), Some(PolicyHash(w, w.defaults)))
        == Committed(Indexed(w, row, m).(vectors := map[row.entryId := v]))
  {
    var items := ItemsFor(w.defaults, [row], e, 7);
    var st := Indexed(w, row, m);
    assert items[1..] == [];
    assert Upserted(st.vectors, st.rows, items) == map[row.entryId := items[0].1];
  }

  lemma FirstStoresLate(w: World, row: PendingEmbedding, m: Meta, e: Embedding)
    requires e(row.entryId) != []
    ensures var d := w.defaults;
      var s := State(Indexed(w, row, m), true, 12, Some(8),
        map[1 := Embedded(d, [row], e, 7), 2 := SawMeta(d, true, LiveMeta(w, m, d), true)]);
      Run(w, s, [RebuildIndex(2), ClearFlag(2), Upsert(1)])
        == State(Indexed(w, row, m).(vectors := map[row.entryId := Vector(row.contentHash, e(row.entryId), Origin(d, row, 7))]),
                 false, 15, Some(8), map[1 := Ready(d), 2 := Ready(d)])
  {
    var d, st := w.defaults, Indexed(w, row, m);
    var batch := Embedded(d, [row], e, 7);
    var s0 := State(st, true, 12, Some(8), map[1 := batch, 2 := SawMeta(d, true, LiveMeta(w, m, d), true)]);
    var s1 := State(st, true, 13, Some(8), map[1 := batch, 2 := Rebuilt(d)]);
    var s2 := State(st, false, 14, Some(8), map[1 := batch, 2 := Ready(d)]);
    SecondRebuilds(w, row, m, batch);
    SecondClears(w, st, batch);
    LateUpsert(w, row, m, e);
    RunThree(w, s0, s1, s2, RebuildIndex(2), ClearFlag(2), Upsert(1));
  }

  lemma SecondRebuilds(w: World, row: PendingEmbedding, m: Meta, batch: Phase)
    ensures var d, st := w.defaults, Indexed(w, row, m);
      Step(w, State(st, true, 12, Some(8), map[1 := batch, 2 := SawMeta(d, true, LiveMeta(w, m, d), true)]), RebuildIndex(2))
        == State(st, true, 13, Some(8), map[1 := batch, 2 := Rebuilt(d)])
  {
  }

  lemma SecondClears(w: World, st: Store, batch: Phase)
    ensures Step(w, State(st, true, 13, Some(8), map[1 := batch, 2 := Rebuilt(w.defaults)]), ClearFlag(2))
         == State(st, false, 14, Some(8), map[1 := batch, 2 := Ready(w.defaults)])
  {
  }

  lemma LateUpsert(w: World, row: PendingEmbedding, m: Meta, e: Embedding)
    requires e(row.entryId) != []
    ensures var d, st := w.defaults, Indexed(w, row, m);
      Step(w, State(st, false, 14, Some(8), map[1 := Embedded(d, [row], e, 7), 2 := Ready(d)]), Upsert(1))
        == State(st.(vectors := map[row.entryId := Vector(row.contentHash, e(row.entryId), Origin(d, row, 7))]),
                 false, 15, Some(8), map[1 := Ready(d), 2 := Ready(d)])
  {
    OneUpsert(w, row, m, e);
  }

  /** With two workers the flag can read clear while a vector older than the request is stored. */
  lemma TwoWorkersLoseARequest(w: World, row: PendingEmbedding, m: Meta, e: Embedding)
    requires e(row.entryId) != []
    requires Accepts(w.d, w.defaults, row) && Embeddable(Row(row, false))
    ensures var now := Run(w, Start(row), LosingRun(w.defaults, m, e));
      && !now.flag && now.lastRequest == Some(8)
      && row.entryId in now.store.vectors && now.store.vectors[row.entryId].origin.at == 7
  {
    var d := w.defaults;
    var p1 := [Begin(1, d), ReadFlag(1), ReadMeta(1, m), RebuildIndex(1)];
    var p2 := [Fetch(1, 1), Refuse(1), Embed(1, e)];
    var p3 := [RequestRebuild, Begin(2, d), ReadFlag(2), ReadMeta(2, m)];
    var p4 := [RebuildIndex(2), ClearFlag(2), Upsert(1)];
    FirstReconciles(w, row, m);
    FirstEmbeds(w, Indexed(w, row, m), row, e);
    SecondStarts(w, row, m, Embedded(d, [row], e, 7));
    FirstStoresLate(w, row, m, e);
    RunConcat(w, Start(row), p1, p2 + (p3 + p4));
    RunConcat(w, Run(w, Start(row), p1), p2, p3 + p4);
    RunConcat(w, Run(w, Run(w, Start(row), p1), p2), p3, p4);
  }

  // --- Any number of workers -----------------------------------------------------------

  /** A batch embedded before the last request that can still be stored. A worker dropped while its
    * store call runs leaves one: the call is that worker's last step, whenever it comes.
    */
  ghost predicate OlderBatch(p: Phase, request: Option<nat>) {
    && p.Embedded? && !Later(p.at, request)
    && p.rows != [] && forall i :: 0 <= i < |p.rows| ==> p.embedding(p.rows[i].entryId) != []
  }

  ghost predicate NoOlderBatch(s: State) {
    forall k :: k in s.workers ==> !OlderBatch(s.workers[k], s.lastRequest)
  }

  ghost predicate NoRequest(actions: seq<Action>) {
    forall i :: 0 <= i < |actions| ==> !actions[i].RequestRebuild?
  }

  /** From here on, until it is asked again, no stored vector is older than the last request. */
  ghost predicate HonouredFrom(w: World, s: State) {
    forall actions :: NoRequest(actions) ==> VectorsLater(Run(w, s, actions).store.vectors, s.lastRequest)
  }

  ghost predicate Honoured(s: State) {
    && (s.lastRequest.Some? ==> s.lastRequest.value < s.clock)
    && VectorsLater(s.store.vectors, s.lastRequest)
    && NoOlderBatch(s)
  }

  lemma UpsertKeepsHonoured(w: World, s: State, k: WorkerId)
    requires Honoured(s) && PhaseOf(s, k).Embedded?
    ensures VectorsLater(WorkerStep(w, s, k, Upsert(k)).store.vectors, s.lastRequest)
  {
    var p := PhaseOf(s, k);
    var items := ItemsFor(p.settings, p.rows, p.embedding, p.at);
    var tx := UpsertGuarded(s.store, items, Some(PolicyHash(w, p.settings)));
    if tx.Committed? && p.rows != [] {
      forall i | 0 <= i < |p.rows| ensures p.embedding(p.rows[i].entryId) != [] {
        assert items[i].1.values == p.embedding(p.rows[i].entryId);
      }
      assert !OlderBatch(p, s.lastRequest);
      forall i | 0 <= i < |items| ensures Later(items[i].1.origin.at, s.lastRequest) {
        assert items[i].1.origin.at == p.at;
      }
      UpsertedLater(s.store.vectors, s.store.rows, items, s.lastRequest);
    }
  }

  lemma WorkerStepKeepsHonoured(w: World, s: State, k: WorkerId, a: Action)
    requires Honoured(s) && WorkerOf(a) == Some(k)
    ensures VectorsLater(WorkerStep(w, s, k, a).store.vectors, s.lastRequest)
  {
    match (a, PhaseOf(s, k)) {
      case (Refuse(_), Fetched(settings, rows)) =>
        ExcludedVectors(s.store, RefusalsFor(settings, Keep(Refusing(w.d, settings), rows), s.clock));
      case (Upsert(_), Embedded(settings, rows, _, at)) => UpsertKeepsHonoured(w, s, k);
      case _ => WorkerStepFrame(w, s, k, a);
    }
  }

  /** A worker's step changes no other worker, and a batch it starts is embedded now. */
  lemma WorkerStepBatches(w: World, s: State, k: WorkerId, a: Action)
    requires WorkerOf(a) == Some(k)
    ensures var t := WorkerStep(w, s, k, a);
      && (forall j :: j in t.workers && j != k ==> j in s.workers && t.workers[j] == s.workers[j])
      && (k in t.workers && t.workers[k].Embedded? ==>
            t.workers[k].at == s.clock || (k in s.workers && t.workers[k] == s.workers[k]))
  {
  }

  lemma StepKeepsHonoured(w: World, s: State, a: Action)
    requires Honoured(s) && !a.RequestRebuild?
    ensures Honoured(Step(w, s, a)) && Step(w, s, a).lastRequest == s.lastRequest
  {
    if WorkerOf(a).Some? {
      var k := WorkerOf(a).value;
      WorkerStepFrame(w, s, k, a);
      WorkerStepKeepsHonoured(w, s, k, a);
      WorkerStepBatches(w, s, k, a);
    }
  }

  lemma {:induction false} RunKeepsHonoured(w: World, s: State, actions: seq<Action>)
    requires Honoured(s) && NoRequest(actions)
    ensures Honoured(Run(w, s, actions)) && Run(w, s, actions).lastRequest == s.lastRequest
  {
    if actions != [] {
      var before := actions[..|actions| - 1];
      RunKeepsHonoured(w, s, before);
      StepKeepsHonoured(w, Run(w, s, before), actions[|actions| - 1]);
    }
  }

  // An older batch still under way can be brought to land, one step after another.

  lemma BreaksBefore(w: World, s: State, a: Action)
    requires !a.RequestRebuild? && Step(w, s, a).lastRequest == s.lastRequest && !HonouredFrom(w, Step(w, s, a))
    ensures !HonouredFrom(w, s)
  {
    var later :| NoRequest(later) && !VectorsLater(Run(w, Step(w, s, a), later).store.vectors, s.lastRequest);
    RunOne(w, s, a, later);
    assert NoRequest([a] + later);
  }

  /** A batch that finds one of its rows leaves that row a vector of its own. */
  lemma {:induction false} UpsertedAt(vectors: map<EntryId, Vector>, rows: map<EntryId, Row>, items: seq<(EntryId, Vector)>,
                                     id: EntryId, at: nat)
    requires forall i :: 0 <= i < |items| ==> items[i].1.origin.at == at
    requires (id in vectors && vectors[id].origin.at == at)
          || (items != [] && items[0].0 == id && id in rows && rows[id].entry.contentHash == items[0].1.contentHash)
    ensures var after := Upserted(vectors, rows, items); id in after && after[id].origin.at == at
    decreases |items|
  {
    if items != [] {
      var (x, v) := items[0];
      assert v.origin.at == at;
      var next := if x in rows && rows[x].entry.contentHash == v.contentHash then vectors[x := v] else vectors;
      UpsertedAt(next, rows, items[1..], id, at);
    }
  }

  /** Worker `j` holds the older batch `b`, and `k` is another worker. */
  ghost predicate Holds(s: State, j: WorkerId, b: Phase, k: WorkerId) {
    j != k && j in s.workers && s.workers[j] == b && OlderBatch(b, s.lastRequest)
  }

  ghost predicate HasBody(s: State, b: Phase)
    requires b.Embedded? && b.rows != []
  {
    b.rows[0].entryId in s.store.rows && s.store.rows[b.rows[0].entryId].entry.contentHash == b.rows[0].contentHash
  }

  lemma BatchLands(w: World, s: State, j: WorkerId, b: Phase, k: WorkerId)
    requires Holds(s, j, b, k) && HasBody(s, b)
    requires s.store.meta.Some? && s.store.meta.value.policyHash == PolicyHash(w, b.settings)
    ensures !HonouredFrom(w, s)
  {
    var items := ItemsFor(b.settings, b.rows, b.embedding, b.at);
    forall i | 0 <= i < |items| ensures items[i].1.values != [] && items[i].1.origin.at == b.at {
      assert items[i].1.values == b.embedding(b.rows[i].entryId);
    }
    UpsertedAt(s.store.vectors, s.store.rows, items, b.rows[0].entryId, b.at);
    var after := Upserted(s.store.vectors, s.store.rows, items);
    assert !Later(after[b.rows[0].entryId].origin.at, s.lastRequest);
    assert Step(w, s, Upsert(j)).store.vectors == after;
    assert !VectorsLater(Run(w, Step(w, s, Upsert(j)), []).store.vectors, s.lastRequest);
    BreaksBefore(w, s, Upsert(j));
  }

  lemma LandsAfterRebuild(w: World, s: State, j: WorkerId, b: Phase, k: WorkerId)
    requires Holds(s, j, b, k) && HasBody(s, b) && s.store.settings == Readable(b.settings)
    requires var p := PhaseOf(s, k); p.SawMeta? && p.mustRebuild && p.live.policyHash == PolicyHash(w, b.settings)
    ensures !HonouredFrom(w, s)
  {
    BatchLands(w, Step(w, s, RebuildIndex(k)), j, b, k);
    BreaksBefore(w, s, RebuildIndex(k));
  }

  lemma LandsAfterMeta(w: World, s: State, j: WorkerId, b: Phase, k: WorkerId)
    requires Holds(s, j, b, k) && HasBody(s, b) && s.store.settings == Readable(b.settings)
    requires s.store.meta.None? && PhaseOf(s, k).SawFlag? && PhaseOf(s, k).settings == b.settings
    ensures !HonouredFrom(w, s)
  {
    var model := Meta("", 0, 0, 0, [], 0, "");
    LandsAfterRebuild(w, Step(w, s, ReadMeta(k, model)), j, b, k);
    BreaksBefore(w, s, ReadMeta(k, model));
  }

  lemma LandsAfterFlag(w: World, s: State, j: WorkerId, b: Phase, k: WorkerId)
    requires Holds(s, j, b, k) && HasBody(s, b) && s.store.settings == Readable(b.settings)
    requires s.store.meta.None? && PhaseOf(s, k) == Started(b.settings)
    ensures !HonouredFrom(w, s)
  {
    LandsAfterMeta(w, Step(w, s, ReadFlag(k)), j, b, k);
    BreaksBefore(w, s, ReadFlag(k));
  }

  lemma LandsAfterBegin(w: World, s: State, j: WorkerId, b: Phase, k: WorkerId)
    requires Holds(s, j, b, k) && HasBody(s, b) && s.store.settings == Readable(b.settings)
    requires s.store.meta.None? && PhaseOf(s, k).Idle?
    ensures !HonouredFrom(w, s)
  {
    LandsAfterFlag(w, Step(w, s, Begin(k, b.settings)), j, b, k);
    BreaksBefore(w, s, Begin(k, b.settings));
  }

  /** Its body can come back, */
  lemma LandsAfterInsert(w: World, s: State, j: WorkerId, b: Phase, k: WorkerId)
    requires Holds(s, j, b, k) && s.store.settings == Readable(b.settings)
    requires s.store.meta.None? && PhaseOf(s, k).Idle?
    ensures !HonouredFrom(w, s)
  {
    var row := b.rows[0];
    var gone := Step(w, s, HardDelete(row.entryId));
    LandsAfterBegin(w, Step(w, gone, InsertEntry(row)), j, b, k);
    BreaksBefore(w, gone, InsertEntry(row));
    BreaksBefore(w, s, HardDelete(row.entryId));
  }

  /** and so can the settings it was shaped under. */
  lemma OlderBatchBreaks(w: World, s: State, k: WorkerId, j: WorkerId)
    requires j in s.workers && j != k && OlderBatch(s.workers[j], s.lastRequest)
    ensures !HonouredFrom(w, s)
  {
    var b := s.workers[j];
    var idle := Step(w, s, Abort(k));
    var saved := Step(w, idle, Save(b.settings));
    LandsAfterInsert(w, Step(w, saved, Purge), j, b, k);
    BreaksBefore(w, saved, Purge);
    BreaksBefore(w, idle, Save(b.settings));
    BreaksBefore(w, s, Abort(k));
  }

  lemma {:induction false} RequestsArePast(w: World, s: State, actions: seq<Action>)
    requires Init(w, s) && s.lastRequest.None?
    ensures var now := Run(w, s, actions); now.lastRequest.Some? ==> now.lastRequest.value < now.clock
  {
    if actions != [] {
      var before, a := actions[..|actions| - 1], actions[|actions| - 1];
      RequestsArePast(w, s, before);
      if WorkerOf(a).Some? { WorkerStepFrame(w, Run(w, s, before), WorkerOf(a).value, a); }
    }
  }

  /** However many workers there are: a rebuild that commits honours the request before it, for good
    * until the next one, exactly when no batch embedded before that request is still under way.
    */
  lemma RebuildHonoursIff(w: World, s: State, before: seq<Action>, k: WorkerId)
    requires Init(w, s) && s.lastRequest.None?
    requires var at := Run(w, s, before);
      PhaseOf(at, k).SawMeta? && PhaseOf(at, k).mustRebuild && RebuildMeta(w, at.store, PhaseOf(at, k).live).Committed?
    ensures HonouredFrom(w, Run(w, s, before + [RebuildIndex(k)])) <==> NoOlderBatch(Run(w, s, before))
  {
    var at := Run(w, s, before);
    assert (before + [RebuildIndex(k)])[..|before|] == before;
    var after := Step(w, at, RebuildIndex(k));
    RequestsArePast(w, s, before);
    WorkerStepFrame(w, at, k, RebuildIndex(k));
    WorkerStepBatches(w, at, k, RebuildIndex(k));
    if NoOlderBatch(at) {
      assert Honoured(after);
      forall actions | NoRequest(actions) ensures VectorsLater(Run(w, after, actions).store.vectors, after.lastRequest) {
        RunKeepsHonoured(w, after, actions);
      }
    } else {
      var j :| j in at.workers && OlderBatch(at.workers[j], at.lastRequest);
      assert j != k && after.workers[j] == at.workers[j];
      OlderBatchBreaks(w, after, k, j);
    }
  }
}
