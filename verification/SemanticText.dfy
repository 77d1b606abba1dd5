/** Whether a ranked vector still shows its entry's text. */
module SemanticText {
  import opened Wrappers
  import opened Ordering
  import opened Policy
  import opened SemanticStore
  import opened SemanticProtocol
  import opened SemanticPairing
  import opened SemanticPass

  /** The text behind the vector is the entry's text. */
  predicate TextHolds(st: Store, id: EntryId)
    requires id in st.vectors && id in st.rows
  {
    st.vectors[id].origin.row.text == st.rows[id].entry.text
  }

  // --- What a recognition write does to it ----------------------------------------------------

  /** Taking recognized text back leaves the image's vector ranking as before, and the text behind
    * it is then still the entry's only if there was none.
    */
  lemma TakenBackTextStillRanks(st: Store, ids: set<EntryId>, dimension: nat, pin: Option<string>, id: EntryId)
    requires Rankable(st, dimension, pin, id) && id in ids
    ensures Rankable(TextCleared(st, ids), dimension, pin, id)
    ensures TextHolds(TextCleared(st, ids), id) <==> st.vectors[id].origin.row.text == ""
  {
  }

  /** A recognition that raises its image to Secret takes it out of the ranking; any other leaves it
    * there, with its text exactly when it recorded the text the vector was made from.
    */
  lemma RecordedTextRanksIff(st: Store, id: EntryId, text: string, raises: Option<Sensitivity>, dimension: nat, pin: Option<string>)
    requires Rankable(st, dimension, pin, id)
    requires st.rows[id].entry.sensitivity.Public? || st.rows[id].entry.sensitivity.Unknown?
    ensures var after := TextRecorded(st, id, st.rows[id].entry.contentHash, text, raises);
      && (Rankable(after, dimension, pin, id) <==> raises != Some(Secret) && raises != Some(Blocked))
      && (TextHolds(after, id) <==> text == st.vectors[id].origin.row.text)
  {
  }

  // --- Nothing else does anything to it -----------------------------------------------------------

  /** No recognition is recorded for the entry or taken back from it. */
  ghost predicate TextLeftAlone(actions: seq<Action>, id: EntryId) {
    forall i :: 0 <= i < |actions| ==>
      && (actions[i].RecordText? ==> actions[i].id != id)
      && (actions[i].TakeTextBack? ==> id !in actions[i].ids)
  }

  /** Every body the entry is given has the text its hash stands for. */
  ghost predicate BodiesMatch(actions: seq<Action>, id: EntryId, textOf: string -> string) {
    forall i :: 0 <= i < |actions| && (actions[i].InsertEntry? || actions[i].ReplaceEntry?) && actions[i].entry.entryId == id ==>
      textOf(actions[i].entry.contentHash) == actions[i].entry.text
  }

  ghost predicate RowMatches(row: PendingEmbedding, id: EntryId, textOf: string -> string) {
    row.entryId == id ==> textOf(row.contentHash) == row.text
  }

  ghost predicate RowsMatch(rows: seq<PendingEmbedding>, id: EntryId, textOf: string -> string) {
    forall i :: 0 <= i < |rows| ==> RowMatches(rows[i], id, textOf)
  }

  ghost predicate PhaseMatches(p: Phase, id: EntryId, textOf: string -> string) {
    p.Fetched? || p.Shaped? || p.Embedded? ==> RowsMatch(p.rows, id, textOf)
  }

  /** The entry, every batch under way and the stored vector hold the text their hash stands for. */
  ghost predicate StoreMatches(st: Store, id: EntryId, textOf: string -> string) {
    && (id in st.rows ==> RowMatches(st.rows[id].entry, id, textOf))
    && (id in st.vectors ==> RowMatches(st.vectors[id].origin.row, id, textOf))
  }

  ghost predicate Matches(s: State, id: EntryId, textOf: string -> string) {
    && StoreMatches(s.store, id, textOf)
    && forall k :: k in s.workers ==> PhaseMatches(s.workers[k], id, textOf)
  }

  lemma {:induction false} KeptMatch(keep: PendingEmbedding -> bool, rows: seq<PendingEmbedding>, id: EntryId, textOf: string -> string)
    requires RowsMatch(rows, id, textOf)
    ensures RowsMatch(Keep(keep, rows), id, textOf)
  {
    if rows != [] { KeptMatch(keep, rows[1..], id, textOf); }
  }

  lemma FetchedMatch(st: Store, limit: nat, id: EntryId, textOf: string -> string)
    requires Keyed(st) && StoreMatches(st, id, textOf)
    ensures RowsMatch(Pending(st, limit), id, textOf)
  {
    var rows := Pending(st, limit);
    forall i | 0 <= i < |rows| ensures RowMatches(rows[i], id, textOf) {
      assert rows[i] == Backlog(st)[i];
      var x :| x in st.recency && Outstanding(st, x) && rows[i] == st.rows[x].entry;
    }
  }

  lemma {:induction false} UpsertedMatch(vectors: map<EntryId, Vector>, rows: map<EntryId, Row>, items: seq<(EntryId, Vector)>,
                                         id: EntryId, textOf: string -> string)
    requires id in vectors ==> RowMatches(vectors[id].origin.row, id, textOf)
    requires forall i :: 0 <= i < |items| ==> RowMatches(items[i].1.origin.row, id, textOf)
    ensures id in Upserted(vectors, rows, items) ==> RowMatches(Upserted(vectors, rows, items)[id].origin.row, id, textOf)
    decreases |items|
  {
    if items != [] {
      var (x, v) := items[0];
      assert RowMatches(items[0].1.origin.row, id, textOf);
      var next := if x in rows && rows[x].entry.contentHash == v.contentHash then vectors[x := v] else vectors;
      UpsertedMatch(next, rows, items[1..], id, textOf);
    }
  }

  lemma {:induction false} ExcludedMatch(st: Store, items: seq<(EntryId, Exclusion)>, id: EntryId, textOf: string -> string)
    requires StoreMatches(st, id, textOf)
    ensures StoreMatches(Excluded(st, items), id, textOf)
    decreases |items|
  {
    if items != [] {
      var (x, e) := items[0];
      ExcludedMatch(st.(exclusions := st.exclusions[x := e], vectors := st.vectors - {x}), items[1..], id, textOf);
    }
  }

  lemma AtMatches(s: State, k: WorkerId, p: Phase, id: EntryId, textOf: string -> string)
    requires Matches(s, id, textOf) && PhaseMatches(p, id, textOf)
    ensures Matches(At(s, k, p), id, textOf)
  {
  }

  lemma TxMatches(s: State, k: WorkerId, tx: Tx, next: Phase, id: EntryId, textOf: string -> string)
    requires Matches(s, id, textOf) && PhaseMatches(next, id, textOf)
    requires tx.Committed? ==> StoreMatches(tx.store, id, textOf)
    ensures Matches(AfterTx(s, k, tx, next), id, textOf)
  {
  }

  lemma ExcludeTxMatches(st: Store, items: seq<(EntryId, Exclusion)>, expected: Option<string>, id: EntryId, textOf: string -> string)
    requires StoreMatches(st, id, textOf)
    ensures var tx := ExcludeGuarded(st, items, expected); tx.Committed? ==> StoreMatches(tx.store, id, textOf)
  {
    ExcludedMatch(st, items, id, textOf);
  }

  lemma UpsertMatches(w: World, s: State, k: WorkerId, id: EntryId, textOf: string -> string)
    requires Matches(s, id, textOf) && PhaseOf(s, k).Embedded?
    ensures Matches(WorkerStep(w, s, k, Upsert(k)), id, textOf)
  {
    var p := PhaseOf(s, k);
    assert PhaseMatches(s.workers[k], id, textOf);
    var items := ItemsFor(p.settings, p.rows, p.embedding, p.at);
    forall i | 0 <= i < |items| ensures RowMatches(items[i].1.origin.row, id, textOf) { assert RowMatches(p.rows[i], id, textOf); }
    UpsertedMatch(s.store.vectors, s.store.rows, items, id, textOf);
    var tx := UpsertGuarded(s.store, items, Some(PolicyHash(w, p.settings)));
    TxMatches(s, k, tx, Ready(p.settings), id, textOf);
  }

  lemma RefuseMatches(w: World, s: State, k: WorkerId, id: EntryId, textOf: string -> string)
    requires Matches(s, id, textOf) && PhaseOf(s, k).Fetched?
    ensures Matches(WorkerStep(w, s, k, Refuse(k)), id, textOf)
  {
    var p := PhaseOf(s, k);
    assert PhaseMatches(s.workers[k], id, textOf);
    var refused := RefusalsFor(p.settings, Keep(Refusing(w.d, p.settings), p.rows), s.clock);
    var accepted := Keep(Accepting(w.d, p.settings), p.rows);
    KeptMatch(Accepting(w.d, p.settings), p.rows, id, textOf);
    ExcludeTxMatches(s.store, refused, Some(PolicyHash(w, p.settings)), id, textOf);
    TxMatches(s, k, ExcludeGuarded(s.store, refused, Some(PolicyHash(w, p.settings))), Shaped(p.settings, accepted), id, textOf);
  }

  lemma RebuildMatches(w: World, s: State, k: WorkerId, id: EntryId, textOf: string -> string)
    requires Matches(s, id, textOf) && PhaseOf(s, k).SawMeta?
    ensures Matches(WorkerStep(w, s, k, RebuildIndex(k)), id, textOf)
  {
  }

  lemma WorkerStepMatches(w: World, s: State, k: WorkerId, a: Action, id: EntryId, textOf: string -> string)
    requires Keyed(s.store) && Matches(s, id, textOf) && WorkerOf(a) == Some(k)
    ensures Matches(WorkerStep(w, s, k, a), id, textOf)
  {
    if k in s.workers { assert PhaseMatches(s.workers[k], id, textOf); }
    match (a, PhaseOf(s, k)) {
      case (Fetch(_, limit), Ready(settings)) =>
        FetchedMatch(s.store, limit, id, textOf);
        AtMatches(s, k, Fetched(settings, Pending(s.store, limit)), id, textOf);
      case (RebuildIndex(_), SawMeta(_, _, _, _)) => RebuildMatches(w, s, k, id, textOf);
      case (Refuse(_), Fetched(_, _)) => RefuseMatches(w, s, k, id, textOf);
      case (Upsert(_), Embedded(_, _, _, _)) => UpsertMatches(w, s, k, id, textOf);
      case (Embed(_, embedding), Shaped(settings, rows)) => AtMatches(s, k, Embedded(settings, rows, embedding, s.clock), id, textOf);
      case _ =>
    }
  }

  lemma EnvStepMatches(w: World, s: State, a: Action, id: EntryId, textOf: string -> string)
    requires Matches(s, id, textOf) && TextLeftAlone([a], id) && BodiesMatch([a], id, textOf)
    ensures Matches(EnvStep(w, s, a), id, textOf)
  {
    assert [a][0] == a;
  }

  lemma {:induction false} RunMatches(w: World, s: State, actions: seq<Action>, id: EntryId, textOf: string -> string)
    requires Init(w, s) && Matches(s, id, textOf) && TextLeftAlone(actions, id) && BodiesMatch(actions, id, textOf)
    ensures Matches(Run(w, s, actions), id, textOf)
  {
    if actions != [] {
      var before, a := actions[..|actions| - 1], actions[|actions| - 1];
      RunMatches(w, s, before, id, textOf);
      RunKeepsInv(w, s, before);
      if WorkerOf(a).Some? { WorkerStepMatches(w, Run(w, s, before), WorkerOf(a).value, a, id, textOf); }
      else { EnvStepMatches(w, Run(w, s, before), a, id, textOf); }
    }
  }

  /** Over every interleaving: while no recognition is recorded for an entry or taken back from it,
    * a vector that ranks it was made from the text it holds.
    */
  lemma RankedTextHolds(w: World, s: State, actions: seq<Action>, id: EntryId, textOf: string -> string, dimension: nat,
                        pin: Option<string>)
    requires Init(w, s) && StoreMatches(s.store, id, textOf)
    requires TextLeftAlone(actions, id) && BodiesMatch(actions, id, textOf)
    requires Rankable(Run(w, s, actions).store, dimension, pin, id)
    ensures TextHolds(Run(w, s, actions).store, id)
  {
    RunMatches(w, s, actions, id, textOf);
    RunKeepsInv(w, s, actions);
    var st := Run(w, s, actions).store;
    assert VectorOk(w, st, id, st.vectors[id]);
    assert RowMatches(st.rows[id].entry, id, textOf);
  }
}
