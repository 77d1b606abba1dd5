/** What each transaction of the semantic store changes and what it leaves alone. */
module SemanticChanges {
  import opened Wrappers
  import opened Ordering
  import opened Policy
  import opened SemanticStore
  import opened SemanticProtocol
  import opened SemanticPairing
  import opened SemanticPass

  // --- Saving settings ------------------------------------------------------------------

  /** A save leaves the corpus alone, and the index too exactly while its fingerprint is the committed
    * one; otherwise nothing of the index is left.
    */
  lemma SaveLeaves(w: World, st: Store, s: AppSettings)
    ensures var t := Saved(w, st, s);
      && t.settings == Readable(s) && t.rows == st.rows && t.recency == st.recency
      && if CommittedHash(w, st.settings) == Some(PolicyHash(w, s))
         then t.meta == st.meta && t.vectors == st.vectors && t.exclusions == st.exclusions
         else t.meta == None && t.vectors == map[] && t.exclusions == map[]
  {
  }

  // --- Steps of the protocol ------------------------------------------------------------

  /** The steps that erase the whole index. */
  ghost predicate Erases(w: World, s: State, a: Action) {
    match a
    case Purge => true
    case Save(settings) => CommittedHash(w, s.store.settings) != Some(PolicyHash(w, settings))
    case RebuildIndex(k) =>
      var p := PhaseOf(s, k);
      p.SawMeta? && p.mustRebuild && CommittedHash(w, s.store.settings) == Some(p.live.policyHash)
    case _ => false
  }

  /** The steps that may decide entry `id` again. */
  ghost predicate Redecides(w: World, s: State, a: Action, id: EntryId) {
    match a
    case ReplaceEntry(entry) => entry.entryId == id
    case HardDelete(x) => x == id
    case Refuse(k) => PhaseOf(s, k).Fetched? && id in Ids(PhaseOf(s, k).rows)
    case Upsert(k) => PhaseOf(s, k).Embedded? && id in Ids(PhaseOf(s, k).rows)
    case _ => false
  }

  lemma {:induction false} KeptIdIn(keep: PendingEmbedding -> bool, rows: seq<PendingEmbedding>, row: PendingEmbedding)
    requires row in Keep(keep, rows)
    ensures row.entryId in Ids(rows)
  {
    assert rows == [rows[0]] + rows[1..];
    assert Ids(rows) == [rows[0].entryId] + Ids(rows[1..]);
    if !(keep(rows[0]) && row == rows[0]) {
      KeptIdIn(keep, rows[1..], row);
    }
  }

  lemma ExcludeLeaves(st: Store, items: seq<(EntryId, Exclusion)>, expected: Option<string>, id: EntryId)
    requires forall i :: 0 <= i < |items| ==> items[i].0 != id
    ensures var tx := ExcludeGuarded(st, items, expected);
      tx.Committed? ==> tx.store.meta == st.meta && SameAt(st, tx.store, id)
  {
    ExcludedOther(st, items, id);
    ExcludedFrame(st, items);
  }

  lemma RefuseLeaves(w: World, s: State, k: WorkerId, id: EntryId)
    requires PhaseOf(s, k).Fetched? && id !in Ids(PhaseOf(s, k).rows)
    ensures var t := WorkerStep(w, s, k, Refuse(k)); t.store.meta == s.store.meta && SameAt(s.store, t.store, id)
  {
    var p := PhaseOf(s, k);
    var refused := Keep(Refusing(w.d, p.settings), p.rows);
    var items := RefusalsFor(p.settings, refused, s.clock);
    forall i | 0 <= i < |items| ensures items[i].0 != id { KeptIdIn(Refusing(w.d, p.settings), p.rows, refused[i]); }
    ExcludeLeaves(s.store, items, Some(PolicyHash(w, p.settings)), id);
    RefuseIs(w, s, k, p.settings, p.rows);
  }

  lemma UpsertLeaves(w: World, s: State, k: WorkerId, id: EntryId)
    requires PhaseOf(s, k).Embedded? && id !in Ids(PhaseOf(s, k).rows)
    ensures var t := WorkerStep(w, s, k, Upsert(k)); t.store.meta == s.store.meta && SameAt(s.store, t.store, id)
  {
    var p := PhaseOf(s, k);
    var items := ItemsFor(p.settings, p.rows, p.embedding, p.at);
    forall i | 0 <= i < |items| ensures items[i].0 != id { assert Ids(p.rows)[i] == items[i].0; }
    UpsertedOther(s.store.vectors, s.store.rows, items, id);
  }

  lemma WorkerStepLeaves(w: World, s: State, k: WorkerId, a: Action, id: EntryId)
    requires WorkerOf(a) == Some(k) && !Erases(w, s, a) && !Redecides(w, s, a, id)
    ensures var t := WorkerStep(w, s, k, a); t.store.meta == s.store.meta && SameAt(s.store, t.store, id)
  {
    match (a, PhaseOf(s, k)) {
      case (Refuse(_), Fetched(_, _)) => RefuseLeaves(w, s, k, id);
      case (Upsert(_), Embedded(_, _, _, _)) => UpsertLeaves(w, s, k, id);
      case _ =>
    }
  }

  /** Every other step leaves the metadata and what is stored for `id` as they were. */
  lemma StepLeaves(w: World, s: State, a: Action, id: EntryId)
    requires !Erases(w, s, a) && !Redecides(w, s, a, id)
    ensures var t := Step(w, s, a); t.store.meta == s.store.meta && SameAt(s.store, t.store, id)
  {
    if WorkerOf(a).Some? { WorkerStepLeaves(w, s, WorkerOf(a).value, a, id); }
  }

  /** And those steps do erase it. */
  lemma ErasingStepErases(w: World, s: State, a: Action)
    requires Erases(w, s, a)
    ensures var t := Step(w, s, a);
      && t.store.vectors == map[] && t.store.exclusions == map[]
      && t.store.meta == if a.RebuildIndex? then Some(PhaseOf(s, a.k).live) else None
  {
  }

  ghost predicate LeavesAlone(w: World, s: State, actions: seq<Action>, id: EntryId) {
    forall i :: 0 <= i < |actions| ==>
      !Erases(w, Run(w, s, actions[..i]), actions[i]) && !Redecides(w, Run(w, s, actions[..i]), actions[i], id)
  }

  /** Over every run: a stored decision stands until the index is erased or the entry decided again. */
  lemma {:induction false} DecisionStands(w: World, s: State, actions: seq<Action>, id: EntryId)
    requires LeavesAlone(w, s, actions, id)
    ensures var t := Run(w, s, actions); t.store.meta == s.store.meta && SameAt(s.store, t.store, id)
  {
    if actions != [] {
      var n := |actions| - 1;
      assert forall i :: 0 <= i < n ==> actions[..n][..i] == actions[..i] && actions[..n][i] == actions[i];
      DecisionStands(w, s, actions[..n], id);
      StepLeaves(w, Run(w, s, actions[..n]), actions[n], id);
    }
  }

  /** Saves that all keep the fingerprint in force change nothing but the settings themselves. */
  lemma {:induction false} KeepingSavesEraseNothing(w: World, s: State, actions: seq<Action>)
    requires forall i :: 0 <= i < |actions| ==>
      actions[i].Save? && CommittedHash(w, s.store.settings) == Some(PolicyHash(w, actions[i].settings))
    ensures var t := Run(w, s, actions).store;
      && t == s.store.(settings := t.settings) && CommittedHash(w, t.settings) == CommittedHash(w, s.store.settings)
      && (actions != [] ==> t.settings == Readable(actions[|actions| - 1].settings))
  {
    if actions != [] {
      var n := |actions| - 1;
      KeepingSavesEraseNothing(w, s, actions[..n]);
      SaveLeaves(w, Run(w, s, actions[..n]).store, actions[n].settings);
    }
  }

  // --- What waits, and what each edit does to it ----------------------------------------------

  /** An entry the indexer is still to decide, read off the store directly. */
  ghost predicate Waits(st: Store, id: EntryId) {
    && id in st.rows && !st.rows[id].deleted && st.rows[id].entry.text != ""
    && (st.rows[id].entry.sensitivity == Unknown || st.rows[id].entry.sensitivity == Public
        || st.rows[id].entry.sensitivity == Private)
    && !(id in st.vectors && st.vectors[id].contentHash == st.rows[id].entry.contentHash)
    && !(id in st.exclusions && st.exclusions[id].contentHash == st.rows[id].entry.contentHash)
  }

  /** The backlog is exactly the waiting entries, as they are stored, none twice. */
  lemma BacklogIsWhatWaits(st: Store, id: EntryId)
    requires Keyed(st)
    ensures id in Ids(Backlog(st)) <==> Waits(st, id)
    ensures Distinct(Ids(Backlog(st)))
    ensures forall row :: row in Backlog(st) ==> row.entryId in st.rows && st.rows[row.entryId].entry == row
  {
    assert Waits(st, id) ==> id in Elements(st.recency);
    OutstandingMembers(st, st.recency, id);
    OutstandingDistinct(st, st.recency);
  }

  /** A captured entry comes in front of the backlog, and nothing else moves. */
  lemma InsertedComesFirst(w: World, st: Store, entry: PendingEmbedding)
    requires Barrier(w, st) && entry.entryId !in st.rows
    ensures var t := Inserted(st, entry);
      && t == st.(rows := st.rows[entry.entryId := Row(entry, false)], recency := t.recency)
      && Backlog(t) == (if Waits(t, entry.entryId) then [entry] else []) + Backlog(st)
  {
    var t := Inserted(st, entry);
    assert entry.entryId !in Elements(st.recency);
    OthersWaitAlike(st, t, entry.entryId);
    SameOutstanding(st, t, st.recency);
    HeadOfBacklog(t, entry.entryId, st.recency);
  }

  lemma HeadOfBacklog(st: Store, id: EntryId, rest: seq<EntryId>)
    ensures OutstandingIn(st, [id] + rest) == (if Waits(st, id) then [st.rows[id].entry] else []) + OutstandingIn(st, rest)
  {
    assert ([id] + rest)[1..] == rest;
  }

  lemma OthersWaitAlike(st: Store, after: Store, id: EntryId)
    requires id !in st.recency && after == st.(rows := after.rows, recency := after.recency)
    requires forall x :: x != id ==> (x in after.rows <==> x in st.rows) && (x in st.rows ==> after.rows[x] == st.rows[x])
    ensures forall x :: x in st.recency ==>
      (Outstanding(after, x) <==> Outstanding(st, x)) && (Outstanding(st, x) ==> after.rows[x].entry == st.rows[x].entry)
  {
  }

  lemma {:induction false} SameOutstanding(st: Store, after: Store, ids: seq<EntryId>)
    requires forall id :: id in ids ==>
      (Outstanding(after, id) <==> Outstanding(st, id)) && (Outstanding(st, id) ==> after.rows[id].entry == st.rows[id].entry)
    ensures OutstandingIn(after, ids) == OutstandingIn(st, ids)
  {
    if ids != [] {
      assert ids == [ids[0]] + ids[1..];
      assert ids[0] in ids;
      SameOutstanding(st, after, ids[1..]);
    }
  }

  /** An entry that is there already is not captured again. */
  lemma InsertedTwice(st: Store, entry: PendingEmbedding)
    requires entry.entryId in st.rows
    ensures Inserted(st, entry) == st
  {
  }

  /** A new body makes the entry wait again unless it is refused under the same hash, and leaves what
    * is stored for every other entry alone.
    */
  lemma ReplacedWaitsAgain(st: Store, entry: PendingEmbedding, id: EntryId)
    requires entry.entryId in st.rows && !st.rows[entry.entryId].deleted
    ensures var t := Replaced(st, entry); var x := entry.entryId;
      && t == st.(rows := st.rows[x := Row(entry, false)], vectors := st.vectors - {x})
      && (Waits(t, x) <==> Embeddable(Row(entry, false))
                           && !(x in st.exclusions && st.exclusions[x].contentHash == entry.contentHash))
      && (id != x ==> SameAt(st, t, id) && (Waits(t, id) <==> Waits(st, id)))
  {
  }

  /** A soft-deleted entry neither waits nor ranks; its row and what is stored for it stay. */
  lemma SoftDeletedIsHidden(st: Store, id: EntryId, other: EntryId, dimension: nat, pin: Option<string>)
    ensures var t := SoftDeleted(st, id);
      && t == st.(rows := t.rows) && t.rows.Keys == st.rows.Keys
      && !Waits(t, id) && !Rankable(t, dimension, pin, id)
      && (id in st.rows ==> t.rows[id].entry == st.rows[id].entry)
      && (other != id && other in st.rows ==> t.rows[other] == st.rows[other])
  {
  }

  /** A hard delete takes the entry and what is stored for it, and keeps the others in their order. */
  lemma HardDeletedIsGone(w: World, st: Store, id: EntryId, other: EntryId)
    requires Barrier(w, st)
    ensures var t := HardDeleted(st, id);
      && t.settings == st.settings && t.meta == st.meta
      && id !in t.rows && id !in t.vectors && id !in t.exclusions && id !in t.recency
      && (other != id ==> SameAt(st, t, other) && (other in t.rows <==> other in st.rows)
                          && (other in st.rows ==> t.rows[other] == st.rows[other]))
  {
    WithoutIdMembers(st.recency, id);
  }

  lemma HardDeletedLeavesTheRest(w: World, st: Store, id: EntryId)
    requires Barrier(w, st)
    ensures Backlog(HardDeleted(st, id)) == Dropped(Backlog(st), id)
  {
    BacklogWithout(st, HardDeleted(st, id), st.recency, id);
  }

  ghost function Dropped(rows: seq<PendingEmbedding>, id: EntryId): seq<PendingEmbedding> {
    if rows == [] then [] else (if rows[0].entryId == id then [] else [rows[0]]) + Dropped(rows[1..], id)
  }

  lemma {:induction false} BacklogWithout(st: Store, after: Store, ids: seq<EntryId>, id: EntryId)
    requires Distinct(ids) && forall x :: x in ids && x in st.rows ==> st.rows[x].entry.entryId == x
    requires !Outstanding(after, id)
    requires forall x :: x in ids && x != id ==>
      (Outstanding(after, x) <==> Outstanding(st, x)) && (Outstanding(st, x) ==> after.rows[x].entry == st.rows[x].entry)
    ensures OutstandingIn(after, WithoutId(ids, id)) == Dropped(OutstandingIn(st, ids), id)
  {
    if ids != [] {
      assert ids == [ids[0]] + ids[1..];
      assert ids[0] in ids;
      BacklogWithout(st, after, ids[1..], id);
      var rest := OutstandingIn(st, ids[1..]);
      var kept := WithoutId(ids[1..], id);
      if Outstanding(st, ids[0]) {
        assert ([st.rows[ids[0]].entry] + rest)[1..] == rest;
      } else {
        assert OutstandingIn(st, ids) == rest;
      }
      if ids[0] == id {
        assert WithoutId(ids, id) == kept;
        assert Dropped(OutstandingIn(st, ids), id) == Dropped(rest, id);
      } else {
        assert ([ids[0]] + kept)[1..] == kept;
      }
    }
  }

  /** Recognized text lands only on a live, readable image that still has the bytes it was read from; it
    * may raise the image, and touches nothing else.
    */
  lemma RecordedTextLands(st: Store, id: EntryId, hash: string, text: string, raises: Option<Sensitivity>, other: EntryId)
    ensures var t := TextRecorded(st, id, hash, text, raises);
      && t == st.(rows := t.rows) && t.rows.Keys == st.rows.Keys
      && (other != id && other in st.rows ==> t.rows[other] == st.rows[other])
      && (id in st.rows ==>
            var was, now := st.rows[id], t.rows[id];
            if !was.deleted && was.entry.contentHash == hash && (was.entry.sensitivity == Public || was.entry.sensitivity == Unknown)
            then now == was.(entry := was.entry.(text := text, sensitivity := now.entry.sensitivity))
                 && now.entry.sensitivity == if raises.Some? && !(raises.value == Unknown || raises.value == Public)
                                             then raises.value
                                             else if raises == Some(Public) then Public else was.entry.sensitivity
            else now == was)
  {
  }

  /** Taking text back empties the text of these entries and touches nothing else. */
  lemma TextIsTakenBack(st: Store, ids: set<EntryId>, id: EntryId)
    requires id in st.rows
    ensures var t := TextCleared(st, ids);
      && t == st.(rows := t.rows) && t.rows.Keys == st.rows.Keys
      && t.rows[id] == if id in ids then st.rows[id].(entry := st.rows[id].entry.(text := "")) else st.rows[id]
  {
  }

  // --- The index identity -----------------------------------------------------------------------

  /** An index rebuilt for one model and policy serves another exactly when the model, its revision and
    * dimension, and the fingerprint are the same.
    */
  lemma RebuiltServes(w: World, st: Store, model: Meta, s: AppSettings, other: Meta, q: AppSettings)
    requires CommittedHash(w, st.settings) == Some(PolicyHash(w, s))
    ensures var tx := RebuildMeta(w, st, LiveMeta(w, model, s));
      && tx.Committed? && tx.store.meta.Some?
      && (Compatible(tx.store.meta.value, LiveMeta(w, other, q)) <==>
            && model.model == other.model && model.revision == other.revision && model.dimension == other.dimension
            && PolicyHash(w, s) == PolicyHash(w, q))
      && (GuardPasses(tx.store, Some(PolicyHash(w, q))) <==> PolicyHash(w, s) == PolicyHash(w, q))
  {
  }

  /** A vector that was stored for the body its entry still holds can be ranked, by a query of its width
    * under the index's own fingerprint, until the entry is hidden, raised or refused.
    */
  lemma StoredVectorRanks(w: World, st: Store, id: EntryId)
    requires Barrier(w, st) && id in st.vectors
    ensures Rankable(st, |st.vectors[id].values|, Some(PolicyHash(w, st.vectors[id].origin.settings)), id) <==>
      && !st.rows[id].deleted
      && st.rows[id].entry.sensitivity != Secret && st.rows[id].entry.sensitivity != Blocked
      && !(id in st.exclusions && st.exclusions[id].contentHash == st.rows[id].entry.contentHash)
    ensures forall dimension, pin ::
      Rankable(st, dimension, pin, id) ==>
        dimension == |st.vectors[id].values| && (pin.Some? ==> pin.value == PolicyHash(w, st.vectors[id].origin.settings))
  {
  }
}
