/** The background worker itself, as methods over its store and its rebuild flag. */
module SemanticIndexer {
  import opened Wrappers
  import opened Ordering
  import opened Policy
  import opened PolicyFacts
  import opened SemanticStore
  import opened SemanticProtocol
  import opened SemanticPairing
  import opened SemanticPass
  import opened SemanticChanges

  datatype IndexState = Disabled | Unsupported | Unavailable | Paused | Indexing | IndexReady

  datatype Fault = ConflictFault | StorageFault | ModelFault

  datatype BatchEnd = Stored | Stale | Transient | Fatal

  /** What the world answers during one batch: the model by the inputs it is asked for. A model error
    * is true when it is transient.
    */
  datatype Call = Call(
    refusalsFail: bool, cancelled: bool, staleBefore: bool, model: seq<EmbeddingInput> -> Result<seq<Reply>, bool>,
    dimension: Result<nat, bool>, staleAfter: bool, upsertFails: bool, at: nat)

  datatype Turn = Turn(cancelled: bool, onPower: bool, settingsChanged: bool, fetchFails: bool, call: Call)

  function RowFor(rows: seq<PendingEmbedding>, id: EntryId): (r: PendingEmbedding)
    requires id in Ids(rows)
    ensures r in rows && r.entryId == id
  {
    if rows[0].entryId == id then rows[0]
    else
      assert Ids(rows) == [rows[0].entryId] + Ids(rows[1..]);
      assert rows == [rows[0]] + rows[1..];
      RowFor(rows[1..], id)
  }

  ghost predicate NamesRows(rows: seq<PendingEmbedding>, batch: seq<Paired>) {
    forall i :: 0 <= i < |batch| ==> batch[i].0 in Ids(rows)
  }

  function ToItems(s: AppSettings, rows: seq<PendingEmbedding>, batch: seq<Paired>, at: nat): (r: seq<(EntryId, Vector)>)
    requires NamesRows(rows, batch)
    ensures |r| == |batch|
  {
    seq(|batch|, i requires 0 <= i < |batch| =>
      (batch[i].0, Vector(batch[i].1, batch[i].2, Origin(s, RowFor(rows, batch[i].0), at))))
  }

  lemma {:induction false} KeepDistinct(keep: PendingEmbedding -> bool, rows: seq<PendingEmbedding>)
    requires Distinct(Ids(rows))
    ensures Distinct(Ids(Keep(keep, rows)))
    ensures forall row :: row in Keep(keep, rows) <==> row in rows && keep(row)
  {
    if rows != [] {
      assert Ids(rows) == [rows[0].entryId] + Ids(rows[1..]);
      assert rows == [rows[0]] + rows[1..];
      forall i, j | 0 <= i < j < |Ids(rows[1..])| ensures Ids(rows[1..])[i] != Ids(rows[1..])[j] {
        assert Ids(rows)[i + 1] != Ids(rows)[j + 1];
      }
      KeepDistinct(keep, rows[1..]);
      var rest := Keep(keep, rows[1..]);
      forall i | 0 <= i < |rest| ensures rest[i].entryId != rows[0].entryId {
        assert rest[i] in rows[1..];
        var j :| 0 <= j < |rows[1..]| && rows[1..][j] == rest[i];
        assert Ids(rows)[0] != Ids(rows)[j + 1];
      }
      if keep(rows[0]) {
        assert Ids(Keep(keep, rows)) == [rows[0].entryId] + Ids(rest);
      } else {
        assert Keep(keep, rows) == rest;
      }
    }
  }

  lemma SameId(rows: seq<PendingEmbedding>, a: PendingEmbedding, b: PendingEmbedding)
    requires Distinct(Ids(rows)) && a in rows && b in rows && a.entryId == b.entryId
    ensures a == b
  {
    var i :| 0 <= i < |rows| && rows[i] == a;
    var j :| 0 <= j < |rows| && rows[j] == b;
    assert Ids(rows)[i] == Ids(rows)[j];
  }

  lemma InIds(rows: seq<PendingEmbedding>, row: PendingEmbedding)
    requires row in rows
    ensures row.entryId in Ids(rows)
  {
    var i :| 0 <= i < |rows| && rows[i] == row;
    assert Ids(rows)[i] == row.entryId;
  }

  /** A fetched batch: rows of the store, each still outstanding, none twice. */
  ghost predicate FetchedFrom(st: Store, rows: seq<PendingEmbedding>) {
    && Distinct(Ids(rows))
    && forall row :: row in rows ==> Outstanding(st, row.entryId) && st.rows[row.entryId].entry == row
  }

  lemma PendingIsFetched(st: Store, limit: nat)
    requires Keyed(st)
    ensures FetchedFrom(st, Pending(st, limit))
  {
    OutstandingDistinct(st, st.recency);
    var all, rows := Backlog(st), Pending(st, limit);
    forall i, j | 0 <= i < j < |rows| ensures Ids(rows)[i] != Ids(rows)[j] {
      assert Ids(all)[i] != Ids(all)[j];
    }
  }

  // --- What one batch does to the store ------------------------------------------------

  ghost function Refusals(w: World, s: AppSettings, rows: seq<PendingEmbedding>, at: nat): seq<(EntryId, Exclusion)> {
    RefusalsFor(s, Keep(Refusing(w.d, s), rows), at)
  }

  /** The row of each id is refused, embedded from the reply under its own id, or untouched. */
  ghost predicate Decided(w: World, s: AppSettings, st: Store, after: Store, rows: seq<PendingEmbedding>,
                          replies: seq<Reply>, at: nat)
  {
    && after == st.(vectors := after.vectors, exclusions := after.exclusions)
    && (forall row :: row in rows && !Accepts(w.d, s, row) ==>
          && row.entryId !in after.vectors
          && row.entryId in after.exclusions
          && after.exclusions[row.entryId] == Exclusion(row.contentHash, Origin(s, row, at)))
    && (forall row :: row in rows && Accepts(w.d, s, row) ==>
          row.entryId in after.vectors && EmbeddedFrom(s, row, replies, at, after.vectors[row.entryId]))
    && (forall id :: id !in Ids(rows) ==> SameAt(st, after, id))
  }

  ghost predicate EmbeddedFrom(s: AppSettings, row: PendingEmbedding, replies: seq<Reply>, at: nat, v: Vector) {
    && v.contentHash == row.contentHash && v.origin == Origin(s, row, at)
    && Reply(Some(row.entryId), v.values) in replies
  }

  /** What a decided batch leaves of one of its rows: the vector the model returned under the row's own id
    * for an admissible one, a tombstone and no vector for any other, each for the body that was fetched.
    */
  lemma DecidedMeans(w: World, s: AppSettings, st: Store, after: Store, rows: seq<PendingEmbedding>, replies: seq<Reply>,
                     at: nat, row: PendingEmbedding, other: EntryId)
    requires Decided(w, s, st, after, rows, replies, at) && row in rows
    ensures after.rows == st.rows && after.meta == st.meta && after.settings == st.settings && after.recency == st.recency
    ensures Admissible(w.d, s, row) ==>
      && row.entryId in after.vectors && after.vectors[row.entryId].contentHash == row.contentHash
      && exists i :: 0 <= i < |replies| && replies[i].id == Some(row.entryId)
                     && replies[i].values == after.vectors[row.entryId].values
    ensures !Admissible(w.d, s, row) ==>
      && row.entryId !in after.vectors
      && row.entryId in after.exclusions && after.exclusions[row.entryId].contentHash == row.contentHash
    ensures other !in Ids(rows) ==> SameAt(st, after, other)
  {
    AcceptedIff(w.d, s, row);
    if Admissible(w.d, s, row) {
      var v := after.vectors[row.entryId];
      var i :| 0 <= i < |replies| && replies[i] == Reply(Some(row.entryId), v.values);
    }
  }

  lemma RefusalsApplied(w: World, s: AppSettings, st: Store, rows: seq<PendingEmbedding>, at: nat)
    requires FetchedFrom(st, rows)
    ensures var after := Excluded(st, Refusals(w, s, rows, at));
      && after == st.(vectors := after.vectors, exclusions := after.exclusions)
      && (forall row :: row in rows && !Accepts(w.d, s, row) ==>
            && row.entryId !in after.vectors
            && row.entryId in after.exclusions
            && after.exclusions[row.entryId] == Exclusion(row.contentHash, Origin(s, row, at)))
      && (forall id :: id !in Ids(Keep(Refusing(w.d, s), rows)) ==> SameAt(st, after, id))
  {
    var refused := Keep(Refusing(w.d, s), rows);
    var items := RefusalsFor(s, refused, at);
    KeepDistinct(Refusing(w.d, s), rows);
    forall i, j | 0 <= i < j < |items| ensures items[i].0 != items[j].0 {
      assert Ids(refused)[i] != Ids(refused)[j];
    }
    ExcludedFrame(st, items);
    forall row | row in rows && !Accepts(w.d, s, row)
      ensures var after := Excluded(st, items);
        && row.entryId !in after.vectors
        && row.entryId in after.exclusions
        && after.exclusions[row.entryId] == Exclusion(row.contentHash, Origin(s, row, at))
    {
      assert Refusing(w.d, s)(row);
      var k :| 0 <= k < |refused| && refused[k] == row;
      ExcludedAt(st, items, k);
    }
    forall id | id !in Ids(refused) ensures SameAt(st, Excluded(st, items), id) {
      forall i | 0 <= i < |items| ensures items[i].0 != id { assert Ids(refused)[i] == items[i].0; }
      ExcludedOther(st, items, id);
    }
  }

  lemma RefusalsCommit(w: World, s: AppSettings, st: Store, rows: seq<PendingEmbedding>, at: nat)
    requires FetchedFrom(st, rows)
    ensures ExcludeGuarded(st, Refusals(w, s, rows, at), Some(PolicyHash(w, s)))
      == if Refusals(w, s, rows, at) != [] && !GuardPasses(st, Some(PolicyHash(w, s))) then Conflict
         else Committed(Excluded(st, Refusals(w, s, rows, at)))
  {
    var refused := Keep(Refusing(w.d, s), rows);
    KeepDistinct(Refusing(w.d, s), rows);
    forall i | 0 <= i < |refused| ensures refused[i].entryId in st.rows {
      assert refused[i] in rows;
    }
  }

  /** Item `i` is the vector of reply `i` for the row that reply names. */
  lemma ItemFromReply(s: AppSettings, accepted: seq<PendingEmbedding>, replies: seq<Reply>, dimension: nat,
                      batch: seq<Paired>, at: nat, i: nat)
    requires Acceptable(accepted, replies, dimension) && PairedAll(accepted, replies, batch) && NamesRows(accepted, batch)
    requires Distinct(Ids(accepted)) && i < |batch|
    ensures var (id, v) := ToItems(s, accepted, batch, at)[i];
      id == batch[i].0 && EmbeddedFrom(s, RowFor(accepted, id), replies, at, v) && v.values != []
  {
    var id := batch[i].0;
    assert PairOf(accepted, replies[i], batch[i]);
    assert ReplyOk(accepted, dimension, replies[i]);
    var j := ReplyHasRow(accepted, replies[i], batch[i]);
    SameId(accepted, accepted[j], RowFor(accepted, id));
    assert replies[i] == Reply(Some(id), batch[i].2);
  }

  lemma ItemsFromBatch(s: AppSettings, accepted: seq<PendingEmbedding>, replies: seq<Reply>, dimension: nat,
                       batch: seq<Paired>, at: nat)
    requires Acceptable(accepted, replies, dimension) && PairedAll(accepted, replies, batch) && NamesRows(accepted, batch)
    ensures Distinct(Ids(accepted)) && ItemIdsDistinct(ToItems(s, accepted, batch, at))
    ensures forall i :: 0 <= i < |batch| ==> ToItems(s, accepted, batch, at)[i].1.values != []
  {
    PairingIsBijection(accepted, replies, dimension, batch);
    forall i | 0 <= i < |batch| ensures ToItems(s, accepted, batch, at)[i].1.values != [] {
      ItemFromReply(s, accepted, replies, dimension, batch, at, i);
    }
  }

  lemma EmbeddingsApplied(s: AppSettings, st: Store, accepted: seq<PendingEmbedding>, replies: seq<Reply>,
                          dimension: nat, batch: seq<Paired>, at: nat, row: PendingEmbedding)
    requires Acceptable(accepted, replies, dimension) && PairedAll(accepted, replies, batch) && NamesRows(accepted, batch)
    requires row in accepted && row.entryId in st.rows && st.rows[row.entryId].entry.contentHash == row.contentHash
    ensures var after := Upserted(st.vectors, st.rows, ToItems(s, accepted, batch, at));
      row.entryId in after && EmbeddedFrom(s, row, replies, at, after[row.entryId])
  {
    var items := ToItems(s, accepted, batch, at);
    ItemsFromBatch(s, accepted, replies, dimension, batch, at);
    PairingIsBijection(accepted, replies, dimension, batch);
    var j :| 0 <= j < |accepted| && accepted[j] == row;
    var i := RowHasReply(accepted, replies, dimension, batch, j);
    ItemFromReply(s, accepted, replies, dimension, batch, at, i);
    SameId(accepted, row, RowFor(accepted, items[i].0));
    assert Lands(st.rows, items[i]);
    UpsertedLanded(st.vectors, st.rows, items, i);
  }

  lemma EmbeddingsOther(s: AppSettings, st: Store, accepted: seq<PendingEmbedding>, batch: seq<Paired>, at: nat, id: EntryId)
    requires NamesRows(accepted, batch) && id !in Ids(accepted)
    ensures var after := Upserted(st.vectors, st.rows, ToItems(s, accepted, batch, at));
      (id in after <==> id in st.vectors) && (id in st.vectors ==> after[id] == st.vectors[id])
  {
    UpsertedOther(st.vectors, st.rows, ToItems(s, accepted, batch, at), id);
  }

  /** Refusals and embeddings together decide the whole batch. */
  lemma BatchDecides(w: World, s: AppSettings, st: Store, rows: seq<PendingEmbedding>, replies: seq<Reply>,
                     dimension: nat, batch: seq<Paired>, at: nat)
    requires FetchedFrom(st, rows)
    requires var accepted := Keep(Accepting(w.d, s), rows);
      Acceptable(accepted, replies, dimension) && PairedAll(accepted, replies, batch) && NamesRows(accepted, batch)
    ensures var mid := Excluded(st, Refusals(w, s, rows, at));
      var items := ToItems(s, Keep(Accepting(w.d, s), rows), batch, at);
      Decided(w, s, st, mid.(vectors := Upserted(mid.vectors, mid.rows, items)), rows, replies, at)
  {
    var accepted, refused := Keep(Accepting(w.d, s), rows), Keep(Refusing(w.d, s), rows);
    var mid := Excluded(st, Refusals(w, s, rows, at));
    var after := mid.(vectors := Upserted(mid.vectors, mid.rows, ToItems(s, accepted, batch, at)));
    RefusalsApplied(w, s, st, rows, at);
    KeepDistinct(Accepting(w.d, s), rows);
    KeepDistinct(Refusing(w.d, s), rows);
    forall row | row in rows && !Accepts(w.d, s, row)
      ensures row.entryId !in after.vectors && row.entryId in after.exclusions
        && after.exclusions[row.entryId] == Exclusion(row.contentHash, Origin(s, row, at))
    {
      NotAccepted(w, s, rows, row);
      EmbeddingsOther(s, mid, accepted, batch, at, row.entryId);
    }
    forall row | row in rows && Accepts(w.d, s, row)
      ensures row.entryId in after.vectors && EmbeddedFrom(s, row, replies, at, after.vectors[row.entryId])
    {
      assert Accepting(w.d, s)(row);
      EmbeddingsApplied(s, mid, accepted, replies, dimension, batch, at, row);
    }
    forall id | id !in Ids(rows) ensures SameAt(st, after, id) {
      KeptIds(Accepting(w.d, s), rows, id);
      KeptIds(Refusing(w.d, s), rows, id);
      EmbeddingsOther(s, mid, accepted, batch, at, id);
    }
  }

  lemma NotAccepted(w: World, s: AppSettings, rows: seq<PendingEmbedding>, row: PendingEmbedding)
    requires Distinct(Ids(rows)) && row in rows && !Accepts(w.d, s, row)
    ensures row.entryId !in Ids(Keep(Accepting(w.d, s), rows))
  {
    var accepted := Keep(Accepting(w.d, s), rows);
    KeepDistinct(Accepting(w.d, s), rows);
    if row.entryId in Ids(accepted) {
      var i :| 0 <= i < |accepted| && Ids(accepted)[i] == row.entryId;
      assert accepted[i] in accepted;
      SameId(rows, row, accepted[i]);
    }
  }

  lemma KeptIds(keep: PendingEmbedding -> bool, rows: seq<PendingEmbedding>, id: EntryId)
    requires Distinct(Ids(rows))
    ensures id in Ids(Keep(keep, rows)) ==> id in Ids(rows)
  {
    KeepDistinct(keep, rows);
    var kept := Keep(keep, rows);
    if id in Ids(kept) {
      var i :| 0 <= i < |kept| && Ids(kept)[i] == id;
      assert kept[i] in kept;
      InIds(rows, kept[i]);
    }
  }

  /** A decided batch is exactly what leaves the backlog. */
  lemma DecidedDrains(w: World, s: AppSettings, st: Store, after: Store, limit: nat, replies: seq<Reply>, at: nat)
    requires Keyed(st) && Decided(w, s, st, after, Pending(st, limit), replies, at)
    ensures Keyed(after) && Backlog(after) == Backlog(st)[|Pending(st, limit)|..]
  {
    var rows := Pending(st, limit);
    PendingIsFetched(st, limit);
    assert Ids(Backlog(st))[..|rows|] == Ids(rows);
    forall id | id in st.recency ensures Outstanding(after, id) <==> Outstanding(st, id) && id !in Ids(rows) {
      if id in Ids(rows) {
        var i :| 0 <= i < |rows| && Ids(rows)[i] == id;
        assert rows[i] in rows;
      } else {
        assert SameAt(st, after, id);
      }
    }
    PrefixDrained(st, after, st.recency, |rows|);
  }

  lemma ItemsShaped(w: World, s: AppSettings, rows: seq<PendingEmbedding>, replies: seq<Reply>, dimension: nat,
                    batch: seq<Paired>, at: nat)
    requires Distinct(Ids(rows))
    requires var accepted := Keep(Accepting(w.d, s), rows);
      Acceptable(accepted, replies, dimension) && PairedAll(accepted, replies, batch) && NamesRows(accepted, batch)
    ensures ShapedUnder(w, s, ToItems(s, Keep(Accepting(w.d, s), rows), batch, at))
  {
    var accepted := Keep(Accepting(w.d, s), rows);
    var items := ToItems(s, accepted, batch, at);
    KeepDistinct(Accepting(w.d, s), rows);
    forall i | 0 <= i < |items|
      ensures items[i].1.origin.settings == s && Accepts(w.d, s, items[i].1.origin.row)
        && items[i].1.origin.row.entryId == items[i].0 && items[i].1.origin.row.contentHash == items[i].1.contentHash
    {
      ItemFromReply(s, accepted, replies, dimension, batch, at, i);
      assert Accepting(w.d, s)(RowFor(accepted, items[i].0));
    }
  }

  lemma RefusalsShaped(w: World, s: AppSettings, rows: seq<PendingEmbedding>, at: nat)
    requires Distinct(Ids(rows))
    ensures RefusedUnder(w, s, Refusals(w, s, rows, at))
  {
    var refused := Keep(Refusing(w.d, s), rows);
    KeepDistinct(Refusing(w.d, s), rows);
    forall i | 0 <= i < |refused| ensures !Accepts(w.d, s, refused[i]) { assert Refusing(w.d, s)(refused[i]); }
  }

  /** The refusals of a batch alone only shorten the backlog. */
  lemma RefusalsShrink(w: World, s: AppSettings, st: Store, rows: seq<PendingEmbedding>, at: nat)
    requires Keyed(st) && FetchedFrom(st, rows)
    ensures |Backlog(Excluded(st, Refusals(w, s, rows, at)))| <= |Backlog(st)|
  {
    var after := Excluded(st, Refusals(w, s, rows, at));
    RefusalsApplied(w, s, st, rows, at);
    KeepDistinct(Refusing(w.d, s), rows);
    forall id | id in st.recency && Outstanding(after, id) ensures Outstanding(st, id) {
      var refused := Keep(Refusing(w.d, s), rows);
      if id in Ids(refused) {
        var i :| 0 <= i < |refused| && Ids(refused)[i] == id;
        assert refused[i] in refused;
      } else {
        assert SameAt(st, after, id);
      }
    }
    OutstandingShrinks(st, after, st.recency);
  }

  function ToRefusals(s: AppSettings, rows: seq<PendingEmbedding>, refused: seq<(EntryId, string)>, at: nat)
    : (r: seq<(EntryId, Exclusion)>)
    requires forall i :: 0 <= i < |refused| ==> refused[i].0 in Ids(rows)
    ensures |r| == |refused|
  {
    seq(|refused|, i requires 0 <= i < |refused| =>
      (refused[i].0, Exclusion(refused[i].1, Origin(s, RowFor(rows, refused[i].0), at))))
  }

  lemma RefusedIds(w: World, s: AppSettings, rows: seq<PendingEmbedding>, refused: seq<(EntryId, string)>)
    requires Distinct(Ids(rows)) && TombstonesOf(Keep(Refusing(w.d, s), rows), refused)
    ensures forall i :: 0 <= i < |refused| ==> refused[i].0 in Ids(rows)
  {
    var kept := Keep(Refusing(w.d, s), rows);
    KeepDistinct(Refusing(w.d, s), rows);
    forall i | 0 <= i < |refused| ensures refused[i].0 in Ids(rows) {
      assert kept[i] in kept;
      InIds(rows, kept[i]);
    }
  }

  lemma RefusalsFromPartition(w: World, s: AppSettings, rows: seq<PendingEmbedding>, refused: seq<(EntryId, string)>, at: nat)
    requires Distinct(Ids(rows)) && TombstonesOf(Keep(Refusing(w.d, s), rows), refused)
    requires forall i :: 0 <= i < |refused| ==> refused[i].0 in Ids(rows)
    ensures ToRefusals(s, rows, refused, at) == Refusals(w, s, rows, at)
  {
    var kept := Keep(Refusing(w.d, s), rows);
    KeepDistinct(Refusing(w.d, s), rows);
    forall i | 0 <= i < |refused| ensures RowFor(rows, refused[i].0) == kept[i] {
      assert kept[i] in kept;
      SameId(rows, kept[i], RowFor(rows, refused[i].0));
    }
  }

  predicate Identified(w: World, st: Store, model: Meta, s: AppSettings) {
    st.meta.Some? && Compatible(st.meta.value, LiveMeta(w, model, s))
  }

  /** The index would have to be rebuilt for `s`, and `s` is not the policy that is committed. */
  predicate RebuildRefused(w: World, st: Store, rebuild: bool, s: AppSettings, model: Option<Meta>, probeFails: bool,
                           rebuildFails: bool)
  {
    && model.Some? && !probeFails && !rebuildFails
    && (rebuild || !Identified(w, st, model.value, s))
    && CommittedHash(w, st.settings) != Some(PolicyHash(w, s))
  }

  /** Nothing is left to do for `s`: what the state Ready says. */
  predicate UpToDate(w: World, st: Store, rebuild: bool, s: AppSettings, model: Option<Meta>) {
    Backlog(st) == [] && model.Some? && Identified(w, st, model.value, s) && !rebuild
  }

  /** Up to date means: no entry waits, the index is this model's, this build's and this policy's, and no
    * rebuild is asked for.
    */
  lemma UpToDateMeans(w: World, st: Store, rebuild: bool, s: AppSettings, model: Meta, id: EntryId)
    requires Keyed(st)
    ensures var mine := st.meta.Some? && st.meta.value.model == model.model && st.meta.value.revision == model.revision
              && st.meta.value.dimension == model.dimension && st.meta.value.indexVersion == 2
              && st.meta.value.policyHash == PolicyHash(w, s);
      && (UpToDate(w, st, rebuild, s, Some(model)) ==> mine && !rebuild && !Waits(st, id))
      && (mine && !rebuild && Backlog(st) == [] ==> UpToDate(w, st, rebuild, s, Some(model)))
      && (RebuildRefused(w, st, rebuild, s, Some(model), false, false) <==>
            (rebuild || !mine) && CommittedHash(w, st.settings) != Some(PolicyHash(w, s)))
    ensures !UpToDate(w, st, rebuild, s, None) && !RebuildRefused(w, st, rebuild, s, None, false, false)
  {
    BacklogIsWhatWaits(st, id);
  }

  /** A save under another policy puts a pass that still holds the old settings in that position:
    * the index is erased, every embeddable row waits again, and the rebuild for `s` is refused.
    */
  lemma SaveStrandsStalePass(w: World, st: Store, s: AppSettings, saved: AppSettings, model: Meta, id: EntryId)
    requires Keyed(st) && CommittedHash(w, st.settings) == Some(PolicyHash(w, s)) && PolicyHash(w, saved) != PolicyHash(w, s)
    requires id in st.rows && Embeddable(st.rows[id])
    ensures RebuildRefused(w, Saved(w, st, saved), false, s, Some(model), false, false)
    ensures id in Ids(Backlog(Saved(w, st, saved)))
    ensures !UpToDate(w, Saved(w, st, saved), false, s, Some(model))
  {
    var after := Saved(w, st, saved);
    assert id in Elements(st.recency);
    OutstandingMembers(after, after.recency, id);
  }

  /** The model was reached with no settings change on either side, and its answer is taken. */
  ghost predicate ModelAnswers(accepted: seq<PendingEmbedding>, replies: Result<seq<Reply>, bool>, call: Call) {
    && !call.cancelled && !call.staleBefore && !call.staleAfter
    && replies.Ok? && call.dimension.Ok?
    && Acceptable(accepted, replies.value, call.dimension.value)
  }

  /** The model asks for another try later: nothing is wrong with the batch. */
  ghost predicate BacksOff(accepted: seq<PendingEmbedding>, replies: Result<seq<Reply>, bool>, dimension: Result<nat, bool>) {
    replies == Err(true) || (replies.Ok? && |replies.value| == |accepted| && dimension == Err(true))
  }

  /** What the model answers to the inputs of a fetched batch. */
  ghost function Answer(w: World, s: AppSettings, rows: seq<PendingEmbedding>, call: Call): Result<seq<Reply>, bool> {
    call.model(InputsFor(w.d, s, Keep(Accepting(w.d, s), rows)))
  }

  /** The model was asked for these rows and no others, each private one as its redaction only. */
  ghost predicate AskedFor(w: World, s: AppSettings, rows: seq<PendingEmbedding>, asked: seq<EmbeddingInput>) {
    && asked == InputsFor(w.d, s, Keep(Accepting(w.d, s), rows))
    && HandedOver(w.d, s, Keep(Accepting(w.d, s), rows), asked)
  }

  /** When a batch is stored at all. */
  ghost predicate BatchGoes(w: World, s: AppSettings, st: Store, rows: seq<PendingEmbedding>, call: Call) {
    && (Keep(Refusing(w.d, s), rows) != [] ==> !call.refusalsFail && GuardPasses(st, Some(PolicyHash(w, s))))
    && (Keep(Accepting(w.d, s), rows) != [] ==>
          && ModelAnswers(Keep(Accepting(w.d, s), rows), Answer(w, s, rows, call), call)
          && !call.upsertFails && GuardPasses(st, Some(PolicyHash(w, s))))
  }

  /** A call in which nothing goes wrong: whatever rows it is asked for, the model answers acceptably. */
  ghost predicate CalmCall(w: World, s: AppSettings, call: Call) {
    && !call.refusalsFail && !call.cancelled && !call.staleBefore && !call.staleAfter && !call.upsertFails
    && call.dimension.Ok?
    && forall rows :: Distinct(Ids(rows)) ==>
         call.model(InputsFor(w.d, s, rows)).Ok? && Acceptable(rows, call.model(InputsFor(w.d, s, rows)).value, call.dimension.value)
  }

  ghost predicate Calm(w: World, s: AppSettings, turns: seq<Turn>) {
    forall i :: 0 <= i < |turns| ==>
      && !turns[i].cancelled && turns[i].onPower && !turns[i].settingsChanged && !turns[i].fetchFails
      && CalmCall(w, s, turns[i].call)
  }

  lemma CalmBatchGoes(w: World, s: AppSettings, st: Store, rows: seq<PendingEmbedding>, call: Call)
    requires CalmCall(w, s, call) && Distinct(Ids(rows)) && GuardPasses(st, Some(PolicyHash(w, s)))
    ensures BatchGoes(w, s, st, rows, call)
  {
    KeepDistinct(Accepting(w.d, s), rows);
  }

  /** What stops a batch, and that nothing else does. */
  lemma WhatStopsABatch(w: World, s: AppSettings, st: Store, rows: seq<PendingEmbedding>, call: Call)
    ensures var refused, accepted, answer := Keep(Refusing(w.d, s), rows), Keep(Accepting(w.d, s), rows), Answer(w, s, rows, call);
      var moved := st.meta == None || st.meta.value.policyHash != PolicyHash(w, s);
      var badAnswer := answer.Err? || call.dimension.Err? || !Acceptable(accepted, answer.value, call.dimension.value);
      !BatchGoes(w, s, st, rows, call) <==>
        || (refused != [] && (call.refusalsFail || moved))
        || (accepted != [] && (call.cancelled || call.staleBefore || badAnswer || call.staleAfter || call.upsertFails || moved))
    ensures var accepted, answer := Keep(Accepting(w.d, s), rows), Answer(w, s, rows, call);
      BacksOff(accepted, answer, call.dimension) <==>
        (answer.Err? && answer.error)
        || (answer.Ok? && |answer.value| == |accepted| && call.dimension.Err? && call.dimension.error)
  {
  }

  /** Looking a paired id up in the whole batch finds the same row as among the accepted. */
  lemma SameItems(w: World, s: AppSettings, rows: seq<PendingEmbedding>, batch: seq<Paired>, at: nat)
    requires Distinct(Ids(rows)) && NamesRows(Keep(Accepting(w.d, s), rows), batch)
    ensures NamesRows(rows, batch)
    ensures ToItems(s, rows, batch, at) == ToItems(s, Keep(Accepting(w.d, s), rows), batch, at)
  {
    var accepted := Keep(Accepting(w.d, s), rows);
    KeepDistinct(Accepting(w.d, s), rows);
    forall i | 0 <= i < |batch|
      ensures batch[i].0 in Ids(rows) && RowFor(rows, batch[i].0) == RowFor(accepted, batch[i].0)
    {
      KeptIds(Accepting(w.d, s), rows, batch[i].0);
      SameId(rows, RowFor(rows, batch[i].0), RowFor(accepted, batch[i].0));
    }
  }

  function CeilDiv(n: nat, d: nat): nat
    requires d > 0
  {
    (n + d - 1) / d
  }

  // --- The worker -------------------------------------------------------------------------

  method Shape(w: World, c: Classifier, rows: seq<PendingEmbedding>, at: nat)
    returns (accepted: seq<PendingEmbedding>, inputs: seq<EmbeddingInput>, refusals: seq<(EntryId, Exclusion)>)
    requires Distinct(Ids(rows))
    ensures accepted == Keep(Accepting(w.d, c.settings), rows)
    ensures AskedFor(w, c.settings, rows, inputs)
    ensures refusals == Refusals(w, c.settings, rows, at)
  {
    var refused;
    accepted, inputs, refused := PartitionByCurrentPolicy(w.d, c, rows);
    RefusedIds(w, c.settings, rows, refused);
    refusals := ToRefusals(c.settings, rows, refused, at);
    RefusalsFromPartition(w, c.settings, rows, refused, at);
  }

  class SemanticWorker {
    const w: World
    var store: Store
    var rebuildRequested: bool
    var state: IndexState

    ghost predicate Valid()
      reads this
    {
      Barrier(w, store)
    }

    constructor (w: World, store: Store)
      requires Barrier(w, store)
      ensures Valid() && this.w == w && this.store == store && !rebuildRequested && state == Disabled
    {
      this.w, this.store, rebuildRequested, state := w, store, false, Disabled;
    }

    method RebuildSemanticIndex()
      modifies this`rebuildRequested
      ensures rebuildRequested
    {
      rebuildRequested := true;
    }

    /** Erases an index of another version or policy; leaves a matching one alone. */
    method PurgeIncompatibleIndex(probeFails: bool, current: Option<AppSettings>, clearFails: bool) returns (clean: bool)
      requires Valid()
      modifies this`store
      ensures Valid()
      ensures store == old(store) || (store == Erased(old(store)) && clean)
      ensures clean && store.meta.Some? ==>
        current.Some? && store.meta.value.indexVersion == 2 && store.meta.value.policyHash == PolicyHash(w, current.value)
      ensures old(store).meta.Some? && current.Some? ==>
        var (version, hash) := (old(store).meta.value.indexVersion, old(store).meta.value.policyHash);
        && (version == 2 && hash == PolicyHash(w, current.value) ==> store == old(store))
        && (!probeFails && !clearFails && (version != 2 || hash != PolicyHash(w, current.value)) ==>
              store.meta == None && store.vectors == map[] && store.exclusions == map[])
      ensures !probeFails && !clearFails && current.Some? ==> clean
    {
      if probeFails { return false; }
      if store.meta.None? { return true; }
      var meta := store.meta.value;
      if meta.indexVersion == INDEX_VERSION {
        if current.None? { return false; }
        if meta.policyHash == PolicyHash(w, current.value) { return true; }
      }
      if clearFails { return false; }
      store := Erased(store);
      clean := true;
    }

    /** Afterwards the index identity is the live one, and a requested rebuild has erased
      * every stored vector and refusal; a failure changes neither the store nor the flag.
      */
    method ReconcileSemanticMetadata(s: AppSettings, model: Option<Meta>, probeFails: bool, rebuildFails: bool)
      returns (r: Result<(), Fault>)
      requires Valid()
      modifies this`store, this`rebuildRequested
      ensures Valid()
      ensures r.Ok? ==> model.Some? && Identified(w, store, model.value, s)
      ensures r.Ok? ==> !rebuildRequested && (old(rebuildRequested) ==> store.vectors == map[] && store.exclusions == map[])
      ensures r.Ok? ==> store == old(store) || store == Erased(old(store)).(meta := Some(LiveMeta(w, model.value, s)))
      ensures r.Err? ==> store == old(store) && rebuildRequested == old(rebuildRequested)
      ensures r == Err(ConflictFault) <==>
        RebuildRefused(w, old(store), old(rebuildRequested), s, model, probeFails, rebuildFails)
      ensures r.Ok? <==>
        && model.Some? && !probeFails
        && (old(rebuildRequested) || !Identified(w, old(store), model.value, s) ==>
              !rebuildFails && CommittedHash(w, old(store).settings) == Some(PolicyHash(w, s)))
      ensures !old(rebuildRequested) && model.Some? && !probeFails && Identified(w, old(store), model.value, s) ==>
        r.Ok? && store == old(store)
    {
      if model.None? { return Err(ModelFault); }
      var live := LiveMeta(w, model.value, s);
      var rebuild := rebuildRequested;
      if probeFails { return Err(StorageFault); }
      var incompatible := store.meta.None? || !Compatible(store.meta.value, live);
      if rebuild || incompatible {
        if rebuildFails { return Err(StorageFault); }
        var tx := RebuildMeta(w, store, live);
        RebuildKeeps(w, store, live);
        if !tx.Committed? { return Err(ConflictFault); }
        store := tx.store;
      }
      if rebuild { rebuildRequested := false; }
      r := Ok(());
    }

    method RecordPolicyRefusals(s: AppSettings, refused: seq<(EntryId, Exclusion)>, fails: bool) returns (r: Result<(), Fault>)
      requires Valid() && RefusedUnder(w, s, refused)
      modifies this`store
      ensures Valid()
      ensures r.Err? ==> store == old(store)
      ensures r.Ok? ==> ExcludeGuarded(old(store), refused, Some(PolicyHash(w, s))) == Committed(store)
      ensures r.Ok? <==> refused == [] || (!fails && ExcludeGuarded(old(store), refused, Some(PolicyHash(w, s))).Committed?)
      ensures r == Err(ConflictFault) ==> !GuardPasses(store, Some(PolicyHash(w, s)))
    {
      if refused == [] { return Ok(()); }
      if fails { return Err(StorageFault); }
      var tx := ExcludeGuarded(store, refused, Some(PolicyHash(w, s)));
      GuardedExcludeKeeps(w, store, s, refused);
      match tx {
        case Committed(next) => store := next; r := Ok(());
        case Conflict => r := Err(ConflictFault);
        case Failed => r := Err(StorageFault);
      }
    }

    /** Asks the model for the inputs and pairs what it returns with their rows. */
    method Embed(accepted: seq<PendingEmbedding>, inputs: seq<EmbeddingInput>, call: Call)
      returns (end: BatchEnd, asked: Option<seq<EmbeddingInput>>, batch: seq<Paired>)
      ensures asked == if call.cancelled || call.staleBefore then None else Some(inputs)
      ensures end.Stored? <==> ModelAnswers(accepted, call.model(inputs), call)
      ensures end.Transient? <==> asked.Some? && BacksOff(accepted, call.model(inputs), call.dimension)
      ensures end.Stale? ==> call.staleBefore || call.staleAfter
      ensures end.Stored? ==> PairedAll(accepted, call.model(inputs).value, batch)
    {
      asked, batch := None, [];
      if call.cancelled { return Fatal, asked, batch; }
      if call.staleBefore { return Stale, asked, batch; }
      asked := Some(inputs);
      var replies := call.model(inputs);
      if replies.Err? { return if replies.error then Transient else Fatal, asked, batch; }
      if |replies.value| != |accepted| { return Fatal, asked, batch; }
      if call.dimension.Err? { return if call.dimension.error then Transient else Fatal, asked, batch; }
      var paired := PairVectors(accepted, replies.value, call.dimension.value);
      if paired.Err? { return Fatal, asked, batch; }
      batch := paired.value;
      end := if call.staleAfter then Stale else Stored;
    }

    /** Writes a paired batch through the guarded upsert. */
    method StoreVectors(s: AppSettings, rows: seq<PendingEmbedding>, batch: seq<Paired>, call: Call) returns (end: BatchEnd)
      requires Valid() && Distinct(Ids(rows))
      requires var accepted := Keep(Accepting(w.d, s), rows);
        && accepted != [] && ModelAnswers(accepted, Answer(w, s, rows, call), call)
        && PairedAll(accepted, Answer(w, s, rows, call).value, batch)
        && NamesRows(accepted, batch)
      modifies this`store
      ensures Valid()
      ensures end.Stored? <==> !call.upsertFails && GuardPasses(old(store), Some(PolicyHash(w, s)))
      ensures !end.Stored? ==> store == old(store) && !end.Transient?
      ensures end.Stale? ==> !GuardPasses(old(store), Some(PolicyHash(w, s)))
      ensures end.Stored? ==> store == old(store).(vectors :=
        Upserted(old(store).vectors, old(store).rows, ToItems(s, Keep(Accepting(w.d, s), rows), batch, call.at)))
    {
      ghost var accepted := Keep(Accepting(w.d, s), rows);
      KeepDistinct(Accepting(w.d, s), rows);
      SameItems(w, s, rows, batch, call.at);
      var items := ToItems(s, rows, batch, call.at);
      ghost var replies := Answer(w, s, rows, call).value;
      ItemsFromBatch(s, accepted, replies, call.dimension.value, batch, call.at);
      ItemsShaped(w, s, rows, replies, call.dimension.value, batch, call.at);
      GuardedUpsertKeeps(w, store, s, items);
      if call.upsertFails { return Fatal; }
      match UpsertGuarded(store, items, Some(PolicyHash(w, s))) {
        case Committed(next) => store := next; end := Stored;
        case Conflict => end := Stale;
        case Failed => end := Fatal;
      }
    }

    /** The first half of a batch: partition it, and record what the policy refuses. */
    method RefuseForbidden(c: Classifier, rows: seq<PendingEmbedding>, call: Call)
      returns (r: Result<(), Fault>, accepted: seq<PendingEmbedding>, inputs: seq<EmbeddingInput>)
      requires Valid() && FetchedFrom(store, rows)
      modifies this`store
      ensures Valid()
      ensures accepted == Keep(Accepting(w.d, c.settings), rows) && AskedFor(w, c.settings, rows, inputs)
      ensures r.Ok? <==> (Keep(Refusing(w.d, c.settings), rows) != [] ==>
        !call.refusalsFail && GuardPasses(old(store), Some(PolicyHash(w, c.settings))))
      ensures r == Err(ConflictFault) ==> !GuardPasses(old(store), Some(PolicyHash(w, c.settings)))
      ensures store == if r.Ok? then Excluded(old(store), Refusals(w, c.settings, rows, call.at)) else old(store)
    {
      var refusals;
      accepted, inputs, refusals := Shape(w, c, rows, call.at);
      RefusalsShaped(w, c.settings, rows, call.at);
      RefusalsCommit(w, c.settings, store, rows, call.at);
      r := RecordPolicyRefusals(c.settings, refusals, call.refusalsFail);
    }

    /** One batch: refusals first, then the embeddings of everything accepted, or nothing of them. The
      * model is asked once the refusals are recorded, and only for what it may see.
      */
    method EmbedAndStore(c: Classifier, rows: seq<PendingEmbedding>, call: Call)
      returns (end: BatchEnd, asked: Option<seq<EmbeddingInput>>)
      requires Valid() && FetchedFrom(store, rows)
      modifies this`store
      ensures Valid()
      ensures asked.Some? ==> asked.value != [] && AskedFor(w, c.settings, rows, asked.value)
      ensures asked.Some? <==>
        && Keep(Accepting(w.d, c.settings), rows) != [] && !call.cancelled && !call.staleBefore
        && (Keep(Refusing(w.d, c.settings), rows) != [] ==>
              !call.refusalsFail && GuardPasses(old(store), Some(PolicyHash(w, c.settings))))
      ensures end.Transient? <==>
        asked.Some? && BacksOff(Keep(Accepting(w.d, c.settings), rows), call.model(asked.value), call.dimension)
      ensures end.Stale? ==>
        call.staleBefore || call.staleAfter || !GuardPasses(old(store), Some(PolicyHash(w, c.settings)))
      ensures end.Stored? <==> BatchGoes(w, c.settings, old(store), rows, call)
      ensures end.Stored? ==> exists replies: seq<Reply> :: Decided(w, c.settings, old(store), store, rows, replies, call.at)
      ensures end.Stored? && Keep(Accepting(w.d, c.settings), rows) != [] ==>
        asked.Some? && call.model(asked.value).Ok?
        && Decided(w, c.settings, old(store), store, rows, call.model(asked.value).value, call.at)
      ensures !end.Stored? ==> store == old(store) || store == Excluded(old(store), Refusals(w, c.settings, rows, call.at))
    {
      ghost var was, s := store, c.settings;
      asked := None;
      var recorded, accepted, inputs := RefuseForbidden(c, rows, call);
      if recorded.Err? { return if recorded.error.ConflictFault? then Stale else Fatal, asked; }
      ExcludedFrame(was, Refusals(w, s, rows, call.at));
      if accepted == [] {
        BatchDecides(w, s, was, rows, [], 1, [], call.at);
        return Stored, asked;
      }
      var batch: seq<Paired>;
      end, asked, batch := Embed(accepted, inputs, call);
      if end.Stored? {
        BatchDecides(w, s, was, rows, Answer(w, s, rows, call).value, call.dimension.value, batch, call.at);
        end := StoreVectors(c.settings, rows, batch, call);
      }
    }

    /** One fetched batch; stored or not, the backlog never grows. */
    method TakeTurn(c: Classifier, call: Call) returns (end: BatchEnd)
      requires Valid()
      modifies this`store
      ensures Valid()
      ensures store == old(store).(vectors := store.vectors, exclusions := store.exclusions)
      ensures |Backlog(store)| <= |Backlog(old(store))|
      ensures end.Stored? <==> BatchGoes(w, c.settings, old(store), Pending(old(store), EMBED_BATCH), call)
      ensures end.Stored? ==> exists replies: seq<Reply> ::
        Decided(w, c.settings, old(store), store, Pending(old(store), EMBED_BATCH), replies, call.at)
      ensures !end.Stored? ==>
        store == old(store) || store == Excluded(old(store), Refusals(w, c.settings, Pending(old(store), EMBED_BATCH), call.at))
      ensures end.Stored? ==> Backlog(store) == Backlog(old(store))[|Pending(old(store), EMBED_BATCH)|..]
    {
      var pending := Pending(store, EMBED_BATCH);
      PendingIsFetched(store, EMBED_BATCH);
      ghost var was := store;
      RefusalsShrink(w, c.settings, was, pending, call.at);
      ExcludedFrame(was, Refusals(w, c.settings, pending, call.at));
      var asked;
      end, asked := EmbedAndStore(c, pending, call);
      if end.Stored? {
        ghost var replies :| Decided(w, c.settings, was, store, pending, replies, call.at);
        DecidedDrains(w, c.settings, was, store, EMBED_BATCH, replies, call.at);
      }
    }

    /** Drains the backlog turn by turn; running out of turns is a shutdown. If nothing goes wrong, as many
      * turns as the backlog has batches, and one more, leave it empty.
      */
    method DrainBacklog(c: Classifier, acPowerOnly: bool, turns: seq<Turn>) returns (successes: nat)
      requires Valid()
      modifies this`store, this`state
      ensures Valid()
      ensures store == old(store).(vectors := store.vectors, exclusions := store.exclusions)
      ensures successes <= CeilDiv(|Backlog(old(store))|, EMBED_BATCH)
      ensures |Backlog(store)| <= Left(|Backlog(old(store))|, successes)
      ensures state.IndexReady? ==> Backlog(store) == []
      ensures Calm(w, c.settings, turns) && GuardPasses(old(store), Some(PolicyHash(w, c.settings))) ==>
        |turns| > CeilDiv(|Backlog(old(store))|, EMBED_BATCH) ==> state.IndexReady?
    {
      successes := 0;
      state := Indexing;
      ghost var n := |Backlog(store)|;
      ghost var calm := Calm(w, c.settings, turns) && GuardPasses(store, Some(PolicyHash(w, c.settings)));
      for i := 0 to |turns|
        invariant Valid() && !state.IndexReady?
        invariant store == old(store).(vectors := store.vectors, exclusions := store.exclusions)
        invariant successes <= CeilDiv(n, EMBED_BATCH)
        invariant |Backlog(store)| <= Left(n, successes)
        invariant calm ==> successes == i
      {
        var turn := turns[i];
        if turn.cancelled || (acPowerOnly && !turn.onPower) { state := Paused; return; }
        if turn.settingsChanged { return; }
        if turn.fetchFails { state := Unavailable; return; }
        var pending := Pending(store, EMBED_BATCH);
        if pending == [] { state := IndexReady; return; }
        ghost var left := |Backlog(store)|;
        if calm {
          PendingIsFetched(store, EMBED_BATCH);
          CalmBatchGoes(w, c.settings, store, pending, turn.call);
        }
        var end := TakeTurn(c, turn.call);
        match end {
          case Stored =>
            TurnCounts(n, successes, left);
            successes := successes + 1;
          case Transient =>
          case Stale => return;
          case Fatal => state := if turn.call.cancelled then Paused else Unavailable; return;
        }
      }
      state := Paused;
    }

    /** Whether a pass under `s` gets as far as its rebuild and has it refused. */
    predicate Stalls(s: AppSettings, acPowerOnly: bool, available: bool, onPower: bool, model: Option<Meta>,
                     probeFails: bool, rebuildFails: bool)
      reads this
    {
      && available && (acPowerOnly ==> onPower) && TryNew(w.d, s).Ok?
      && RebuildRefused(w, store, rebuildRequested, s, model, probeFails, rebuildFails)
    }

    /** Nothing keeps a pass under `s` from its rebuild and its batches. */
    predicate GoesWell(s: AppSettings, acPowerOnly: bool, available: bool, onPower: bool, model: Option<Meta>,
                       probeFails: bool, rebuildFails: bool)
      reads this
    {
      && available && (acPowerOnly ==> onPower) && TryNew(w.d, s).Ok? && model.Some? && !probeFails && !rebuildFails
      && CommittedHash(w, store.settings) == Some(PolicyHash(w, s))
    }

    /** One pass over a fixed corpus, from any state. Ready means up to date, except that a pass whose
      * rebuild is refused leaves everything as it was, a Ready of an earlier pass included.
      */
    method SemanticIndexPass(s: AppSettings, acPowerOnly: bool, available: bool, onPower: bool, model: Option<Meta>,
                             probeFails: bool, rebuildFails: bool, turns: seq<Turn>) returns (successes: nat)
      requires Valid()
      modifies this
      ensures Valid() && store.rows == old(store).rows && store.settings == old(store).settings
      ensures successes <= CeilDiv(|store.recency|, EMBED_BATCH)
      ensures state.IndexReady? && !UpToDate(w, store, rebuildRequested, s, model) <==>
        old(state).IndexReady? && old(Stalls(s, acPowerOnly, available, onPower, model, probeFails, rebuildFails))
      ensures old(Stalls(s, acPowerOnly, available, onPower, model, probeFails, rebuildFails)) ==>
        successes == 0 && store == old(store) && rebuildRequested == old(rebuildRequested) && state == old(state)
      ensures successes > 0 ==> model.Some? && Identified(w, store, model.value, s)
      ensures TryNew(w.d, s).Err? ==> successes == 0 && store == old(store)
      ensures !available ==> state.Unavailable? && store == old(store)
      ensures available && acPowerOnly && !onPower ==> state.Paused? && store == old(store)
      ensures GoesWell(s, acPowerOnly, available, onPower, model, probeFails, rebuildFails) && Calm(w, s, turns) ==>
        |turns| > CeilDiv(|store.recency|, EMBED_BATCH) ==> state.IndexReady?
    {
      successes := 0;
      if !available { state := Unavailable; return; }
      if acPowerOnly && !onPower { state := Paused; return; }
      var c := TryNew(w.d, s);
      if c.Err? { state := Unavailable; return; }
      var r := ReconcileSemanticMetadata(s, model, probeFails, rebuildFails);
      if r == Err(ConflictFault) { return; }
      if r.Err? { state := Unavailable; return; }
      assert |Backlog(store)| <= |store.recency|;
      successes := DrainBacklog(c.value, acPowerOnly, turns);
    }
  }

  /** The most that may be left of `n` after `k` stored batches. */
  function Left(n: nat, k: nat): nat {
    if n <= EMBED_BATCH * k then 0 else n - EMBED_BATCH * k
  }

  /** A stored batch takes up to 16 of the `left` rows off. */
  lemma TurnCounts(n: nat, k: nat, left: nat)
    requires 0 < left <= Left(n, k)
    ensures k + 1 <= CeilDiv(n, EMBED_BATCH)
    ensures left - (if left <= EMBED_BATCH then left else EMBED_BATCH) <= Left(n, k + 1)
  {
  }

  // --- Queries --------------------------------------------------------------------------

  /** What one query meets on its way: the settings gate, the backend, and the embedded text. */
  datatype Ask = Ask(enabled: bool, available: bool, model: Option<Meta>, embedded: Result<Option<seq<real>>, string>)

  /** Whether a ranking statement pinned to `pin` returns an entry that passes the query's filters. */
  predicate Answerable(st: Store, dimension: nat, pin: Option<string>, filters: EntryId -> bool, id: EntryId) {
    Rankable(st, dimension, pin, id) && filters(id)
  }

  function Answerables(st: Store, dimension: nat, pin: Option<string>, filters: EntryId -> bool, ids: seq<EntryId>): seq<EntryId> {
    if ids == [] then []
    else
      (if Answerable(st, dimension, pin, filters, ids[0]) then [ids[0]] else []) + Answerables(st, dimension, pin, filters, ids[1..])
  }

  lemma {:induction false} AnswerablesStep(st: Store, dimension: nat, pin: Option<string>, filters: EntryId -> bool,
                                           ids: seq<EntryId>, i: nat)
    requires i < |ids|
    ensures Answerables(st, dimension, pin, filters, ids[..i + 1])
         == Answerables(st, dimension, pin, filters, ids[..i]) + if Answerable(st, dimension, pin, filters, ids[i]) then [ids[i]] else []
  {
    if i > 0 {
      AnswerablesStep(st, dimension, pin, filters, ids[1..], i - 1);
      assert ids[..i + 1][1..] == ids[1..][..i] && ids[..i][1..] == ids[1..][..i - 1];
    }
  }

  lemma {:induction false} AnswerablesAre(st: Store, dimension: nat, pin: Option<string>, filters: EntryId -> bool,
                                          ids: seq<EntryId>, dist: EntryId -> real)
    requires forall i, j :: 0 <= i < j < |ids| ==> dist(ids[i]) <= dist(ids[j])
    ensures var r := Answerables(st, dimension, pin, filters, ids);
      && (forall id :: id in r <==> id in ids && Rankable(st, dimension, pin, id) && filters(id))
      && (forall i, j :: 0 <= i < j < |r| ==> dist(r[i]) <= dist(r[j]))
  {
    if ids != [] {
      AnswerablesAre(st, dimension, pin, filters, ids[1..], dist);
      assert ids == [ids[0]] + ids[1..];
      var tail := Answerables(st, dimension, pin, filters, ids[1..]);
      forall j | 0 <= j < |tail| ensures dist(ids[0]) <= dist(tail[j]) {
        assert tail[j] in ids[1..];
        var k :| 0 <= k < |ids[1..]| && ids[1..][k] == tail[j];
        assert ids[k + 1] == tail[j];
      }
    }
  }

  function Nearest(st: Store, dimension: nat, pin: Option<string>, filters: EntryId -> bool, byDistance: seq<EntryId>, limit: nat)
    : (r: seq<EntryId>)
    ensures |r| <= Clamp(limit)
  {
    var all := Answerables(st, dimension, pin, filters, byDistance);
    if |all| <= Clamp(limit) then all else all[..Clamp(limit)]
  }

  /** The answers are the nearest rankable entries that pass the filters, nearest first: none left
    * out is nearer than one returned, and none is left out below the limit.
    */
  lemma NearestComeFirst(st: Store, dimension: nat, pin: Option<string>, filters: EntryId -> bool, byDistance: seq<EntryId>,
                         limit: nat, dist: EntryId -> real)
    requires forall i, j :: 0 <= i < j < |byDistance| ==> dist(byDistance[i]) <= dist(byDistance[j])
    ensures var r := Nearest(st, dimension, pin, filters, byDistance, limit);
      && (forall id :: id in r ==> id in byDistance && Rankable(st, dimension, pin, id) && filters(id))
      && (forall i, j :: 0 <= i < j < |r| ==> dist(r[i]) <= dist(r[j]))
      && (forall id :: id in byDistance && Rankable(st, dimension, pin, id) && filters(id) && id !in r ==>
            |r| == Clamp(limit) && forall i :: 0 <= i < |r| ==> dist(r[i]) <= dist(id))
  {
    AnswerablesAre(st, dimension, pin, filters, byDistance, dist);
    var all, r := Answerables(st, dimension, pin, filters, byDistance), Nearest(st, dimension, pin, filters, byDistance, limit);
    forall id | id in byDistance && Rankable(st, dimension, pin, id) && filters(id) && id !in r
      ensures |r| == Clamp(limit) && forall i :: 0 <= i < |r| ==> dist(r[i]) <= dist(id)
    {
      assert id in all;
      var k :| 0 <= k < |all| && all[k] == id;
      assert k >= |r|;
    }
  }

  /** The index had this identity when the query looked, and the query text has a vector to rank by. */
  predicate Answered(w: World, now: Store, q: AppSettings, ask: Ask)
    requires ask.model.Some? && (Identified(w, now, ask.model.value, q) ==> ask.embedded.Ok?)
  {
    Identified(w, now, ask.model.value, q) && ask.embedded.value.Some? && ask.embedded.value.value != []
  }

  /** Only an index of the asking model, of this build and of the asking policy answers, and only a query
    * text that has a vector.
    */
  lemma AnsweredMeans(w: World, now: Store, q: AppSettings, ask: Ask)
    requires ask.model.Some? && (Identified(w, now, ask.model.value, q) ==> ask.embedded.Ok?)
    ensures var m := ask.model.value;
      Answered(w, now, q, ask) <==>
        && now.meta.Some? && now.meta.value.model == m.model && now.meta.value.revision == m.revision
        && now.meta.value.dimension == m.dimension && now.meta.value.indexVersion == 2
        && now.meta.value.policyHash == PolicyHash(w, q)
        && ask.embedded.Ok? && ask.embedded.value.Some? && |ask.embedded.value.value| > 0
  {
  }

  /** A query under the settings `q`: `now` is the store its first look at the metadata saw, `later`
    * the store its ranking statement ran on, and `byDistance` that store's ids in ranking order.
    */
  method SemanticSearchResults(w: World, q: AppSettings, ask: Ask, now: Store, later: Store, byDistance: seq<EntryId>,
                               filters: EntryId -> bool, limit: nat)
    returns (r: Result<seq<EntryId>, string>)
    ensures r.Ok? <==> ask.enabled && ask.available && ask.model.Some?
                       && (Identified(w, now, ask.model.value, q) ==> ask.embedded.Ok?)
    ensures r.Ok? && Answered(w, now, q, ask) ==>
      r.value == Nearest(later, |ask.embedded.value.value|, Some(PolicyHash(w, q)), filters, byDistance, limit)
    ensures r.Ok? && !Answered(w, now, q, ask) ==> r.value == []
  {
    if !ask.enabled { return Err("semantic search is disabled"); }
    if !ask.available { return Err("the embedding model is unavailable"); }
    if ask.model.None? { return Err("no model metadata"); }
    if !Identified(w, now, ask.model.value, q) { return Ok([]); }
    if ask.embedded.Err? { return Err(ask.embedded.error); }
    if ask.embedded.value.None? || ask.embedded.value.value == [] { return Ok([]); }
    var dimension, pin := |ask.embedded.value.value|, Some(PolicyHash(w, q));
    ghost var all := Answerables(later, dimension, pin, filters, byDistance);
    var ids: seq<EntryId> := [];
    var i := 0;
    while i < |byDistance| && |ids| < Clamp(limit)
      invariant 0 <= i <= |byDistance| && |ids| <= Clamp(limit)
      invariant ids == Answerables(later, dimension, pin, filters, byDistance[..i])
    {
      AnswerablesStep(later, dimension, pin, filters, byDistance, i);
      if Answerable(later, dimension, pin, filters, byDistance[i]) { ids := ids + [byDistance[i]]; }
      i := i + 1;
    }
    AnswerablesPrefix(later, dimension, pin, filters, byDistance, i);
    assert byDistance[..|byDistance|] == byDistance;
    r := Ok(ids);
  }

  lemma {:induction false} AnswerablesPrefix(st: Store, dimension: nat, pin: Option<string>, filters: EntryId -> bool,
                                             ids: seq<EntryId>, i: nat)
    requires i <= |ids|
    ensures Answerables(st, dimension, pin, filters, ids[..i]) <= Answerables(st, dimension, pin, filters, ids)
    decreases |ids| - i
  {
    if i < |ids| {
      AnswerablesStep(st, dimension, pin, filters, ids, i);
      AnswerablesPrefix(st, dimension, pin, filters, ids, i + 1);
    } else {
      assert ids[..i] == ids;
    }
  }
}
