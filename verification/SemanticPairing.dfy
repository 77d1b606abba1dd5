/** Pairing what the embedding backend returned with the rows it was asked for. */
module SemanticPairing {
  import opened Wrappers
  import opened Ordering
  import opened Policy

  /** One returned vector; the id is None when it does not parse. */
  datatype Reply = Reply(id: Option<EntryId>, values: seq<real>)

  type Paired = (EntryId, string, seq<real>)

  function Ids(rows: seq<PendingEmbedding>): (r: seq<EntryId>)
    ensures |r| == |rows|
  {
    seq(|rows|, i requires 0 <= i < |rows| => rows[i].entryId)
  }

  ghost predicate ReplyOk(rows: seq<PendingEmbedding>, dimension: nat, reply: Reply) {
    reply.id.Some? && reply.id.value in Ids(rows) && |reply.values| == dimension
  }

  ghost predicate NoRepeats(replies: seq<Reply>) {
    forall i, j :: 0 <= i < j < |replies| ==> replies[i].id != replies[j].id
  }

  /** When a reply is taken at all. */
  ghost predicate Acceptable(rows: seq<PendingEmbedding>, replies: seq<Reply>, dimension: nat) {
    && |replies| == |rows|
    && dimension > 0
    && (forall i :: 0 <= i < |replies| ==> ReplyOk(rows, dimension, replies[i]))
    && NoRepeats(replies)
  }

  /** `item` pairs the reply's vector with the content hash of the one row that has its id. */
  ghost predicate PairOf(rows: seq<PendingEmbedding>, reply: Reply, item: Paired) {
    && reply.id == Some(item.0) && reply.values == item.2
    && exists j :: 0 <= j < |rows| && rows[j].entryId == item.0 && rows[j].contentHash == item.1
  }

  // --- Counting ---------------------------------------------------------------------

  lemma SubsetOfSameSize<T>(a: set<T>, b: set<T>)
    requires a <= b && |a| >= |b|
    ensures a == b
  {
    assert b == a + (b - a);
    assert |b - a| == 0;
  }

  /** Replies as many as the rows, each naming a row, none repeated: they name every row,
    * and the rows themselves had no id twice.
    */
  lemma Pigeonhole(rows: seq<PendingEmbedding>, ids: seq<EntryId>)
    requires |ids| == |rows| && Distinct(ids)
    requires forall i :: 0 <= i < |ids| ==> ids[i] in Ids(rows)
    ensures Distinct(Ids(rows)) && Elements(ids) == Elements(Ids(rows))
  {
    ElementsBound(ids);
    ElementsBound(Ids(rows));
    SubsetOfSameSize(Elements(ids), Elements(Ids(rows)));
  }

  // --- The loop --------------------------------------------------------------------------

  method IndexById(rows: seq<PendingEmbedding>) returns (byId: map<EntryId, PendingEmbedding>)
    ensures byId.Keys == Elements(Ids(rows))
    ensures forall id :: id in byId ==> exists j :: 0 <= j < |rows| && rows[j] == byId[id] && rows[j].entryId == id
  {
    byId := map[];
    for k := 0 to |rows|
      invariant byId.Keys == set j | 0 <= j < k :: rows[j].entryId
      invariant forall id :: id in byId ==> exists j :: 0 <= j < k && rows[j] == byId[id] && rows[j].entryId == id
    {
      byId := byId[rows[k].entryId := rows[k]];
    }
    forall id ensures id in byId <==> id in Elements(Ids(rows)) {
      if id in byId { var j :| 0 <= j < |rows| && rows[j].entryId == id; assert Ids(rows)[j] == id; }
      if id in Ids(rows) { var j :| 0 <= j < |rows| && Ids(rows)[j] == id; assert rows[j].entryId == id; }
    }
  }

  method PairVectors(rows: seq<PendingEmbedding>, replies: seq<Reply>, dimension: nat)
    returns (r: Result<seq<Paired>, string>)
    ensures r.Ok? <==> Acceptable(rows, replies, dimension)
    ensures r.Ok? ==> PairedAll(rows, replies, r.value)
  {
    if |replies| != |rows| { return Err("wrong number of vectors"); }
    if dimension == 0 { return Err("zero embedding dimension"); }
    var byId := IndexById(rows);
    var seen: set<EntryId> := {};
    var batch: seq<Paired> := [];
    for k := 0 to |replies|
      invariant |batch| == k
      invariant forall i :: 0 <= i < k ==> ReplyOk(rows, dimension, replies[i]) && PairOf(rows, replies[i], batch[i])
      invariant NoRepeats(replies[..k])
      invariant forall id :: id in seen <==> exists i :: 0 <= i < k && replies[i].id == Some(id)
    {
      var reply := replies[k];
      if reply.id.None? {
        assert !ReplyOk(rows, dimension, reply);
        return Err("unparseable id");
      }
      var id := reply.id.value;
      if id !in byId {
        assert id !in Elements(Ids(rows));
        assert !ReplyOk(rows, dimension, reply);
        return Err("id was not requested");
      }
      assert id in Elements(Ids(rows));
      if id in seen {
        assert !NoRepeats(replies);
        return Err("duplicate id");
      }
      if |reply.values| != dimension {
        assert !ReplyOk(rows, dimension, reply);
        return Err("wrong dimension");
      }
      seen := seen + {id};
      batch := batch + [(id, byId[id].contentHash, reply.values)];
      assert PairOf(rows, reply, batch[k]);
    }
    assert replies[..|replies|] == replies;
    r := Ok(batch);
  }

  predicate PairedWith(row: PendingEmbedding, reply: Reply, item: Paired) {
    reply.id == Some(row.entryId) && item == (row.entryId, row.contentHash, reply.values)
  }

  ghost predicate PairedAll(rows: seq<PendingEmbedding>, replies: seq<Reply>, batch: seq<Paired>) {
    |batch| == |replies| && forall i :: 0 <= i < |replies| ==> PairOf(rows, replies[i], batch[i])
  }

  /** Some reply carries this row's vector. */
  ghost predicate Answered(row: PendingEmbedding, replies: seq<Reply>, batch: seq<Paired>)
    requires |batch| == |replies|
  {
    exists i :: 0 <= i < |batch| && PairedWith(row, replies[i], batch[i])
  }

  /** The reply carries some row's vector. */
  ghost predicate Answers(rows: seq<PendingEmbedding>, reply: Reply, item: Paired) {
    exists j :: 0 <= j < |rows| && PairedWith(rows[j], reply, item)
  }

  lemma ReplyHasRow(rows: seq<PendingEmbedding>, reply: Reply, item: Paired) returns (j: nat)
    requires PairOf(rows, reply, item)
    ensures j < |rows| && PairedWith(rows[j], reply, item)
  {
    j :| 0 <= j < |rows| && rows[j].entryId == item.0 && rows[j].contentHash == item.1;
  }

  lemma BatchIds(rows: seq<PendingEmbedding>, replies: seq<Reply>, dimension: nat, batch: seq<Paired>) returns (ids: seq<EntryId>)
    requires Acceptable(rows, replies, dimension) && PairedAll(rows, replies, batch)
    ensures |ids| == |rows| && Distinct(ids) && Distinct(Ids(rows)) && Elements(ids) == Elements(Ids(rows))
    ensures forall i :: 0 <= i < |batch| ==> ids[i] == batch[i].0 && replies[i].id == Some(ids[i])
  {
    ids := seq(|batch|, i requires 0 <= i < |batch| => batch[i].0);
    forall i | 0 <= i < |batch| ensures replies[i].id == Some(ids[i]) && ids[i] in Ids(rows) {
      assert PairOf(rows, replies[i], batch[i]);
      assert ReplyOk(rows, dimension, replies[i]);
    }
    Pigeonhole(rows, ids);
  }

  lemma RowHasReply(rows: seq<PendingEmbedding>, replies: seq<Reply>, dimension: nat, batch: seq<Paired>, j: nat) returns (i: nat)
    requires Acceptable(rows, replies, dimension) && PairedAll(rows, replies, batch) && j < |rows|
    ensures i < |batch| && PairedWith(rows[j], replies[i], batch[i])
  {
    var ids := BatchIds(rows, replies, dimension, batch);
    assert Ids(rows)[j] in Elements(Ids(rows));
    assert Ids(rows)[j] in Elements(ids);
    i :| 0 <= i < |ids| && ids[i] == Ids(rows)[j];
    assert PairOf(rows, replies[i], batch[i]);
    var m := ReplyHasRow(rows, replies[i], batch[i]);
    assert Ids(rows)[m] == Ids(rows)[j];
  }

  /** A taken batch is a bijection with the rows: every row is paired exactly once, and
    * with a vector the backend returned under that row's id, next to that row's own hash.
    */
  lemma PairingIsBijection(rows: seq<PendingEmbedding>, replies: seq<Reply>, dimension: nat, batch: seq<Paired>)
    requires Acceptable(rows, replies, dimension) && PairedAll(rows, replies, batch)
    ensures Distinct(Ids(rows))
    ensures forall i, k :: 0 <= i < k < |batch| ==> batch[i].0 != batch[k].0
    ensures forall j :: 0 <= j < |rows| ==> Answered(rows[j], replies, batch)
    ensures forall i :: 0 <= i < |batch| ==> Answers(rows, replies[i], batch[i])
  {
    var ids := BatchIds(rows, replies, dimension, batch);
    forall j | 0 <= j < |rows| ensures Answered(rows[j], replies, batch) {
      var i := RowHasReply(rows, replies, dimension, batch, j);
    }
    forall i | 0 <= i < |batch| ensures Answers(rows, replies[i], batch[i]) {
      assert PairOf(rows, replies[i], batch[i]);
      var j := ReplyHasRow(rows, replies[i], batch[i]);
    }
  }
}
