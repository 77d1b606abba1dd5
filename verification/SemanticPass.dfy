/** One background indexing pass: reconcile the index identity, then decide the
  * backlog in batches, refusing what the policy forbids and embedding the rest.
  */
module SemanticPass {
  import opened Wrappers
  import opened Ordering
  import opened Policy
  import opened PolicyFacts
  import opened SemanticStore
  import opened SemanticProtocol
  import opened SemanticPairing

  const EMBED_BATCH: nat := 16

  // --- What a batch leaves in the store ------------------------------------------------

  ghost predicate ItemIdsDistinct<T>(items: seq<(EntryId, T)>) {
    forall i, j :: 0 <= i < j < |items| ==> items[i].0 != items[j].0
  }

  predicate Lands(rows: map<EntryId, Row>, item: (EntryId, Vector)) {
    item.0 in rows && rows[item.0].entry.contentHash == item.1.contentHash
  }

  lemma {:induction false} UpsertedOther(vectors: map<EntryId, Vector>, rows: map<EntryId, Row>,
                                        items: seq<(EntryId, Vector)>, id: EntryId)
    requires forall i :: 0 <= i < |items| && items[i].0 == id ==> !Lands(rows, items[i])
    ensures var after := Upserted(vectors, rows, items);
      (id in after <==> id in vectors) && (id in vectors ==> after[id] == vectors[id])
    decreases |items|
  {
    if items != [] {
      var (x, v) := items[0];
      assert items[0].0 == id ==> !Lands(rows, items[0]);
      UpsertedOther(if x in rows && rows[x].entry.contentHash == v.contentHash then vectors[x := v] else vectors,
                    rows, items[1..], id);
    }
  }

  lemma {:induction false} UpsertedLanded(vectors: map<EntryId, Vector>, rows: map<EntryId, Row>,
                                         items: seq<(EntryId, Vector)>, k: nat)
    requires ItemIdsDistinct(items) && k < |items| && Lands(rows, items[k])
    ensures var after := Upserted(vectors, rows, items); items[k].0 in after && after[items[k].0] == items[k].1
    decreases |items|
  {
    var (x, v) := items[0];
    var next := if x in rows && rows[x].entry.contentHash == v.contentHash then vectors[x := v] else vectors;
    if k == 0 {
      forall i | 0 <= i < |items[1..]| ensures items[1..][i].0 != x { assert items[i + 1].0 != items[0].0; }
      UpsertedOther(next, rows, items[1..], x);
    } else {
      UpsertedLanded(next, rows, items[1..], k - 1);
    }
  }

  lemma {:induction false} ExcludedOther(st: Store, items: seq<(EntryId, Exclusion)>, id: EntryId)
    requires forall i :: 0 <= i < |items| ==> items[i].0 != id
    ensures var after := Excluded(st, items);
      && (id in after.vectors <==> id in st.vectors) && (id in st.vectors ==> after.vectors[id] == st.vectors[id])
      && (id in after.exclusions <==> id in st.exclusions)
      && (id in st.exclusions ==> after.exclusions[id] == st.exclusions[id])
    decreases |items|
  {
    if items != [] {
      var (x, e) := items[0];
      assert items[0].0 != id;
      ExcludedOther(st.(exclusions := st.exclusions[x := e], vectors := st.vectors - {x}), items[1..], id);
    }
  }

  lemma {:induction false} ExcludedAt(st: Store, items: seq<(EntryId, Exclusion)>, k: nat)
    requires ItemIdsDistinct(items) && k < |items|
    ensures var after := Excluded(st, items);
      items[k].0 in after.exclusions && after.exclusions[items[k].0] == items[k].1 && items[k].0 !in after.vectors
    decreases |items|
  {
    var (x, e) := items[0];
    var next := st.(exclusions := st.exclusions[x := e], vectors := st.vectors - {x});
    if k == 0 {
      forall i | 0 <= i < |items[1..]| ensures items[1..][i].0 != x { assert items[i + 1].0 != items[0].0; }
      ExcludedOther(next, items[1..], x);
    } else {
      ExcludedAt(next, items[1..], k - 1);
    }
  }

  lemma {:induction false} ExcludedFrame(st: Store, items: seq<(EntryId, Exclusion)>)
    ensures var after := Excluded(st, items);
      after.settings == st.settings && after.meta == st.meta && after.rows == st.rows && after.recency == st.recency
    decreases |items|
  {
    if items != [] {
      var (x, e) := items[0];
      ExcludedFrame(st.(exclusions := st.exclusions[x := e], vectors := st.vectors - {x}), items[1..]);
    }
  }

  // --- Draining ------------------------------------------------------------------------

  lemma {:induction false} OutstandingShrinks(st: Store, after: Store, ids: seq<EntryId>)
    requires after.rows == st.rows
    requires forall id :: id in ids && Outstanding(after, id) ==> Outstanding(st, id)
    ensures |OutstandingIn(after, ids)| <= |OutstandingIn(st, ids)|
  {
    if ids != [] {
      assert ids == [ids[0]] + ids[1..];
      OutstandingShrinks(st, after, ids[1..]);
    }
  }

  lemma {:induction false} OutstandingMembers(st: Store, ids: seq<EntryId>, id: EntryId)
    requires forall x :: x in ids && x in st.rows ==> st.rows[x].entry.entryId == x
    ensures id in Ids(OutstandingIn(st, ids)) <==> id in ids && Outstanding(st, id)
  {
    if ids != [] {
      assert ids == [ids[0]] + ids[1..];
      OutstandingMembers(st, ids[1..], id);
      if Outstanding(st, ids[0]) {
        OutstandingHead(st, ids);
      }
    }
  }

  lemma {:induction false} OutstandingDistinct(st: Store, ids: seq<EntryId>)
    requires Distinct(ids) && forall x :: x in ids && x in st.rows ==> st.rows[x].entry.entryId == x
    ensures Distinct(Ids(OutstandingIn(st, ids)))
  {
    if ids != [] {
      OutstandingDistinct(st, ids[1..]);
      assert ids == [ids[0]] + ids[1..] && ids[0] !in ids[1..];
      var rest := OutstandingIn(st, ids[1..]);
      OutstandingMembers(st, ids[1..], ids[0]);
      if Outstanding(st, ids[0]) {
        OutstandingHead(st, ids);
        DistinctCons(ids[0], Ids(rest));
      } else {
        assert OutstandingIn(st, ids) == rest;
      }
    }
  }

  lemma DistinctCons(head: EntryId, tail: seq<EntryId>)
    requires Distinct(tail) && head !in tail
    ensures Distinct([head] + tail)
  {
  }

  lemma {:induction false} OutstandingSame(st: Store, after: Store, ids: seq<EntryId>)
    requires after.rows == st.rows
    requires forall id :: id in ids ==> (Outstanding(after, id) <==> Outstanding(st, id))
    ensures OutstandingIn(after, ids) == OutstandingIn(st, ids)
  {
    if ids != [] {
      assert ids == [ids[0]] + ids[1..];
      OutstandingSame(st, after, ids[1..]);
    }
  }

  /** `done` are decided in `after`, and nothing else changed. */
  ghost predicate Decides(st: Store, after: Store, ids: seq<EntryId>, done: seq<EntryId>) {
    && after.rows == st.rows
    && forall id :: id in ids ==> (Outstanding(after, id) <==> Outstanding(st, id) && id !in done)
  }

  lemma DecidesTail(st: Store, after: Store, ids: seq<EntryId>, done: seq<EntryId>)
    requires ids != [] && Distinct(ids) && done != [] && done[0] == ids[0] && Decides(st, after, ids, done)
    ensures Decides(st, after, ids[1..], done[1..])
  {
    assert ids == [ids[0]] + ids[1..] && done == [done[0]] + done[1..];
    assert ids[0] !in ids[1..];
  }

  lemma OutstandingHead(st: Store, ids: seq<EntryId>)
    requires ids != [] && Outstanding(st, ids[0]) && st.rows[ids[0]].entry.entryId == ids[0]
    ensures OutstandingIn(st, ids) == [st.rows[ids[0]].entry] + OutstandingIn(st, ids[1..])
    ensures Ids(OutstandingIn(st, ids)) == [ids[0]] + Ids(OutstandingIn(st, ids[1..]))
  {
  }

  /** Deciding exactly the first `n` outstanding rows takes exactly those off the backlog. */
  lemma {:induction false} PrefixDrained(st: Store, after: Store, ids: seq<EntryId>, n: nat)
    requires Distinct(ids) && forall x :: x in ids && x in st.rows ==> st.rows[x].entry.entryId == x
    requires n <= |OutstandingIn(st, ids)|
    requires Decides(st, after, ids, Ids(OutstandingIn(st, ids))[..n])
    ensures OutstandingIn(after, ids) == OutstandingIn(st, ids)[n..]
  {
    if n == 0 {
      OutstandingSame(st, after, ids);
    } else if Outstanding(st, ids[0]) {
      DrainedHead(st, after, ids, n);
      PrefixDrained(st, after, ids[1..], n - 1);
    } else {
      assert ids == [ids[0]] + ids[1..];
      assert OutstandingIn(st, ids) == OutstandingIn(st, ids[1..]);
      assert !Outstanding(after, ids[0]);
      PrefixDrained(st, after, ids[1..], n);
    }
  }

  lemma DrainedHead(st: Store, after: Store, ids: seq<EntryId>, n: nat)
    requires ids != [] && Distinct(ids) && Outstanding(st, ids[0]) && st.rows[ids[0]].entry.entryId == ids[0]
    requires 0 < n <= |OutstandingIn(st, ids)|
    requires Decides(st, after, ids, Ids(OutstandingIn(st, ids))[..n])
    ensures n - 1 <= |OutstandingIn(st, ids[1..])|
    ensures Decides(st, after, ids[1..], Ids(OutstandingIn(st, ids[1..]))[..n - 1])
    ensures OutstandingIn(after, ids) == OutstandingIn(after, ids[1..])
    ensures OutstandingIn(st, ids)[n..] == OutstandingIn(st, ids[1..])[n - 1..]
  {
    OutstandingHead(st, ids);
    var done, rest := Ids(OutstandingIn(st, ids))[..n], Ids(OutstandingIn(st, ids[1..]));
    TakeCons(ids[0], rest, n);
    DecidesTail(st, after, ids, done);
    DecidedIsDone(st, after, ids, done);
  }

  lemma TakeCons(head: EntryId, rest: seq<EntryId>, n: nat)
    requires 0 < n <= |rest| + 1
    ensures ([head] + rest)[..n] == [head] + rest[..n - 1] && ([head] + rest)[..n][1..] == rest[..n - 1]
  {
  }

  lemma DecidedIsDone(st: Store, after: Store, ids: seq<EntryId>, done: seq<EntryId>)
    requires ids != [] && done != [] && done[0] == ids[0] && Decides(st, after, ids, done)
    ensures !Outstanding(after, ids[0])
  {
    assert ids[0] in ids;
  }
}
