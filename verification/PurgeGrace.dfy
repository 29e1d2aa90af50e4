/**
 The grace before erasure. The outbox query orders by deadline but does not compare it with the
 clock; this module decides which rows a pass erases, and gives small instances of what a pass
 can do.
 */
module PurgeGrace {
  import opened Wrappers
  import opened Finite
  import opened Outbox

  /** The documented promise: the bytes of a row are not erased before its deadline. */
  predicate InGrace(r: Row, now: Time) {
    r.pending && r.deadline.Some? && now < r.deadline.value
  }

  /** The pending rows the listing must put before `id`, and those it may. */
  function Earlier(rows: Rows, id: Id): set<Id>
    requires id in rows
  {
    set r | r in rows && rows[r].pending && !NotLater(rows[id].deadline, rows[r].deadline)
  }

  function NotAfter(rows: Rows, id: Id): set<Id>
    requires id in rows
  {
    set r | r in rows && rows[r].pending && NotLater(rows[r].deadline, rows[id].deadline)
  }

  lemma ListedIfFewNotAfter(o: State, limit: nat, ids: seq<Id>, id: Id)
    requires IsListing(o.rows, limit, ids) && id in Pending(o.rows) && |NotAfter(o.rows, id)| <= limit
    ensures id in ids
  {
    ListedSplit(o, limit, ids);
    if id !in ids {
      forall r | r in Members(ids) ensures r in NotAfter(o.rows, id) - {id} {
        var i :| 0 <= i < |ids| && ids[i] == r;
        assert ids[i] in Pending(o.rows);
      }
      SubsetCount(Members(ids), NotAfter(o.rows, id) - {id});
      SubsetCount(Members(ids), Pending(o.rows) - {id});
    }
  }

  lemma UnlistedIfManyEarlier(o: State, limit: nat, ids: seq<Id>, id: Id)
    requires IsListing(o.rows, limit, ids) && id in Pending(o.rows) && |Earlier(o.rows, id)| >= limit
    ensures id !in ids
  {
    ListedSplit(o, limit, ids);
    if id in ids {
      forall r | r in Earlier(o.rows, id) ensures r in Members(ids) - {id} {
        var i :| 0 <= i < |ids| && ids[i] == id;
        assert r in Pending(o.rows);
      }
      SubsetCount(Earlier(o.rows, id), Members(ids) - {id});
    }
  }

  /**
   The listing is free only among ties. Taking the earliest remaining row each time and `id`
   itself first (or last) among those tied with it gives a listing that has (or lacks) it.
   */
  lemma ListingWith(rows: Rows, limit: nat, id: Id, first: bool) returns (ids: seq<Id>)
    requires id in Pending(rows)
    ensures IsListing(rows, limit, ids)
    ensures first && |Earlier(rows, id)| < limit ==> id in ids
    ensures !first && |NotAfter(rows, id)| > limit ==> id !in ids
  {
    ids := [];
    var rest := Pending(rows);
    while |ids| < limit && rest != {}
      invariant Partial(rows, limit, ids, rest)
      invariant first && id in rest ==> Members(ids) <= Earlier(rows, id)
      invariant !first && id !in rest ==> NotAfter(rows, id) <= Pending(rows) - rest
      decreases |rest|
    {
      var m := Choose(rows, rest, id, first);
      PartialNext(rows, limit, ids, rest, m);
      assert Members(ids + [m]) == Members(ids) + {m};
      ids, rest := ids + [m], rest - {m};
    }
    PartialEnds(rows, limit, ids, rest);
    DistinctCount(ids);
    if first && id in rest {
      SubsetCount(Members(ids), Earlier(rows, id));
    }
    if !first && id !in rest {
      assert Pending(rows) - rest <= Members(ids);
      SubsetCount(NotAfter(rows, id), Members(ids));
    }
  }

  /** An earliest row, resolving ties for or against `id`. */
  lemma Choose(rows: Rows, rest: set<Id>, id: Id, first: bool) returns (m: Id)
    requires rest != {} && rest <= Pending(rows) && id in Pending(rows)
    ensures m in rest && forall x :: x in rest ==> NotLater(rows[m].deadline, rows[x].deadline)
    ensures first && id in rest && m != id ==> m in Earlier(rows, id)
    ensures !first && m == id ==> NotAfter(rows, id) * rest == {id}
  {
    if !first && id in rest && rest != {id} {
      m := EarliestExists(rows, rest - {id});
      assert forall x :: x in rest ==> x == id || x in rest - {id};
      if !NotLater(rows[m].deadline, rows[id].deadline) {
        m := id;
      }
    } else {
      m := EarliestExists(rows, rest);
      if first && id in rest && NotLater(rows[id].deadline, rows[m].deadline) {
        m := id;
      }
    }
  }

  /**
   Which pending rows a listing reaches, decided by the rows alone, whatever their deadlines are
   to the clock: every listing has `id` exactly if at most `limit` rows are not after it, and some
   listing has it exactly if fewer than `limit` are earlier.
   */
  lemma ListedExactly(rows: Rows, limit: nat, id: Id)
    requires id in Pending(rows)
    ensures (forall ids :: IsListing(rows, limit, ids) ==> id in ids) <==> |NotAfter(rows, id)| <= limit
    ensures (exists ids :: IsListing(rows, limit, ids) && id in ids) <==> |Earlier(rows, id)| < limit
  {
    var o := State(rows, {});
    forall ids | IsListing(rows, limit, ids)
      ensures |NotAfter(rows, id)| <= limit ==> id in ids
      ensures |Earlier(rows, id)| >= limit ==> id !in ids
    {
      if |NotAfter(rows, id)| <= limit {
        ListedIfFewNotAfter(o, limit, ids, id);
      }
      if |Earlier(rows, id)| >= limit {
        UnlistedIfManyEarlier(o, limit, ids, id);
      }
    }
    var yes := ListingWith(rows, limit, id, true);
    var no := ListingWith(rows, limit, id, false);
  }

  /**
   The grace before erasure is not enforced. In a confirmed pass without failures a pending row
   is erased although its deadline lies ahead whenever at most `limit` pending rows are not after
   it, and is spared whenever `limit` of them are earlier; only ties in between are open, and the
   clock plays no part.
   */
  lemma GraceFate(o: State, o': State, limit: nat, ids: seq<Id>, cleared: seq<Id>, id: Id, now: Time)
    requires Purged(o, o', limit, ids, cleared, [], true) && id in o.rows && InGrace(o.rows[id], now)
    ensures id in o'.rows <==> id !in ids
    ensures id !in o'.rows ==> o.rows[id].key == "" || o.rows[id].key !in o'.objects
    ensures |NotAfter(o.rows, id)| <= limit ==> id !in o'.rows
    ensures |Earlier(o.rows, id)| >= limit ==> id in o'.rows
  {
    if |NotAfter(o.rows, id)| <= limit {
      ListedIfFewNotAfter(o, limit, ids, id);
    }
    if |Earlier(o.rows, id)| >= limit {
      UnlistedIfManyEarlier(o, limit, ids, id);
    }
    assert forall x :: x in ids <==> x in cleared;
  }

  /** The pending rows whose deadline has passed. */
  function Due(rows: Rows, now: Time): set<Id> {
    set r | r in rows && rows[r].pending && rows[r].deadline.Some? && rows[r].deadline.value <= now
  }

  /**
   When a pass does keep the promise: it spares every row in its grace if and only if there is
   none, or the rows past their deadline fill the batch.
   */
  lemma GraceKeptIff(o: State, o': State, limit: nat, ids: seq<Id>, cleared: seq<Id>, now: Time)
    requires Purged(o, o', limit, ids, cleared, [], true)
    ensures (forall id :: id in o.rows && InGrace(o.rows[id], now) ==> id in o'.rows) <==>
      limit <= |Due(o.rows, now)| || forall id :: id in o.rows ==> !InGrace(o.rows[id], now)
  {
    if limit <= |Due(o.rows, now)| {
      forall id | id in o.rows && InGrace(o.rows[id], now) ensures id in o'.rows {
        SubsetCount(Due(o.rows, now), Earlier(o.rows, id));
        GraceFate(o, o', limit, ids, cleared, id, now);
      }
    } else if g :| g in o.rows && InGrace(o.rows[g], now) {
      if forall id :: id in o.rows && InGrace(o.rows[id], now) ==> id in o'.rows {
        OnlyDueListed(o, o', limit, ids, cleared, g, now);
        SubsetCount(Members(ids), Due(o.rows, now));
        assert g in Pending(o.rows) && g !in Members(ids);
        SubsetCount(Members(ids), Pending(o.rows));
      }
    }
  }

  lemma OnlyDueListed(o: State, o': State, limit: nat, ids: seq<Id>, cleared: seq<Id>, g: Id, now: Time)
    requires Purged(o, o', limit, ids, cleared, [], true) && g in o.rows && InGrace(o.rows[g], now)
    requires forall id :: id in o.rows && InGrace(o.rows[id], now) ==> id in o'.rows
    ensures Members(ids) <= Due(o.rows, now) && g !in ids
    ensures Members(ids) <= Pending(o.rows) && |Members(ids)| == |ids|
  {
    ListedSplit(o, limit, ids);
    GraceFate(o, o', limit, ids, cleared, g, now);
    forall r | r in Members(ids) ensures r in Due(o.rows, now) {
      var i :| 0 <= i < |ids| && ids[i] == r;
      assert g in Pending(o.rows);
      assert NotLater(o.rows[ids[i]].deadline, o.rows[g].deadline);
      if InGrace(o.rows[r], now) {
        GraceFate(o, o', limit, ids, cleared, r, now);
      }
    }
  }

  // --- the grace over a whole maintenance pass ---

  ghost predicate Spared(o: State, o': State, now: Time) {
    forall id :: id in o.rows && InGrace(o.rows[id], now) ==> id in o'.rows
  }

  /** A pass without failures that spares a row in its grace, among others, takes a full batch of due rows. */
  lemma SparingTakesDue(o: State, o': State, b: Batch, g: Id, now: Time)
    requires IsBatchOf(o, o', b) && b.failed == [] && Spared(o, o', now) && g in o.rows && InGrace(o.rows[g], now)
    ensures PURGE_BATCH <= |Due(o.rows, now)| && |Due(o'.rows, now)| == |Due(o.rows, now)| - PURGE_BATCH
  {
    GraceKeptIff(o, o', PURGE_BATCH, b.ids, b.cleared, now);
    OnlyDueListed(o, o', PURGE_BATCH, b.ids, b.cleared, g, now);
    SubsetCount(Due(o.rows, now), Pending(o.rows));
    SubsetCount(Members(b.ids), Due(o.rows, now));
    assert forall x :: x in b.ids <==> x in b.cleared;
    assert Members(b.ids) == Members(b.cleared);
    assert Due(o'.rows, now) == Due(o.rows, now) - Members(b.ids);
  }

  lemma RowsOnlyLeave(o: State, o': State, b: Batch, id: Id)
    requires IsBatchOf(o, o', b)
    ensures id in o'.rows ==> id in o.rows && o'.rows[id] == o.rows[id]
    ensures id in o.rows && !o.rows[id].pending ==> id in o'.rows
  {
    ListedSplit(o, PURGE_BATCH, b.ids);
    assert id in Members(b.cleared) ==> id in b.cleared && id in b.ids && id in Members(b.ids);
  }

  /**
   After batches that spared everything in its grace, every such row is still there and each
   batch took due rows only.
   */
  lemma {:induction false} SparingBatches(t: seq<State>, bs: seq<Batch>, n: nat, g: Id, now: Time)
    requires Batches(t, bs) && n <= |bs|
      && (forall i :: 0 <= i < n ==> bs[i].failed == [] && Spared(t[i], t[i + 1], now))
    requires g in t[0].rows && InGrace(t[0].rows[g], now)
    ensures g in t[n].rows && t[n].rows[g] == t[0].rows[g]
    ensures |Due(t[n].rows, now)| == |Due(t[0].rows, now)| - n * PURGE_BATCH
  {
    if n > 0 {
      SparingBatches(t, bs, n - 1, g, now);
      assert IsBatchOf(t[n - 1], t[n], bs[n - 1]);
      SparingTakesDue(t[n - 1], t[n], bs[n - 1], g, now);
      RowsOnlyLeave(t[n - 1], t[n], bs[n - 1], g);
    }
  }

  lemma {:induction false} RowsOnlyLeaveAll(t: seq<State>, bs: seq<Batch>, i: nat, j: nat, id: Id)
    requires Batches(t, bs) && i <= j <= |bs|
    ensures id in t[j].rows ==> id in t[i].rows && t[j].rows[id] == t[i].rows[id]
    ensures id in t[i].rows && !t[i].rows[id].pending ==> id in t[j].rows
  {
    if i < j {
      RowsOnlyLeaveAll(t, bs, i, j - 1, id);
      assert IsBatchOf(t[j - 1], t[j], bs[j - 1]);
      RowsOnlyLeave(t[j - 1], t[j], bs[j - 1], id);
    }
  }

  /** With enough due rows for all of them, every batch spares the rows in their grace. */
  lemma {:induction false} EnoughDueSpares(t: seq<State>, bs: seq<Batch>, n: nat, g: Id, now: Time)
    requires Batches(t, bs) && n <= |bs| <= MAX_PURGE_BATCHES && (forall i :: 0 <= i < |bs| ==> bs[i].failed == [])
    requires g in t[0].rows && InGrace(t[0].rows[g], now)
    requires PURGE_BATCH * MAX_PURGE_BATCHES <= |Due(t[0].rows, now)|
    ensures forall i :: 0 <= i < n ==> Spared(t[i], t[i + 1], now)
  {
    if n > 0 {
      EnoughDueSpares(t, bs, n - 1, g, now);
      SparingBatches(t, bs, n - 1, g, now);
      assert IsBatchOf(t[n - 1], t[n], bs[n - 1]);
      GraceKeptIff(t[n - 1], t[n], PURGE_BATCH, bs[n - 1].ids, bs[n - 1].cleared, now);
    }
  }

  /**
   The promise over a whole maintenance pass without failures: every row in its grace is spared if
   and only if there is none, or ten thousand rows are past their deadline.
   */
  lemma MaintenanceKeepsGraceIff(t: seq<State>, bs: seq<Batch>, now: Time)
    requires Batches(t, bs) && RanOut(bs) && |bs| <= MAX_PURGE_BATCHES
    requires forall i :: 0 <= i < |bs| ==> bs[i].failed == []
    ensures Spared(t[0], t[|bs|], now) <==>
      || PURGE_BATCH * MAX_PURGE_BATCHES <= |Due(t[0].rows, now)|
      || forall id :: id in t[0].rows ==> !InGrace(t[0].rows[id], now)
  {
    var n := |bs|;
    if g :| g in t[0].rows && InGrace(t[0].rows[g], now) {
      if PURGE_BATCH * MAX_PURGE_BATCHES <= |Due(t[0].rows, now)| {
        EnoughDueSpares(t, bs, n, g, now);
        forall id | id in t[0].rows && InGrace(t[0].rows[id], now) ensures id in t[n].rows {
          SparingBatches(t, bs, n, id, now);
        }
      } else if Spared(t[0], t[n], now) {
        SparedStepwise(t, bs, now);
        SparingBatches(t, bs, n, g, now);
        SparingBatches(t, bs, n - 1, g, now);
        assert IsBatchOf(t[n - 1], t[n], bs[n - 1]);
        SparingTakesDue(t[n - 1], t[n], bs[n - 1], g, now);
        FullBatch(t[n - 1], t[n], bs[n - 1], now);
      }
    }
  }

  /** A batch facing that many due rows does clear something. */
  lemma FullBatch(o: State, o': State, b: Batch, now: Time)
    requires IsBatchOf(o, o', b) && b.failed == [] && PURGE_BATCH <= |Due(o.rows, now)|
    ensures b.cleared != []
  {
    SubsetCount(Due(o.rows, now), Pending(o.rows));
  }

  lemma SparedStepwise(t: seq<State>, bs: seq<Batch>, now: Time)
    requires Batches(t, bs) && Spared(t[0], t[|bs|], now)
    ensures forall i :: 0 <= i < |bs| ==> Spared(t[i], t[i + 1], now)
  {
    forall i, id | 0 <= i < |bs| && id in t[i].rows && InGrace(t[i].rows[id], now) ensures id in t[i + 1].rows {
      RowsOnlyLeaveAll(t, bs, 0, i, id);
      RowsOnlyLeaveAll(t, bs, i + 1, |bs|, id);
    }
  }

  // --- instances ---

  /** A pass over one row whose deadline is a week away: row and bytes are gone. */
  lemma ErasedInGrace() returns (o: State, o': State)
    ensures Purged(o, o', PURGE_BATCH, [0], [0], [], true)
    ensures 0 in o.rows && InGrace(o.rows[0], 0) && o.rows[0].key in o.objects
    ensures 0 !in o'.rows && o.rows[0].key !in o'.objects
  {
    var key := "bucket/object";
    o := State(map[0 := Row(key, true, Some(7), true)], {key});
    o' := State(map[], {});
    OneListed(o, o', key);
  }

  /** Two rows share an object: erasing the pending one takes the live one's bytes. */
  lemma SharedBytesLost() returns (o: State, o': State)
    ensures Purged(o, o', PURGE_BATCH, [0], [0], [], true)
    ensures 1 in o'.rows && !o'.rows[1].pending && o'.rows[1].key in o.objects && o'.rows[1].key !in o'.objects
  {
    var key := "bucket/object";
    o := State(map[0 := Row(key, true, Some(7), true), 1 := Row(key, false, None, false)], {key});
    o' := State(map[1 := Row(key, false, None, false)], {});
    OneListed(o, o', key);
  }

  lemma OneListed(o: State, o': State, key: string)
    requires Pending(o.rows) == {0} && o.rows[0].key == key && o.objects == {key}
    requires o' == State(o.rows - {0}, {})
    ensures Purged(o, o', PURGE_BATCH, [0], [0], [], true)
  {
    var ids: seq<Id> := [0];
    assert Members(ids) == {0};
    assert ids[0] in ids;
  }

  /** Two hundred rows whose object resists deletion, and a good one with a later deadline. */
  function Clogged(): (rows: Rows)
    ensures forall id: nat :: id in rows <==> id <= PURGE_BATCH
    ensures forall id: nat :: id in rows ==>
      rows[id] == Row(if id < PURGE_BATCH then "bucket/locked" else "bucket/object", true, Some(id), true)
  {
    map id: nat | 0 <= id <= PURGE_BATCH ::
      Row(if id < PURGE_BATCH then "bucket/locked" else "bucket/object", true, Some(id), true)
  }

  function Upto(n: nat): (s: seq<Id>)
    ensures |s| == n && forall i :: 0 <= i < n ==> s[i] == i
  {
    seq(n, i => i)
  }

  lemma UptoMembers(n: nat)
    ensures Distinct(Upto(n)) && |Members(Upto(n))| == n
    ensures forall id: nat :: id in Members(Upto(n)) <==> id < n
  {
    DistinctCount(Upto(n));
    forall id: nat | id < n ensures id in Upto(n) {
      assert Upto(n)[id] == id;
    }
  }

  lemma CloggedListing()
    ensures Pending(Clogged()) == Members(Upto(PURGE_BATCH + 1))
    ensures Earlier(Clogged(), PURGE_BATCH) == Members(Upto(PURGE_BATCH))
      && |Earlier(Clogged(), PURGE_BATCH)| == PURGE_BATCH
    ensures IsListing(Clogged(), PURGE_BATCH, Upto(PURGE_BATCH))
  {
    var rows, ids := Clogged(), Upto(PURGE_BATCH);
    UptoMembers(PURGE_BATCH);
    UptoMembers(PURGE_BATCH + 1);
    assert Pending(rows) == Members(Upto(PURGE_BATCH + 1));
    assert Earlier(rows, PURGE_BATCH) == Members(ids);
    forall i | 0 <= i < |ids| ensures ids[i] in Pending(rows) {
      assert ids[i] in Members(ids);
    }
    forall i, r | 0 <= i < |ids| && r in Pending(rows) && r !in ids
      ensures NotLater(rows[ids[i]].deadline, rows[r].deadline)
    {
      assert r !in Members(ids);
    }
  }

  /** As long as those deletes fail, the good row behind them is in no listing, and the pass changes nothing. */
  lemma LockedObjectsBlock(objects: set<string>)
    ensures var o := State(Clogged(), objects);
      && PURGE_BATCH in Pending(o.rows)
      && StuckCall(o, o, PURGE_BATCH, Earlier(o.rows, PURGE_BATCH))
      && forall ids :: IsListing(o.rows, PURGE_BATCH, ids) ==> PURGE_BATCH !in ids
  {
    var o, ids := State(Clogged(), objects), Upto(PURGE_BATCH);
    CloggedListing();
    ListedSplit(o, PURGE_BATCH, ids);
    assert o.rows - Members([]) == o.rows;
    assert Purged(o, o, PURGE_BATCH, ids, [], ids, true);
    forall l | IsListing(o.rows, PURGE_BATCH, l) ensures PURGE_BATCH !in l {
      UnlistedIfManyEarlier(o, PURGE_BATCH, l, PURGE_BATCH);
    }
  }
}
