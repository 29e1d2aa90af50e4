/**
 Disconnecting and reconnecting. A disconnect hides a connection's files and queues them for
 erasure; a reconnect shows them again but leaves them queued, so the outbox erases them all the
 same.
 */
module Reconnect {
  import opened Wrappers
  import opened Outbox
  import opened PurgeGrace

  /**
   The disconnect: every row of the connection is hidden, and those not queued yet are queued with
   no grace. The statement that queues them is not checked: if it fails (not `marked`), they are
   hidden only.
   */
  function Disconnected(rows: Rows, mine: set<Id>, now: Time, marked: bool): Rows {
    map id | id in rows ::
      if id !in mine then rows[id]
      else if rows[id].pending || !marked then rows[id].(hidden := true)
      else Row(rows[id].key, true, Some(now), true)
  }

  /** The reconnect: every row of the connection is shown again. */
  function Reconnected(rows: Rows, mine: set<Id>): Rows {
    map id | id in rows :: if id in mine then rows[id].(hidden := false) else rows[id]
  }

  /**
   What everything but the outbox itself does to queued rows: hiding, showing, rewriting and
   adding rows, none takes a row off the queue.
   */
  ghost predicate KeepsQueue(rows: Rows, rows': Rows) {
    forall id :: id in rows ==> id in rows' && (rows[id].pending ==> rows'[id].pending)
  }

  lemma {:induction false} QueuedStays(t: seq<Rows>, n: nat, id: Id)
    requires n < |t| && forall i :: 0 <= i < |t| - 1 ==> KeepsQueue(t[i], t[i + 1])
    requires id in t[0] && t[0][id].pending
    ensures id in t[n] && t[n][id].pending
  {
    if n > 0 {
      QueuedStays(t, n - 1, id);
      assert KeepsQueue(t[n - 1], t[n]);
    }
  }

  /** No grace: what a disconnect queues is listed before any row still in its grace. */
  lemma DisconnectedGoFirst(rows: Rows, mine: set<Id>, now: Time, limit: nat, ids: seq<Id>, a: Id, b: Id)
    requires IsListing(Disconnected(rows, mine, now, true), limit, ids)
    requires a in rows && a in mine && !rows[a].pending
    requires b in ids && b in rows && InGrace(Disconnected(rows, mine, now, true)[b], now)
    ensures a in ids
  {
    var i :| 0 <= i < |ids| && ids[i] == b;
    assert a in Pending(Disconnected(rows, mine, now, true));
  }

  /** Exactly the rows that are not queued survive a maintenance pass without failures that gets through the queue. */
  lemma SurvivesIff(t: seq<State>, bs: seq<Batch>, id: Id)
    requires Batches(t, bs) && RanOut(bs) && (forall i :: 0 <= i < |bs| ==> bs[i].failed == [])
    requires |Pending(t[0].rows)| <= PURGE_BATCH * MAX_PURGE_BATCHES && id in t[0].rows
    ensures id in t[|bs|].rows <==> !t[0].rows[id].pending
  {
    MaintenanceClears(t, bs, {});
    RowsOnlyLeaveAll(t, bs, 0, |bs|, id);
    assert Pending(t[0].rows) - {} == Pending(t[0].rows);
    var end := t[|bs|].rows;
    assert id in Pending(end) <==> id in end && end[id].pending;
    assert |Pending(end)| == 0;
  }

  /** A file's fate in a step between: it stays, and is queued afterwards exactly if it was before. */
  ghost predicate LeavesQueue(rows: Rows, rows': Rows, id: Id) {
    id in rows ==> id in rows' && rows'[id].pending == rows[id].pending
  }

  lemma {:induction false} QueueLeft(t: seq<Rows>, n: nat, id: Id)
    requires n < |t| && id in t[0] && forall i :: 0 <= i < |t| - 1 ==> LeavesQueue(t[i], t[i + 1], id)
    ensures id in t[n] && t[n][id].pending == t[0][id].pending
  {
    if n > 0 {
      QueueLeft(t, n - 1, id);
      assert LeavesQueue(t[n - 1], t[n], id);
    }
  }

  /**
   Reconnecting does not resurrect: whatever happens between a disconnect whose marking went
   through and the next maintenance pass, a reconnect that shows the files again included, every
   file the connection had is erased by that pass.
   */
  lemma ReconnectDoesNotResurrect(
    before: Rows, mine: set<Id>, now: Time, t: seq<Rows>, r: nat, m: seq<State>, bs: seq<Batch>, id: Id)
    requires |t| > 0 && t[0] == Disconnected(before, mine, now, true)
    requires forall i :: 0 <= i < |t| - 1 ==> KeepsQueue(t[i], t[i + 1])
    requires r + 1 < |t| && t[r + 1] == Reconnected(t[r], mine)
    requires Batches(m, bs) && RanOut(bs) && (forall i :: 0 <= i < |bs| ==> bs[i].failed == [])
    requires m[0].rows == t[|t| - 1] && |Pending(m[0].rows)| <= PURGE_BATCH * MAX_PURGE_BATCHES
    requires id in before && id in mine
    ensures id in t[r + 1] && !t[r + 1][id].hidden
    ensures id !in m[|bs|].rows
  {
    QueuedStays(t, r, id);
    QueuedStays(t, |t| - 1, id);
    SurvivesIff(m, bs, id);
  }

  /**
   When it does: if nothing else queues or unqueues the file in between, a reconnected file
   survives the pass exactly if it was not queued before and the marking was lost.
   */
  lemma ResurrectedIff(
    before: Rows, mine: set<Id>, now: Time, marked: bool, t: seq<Rows>, m: seq<State>, bs: seq<Batch>, id: Id)
    requires |t| > 0 && t[0] == Disconnected(before, mine, now, marked)
    requires forall i :: 0 <= i < |t| - 1 ==> LeavesQueue(t[i], t[i + 1], id)
    requires Batches(m, bs) && RanOut(bs) && (forall i :: 0 <= i < |bs| ==> bs[i].failed == [])
    requires m[0].rows == t[|t| - 1] && |Pending(m[0].rows)| <= PURGE_BATCH * MAX_PURGE_BATCHES
    requires id in before && id in mine
    ensures id in m[|bs|].rows <==> !before[id].pending && !marked
  {
    QueueLeft(t, |t| - 1, id);
    SurvivesIff(m, bs, id);
  }

  /** An instance: one file, a disconnect, a reconnect and one pass. */
  lemma ShownFileErased() returns (before: Rows, o: State, o': State)
    ensures before.Keys == {0} && !before[0].hidden && o.rows == Reconnected(Disconnected(before, {0}, 0, true), {0})
    ensures Purged(o, o', PURGE_BATCH, [0], [0], [], true)
    ensures !o.rows[0].hidden && 0 !in o'.rows && o.rows[0].key !in o'.objects
  {
    var key := "bucket/object";
    before := map[0 := Row(key, false, None, false)];
    o := State(Reconnected(Disconnected(before, {0}, 0, true), {0}), {key});
    o' := State(map[], {});
    assert Pending(o.rows) == {0};
    OneListed(o, o', key);
  }
}
