/**
 The erasure outbox: manifest rows marked for purge are listed oldest deadline first, their
 objects deleted, and the rows dropped once the deletes are confirmed. Any delete may fail and the
 process may stop between the deletes and the confirmation; which do is given in advance.
 */
module Outbox {
  import opened Wrappers
  import opened Finite

  type Id = nat
  type Time = int

  /** `hidden`: deleted_at is set, so the file list does not show the row. */
  datatype Row = Row(key: string, pending: bool, deadline: Option<Time>, hidden: bool)

  type Rows = map<Id, Row>

  /** The manifest and the keys of the objects that exist. */
  datatype State = State(rows: Rows, objects: set<string>)

  const PURGE_BATCH: nat := 200
  const MAX_PURGE_BATCHES: nat := 50

  function Pending(rows: Rows): set<Id> {
    set id | id in rows && rows[id].pending
  }

  /** Oldest deadline first, rows without one last. */
  predicate NotLater(a: Option<Time>, b: Option<Time>) {
    b.None? || (a.Some? && a.value <= b.value)
  }

  /** An ordered, limited listing of the outbox; ties may come in any order. */
  ghost predicate IsListing(rows: Rows, limit: nat, ids: seq<Id>) {
    && Distinct(ids)
    && (forall i :: 0 <= i < |ids| ==> ids[i] in Pending(rows))
    && |ids| == (if |Pending(rows)| < limit then |Pending(rows)| else limit)
    && (forall i, j :: 0 <= i < j < |ids| ==> NotLater(rows[ids[i]].deadline, rows[ids[j]].deadline))
    && (forall i, r :: 0 <= i < |ids| && r in Pending(rows) && r !in ids ==>
      NotLater(rows[ids[i]].deadline, rows[r].deadline))
  }

  lemma {:induction false} EarliestExists(rows: Rows, s: set<Id>) returns (m: Id)
    requires s != {} && forall id :: id in s ==> id in rows
    ensures m in s && forall x :: x in s ==> NotLater(rows[m].deadline, rows[x].deadline)
  {
    var x :| x in s;
    if s == {x} {
      m := x;
    } else {
      m := EarliestExists(rows, s - {x});
      if !NotLater(rows[m].deadline, rows[x].deadline) {
        m := x;
      }
      assert forall y :: y in s ==> y == x || y in s - {x};
    }
  }

  /** The first rows of a listing are fixed, `rest` are those still to come. */
  ghost predicate Partial(rows: Rows, limit: nat, ids: seq<Id>, rest: set<Id>) {
    && |ids| <= limit && |ids| + |rest| == |Pending(rows)| && rest <= Pending(rows) && Distinct(ids)
    && (forall i :: 0 <= i < |ids| ==> ids[i] in Pending(rows) && ids[i] !in rest)
    && (forall r :: r in Pending(rows) ==> r in ids || r in rest)
    && (forall i, j :: 0 <= i < j < |ids| ==> NotLater(rows[ids[i]].deadline, rows[ids[j]].deadline))
    && (forall i, r :: 0 <= i < |ids| && r in rest ==> NotLater(rows[ids[i]].deadline, rows[r].deadline))
  }

  lemma PartialNext(rows: Rows, limit: nat, ids: seq<Id>, rest: set<Id>, m: Id)
    requires Partial(rows, limit, ids, rest) && |ids| < limit && m in rest
    requires forall x :: x in rest ==> NotLater(rows[m].deadline, rows[x].deadline)
    ensures Partial(rows, limit, ids + [m], rest - {m})
  {
    var l := ids + [m];
    forall i, j | 0 <= i < j < |l| ensures NotLater(rows[l[i]].deadline, rows[l[j]].deadline) {
      assert l[i] == ids[i];
    }
  }

  lemma PartialEnds(rows: Rows, limit: nat, ids: seq<Id>, rest: set<Id>)
    requires Partial(rows, limit, ids, rest) && (|ids| == limit || rest == {})
    ensures IsListing(rows, limit, ids)
  {
  }

  method ListPurgePending(rows: Rows, limit: nat) returns (ids: seq<Id>)
    ensures IsListing(rows, limit, ids)
  {
    ids := [];
    var rest := Pending(rows);
    while |ids| < limit && rest != {}
      invariant Partial(rows, limit, ids, rest)
      decreases |rest|
    {
      ghost var earliest := EarliestExists(rows, rest);
      var m :| m in rest && forall x :: x in rest ==> NotLater(rows[m].deadline, rows[x].deadline);
      PartialNext(rows, limit, ids, rest, m);
      ids, rest := ids + [m], rest - {m};
    }
    PartialEnds(rows, limit, ids, rest);
  }

  // --- one purge call ---

  /** The listed rows are those cleared and those that failed, each once. */
  ghost predicate Splits(ids: seq<Id>, cleared: seq<Id>, failed: seq<Id>) {
    && |ids| == |cleared| + |failed|
    && Distinct(cleared) && Distinct(failed)
    && (forall x :: x in ids <==> x in cleared || x in failed)
    && (forall x :: x in cleared ==> x !in failed)
  }

  /**
   The objects once the rows of `cleared` are dealt with: only objects of `ids` may be gone, and
   those of `cleared` are.
   */
  ghost predicate Erased(o: State, objects: set<string>, ids: seq<Id>, cleared: seq<Id>) {
    && (forall id :: id in ids || id in cleared ==> id in o.rows)
    && objects <= o.objects
    && (forall k :: k in o.objects && k !in objects ==> exists id :: id in ids && o.rows[id].key == k)
    && (forall id :: id in cleared ==> o.rows[id].key == "" || o.rows[id].key !in objects)
  }

  /**
   The effect of one call: the listed rows split into cleared ones, which have no object left,
   and failed ones; when the confirmation went through exactly the cleared rows are gone.
   */
  ghost predicate Purged(
    o: State, o': State, limit: nat, ids: seq<Id>, cleared: seq<Id>, failed: seq<Id>, confirmed: bool) {
    && IsListing(o.rows, limit, ids)
    && Splits(ids, cleared, failed)
    && Erased(o, o'.objects, ids, cleared)
    && o'.rows == (if confirmed then o.rows - Members(cleared) else o.rows)
  }

  datatype PurgeResult = PurgeResult(deleted: nat, failed: nat, orphaned: nat)

  datatype Fate = Orphaned | Failed | Deleted

  function Tally(r: PurgeResult, fate: Fate): PurgeResult {
    match fate
    case Orphaned => r.(orphaned := r.orphaned + 1)
    case Failed => r.(failed := r.failed + 1)
    case Deleted => r.(deleted := r.deleted + 1)
  }

  function KeylessCount(rows: Rows, ids: seq<Id>): nat {
    if ids == [] then 0
    else
      var id := ids[|ids| - 1];
      KeylessCount(rows, ids[..|ids| - 1]) + if id in rows && rows[id].key == "" then 1 else 0
  }

  lemma SplitsNext(ids: seq<Id>, cleared: seq<Id>, failed: seq<Id>, x: Id)
    requires Splits(ids, cleared, failed) && x !in ids
    ensures Splits(ids + [x], cleared + [x], failed)
    ensures Splits(ids + [x], cleared, failed + [x])
  {
  }

  lemma ErasedNext(o: State, objects: set<string>, objects': set<string>, seen: seq<Id>, cleared: seq<Id>, id: Id)
    requires Erased(o, objects, seen, cleared) && id in o.rows
    requires objects' == objects || objects' == objects - {o.rows[id].key}
    ensures Erased(o, objects', seen + [id], cleared)
    ensures o.rows[id].key == "" || o.rows[id].key !in objects' ==> Erased(o, objects', seen + [id], cleared + [id])
  {
    forall k | k in o.objects && k !in objects' ensures exists x :: x in seen + [id] && o.rows[x].key == k {
      if k !in objects {
        var x :| x in seen && o.rows[x].key == k;
        assert x in seen + [id];
      } else {
        assert id in seen + [id];
      }
    }
  }

  /** The tallies say how many rows were deleted, failed and had no object; a row without one cannot fail. */
  ghost predicate Counted(rows: Rows, ids: seq<Id>, r: PurgeResult, cleared: seq<Id>, failed: seq<Id>) {
    && r.deleted + r.orphaned == |cleared| && r.failed == |failed| && r.orphaned == KeylessCount(rows, ids)
    && forall id :: id in failed ==> id in rows && rows[id].key != ""
  }

  ghost predicate Processed(
    o: State, objects: set<string>, ids: seq<Id>, r: PurgeResult, cleared: seq<Id>, failed: seq<Id>) {
    Splits(ids, cleared, failed) && Erased(o, objects, ids, cleared) && Counted(o.rows, ids, r, cleared, failed)
  }

  lemma CountedNext(rows: Rows, ids: seq<Id>, r: PurgeResult, cleared: seq<Id>, failed: seq<Id>, id: Id, fate: Fate)
    requires Counted(rows, ids, r, cleared, failed) && id in rows && (fate.Orphaned? <==> rows[id].key == "")
    ensures if fate.Failed? then Counted(rows, ids + [id], Tally(r, fate), cleared, failed + [id])
      else Counted(rows, ids + [id], Tally(r, fate), cleared + [id], failed)
  {
    assert (ids + [id])[..|ids|] == ids;
  }

  lemma ProcessedNext(
    o: State, objects: set<string>, objects': set<string>, ids: seq<Id>, r: PurgeResult, cleared: seq<Id>,
    failed: seq<Id>, id: Id, fate: Fate)
    requires Processed(o, objects, ids, r, cleared, failed) && id in o.rows && id !in ids
    requires objects' == objects || objects' == objects - {o.rows[id].key}
    requires (fate.Orphaned? <==> o.rows[id].key == "") && (fate.Deleted? ==> o.rows[id].key !in objects')
    ensures if fate.Failed? then Processed(o, objects', ids + [id], Tally(r, fate), cleared, failed + [id])
      else Processed(o, objects', ids + [id], Tally(r, fate), cleared + [id], failed)
  {
    SplitsNext(ids, cleared, failed, id);
    ErasedNext(o, objects, objects', ids, cleared, id);
    CountedNext(o.rows, ids, r, cleared, failed, id, fate);
  }

  /** How an attempt to delete an object goes; an error may hide a deletion that happened. */
  datatype Attempt = Works | Errs(gone: bool)

  /** Of the listed rows those failed whose object's delete errs or whose key is malformed, and no others. */
  ghost predicate FailedAre(rows: Rows, tries: Id -> Attempt, ids: seq<Id>, failed: seq<Id>) {
    forall id :: id in failed <==>
      id in ids && id in rows && rows[id].key != "" && ('/' !in rows[id].key || tries(id).Errs?)
  }

  class Store {
    var rows: Rows
    var objects: set<string>

    ghost function View(): State
      reads this
    {
      State(rows, objects)
    }

    /**
     Delete an object. A malformed key always errs, a missing object counts as deleted, and an
     error may hide a deletion that happened.
     */
    method Delete(key: string, attempt: Attempt) returns (ok: bool)
      modifies this`objects
      ensures ok <==> '/' in key && attempt.Works?
      ensures objects == if '/' in key && (attempt.Works? || attempt.gone) then old(objects) - {key} else old(objects)
    {
      if '/' !in key {
        return false;
      }
      match attempt {
        case Works =>
          objects := objects - {key};
          return true;
        case Errs(gone) =>
          if gone {
            objects := objects - {key};
          }
          return false;
      }
    }

    /**
     Process one listed row: an empty key has nothing to erase; otherwise its object is deleted,
     or the delete fails.
     */
    method PurgeRow(id: Id, attempt: Attempt) returns (fate: Fate)
      requires id in rows
      modifies this`objects
      ensures objects == old(objects) || objects == old(objects) - {rows[id].key}
      ensures fate.Orphaned? <==> rows[id].key == ""
      ensures fate.Failed? <==> rows[id].key != "" && ('/' !in rows[id].key || attempt.Errs?)
      ensures fate.Deleted? ==> rows[id].key !in objects
    {
      if rows[id].key == "" {
        return Orphaned;
      }
      var ok := Delete(rows[id].key, attempt);
      return if ok then Deleted else Failed;
    }

    /** Delete the objects of the listed rows, one by one. */
    method PurgeListed(listed: seq<Id>, tries: Id -> Attempt)
      returns (r: PurgeResult, done: seq<Id>, ghost failed: seq<Id>)
      requires Distinct(listed) && forall id :: id in listed ==> id in rows
      modifies this`objects
      ensures Processed(State(rows, old(objects)), objects, listed, r, done, failed)
      ensures FailedAre(rows, tries, listed, failed)
    {
      r, done, failed := PurgeResult(0, 0, 0), [], [];
      ghost var o := View();
      for i := 0 to |listed|
        invariant Processed(o, objects, listed[..i], r, done, failed) && FailedAre(rows, tries, listed[..i], failed)
      {
        var id := listed[i];
        assert listed[..i + 1] == listed[..i] + [id];
        ghost var before := objects;
        var fate := PurgeRow(id, tries(id));
        ProcessedNext(o, before, objects, listed[..i], r, done, failed, id, fate);
        if fate.Failed? {
          failed := failed + [id];
        } else {
          done := done + [id];
        }
        r := Tally(r, fate);
      }
      assert listed[..|listed|] == listed;
    }

    /** One pass over the head of the outbox. With nothing cleared there is nothing to confirm. */
    method PurgeArtifacts(limit: int, tries: Id -> Attempt, confirmFails: bool)
      returns (r: PurgeResult, confirmed: bool, ghost ids: seq<Id>, ghost cleared: seq<Id>, ghost failed: seq<Id>)
      modifies this
      ensures Purged(old(View()), View(), if limit <= 0 then PURGE_BATCH else limit, ids, cleared, failed, confirmed)
      ensures Counted(old(rows), ids, r, cleared, failed) && FailedAre(old(rows), tries, ids, failed)
      ensures confirmed <==> cleared == [] || !confirmFails
    {
      var listed := ListPurgePending(rows, if limit <= 0 then PURGE_BATCH else limit);
      ids := listed;
      var done;
      r, done, failed := PurgeListed(listed, tries);
      cleared := done;
      if done != [] {
        if confirmFails {
          return r, false, ids, cleared, failed; // a crash here, or a failed confirmation
        }
        rows := rows - Members(done);
      }
      confirmed := true;
    }
  }

  // --- safety over runs ---

  /**
   Rows enter the outbox with some deadline, or are hidden or shown again; none leaves it and no
   object is touched.
   */
  ghost predicate Enqueued(o: State, o': State) {
    && o'.objects == o.objects
    && o'.rows.Keys == o.rows.Keys
    && forall id :: id in o.rows ==>
      && o'.rows[id].key == o.rows[id].key
      && (o.rows[id].pending ==> o'.rows[id].pending && o'.rows[id].deadline == o.rows[id].deadline)
  }

  ghost predicate Next(o: State, o': State) {
    || Enqueued(o, o')
    || exists limit: nat, ids: seq<Id>, cleared: seq<Id>, failed: seq<Id>, confirmed: bool ::
        Purged(o, o', limit, ids, cleared, failed, confirmed)
  }

  ghost predicate Run(t: seq<State>) {
    forall i :: 0 <= i < |t| - 1 ==> Next(t[i], t[i + 1])
  }

  lemma PurgeStep(o: State, o': State, id: Id)
    requires Next(o, o') && id in o.rows
    ensures o'.objects <= o.objects
    ensures id in o'.rows ==> o'.rows[id].key == o.rows[id].key
    ensures id !in o'.rows ==> o.rows[id].pending && (o.rows[id].key == "" || o.rows[id].key !in o'.objects)
  {
  }

  /**
   Outbox safety: over every run, with any failures and any crash between delete and confirm, a
   manifest row has left only if its object is gone or it never had one.
   */
  lemma {:induction false} RowsLeaveAfterBytes(t: seq<State>, i: nat, j: nat, id: Id)
    requires Run(t) && i <= j < |t| && id in t[i].rows
    ensures t[j].objects <= t[i].objects
    ensures id in t[j].rows ==> t[j].rows[id].key == t[i].rows[id].key
    ensures id !in t[j].rows ==> t[i].rows[id].key == "" || t[i].rows[id].key !in t[j].objects
  {
    if i < j {
      RowsLeaveAfterBytes(t, i, j - 1, id);
      assert Next(t[j - 1], t[j]);
      if id in t[j - 1].rows {
        PurgeStep(t[j - 1], t[j], id);
      } else {
        ObjectsShrink(t[j - 1], t[j]);
      }
    }
  }

  lemma ObjectsShrink(o: State, o': State)
    requires Next(o, o')
    ensures o'.objects <= o.objects
  {
  }

  /** A failed row stays in the manifest, still pending. */
  lemma FailedStayPending(
    o: State, o': State, limit: nat, ids: seq<Id>, cleared: seq<Id>, failed: seq<Id>, confirmed: bool, id: Id)
    requires Purged(o, o', limit, ids, cleared, failed, confirmed) && id in failed
    ensures id in o'.rows && o'.rows[id] == o.rows[id] && o'.rows[id].pending
  {
    assert id in ids;
    var i :| 0 <= i < |ids| && ids[i] == id;
    assert ids[i] in Pending(o.rows);
  }

  /**
   Rows with equal content share an object, and the outbox does not look for other owners. In a
   call without failures a live row keeps its bytes exactly when no listed row carries its key.
   */
  lemma LiveBytesFate(o: State, o': State, limit: nat, ids: seq<Id>, cleared: seq<Id>, confirmed: bool, live: Id)
    requires Purged(o, o', limit, ids, cleared, [], confirmed)
    requires live in o.rows && !o.rows[live].pending && o.rows[live].key != "" && o.rows[live].key in o.objects
    ensures live in o'.rows
    ensures o.rows[live].key in o'.objects <==> forall id :: id in ids ==> o.rows[id].key != o.rows[live].key
  {
    assert forall x :: x in ids <==> x in cleared;
    forall id | id in ids ensures id != live {
      var i :| 0 <= i < |ids| && ids[i] == id;
      assert ids[i] in Pending(o.rows);
    }
  }

  // --- progress ---

  function Less(a: nat, b: nat): nat {
    if a < b then 0 else a - b
  }

  lemma ListedSplit(o: State, limit: nat, ids: seq<Id>)
    requires IsListing(o.rows, limit, ids)
    ensures Members(ids) <= Pending(o.rows) && |Members(ids)| == |ids|
  {
    DistinctCount(ids);
    forall x | x in ids ensures x in Pending(o.rows) {
      var i :| 0 <= i < |ids| && ids[i] == x;
    }
  }

  /** A confirmed call takes exactly the cleared rows off the outbox. */
  lemma ClearedLeave(o: State, o': State, limit: nat, ids: seq<Id>, cleared: seq<Id>, failed: seq<Id>)
    requires Purged(o, o', limit, ids, cleared, failed, true)
    ensures Pending(o'.rows) == Pending(o.rows) - Members(cleared)
    ensures |Pending(o'.rows)| == |Pending(o.rows)| - |cleared|
  {
    ListedSplit(o, limit, ids);
    DistinctCount(cleared);
    assert Members(cleared) <= Members(ids);
    SubsetCount(Members(cleared), Pending(o.rows));
  }

  /** Without failures a call clears a full batch, or everything. */
  lemma NoFailuresClearBatch(o: State, o': State, limit: nat, ids: seq<Id>, cleared: seq<Id>)
    requires Purged(o, o', limit, ids, cleared, [], true)
    ensures |Pending(o'.rows)| == Less(|Pending(o.rows)|, limit)
  {
    ClearedLeave(o, o', limit, ids, cleared, []);
  }

  /**
   No head-of-line blocking below the batch size: if only rows of `bad` fail and there are fewer
   of them than the batch, a call clears at least min(remaining good rows, batch minus bad).
   */
  lemma FewFailuresDoNotBlock(
    o: State, o': State, limit: nat, ids: seq<Id>, cleared: seq<Id>, failed: seq<Id>, confirmed: bool, bad: set<Id>)
    requires Purged(o, o', limit, ids, cleared, failed, confirmed)
    requires bad <= Pending(o.rows) && |bad| < limit
    requires forall id :: id in failed ==> id in bad
    ensures |cleared| >= limit - |bad| || |cleared| >= |Pending(o.rows) - bad|
  {
    DistinctCount(failed);
    SubsetCount(Members(failed), bad);
    SubsetCount(bad, Pending(o.rows));
  }

  /** Unless `bad` is exhausted first, a listing takes no row that every row of `bad` precedes. */
  lemma AllListedAreOld(o: State, limit: nat, ids: seq<Id>, bad: set<Id>)
    requires IsListing(o.rows, limit, ids) && bad <= Pending(o.rows) && limit <= |bad|
    requires forall b, g :: b in bad && g in Pending(o.rows) - bad ==> !NotLater(o.rows[g].deadline, o.rows[b].deadline)
    ensures Members(ids) <= bad
  {
    ListedSplit(o, limit, ids);
    forall x | x in ids && (exists b :: b in bad && b !in ids) ensures x in bad {
      var i :| 0 <= i < |ids| && ids[i] == x;
      var b :| b in bad && b !in ids;
      assert NotLater(o.rows[ids[i]].deadline, o.rows[b].deadline);
    }
    if forall b :: b in bad ==> b in ids {
      assert bad <= Members(ids);
      SubsetCount(bad, Members(ids));
    }
  }

  /**
   At the batch size the queue can block: with a batch of failing rows older than every other,
   every listing is all failures.
   */
  lemma ManyFailuresBlock(
    o: State, o': State, limit: nat, ids: seq<Id>, cleared: seq<Id>, failed: seq<Id>, confirmed: bool, bad: set<Id>)
    requires Purged(o, o', limit, ids, cleared, failed, confirmed)
    requires bad <= Pending(o.rows) && limit <= |bad|
    requires forall b, g :: b in bad && g in Pending(o.rows) - bad ==> !NotLater(o.rows[g].deadline, o.rows[b].deadline)
    requires forall id :: id in ids && id in bad ==> id in failed
    ensures cleared == [] && o'.rows == o.rows
  {
    ListedSplit(o, limit, ids);
    AllListedAreOld(o, limit, ids, bad);
    assert forall x :: x in cleared ==> x in ids;
    assert Members(cleared) == {};
    DistinctCount(cleared);
  }

  /** A batch's worth of rows, all pending and before every other pending row. */
  ghost predicate Clogs(o: State, limit: nat, bad: set<Id>) {
    && bad <= Pending(o.rows) && limit <= |bad|
    && forall b, g :: b in bad && g in Pending(o.rows) - bad ==> !NotLater(o.rows[g].deadline, o.rows[b].deadline)
  }

  /** Rows enter the outbox, each with a deadline after those of `bad`. */
  ghost predicate EnqueuedBehind(o: State, o': State, bad: set<Id>) {
    && Enqueued(o, o')
    && forall b, g :: b in bad && b in o.rows && g in o'.rows && o'.rows[g].pending && !o.rows[g].pending ==>
      !NotLater(o'.rows[g].deadline, o.rows[b].deadline)
  }

  /**
   Such a queue stays blocked, whatever is queued behind it, as long as those rows keep failing:
   no row ever leaves. Only rows queued ahead of them, as a disconnect's may be, get through.
   */
  lemma {:induction false} BlockedForever(t: seq<State>, n: nat, limit: nat, bad: set<Id>)
    requires n < |t| && Clogs(t[0], limit, bad)
    requires forall i :: 0 <= i < |t| - 1 ==>
      StuckCall(t[i], t[i + 1], limit, bad) || EnqueuedBehind(t[i], t[i + 1], bad)
    ensures t[n].rows.Keys == t[0].rows.Keys && Clogs(t[n], limit, bad)
  {
    if n > 0 {
      BlockedForever(t, n - 1, limit, bad);
      var o, o' := t[n - 1], t[n];
      assert StuckCall(o, o', limit, bad) || EnqueuedBehind(o, o', bad);
      if StuckCall(o, o', limit, bad) {
        var ids, cleared, failed, confirmed :| Purged(o, o', limit, ids, cleared, failed, confirmed) &&
          forall id :: id in ids && id in bad ==> id in failed;
        ManyFailuresBlock(o, o', limit, ids, cleared, failed, confirmed, bad);
      } else {
        StillClogs(o, o', limit, bad);
      }
    }
  }

  lemma StillClogs(o: State, o': State, limit: nat, bad: set<Id>)
    requires Clogs(o, limit, bad) && EnqueuedBehind(o, o', bad)
    ensures Clogs(o', limit, bad)
  {
    forall b, g | b in bad && g in Pending(o'.rows) - bad ensures !NotLater(o'.rows[g].deadline, o'.rows[b].deadline) {
      assert b in Pending(o.rows);
      if o.rows[g].pending {
        assert g in Pending(o.rows) - bad;
      }
    }
  }

  /** A call in which every listed row of `bad` fails. */
  ghost predicate StuckCall(o: State, o': State, limit: nat, bad: set<Id>) {
    exists ids: seq<Id>, cleared: seq<Id>, failed: seq<Id>, confirmed: bool ::
      && Purged(o, o', limit, ids, cleared, failed, confirmed)
      && forall id :: id in ids && id in bad ==> id in failed
  }

  /** The pending rows that never got an object. */
  function Keyless(rows: Rows): set<Id> {
    set id | id in rows && rows[id].pending && rows[id].key == ""
  }

  lemma {:induction false} KeylessCounted(rows: Rows, ids: seq<Id>)
    requires Distinct(ids) && forall id :: id in ids ==> id in Pending(rows)
    ensures |Members(ids) * Keyless(rows)| == KeylessCount(rows, ids)
  {
    if ids != [] {
      var n := |ids| - 1;
      var front, x := ids[..n], ids[n];
      forall id | id in front ensures id in Pending(rows) {
        assert id in ids;
      }
      KeylessCounted(rows, front);
      assert ids == front + [x];
      MembersWithin(front, x, Keyless(rows));
      assert x in ids && x in Pending(rows) && x !in front;
    }
  }

  /** A confirmed call takes exactly the listed rows without an object off that part of the outbox. */
  lemma KeylessLeave(o: State, o': State, limit: nat, ids: seq<Id>, cleared: seq<Id>, failed: seq<Id>)
    requires Purged(o, o', limit, ids, cleared, failed, true)
    requires forall id :: id in failed ==> id in o.rows && o.rows[id].key != ""
    ensures |Keyless(o'.rows)| == |Keyless(o.rows)| - KeylessCount(o.rows, ids)
  {
    ListedSplit(o, limit, ids);
    forall id | id in ids ensures id in Pending(o.rows) {
      assert id in Members(ids);
    }
    KeylessCounted(o.rows, ids);
    var gone := Members(ids) * Keyless(o.rows);
    SubsetCount(gone, Keyless(o.rows));
    forall id ensures id in Keyless(o'.rows) <==> id in Keyless(o.rows) - gone {
      assert id in Members(cleared) <==> id in cleared;
      assert id in Members(ids) <==> id in ids;
    }
    assert Keyless(o'.rows) == Keyless(o.rows) - gone;
  }

  /** Rows taken off the outbox are accounted for: those counted as deleted had an object, the others had none. */
  ghost predicate Conserved(before: Rows, after: Rows, deleted: nat) {
    |Pending(before)| - |Keyless(before)| == |Pending(after)| - |Keyless(after)| + deleted
  }

  /** What one batch of the maintenance loop did. */
  datatype Batch = Batch(ids: seq<Id>, cleared: seq<Id>, failed: seq<Id>)

  /** A maintenance pass: confirmed batches one after the other. */
  ghost predicate Batches(t: seq<State>, bs: seq<Batch>) {
    && |t| == |bs| + 1
    && forall i :: 0 <= i < |bs| ==> IsBatchOf(t[i], t[i + 1], bs[i])
  }

  ghost predicate IsBatchOf(o: State, o': State, b: Batch) {
    Purged(o, o', PURGE_BATCH, b.ids, b.cleared, b.failed, true)
  }

  /** It went to its end: all batches, or up to one that cleared nothing. */
  ghost predicate RanOut(bs: seq<Batch>) {
    |bs| == MAX_PURGE_BATCHES || (bs != [] && bs[|bs| - 1].cleared == [])
  }

  function FailedIn(bs: seq<Batch>): nat {
    if bs == [] then 0 else FailedIn(bs[..|bs| - 1]) + |bs[|bs| - 1].failed|
  }

  function Least(a: int, b: int): int {
    if a < b then a else b
  }

  /** One batch with failures in `bad` only. */
  lemma BatchClears(o: State, o': State, b: Batch, bad: set<Id>)
    requires Purged(o, o', PURGE_BATCH, b.ids, b.cleared, b.failed, true) && |bad| < PURGE_BATCH
    requires forall id :: id in b.failed ==> id in bad
    ensures |Pending(o'.rows)| <= |Pending(o.rows)| - (PURGE_BATCH - |bad|) || |Pending(o'.rows)| <= |bad|
    ensures b.cleared == [] ==> |Pending(o'.rows)| <= |bad|
  {
    var here := bad * Pending(o.rows);
    SubsetCount(here, bad);
    SubsetCount(here, Pending(o.rows));
    forall id | id in b.failed ensures id in here {
      FailedStayPending(o, o', PURGE_BATCH, b.ids, b.cleared, b.failed, true, id);
    }
    FewFailuresDoNotBlock(o, o', PURGE_BATCH, b.ids, b.cleared, b.failed, true, here);
    ClearedLeave(o, o', PURGE_BATCH, b.ids, b.cleared, b.failed);
  }

  lemma {:induction false} BatchesClear(t: seq<State>, bs: seq<Batch>, bad: set<Id>)
    requires Batches(t, bs) && |bad| < PURGE_BATCH
    requires forall i :: 0 <= i < |bs| ==> forall id :: id in bs[i].failed ==> id in bad
    ensures |Pending(t[|bs|].rows)| <= |Pending(t[0].rows)| - |bs| * (PURGE_BATCH - |bad|)
      || |Pending(t[|bs|].rows)| <= |bad|
    ensures bs != [] && bs[|bs| - 1].cleared == [] ==> |Pending(t[|bs|].rows)| <= |bad|
  {
    if bs != [] {
      var n := |bs| - 1;
      BatchesClear(t[..n + 1], bs[..n], bad);
      assert IsBatchOf(t[n], t[n + 1], bs[n]);
      BatchClears(t[n], t[n + 1], bs[n], bad);
      ClearedLeave(t[n], t[n + 1], PURGE_BATCH, bs[n].ids, bs[n].cleared, bs[n].failed);
      assert |bs| * (PURGE_BATCH - |bad|) == n * (PURGE_BATCH - |bad|) + (PURGE_BATCH - |bad|);
    }
  }

  /**
   Progress of a whole maintenance pass with fewer than two hundred failing rows: at least
   min(good rows, fifty times what the failing ones leave of a batch) leave the outbox.
   */
  lemma MaintenanceClears(t: seq<State>, bs: seq<Batch>, bad: set<Id>)
    requires Batches(t, bs) && RanOut(bs) && bad <= Pending(t[0].rows) && |bad| < PURGE_BATCH
    requires forall i :: 0 <= i < |bs| ==> forall id :: id in bs[i].failed ==> id in bad
    ensures |Pending(t[0].rows)| - |Pending(t[|bs|].rows)| >=
      Least(|Pending(t[0].rows) - bad|, MAX_PURGE_BATCHES * (PURGE_BATCH - |bad|))
  {
    BatchesClear(t, bs, bad);
    SubsetCount(bad, Pending(t[0].rows));
  }

  /**
   The maintenance loop: up to fifty batches, stopping early when one clears nothing. With no
   failure it takes ten thousand rows off the outbox, or all of them; in any case the rows with
   an object that left are exactly as many as it reports deleted.
   */
  method MaintenancePurge(s: Store, tries: nat -> Id -> Attempt, confirmFails: nat -> bool)
    returns (deleted: nat, failedCount: nat, ok: bool, ghost t: seq<State>, ghost bs: seq<Batch>)
    modifies s
    ensures Batches(t, bs) && t[0] == old(s.View()) && failedCount == FailedIn(bs)
    ensures t[|bs|].rows == s.rows && (ok ==> RanOut(bs) && t[|bs|] == s.View())
    ensures BatchesFail(t, bs, tries) && (!ok ==> confirmFails(|bs|))
    ensures |Pending(s.rows)| <= |Pending(old(s.rows))|
    ensures Conserved(old(s.rows), s.rows, deleted)
    ensures ok && failedCount == 0 ==>
      |Pending(s.rows)| == Less(|Pending(old(s.rows))|, PURGE_BATCH * MAX_PURGE_BATCHES)
  {
    deleted, failedCount, ok := 0, 0, true;
    t, bs := [s.View()], [];
    var i := 0;
    while i < MAX_PURGE_BATCHES
      invariant i == |bs| <= MAX_PURGE_BATCHES && ok
      invariant Batches(t, bs) && t[0] == old(s.View()) && t[|bs|] == s.View() && failedCount == FailedIn(bs)
      invariant |Pending(s.rows)| <= |Pending(old(s.rows))| && BatchesFail(t, bs, tries)
      invariant Conserved(old(s.rows), s.rows, deleted)
      invariant failedCount == 0 ==> |Pending(s.rows)| == Less(|Pending(old(s.rows))|, PURGE_BATCH * i)
    {
      ghost var o := s.View();
      var r, confirmed, ids, cleared, failed := s.PurgeArtifacts(0, tries(i), confirmFails(i));
      if !confirmed {
        return deleted, failedCount, false, t, bs;
      }
      BatchEffect(o, s.View(), ids, r, cleared, failed);
      ghost var b := Batch(ids, cleared, failed);
      BatchesNext(t, bs, s.View(), b, tries);
      t, bs := t + [s.View()], bs + [b];
      deleted, failedCount := deleted + r.deleted, failedCount + r.failed;
      if r.deleted == 0 && r.orphaned == 0 {
        break;
      }
      i := i + 1;
    }
  }

  /** In each batch exactly the rows failed whose deletes err, or whose keys are malformed. */
  ghost predicate BatchesFail(t: seq<State>, bs: seq<Batch>, tries: nat -> Id -> Attempt) {
    |bs| < |t| && forall i :: 0 <= i < |bs| ==> FailedAre(t[i].rows, tries(i), bs[i].ids, bs[i].failed)
  }

  /** Where every attempt works and every key is well formed or empty, nothing fails. */
  lemma {:induction false} NothingFails(t: seq<State>, bs: seq<Batch>, tries: nat -> Id -> Attempt)
    requires Batches(t, bs) && BatchesFail(t, bs, tries)
    requires forall i: nat, id: Id :: tries(i)(id).Works?
    requires forall id :: id in Pending(t[0].rows) ==> t[0].rows[id].key == "" || '/' in t[0].rows[id].key
    ensures FailedIn(bs) == 0
    ensures forall id :: id in t[|bs|].rows ==> id in t[0].rows && t[|bs|].rows[id] == t[0].rows[id]
  {
    if bs != [] {
      var n := |bs| - 1;
      NothingFails(t[..n + 1], bs[..n], tries);
      assert IsBatchOf(t[n], t[n + 1], bs[n]) && FailedAre(t[n].rows, tries(n), bs[n].ids, bs[n].failed);
      if bs[n].failed != [] {
        var id := bs[n].failed[0];
        FailedStayPending(t[n], t[n + 1], PURGE_BATCH, bs[n].ids, bs[n].cleared, bs[n].failed, true, id);
      }
    }
  }

  lemma BatchesNext(t: seq<State>, bs: seq<Batch>, o: State, b: Batch, tries: nat -> Id -> Attempt)
    requires Batches(t, bs) && Purged(t[|bs|], o, PURGE_BATCH, b.ids, b.cleared, b.failed, true)
    requires BatchesFail(t, bs, tries) && FailedAre(t[|bs|].rows, tries(|bs|), b.ids, b.failed)
    ensures Batches(t + [o], bs + [b]) && FailedIn(bs + [b]) == FailedIn(bs) + |b.failed|
    ensures BatchesFail(t + [o], bs + [b], tries)
  {
    var t', bs' := t + [o], bs + [b];
    assert bs'[..|bs|] == bs;
    forall i | 0 <= i < |bs'| ensures IsBatchOf(t'[i], t'[i + 1], bs'[i]) {
      assert t'[i] == t[i];
      if i < |bs| {
        assert t'[i + 1] == t[i + 1] && bs'[i] == bs[i];
        assert IsBatchOf(t[i], t[i + 1], bs[i]);
      }
    }
  }

  /** What a confirmed batch does to the counts. */
  lemma BatchEffect(o: State, o': State, ids: seq<Id>, r: PurgeResult, cleared: seq<Id>, failed: seq<Id>)
    requires Purged(o, o', PURGE_BATCH, ids, cleared, failed, true) && Counted(o.rows, ids, r, cleared, failed)
    ensures |Pending(o'.rows)| <= |Pending(o.rows)| && Conserved(o.rows, o'.rows, r.deleted)
    ensures r.failed == 0 ==> |Pending(o'.rows)| == Less(|Pending(o.rows)|, PURGE_BATCH)
    ensures r.deleted == 0 && r.orphaned == 0 <==> cleared == []
  {
    ClearedLeave(o, o', PURGE_BATCH, ids, cleared, failed);
    KeylessLeave(o, o', PURGE_BATCH, ids, cleared, failed);
    if r.failed == 0 {
      NoFailuresClearBatch(o, o', PURGE_BATCH, ids, cleared);
    }
  }
}
