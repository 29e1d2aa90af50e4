/**
 What a drain of one sync unit may do to Postgres and object storage, and what every sequence
 of drains keeps, however each of them is cut short.
 */
module Drain {
  import opened SourceStream

  /**
   The rows one unit owns. `rows` is the manifest (external id to content hash), `objects` the
   object store by content address (an object key is the tenant and connector prefix followed
   by the hash), `committed` whether committed_at is set, `deleted` the rows with deleted_at set,
   which no drain touches.
   */
  datatype Db = Db(
    cursor: Cursor, rows: map<ExternalId, Hash>, objects: map<Hash, Bytes>,
    count: nat, committed: bool, deleted: set<ExternalId>)

  /** Every object sits under its own hash and every manifest row has its object. */
  ghost predicate Backed(h: Bytes -> Hash, d: Db) {
    && (forall k :: k in d.objects ==> h(d.objects[k]) == k)
    && (forall id :: id in d.rows ==> d.rows[id] in d.objects)
  }

  /** The item's current content is in the manifest and its bytes are in the store. */
  ghost predicate Stored(h: Bytes -> Hash, d: Db, it: Item) {
    && it.id in d.rows
    && d.rows[it.id] == h(it.body)
    && h(it.body) in d.objects
    && h(d.objects[h(it.body)]) == h(it.body)
  }

  /** The resume invariant: nothing strictly below the persisted cursor is missing or stale. */
  ghost predicate Gapless(h: Bytes -> Hash, items: seq<Item>, d: Db) {
    forall it :: it in items && !it.pull && it.stamp < d.cursor ==> Stored(h, d, it)
  }

  /** Every item of the listing is stored in its current version. */
  ghost predicate Complete(h: Bytes -> Hash, items: seq<Item>, d: Db) {
    forall it :: it in items && !it.pull ==> Stored(h, d, it)
  }

  /**
   The effect of one call, cut wherever it was cut: the first `n` pending items are in the
   manifest and no other row moved, the cursor is somewhere between where it was and the last
   of those items, storage lost nothing, and only a call that emitted everything may commit.
   */
  ghost predicate Drained(h: Bytes -> Hash, items: seq<Item>, d: Db, d': Db, n: nat, done: bool) {
    var todo := Pending(items, d.cursor);
    && n <= |todo|
    && d'.rows == ApplyRows(h, todo[..n], d.rows)
    && d.cursor <= d'.cursor <= HighWater(todo[..n], d.cursor)
    && d.objects.Keys <= d'.objects.Keys
    && (Backed(h, d) ==> Backed(h, d'))
    && (done ==> n == |todo|)
    && (d.committed ==> d'.committed)
    && (d'.committed && !d.committed ==> done)
    && d'.deleted == d.deleted
  }

  /** The unit's rows together with the source they mirror. */
  datatype State = State(src: Source, db: Db)

  ghost predicate Inv(h: Bytes -> Hash, s: State) {
    && ValidSource(s.src)
    && Backed(h, s.db)
    && s.db.cursor <= s.src.clock
    && Gapless(h, s.src.items, s.db)
  }

  /**
   A call against a fixed listing, a change of the source while no call runs, or a change of what
   is soft-deleted: rows are hidden by a sweep, a deselection or a disconnect and shown again by
   a reselection or a reconnect.
   */
  ghost predicate Next(h: Bytes -> Hash, s: State, s': State) {
    || (s'.src == s.src && exists n: nat, done: bool :: Drained(h, s.src.items, s.db, s'.db, n, done))
    || (s'.db == s.db && SourceMoves(s.src, s'.src))
    || (s'.src == s.src && s'.db == s.db.(deleted := s'.db.deleted))
  }

  ghost predicate Run(h: Bytes -> Hash, t: seq<State>) {
    && |t| > 0
    && Inv(h, t[0])
    && forall i :: 0 <= i < |t| - 1 ==> Next(h, t[i], t[i + 1])
  }

  /** An item that is stored, or that the call emits, is stored in its current version after the call. */
  lemma StoredKept(h: Bytes -> Hash, items: seq<Item>, d: Db, d': Db, n: nat, done: bool, it: Item)
    requires Sorted(items) && UniqueIds(items) && Backed(h, d)
    requires Drained(h, items, d, d', n, done)
    requires it in items && !it.pull
    requires Stored(h, d, it) || it in Pending(items, d.cursor)[..n]
    ensures Stored(h, d', it)
  {
    var todo := Pending(items, d.cursor);
    PendingIsFilter(items, d.cursor);
    if it in todo[..n] {
      AppliedRow(h, todo[..n], d.rows, it);
    } else {
      forall other | other in todo[..n] ensures other.id != it.id {
        assert other in todo && other in items && other != it;
        var i :| 0 <= i < |items| && items[i] == other;
        var j :| 0 <= j < |items| && items[j] == it;
      }
      UntouchedRow(h, todo[..n], d.rows, it.id);
    }
  }

  /** Whatever the cursor passes was emitted: the pending items are in ascending order. */
  lemma PassedIsEmitted(items: seq<Item>, c: Cursor, n: nat, it: Item)
    requires Sorted(items) && UniqueIds(items) && n <= |Pending(items, c)|
    requires it in items && !it.pull && c <= it.stamp < HighWater(Pending(items, c)[..n], c)
    ensures it in Pending(items, c)[..n]
  {
    var todo := Pending(items, c);
    PendingIsFilter(items, c);
    HighWaterIsMax(todo[..n], c);
    var i :| 0 <= i < |todo| && todo[i] == it;
    var j :| 0 <= j < n && todo[..n][j].stamp == HighWater(todo[..n], c);
    assert todo[i].stamp < todo[j].stamp;
    assert i < n && todo[..n][i] == it;
  }

  lemma MarkWithinClock(src: Source, c: Cursor, n: nat)
    requires ValidSource(src) && c <= src.clock && n <= |Pending(src.items, c)|
    ensures HighWater(Pending(src.items, c)[..n], c) <= src.clock
  {
    var todo := Pending(src.items, c);
    PendingIsFilter(src.items, c);
    HighWaterIsMax(todo[..n], c);
    if HighWater(todo[..n], c) != c {
      var j :| 0 <= j < n && todo[..n][j].stamp == HighWater(todo[..n], c);
      assert todo[j] in src.items;
    }
  }

  /** A call cut at any point leaves the resume invariant standing, with the cursor no lower. */
  lemma CallKeepsInv(h: Bytes -> Hash, s: State, d': Db, n: nat, done: bool)
    requires Inv(h, s) && Drained(h, s.src.items, s.db, d', n, done)
    ensures Inv(h, s.(db := d'))
    ensures s.db.cursor <= d'.cursor
  {
    var items, c := s.src.items, s.db.cursor;
    MarkWithinClock(s.src, c, n);
    forall it | it in items && !it.pull && it.stamp < d'.cursor ensures Stored(h, d', it) {
      if c <= it.stamp {
        PassedIsEmitted(items, c, n, it);
      }
      StoredKept(h, items, s.db, d', n, done, it);
    }
  }

  lemma SourceKeepsInv(h: Bytes -> Hash, s: State, src': Source)
    requires Inv(h, s) && SourceMoves(s.src, src')
    ensures Inv(h, s.(src := src'))
  {
  }

  /**
   Gapless resume over every run: at every moment of every sequence of interrupted calls and
   source changes the invariant holds, and the persisted cursor never decreases.
   */
  lemma {:induction false} RunIsGapless(h: Bytes -> Hash, t: seq<State>, i: nat, j: nat)
    requires Run(h, t) && i <= j < |t|
    ensures Inv(h, t[j])
    ensures t[i].db.cursor <= t[j].db.cursor
    ensures t[i].db.rows.Keys <= t[j].db.rows.Keys
    ensures t[i].db.committed ==> t[j].db.committed
  {
    if j > 0 {
      RunIsGapless(h, t, if i < j then i else j - 1, j - 1);
      var s, s' := t[j - 1], t[j];
      assert Next(h, s, s');
      if s'.src == s.src && exists n: nat, done: bool :: Drained(h, s.src.items, s.db, s'.db, n, done) {
        var n: nat, done: bool :| Drained(h, s.src.items, s.db, s'.db, n, done);
        CallKeepsInv(h, s, s'.db, n, done);
        RowsOnlyGrow(h, Pending(s.src.items, s.db.cursor)[..n], s.db.rows);
        assert s' == s.(db := s'.db);
      } else if s'.db == s.db {
        SourceKeepsInv(h, s, s'.src);
        assert s' == s.(src := s'.src);
      } else {
        assert forall it :: Stored(h, s.db, it) ==> Stored(h, s'.db, it);
      }
    }
  }

  /** A call that reports done leaves every source item stored, whatever cut the earlier ones. */
  lemma DoneIsComplete(h: Bytes -> Hash, s: State, d': Db, n: nat)
    requires Inv(h, s) && Drained(h, s.src.items, s.db, d', n, true)
    ensures Complete(h, s.src.items, d')
  {
    var todo := Pending(s.src.items, s.db.cursor);
    PendingIsFilter(s.src.items, s.db.cursor);
    assert todo[..n] == todo;
    forall it | it in s.src.items && !it.pull ensures Stored(h, d', it) {
      StoredKept(h, s.src.items, s.db, d', n, true, it);
    }
  }

  /** Later calls on the same listing keep a complete unit complete. */
  lemma CompleteKept(h: Bytes -> Hash, items: seq<Item>, d: Db, d': Db, n: nat, done: bool)
    requires Sorted(items) && UniqueIds(items) && Backed(h, d)
    requires Complete(h, items, d) && Drained(h, items, d, d', n, done)
    ensures Complete(h, items, d')
  {
    forall it | it in items && !it.pull ensures Stored(h, d', it) {
      StoredKept(h, items, d, d', n, done, it);
    }
  }

  /** With a collision-free hash the stored bytes are the item's own bytes. */
  lemma StoredBytes(h: Bytes -> Hash, d: Db, it: Item)
    requires forall a, b :: h(a) == h(b) ==> a == b
    requires Stored(h, d, it)
    ensures d.objects[h(it.body)] == it.body
  {
    assert h(d.objects[h(it.body)]) == h(it.body);
  }

  /** The visibility gate of the file list: a row that is not soft-deleted shows once its unit is committed. */
  predicate Visible(d: Db, id: ExternalId) {
    d.committed && id in d.rows && id !in d.deleted
  }

  /** The step that first commits a unit is a full pass. */
  lemma CommitIsFullPass(h: Bytes -> Hash, s: State, s': State)
    requires Inv(h, s) && Next(h, s, s')
    requires !s.db.committed && s'.db.committed
    ensures Complete(h, s'.src.items, s'.db)
  {
    var n: nat, done: bool :| Drained(h, s.src.items, s.db, s'.db, n, done);
    DoneIsComplete(h, s, s'.db, n);
  }

  lemma {:induction false} FirstCommit(t: seq<State>, n: nat) returns (m: nat)
    requires n < |t| && !t[0].db.committed && t[n].db.committed
    ensures 0 < m <= n && !t[m - 1].db.committed && t[m].db.committed
  {
    if t[n - 1].db.committed {
      m := FirstCommit(t, n - 1);
    } else {
      m := n;
    }
  }

  /**
   Only complete units become visible. If a unit that started uncommitted shows an item, then
   at some earlier moment of the run a full pass had stored the whole source of that moment,
   nothing was visible before it, and everything of it that is not soft-deleted is listable now.
   */
  lemma VisibleOnlyAfterFullPass(h: Bytes -> Hash, t: seq<State>, n: nat, id: ExternalId) returns (m: nat)
    requires Run(h, t) && n < |t|
    requires !t[0].db.committed
    requires Visible(t[n].db, id)
    ensures 0 < m <= n
    ensures Complete(h, t[m].src.items, t[m].db)
    ensures forall k :: 0 <= k < m ==> !t[k].db.committed
    ensures forall it :: it in t[m].src.items && !it.pull ==> (Visible(t[n].db, it.id) <==> it.id !in t[n].db.deleted)
  {
    m := FirstCommit(t, n);
    RunIsGapless(h, t, 0, m - 1);
    RunIsGapless(h, t, m, n);
    CommitIsFullPass(h, t[m - 1], t[m]);
    forall k | 0 <= k < m ensures !t[k].db.committed {
      RunIsGapless(h, t, k, m - 1);
    }
    forall it | it in t[m].src.items && !it.pull ensures Visible(t[n].db, it.id) <==> it.id !in t[n].db.deleted {
      assert Stored(h, t[m].db, it);
    }
  }
}
