/**
 The drain of one unit as the worker runs it: the emit closure that persists one artifact, the
 two paging loops that feed it, and the activity around them. At every point where the process can
 be cancelled, crash or see an error it takes the next of the given answers, so each contract holds
 for every way a call can be cut and says what the call makes of it.
 */
module UnitDrain {
  import opened SourceStream
  import opened Answers
  import opened Drain
  import opened Paging
  import opened ConnectionRun

  const PAGE_SIZE: int := 100
  const MAX_PAGES: int := 10
  const MAX_PAGES_HARD_CAP: int := 200

  function Max(a: Cursor, b: Cursor): Cursor {
    if a < b then b else a
  }

  /**
   The Postgres rows and the object store of one unit; `needsReauth` is its connection's status.
   `world` holds the answers to the steps that can go wrong, `lost` says after which of them a
   cursor write that nobody checks goes missing, and `behind` that one did.
   */
  class UnitStore {
    const h: Bytes -> Hash
    const world: nat -> Answer
    const lost: nat -> bool
    var asked: nat
    var cursor: Cursor
    var rows: map<ExternalId, Hash>
    var objects: map<Hash, Bytes>
    var count: nat
    var committed: bool
    var deleted: set<ExternalId>
    var needsReauth: bool
    var status: Status
    ghost var behind: bool

    ghost function View(): Db
      reads this
    {
      Db(cursor, rows, objects, count, committed, deleted)
    }

    /** The dedup test: the manifest already holds this content. */
    predicate Has(art: Item)
      reads this
    {
      art.id in rows && rows[art.id] == h(art.body)
    }

    constructor (h: Bytes -> Hash, world: nat -> Answer, lost: nat -> bool)
      ensures this.h == h && this.world == world && this.lost == lost && asked == 0
      ensures View() == Db(0, map[], map[], 0, false, {}) && !needsReauth && status == Idle && !behind
    {
      this.h, this.world, this.lost, asked := h, world, lost, 0;
      cursor, rows, objects, count, committed := 0, map[], map[], 0, false;
      deleted, needsReauth, status, behind := {}, false, Idle, false;
    }

    /** Take a step that can go wrong. */
    method Ask() returns (a: Answer)
      modifies this`asked
      ensures a == world(old(asked)) && asked == old(asked) + 1
    {
      a := world(asked);
      asked := asked + 1;
    }
  }

  /** The emit closure's captured variables: the in-memory high-water mark and the count of new writes. */
  class Emitter {
    const store: UnitStore
    ghost const since: nat // the answers taken before this call
    var high: Cursor
    var written: nat

    constructor (store: UnitStore)
      ensures this.store == store && since == store.asked && high == store.cursor && written == 0
    {
      this.store, since := store, store.asked;
      high := store.cursor;
      written := 0;
    }

    /**
     Persist one artifact: bytes first, then manifest row and cursor in one transaction. An
     unchanged artifact only advances the cursor. A failure leaves the row and the cursor as
     they were, or (when only the acknowledgement was lost) both written. The first answer that
     is not fine is what the caller gets.
     */
    method Emit(art: Item) returns (why: Answer)
      requires store.cursor <= high && Backed(store.h, store.View())
      modifies this, store`cursor, store`rows, store`objects, store`count, store`behind, store`asked
      ensures Backed(store.h, store.View())
      ensures old(store.objects).Keys <= store.objects.Keys
      ensures EndsWith(store.world, old(store.asked), store.asked, why)
      ensures old(store.behind) ==> store.behind
      ensures store.behind ==> old(store.behind) || (old(store.asked) < store.asked && store.lost(store.asked))
      ensures why == Fine ==>
        store.rows == old(store.rows)[art.id := store.h(art.body)] && high == Max(old(high), art.stamp)
      ensures why != Fine ==>
        || (store.rows == old(store.rows) && store.cursor == old(store.cursor))
        || Recorded(art, old(high), old(store.View()))
      ensures store.cursor == old(store.cursor) || (store.cursor == art.stamp && art.stamp > old(high))
      ensures why == Fine && !store.behind && old(store.cursor == high) ==> store.cursor == high
      ensures art.id in old(store.rows) && old(store.rows)[art.id] == store.h(art.body) ==>
        store.objects == old(store.objects) && store.count == old(store.count) && written == old(written)
      ensures why == Fine && !(art.id in old(store.rows) && old(store.rows)[art.id] == store.h(art.body)) ==>
        && store.objects == old(store.objects)[store.h(art.body) := art.body]
        && store.count == old(store.count) + 1 && written == old(written) + 1
    {
      why := store.Ask(); // the context is live and the stored hash can be read
      if why != Fine {
        return;
      }
      if store.Has(art) {
        if art.stamp > high {
          high := art.stamp;
          if store.lost(store.asked) {
            store.behind := true; // the cursor write failed, and its error is ignored
          } else {
            store.cursor := art.stamp;
          }
        }
        return;
      }
      ghost var before := store.asked;
      why := Write(art);
      EndsWithJoins(store.world, before - 1, before, store.asked, why);
    }

    /** The changed case: the object, then the transaction. */
    method Write(art: Item) returns (why: Answer)
      requires store.cursor <= high && Backed(store.h, store.View()) && !store.Has(art)
      modifies this, store`cursor, store`rows, store`objects, store`count, store`asked
      ensures Backed(store.h, store.View())
      ensures old(store.objects).Keys <= store.objects.Keys
      ensures EndsWith(store.world, old(store.asked), store.asked, why)
      ensures || (store.rows == old(store.rows) && store.cursor == old(store.cursor))
        || Recorded(art, old(high), old(store.View()))
      ensures why == Fine ==>
        && Recorded(art, old(high), old(store.View()))
        && high == Max(old(high), art.stamp)
        && store.objects == old(store.objects)[store.h(art.body) := art.body]
        && store.count == old(store.count) + 1 && written == old(written) + 1
    {
      why := store.Ask();
      if why != Fine {
        return;
      }
      store.objects := store.objects[store.h(art.body) := art.body];
      ghost var before := store.asked;
      why := Transact(art);
      EndsWithJoins(store.world, before - 1, before, store.asked, why);
    }

    /** The row is written, and the cursor has moved up to it if it is newer. */
    ghost predicate Recorded(art: Item, high: Cursor, d: Db)
      reads this, store
    {
      && store.rows == d.rows[art.id := store.h(art.body)]
      && store.cursor == if art.stamp > high then art.stamp else d.cursor
    }

    /** Row, cursor and count in one transaction, then the acknowledgement. */
    method Transact(art: Item) returns (why: Answer)
      requires store.cursor <= high && Backed(store.h, store.View()) && store.h(art.body) in store.objects
      modifies this, store`cursor, store`rows, store`count, store`asked
      ensures Backed(store.h, store.View())
      ensures EndsWith(store.world, old(store.asked), store.asked, why)
      ensures || (store.rows == old(store.rows) && store.cursor == old(store.cursor))
        || Recorded(art, old(high), old(store.View()))
      ensures why == Fine ==>
        && Recorded(art, old(high), old(store.View()))
        && high == Max(old(high), art.stamp)
        && store.count == old(store.count) + 1 && written == old(written) + 1
    {
      why := store.Ask(); // a crash here, or a failed transaction, leaves an orphan object
      if why != Fine {
        return;
      }
      assert AllFine(store.world, old(store.asked), store.asked);
      var advance := art.stamp != 0 && art.stamp > high;
      store.rows := store.rows[art.id := store.h(art.body)];
      if advance {
        store.cursor := art.stamp;
      }
      store.count := store.count + 1;
      why := store.Ask(); // committed, but the acknowledgement may be lost
      if why != Fine {
        return;
      }
      if advance {
        high := art.stamp;
      }
      written := written + 1;
    }
  }

  /** A cursor write between these answers was lost. */
  ghost predicate SomeLost(lost: nat -> bool, since: nat, asked: nat) {
    exists k: nat :: since < k <= asked && lost(k)
  }

  /** The emitter has persisted exactly the first `n` items of `todo`, starting from `d`; all went well so far. */
  ghost predicate Emitted(e: Emitter, d: Db, todo: seq<Item>, n: nat)
    reads e, e.store
  {
    && n <= |todo|
    && e.store.rows == ApplyRows(e.store.h, todo[..n], d.rows)
    && e.high == HighWater(todo[..n], d.cursor)
    && d.cursor <= e.store.cursor <= e.high
    && (!e.store.behind ==> e.store.cursor == e.high)
    && d.objects.Keys <= e.store.objects.Keys
    && Backed(e.store.h, e.store.View())
    && e.store.committed == d.committed && e.store.deleted == d.deleted
    && e.store.count == d.count + e.written
    && Told(e, Fine)
  }

  /** The answers this call has had, and what they account for. */
  ghost predicate Told(e: Emitter, why: Answer)
    reads e, e.store
  {
    && EndsWith(e.store.world, e.since, e.store.asked, why)
    && (e.store.behind ==> SomeLost(e.store.lost, e.since, e.store.asked))
  }

  /** A call that was cut: some prefix of `todo` is persisted and the cursor is within it. */
  ghost predicate Cut(e: Emitter, d: Db, todo: seq<Item>, why: Answer)
    reads e, e.store
  {
    && why != Fine && Told(e, why)
    && d.objects.Keys <= e.store.objects.Keys
    && Backed(e.store.h, e.store.View())
    && e.store.committed == d.committed && e.store.deleted == d.deleted
    && exists n: nat :: CutAt(e, d, todo, n)
  }

  ghost predicate CutAt(e: Emitter, d: Db, todo: seq<Item>, n: nat)
    reads e, e.store
  {
    && n <= |todo|
    && e.store.rows == ApplyRows(e.store.h, todo[..n], d.rows)
    && d.cursor <= e.store.cursor <= HighWater(todo[..n], d.cursor)
  }

  lemma TakeNext(h: Bytes -> Hash, d: Db, todo: seq<Item>, n: nat)
    requires n < |todo|
    ensures ApplyRows(h, todo[..n + 1], d.rows) == ApplyRows(h, todo[..n], d.rows)[todo[n].id := h(todo[n].body)]
    ensures HighWater(todo[..n + 1], d.cursor) == Max(HighWater(todo[..n], d.cursor), todo[n].stamp)
  {
    assert todo[..n + 1][..n] == todo[..n];
  }

  /** More answers, and perhaps a lost cursor write after the last of them, keep the account. */
  lemma ToldNext(world: nat -> Answer, lost: nat -> bool, since: nat, before: nat, asked: nat, why: Answer)
    requires EndsWith(world, since, before, Fine) && EndsWith(world, before, asked, why)
    ensures EndsWith(world, since, asked, why)
    ensures SomeLost(lost, since, before) || (before < asked && lost(asked)) ==> SomeLost(lost, since, asked)
  {
    EndsWithJoins(world, since, before, asked, why);
  }

  /** A step between two emits: it goes well, or the call ends here. */
  method Pause(e: Emitter, ghost d: Db, ghost todo: seq<Item>, ghost n: nat) returns (why: Answer)
    requires Emitted(e, d, todo, n)
    modifies e.store`asked
    ensures e.store.asked == old(e.store.asked) + 1
    ensures if why == Fine then Emitted(e, d, todo, n) else Cut(e, d, todo, why)
  {
    ghost var before := e.store.asked;
    why := e.store.Ask();
    ToldNext(e.store.world, e.store.lost, e.since, before, e.store.asked, why);
    assert CutAt(e, d, todo, n);
  }

  /** One emit moves the persisted prefix by one item, or cuts the call. */
  method EmitNext(e: Emitter, ghost d: Db, ghost todo: seq<Item>, ghost n: nat, art: Item) returns (why: Answer)
    requires n < |todo| && todo[n] == art && Emitted(e, d, todo, n)
    modifies e, e.store`cursor, e.store`rows, e.store`objects, e.store`count, e.store`behind, e.store`asked
    ensures old(e.store.asked) <= e.store.asked
    ensures why == Fine ==> Emitted(e, d, todo, n + 1) && e.high == Max(old(e.high), art.stamp)
    ensures why != Fine ==> Cut(e, d, todo, why)
  {
    TakeNext(e.store.h, d, todo, n);
    ghost var before := e.store.asked;
    why := e.Emit(art);
    ToldNext(e.store.world, e.store.lost, e.since, before, e.store.asked, why);
    if why != Fine {
      assert CutAt(e, d, todo, n) || CutAt(e, d, todo, n + 1);
    }
  }

  // --- the listing in pages ---

  /** GitHub's pages: full ones, then one short page (possibly empty) that ends the stream. */
  function Chunk(l: seq<Item>, perPage: nat): (pages: seq<seq<Item>>)
    requires perPage > 0
    ensures pages != []
    decreases |l|
  {
    if |l| < perPage then [l] else [l[..perPage]] + Chunk(l[perPage..], perPage)
  }

  /** The response to a page-numbered request. */
  function PageOf(l: seq<Item>, perPage: nat, page: nat): seq<Item>
    requires perPage > 0
    decreases page
  {
    if page == 0 then l[..if perPage < |l| then perPage else |l|]
    else if |l| < perPage then []
    else PageOf(l[perPage..], perPage, page - 1)
  }

  lemma {:induction false} FlatCons(p: seq<Item>, pages: seq<seq<Item>>)
    ensures Flat([p] + pages) == p + Flat(pages)
  {
    if pages == [] {
      assert [p] + pages == [p];
      assert [p][..0] == [];
    } else {
      FlatCons(p, pages[..|pages| - 1]);
      assert ([p] + pages)[..|pages|] == [p] + pages[..|pages| - 1];
    }
  }

  lemma {:induction false} ChunkIsPaging(l: seq<Item>, perPage: nat)
    requires perPage > 0
    ensures Flat(Chunk(l, perPage)) == l
    decreases |l|
  {
    if |l| < perPage {
      FlatCons(l, []);
      assert [l] + [] == [l];
    } else {
      ChunkIsPaging(l[perPage..], perPage);
      FlatCons(l[..perPage], Chunk(l[perPage..], perPage));
      assert l == l[..perPage] + l[perPage..];
    }
  }

  /** Asking for a page by number yields that page of the chunking, and only the last one is short. */
  lemma {:induction false} PageOfIsChunk(l: seq<Item>, perPage: nat, page: nat)
    requires perPage > 0 && page < |Chunk(l, perPage)|
    ensures PageOf(l, perPage, page) == Chunk(l, perPage)[page]
    ensures |PageOf(l, perPage, page)| < perPage <==> page == |Chunk(l, perPage)| - 1
    decreases page
  {
    if page > 0 && |l| >= perPage {
      PageOfIsChunk(l[perPage..], perPage, page - 1);
    }
  }

  ghost function Chunks(perPage: nat): seq<Item> -> seq<seq<Item>>
    requires perPage > 0
  {
    l => Chunk(l, perPage)
  }

  lemma ChunksArePages(perPage: nat)
    requires perPage > 0
    ensures IsPaging(Chunks(perPage))
  {
    forall l: seq<Item> ensures |Chunks(perPage)(l)| > 0 && Flat(Chunks(perPage)(l)) == l {
      ChunkIsPaging(l, perPage);
    }
  }

  // --- the paging loops ---

  /** How many of the issues of `pages` sit on the first `p` pages. */
  ghost function IssuesUpTo(pages: seq<seq<Item>>, p: nat): nat
    requires p <= |pages|
  {
    |Issues(Flat(pages[..p]))|
  }

  /** The issues of the first `p` pages are the head of the issues of the whole listing. */
  lemma HeadPages(pages: seq<seq<Item>>, p: nat)
    requires p <= |pages|
    ensures IssuesUpTo(pages, p) <= |Issues(Flat(pages))|
    ensures Issues(Flat(pages))[..IssuesUpTo(pages, p)] == Issues(Flat(pages[..p]))
  {
    assert pages[..|pages|] == pages;
    FlatPrefix(pages, p, |pages|);
    var all, k := Flat(pages), |Flat(pages[..p])|;
    assert all == all[..k] + all[k..];
    IssuesConcat(all[..k], all[k..]);
  }

  /** The items of `l` are those of `todo` from place `n` on. */
  ghost predicate Follows(todo: seq<Item>, n: nat, l: seq<Item>) {
    n + |l| <= |todo| && forall i :: 0 <= i < |l| ==> l[i] == todo[n + i]
  }

  /** The issues of page `p` follow those of the pages before it. */
  lemma NextPage(pages: seq<seq<Item>>, p: nat)
    requires p < |pages|
    ensures IssuesUpTo(pages, p + 1) == IssuesUpTo(pages, p) + |Issues(pages[p])| <= |Issues(Flat(pages))|
    ensures Follows(Issues(Flat(pages)), IssuesUpTo(pages, p), Issues(pages[p]))
  {
    FlatNext(pages, p);
    IssuesConcat(Flat(pages[..p]), pages[p]);
    HeadPages(pages, p + 1);
    FollowsHead(Issues(Flat(pages)), Issues(Flat(pages[..p])), Issues(pages[p]));
  }

  lemma FollowsHead(all: seq<Item>, a: seq<Item>, l: seq<Item>)
    requires |a| + |l| <= |all| && all[..|a| + |l|] == a + l
    ensures Follows(all, |a|, l)
  {
    forall i | 0 <= i < |l| ensures l[i] == all[|a| + i] {
      assert (a + l)[|a| + i] == all[..|a| + |l|][|a| + i];
    }
  }

  /** Emit a folded page in order. */
  method EmitPage(e: Emitter, ghost d: Db, ghost todo: seq<Item>, ghost n: nat, arts: seq<Item>, pos: Cursor)
    returns (why: Answer, newPos: Cursor)
    requires Follows(todo, n, arts)
    requires Emitted(e, d, todo, n) && pos == e.high
    modifies e, e.store`cursor, e.store`rows, e.store`objects, e.store`count, e.store`behind, e.store`asked
    ensures old(e.store.asked) <= e.store.asked
    ensures why == Fine ==> Emitted(e, d, todo, n + |arts|) && newPos == e.high
    ensures why != Fine ==> Cut(e, d, todo, why)
  {
    newPos := pos;
    for i := 0 to |arts|
      invariant Emitted(e, d, todo, n + i) && newPos == e.high && old(e.store.asked) <= e.store.asked
    {
      why := EmitNext(e, d, todo, n + i, arts[i]);
      if why != Fine {
        return;
      }
      if arts[i].stamp > newPos {
        newPos := arts[i].stamp;
      }
    }
    why := Fine;
  }

  /** Emit a page of Drive files, exporting each one first; either step, or a stop between files, may cut the call. */
  method EmitFiles(e: Emitter, ghost d: Db, ghost todo: seq<Item>, ghost n: nat, files: seq<Item>, pos: Cursor)
    returns (why: Answer, newPos: Cursor)
    requires Follows(todo, n, files)
    requires Emitted(e, d, todo, n) && pos == e.high
    modifies e, e.store`cursor, e.store`rows, e.store`objects, e.store`count, e.store`behind, e.store`asked
    ensures old(e.store.asked) <= e.store.asked
    ensures why == Fine ==> Emitted(e, d, todo, n + |files|) && newPos == e.high
    ensures why != Fine ==> Cut(e, d, todo, why)
  {
    newPos := pos;
    for i := 0 to |files|
      invariant Emitted(e, d, todo, n + i) && newPos == e.high && old(e.store.asked) <= e.store.asked
    {
      why := Pause(e, d, todo, n + i); // stopped between files, or the export failed
      if why != Fine {
        return;
      }
      why := EmitNext(e, d, todo, n + i, files[i]);
      if why != Fine {
        return;
      }
      if files[i].stamp > newPos {
        newPos := files[i].stamp;
      }
    }
    why := Fine;
  }

  lemma CutIsDrained(e: Emitter, items: seq<Item>, d: Db, why: Answer)
    requires Cut(e, d, Pending(items, d.cursor), why) && Backed(e.store.h, d)
    ensures exists n: nat :: Drained(e.store.h, items, d, e.store.View(), n, false)
  {
    var n: nat :| CutAt(e, d, Pending(items, d.cursor), n);
    assert Drained(e.store.h, items, d, e.store.View(), n, false);
  }

  lemma EmittedIsDrained(e: Emitter, items: seq<Item>, d: Db, n: nat, done: bool)
    requires Emitted(e, d, Pending(items, d.cursor), n)
    requires done ==> n == |Pending(items, d.cursor)|
    ensures Drained(e.store.h, items, d, e.store.View(), n, done)
  {
  }

  /**
   What every connector call guarantees: a drained prefix; the first answer that was not fine, if
   there was one, is what it returns; and otherwise it stops where it should.
   */
  ghost predicate CallPost(
    e: Emitter, items: seq<Item>, part: seq<Item> -> seq<seq<Item>>, lim: Limits, d: Db, done: bool, why: Answer)
    requires IsPaging(part) && ValidLimits(lim)
    reads e, e.store
  {
    && (exists n: nat :: Drained(e.store.h, items, d, e.store.View(), n, done))
    && e.store.committed == d.committed
    && Told(e, why) && e.since < e.store.asked
    && (why != Fine ==> !done)
    && (why == Fine ==>
      && done == DoneFrom(part, items, lim)(d.cursor)
      && (!e.store.behind ==> e.store.cursor == StepFrom(part, items, lim)(d.cursor)))
  }
}
