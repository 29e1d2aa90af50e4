/**
 The connectors' drain calls and the SyncUnit activity, each shown to have exactly the effect
 Drain and Paging speak about.
 */
module Connectors {
  import opened SourceStream
  import opened Answers
  import opened Drain
  import opened Paging
  import opened IssueFold
  import opened UnitDrain
  import opened ConnectionRun

  /** The configured page size and budget, or the defaults; the ceiling is never below the budget. */
  function Configured(value: int, fallback: int): (r: int)
    requires fallback > 0
    ensures r > 0 && (value > 0 ==> r == value) && (value <= 0 ==> r == fallback)
  {
    if value <= 0 then fallback else value
  }

  function LimitsOf(maxPages: int): (lim: Limits)
    ensures ValidLimits(lim) && lim.maxPages == (if maxPages > 0 then maxPages else 10)
    ensures lim.hardCap >= 200 && (lim.hardCap == 200 || lim.hardCap == maxPages)
  {
    var m := Configured(maxPages, MAX_PAGES);
    Limits(m, if m > MAX_PAGES_HARD_CAP then m else MAX_PAGES_HARD_CAP)
  }

  /** A call begins: the emitter has emitted nothing, its mark is the persisted cursor, nothing has interfered. */
  ghost predicate Fresh(e: Emitter)
    reads e, e.store
  {
    && e.high == e.store.cursor && e.written == 0 && !e.store.behind && e.since == e.store.asked
    && Backed(e.store.h, e.store.View())
  }

  /** The state of a paging loop about to fetch page `page`. */
  ghost predicate AtPage(e: Emitter, d: Db, pages: seq<seq<Item>>, lim: Limits, page: nat)
    requires ValidLimits(lim) && pages != []
    reads e, e.store
  {
    && 1 <= page <= lim.hardCap + 1
    && page - 1 < |pages|
    && Emitted(e, d, Issues(Flat(pages)), IssuesUpTo(pages, page - 1))
    && (page > 1 ==> e.since < e.store.asked)
    && (if page <= lim.hardCap then StopPage(pages, d.cursor, lim, page) == StopPage(pages, d.cursor, lim, 1)
        else StopPage(pages, d.cursor, lim, 1) == lim.hardCap)
  }

  /** The paging loop has ended: cut, or after page `last`, which is the stop page. */
  ghost predicate LoopEnded(
    e: Emitter, d: Db, pages: seq<seq<Item>>, lim: Limits, last: nat, done: bool, why: Answer)
    requires ValidLimits(lim) && pages != []
    reads e, e.store
  {
    if why != Fine then !done && Cut(e, d, Issues(Flat(pages)), why) else
      && 1 <= last <= |pages| && done == (last == |pages|)
      && StopPage(pages, d.cursor, lim, 1) == last
      && Emitted(e, d, Issues(Flat(pages)), IssuesUpTo(pages, last)) && e.since < e.store.asked
  }

  lemma LoopPost(
    e: Emitter, items: seq<Item>, part: seq<Item> -> seq<seq<Item>>, lim: Limits, d: Db, last: nat, done: bool,
    why: Answer)
    requires IsPaging(part) && ValidLimits(lim) && Backed(e.store.h, d)
    requires LoopEnded(e, d, part(Since(items, d.cursor)), lim, last, done, why)
    ensures CallPost(e, items, part, lim, d, done, why)
  {
    if why == Fine {
      StopsHere(e, items, part, lim, d, last, done);
    } else {
      CutPost(e, items, part, lim, d, why);
    }
  }

  /** Stopping after page `page`, where the loop's own test says so, is stopping at the stop page. */
  lemma StopsHere(
    e: Emitter, items: seq<Item>, part: seq<Item> -> seq<seq<Item>>, lim: Limits, d: Db, page: nat, done: bool)
    requires IsPaging(part) && ValidLimits(lim) && Backed(e.store.h, d)
    requires 1 <= page <= |part(Since(items, d.cursor))|
    requires Emitted(e, d, Pending(items, d.cursor), IssuesUpTo(part(Since(items, d.cursor)), page))
    requires StopPage(part(Since(items, d.cursor)), d.cursor, lim, 1) == page
    requires done == (page == |part(Since(items, d.cursor))|) && e.since < e.store.asked
    ensures CallPost(e, items, part, lim, d, done, Fine)
  {
    var pages := part(Since(items, d.cursor));
    assert pages[..|pages|] == pages;
    HeadPages(pages, page);
    EmittedIsDrained(e, items, d, IssuesUpTo(pages, page), done);
  }

  lemma CutPost(e: Emitter, items: seq<Item>, part: seq<Item> -> seq<seq<Item>>, lim: Limits, d: Db, why: Answer)
    requires IsPaging(part) && ValidLimits(lim) && Backed(e.store.h, d)
    requires Cut(e, d, Pending(items, d.cursor), why)
    ensures CallPost(e, items, part, lim, d, false, why)
  {
    CutIsDrained(e, items, d, why);
  }

  /** The loop's plateau test reads the high-water mark, which is where the emitted pages reach. */
  lemma MarkIsReached(e: Emitter, d: Db, pages: seq<seq<Item>>, page: nat)
    requires page <= |pages| && Emitted(e, d, Issues(Flat(pages)), IssuesUpTo(pages, page))
    ensures e.high == Reached(Flat(pages[..page]), d.cursor)
  {
    HeadPages(pages, page);
  }

  /** After page `page` the loop's own tests say whether it is the stop page. */
  lemma PageTurned(e: Emitter, d: Db, pages: seq<seq<Item>>, lim: Limits, page: nat)
    requires ValidLimits(lim) && 1 <= page <= |pages| && page <= lim.hardCap && e.since < e.store.asked
    requires Emitted(e, d, Issues(Flat(pages)), IssuesUpTo(pages, page))
    requires StopPage(pages, d.cursor, lim, page) == StopPage(pages, d.cursor, lim, 1)
    ensures if page == |pages| || (page >= lim.maxPages && e.high != d.cursor)
      then StopPage(pages, d.cursor, lim, 1) == page
      else AtPage(e, d, pages, lim, page + 1)
  {
    MarkIsReached(e, d, pages, page);
  }

  /** Fetch a page of issues, fold and emit it. */
  method IssuePage(e: Emitter, ghost d: Db, ghost todo: seq<Item>, ghost n: nat, raws: seq<Item>, pos: Cursor)
    returns (why: Answer, newPos: Cursor)
    requires Follows(todo, n, Issues(raws))
    requires Emitted(e, d, todo, n) && pos == e.high
    modifies e, e.store`cursor, e.store`rows, e.store`objects, e.store`count, e.store`behind, e.store`asked
    ensures old(e.store.asked) < e.store.asked
    ensures why == Fine ==> Emitted(e, d, todo, n + |Issues(raws)|) && newPos == e.high
    ensures why != Fine ==> Cut(e, d, todo, why)
  {
    newPos := pos;
    why := Pause(e, d, todo, n); // stopped between pages, or the page did not arrive
    if why != Fine {
      return;
    }
    var arts;
    why, arts := FoldPage(e, d, todo, n, raws);
    if why == Fine {
      why, newPos := EmitPage(e, d, todo, n, arts, newPos);
    }
  }

  /** The fold takes its answers from the same stream. */
  method FoldPage(e: Emitter, ghost d: Db, ghost todo: seq<Item>, ghost n: nat, raws: seq<Item>)
    returns (why: Answer, arts: seq<Item>)
    requires Emitted(e, d, todo, n)
    modifies e.store`asked
    ensures old(e.store.asked) <= e.store.asked
    ensures if why == Fine then arts == Issues(raws) && Emitted(e, d, todo, n) else Cut(e, d, todo, why)
  {
    ghost var before := e.store.asked;
    var r, asked, _ := FoldIssuePage(raws, e.store.world, e.store.asked);
    e.store.asked := asked;
    why, arts := if r.Folded? then Fine else r.why, if r.Folded? then r.arts else [];
    ToldNext(e.store.world, e.store.lost, e.since, before, asked, why);
    assert CutAt(e, d, todo, n);
  }

  /** The same, as one turn of the paging loop. */
  method NextIssuePage(
    e: Emitter, ghost d: Db, ghost pages: seq<seq<Item>>, page: nat, listing: seq<Item>, size: nat, pos: Cursor)
    returns (why: Answer, short: bool, newPos: Cursor)
    requires size > 0 && pages == Chunk(listing, size) && 1 <= page <= |pages|
    requires Emitted(e, d, Issues(Flat(pages)), IssuesUpTo(pages, page - 1)) && pos == e.high
    modifies e, e.store`cursor, e.store`rows, e.store`objects, e.store`count, e.store`behind, e.store`asked
    ensures old(e.store.asked) < e.store.asked
    ensures why == Fine ==> Emitted(e, d, Issues(Flat(pages)), IssuesUpTo(pages, page)) && newPos == e.high
    ensures why != Fine ==> Cut(e, d, Issues(Flat(pages)), why)
    ensures short <==> page == |pages|
  {
    var raws := PageOf(listing, size, page - 1);
    short := |raws| < size;
    PageOfIsChunk(listing, size, page - 1);
    ghost var todo, n, n' := Issues(Flat(pages)), IssuesUpTo(pages, page - 1), IssuesUpTo(pages, page);
    assert n' == n + |Issues(raws)| && Follows(todo, n, Issues(raws)) by {
      NextPage(pages, page - 1);
    }
    why, newPos := IssuePage(e, d, todo, n, raws, pos);
  }

  /** Fetch a page of Drive files and emit it, exporting each file first. */
  method FilePage(e: Emitter, ghost d: Db, ghost todo: seq<Item>, ghost n: nat, files: seq<Item>, pos: Cursor)
    returns (why: Answer, newPos: Cursor)
    requires Follows(todo, n, files)
    requires Emitted(e, d, todo, n) && pos == e.high
    modifies e, e.store`cursor, e.store`rows, e.store`objects, e.store`count, e.store`behind, e.store`asked
    ensures old(e.store.asked) < e.store.asked
    ensures why == Fine ==> Emitted(e, d, todo, n + |files|) && newPos == e.high
    ensures why != Fine ==> Cut(e, d, todo, why)
  {
    newPos := pos;
    why := Pause(e, d, todo, n); // stopped between pages, or the page did not arrive
    if why == Fine {
      why, newPos := EmitFiles(e, d, todo, n, files, pos);
    }
  }

  method NextFilePage(
    e: Emitter, ghost d: Db, ghost pages: seq<seq<Item>>, ghost page: nat, files: seq<Item>, pos: Cursor)
    returns (why: Answer, newPos: Cursor)
    requires 1 <= page <= |pages| && files == pages[page - 1] && NoPullIn(pages)
    requires Emitted(e, d, Issues(Flat(pages)), IssuesUpTo(pages, page - 1)) && pos == e.high
    modifies e, e.store`cursor, e.store`rows, e.store`objects, e.store`count, e.store`behind, e.store`asked
    ensures old(e.store.asked) < e.store.asked
    ensures why == Fine ==> Emitted(e, d, Issues(Flat(pages)), IssuesUpTo(pages, page)) && newPos == e.high
    ensures why != Fine ==> Cut(e, d, Issues(Flat(pages)), why)
  {
    ghost var todo, n, n' := Issues(Flat(pages)), IssuesUpTo(pages, page - 1), IssuesUpTo(pages, page);
    assert n' == n + |files| && Follows(todo, n, files) by {
      NextPage(pages, page - 1);
      FilesOnly(pages, page - 1);
    }
    why, newPos := FilePage(e, d, todo, n, files, pos);
  }

  /**
   One repository's issues, page by page, updated ascending. Any page fetch, fold or emit may
   cut the call; otherwise it stops at the end of the stream, at the budget once the mark has
   left the starting cursor, or at the ceiling.
   */
  method SyncRepoIssues(e: Emitter, items: seq<Item>, perPage: int, maxPages: int) returns (done: bool, why: Answer)
    requires Fresh(e)
    modifies e, e.store`cursor, e.store`rows, e.store`objects, e.store`count, e.store`behind, e.store`asked
    ensures IsPaging(Chunks(Configured(perPage, PAGE_SIZE)))
    ensures var part := Chunks(Configured(perPage, PAGE_SIZE));
      CallPost(e, items, part, LimitsOf(maxPages), old(e.store.View()), done, why)
  {
    var size, lim := Configured(perPage, PAGE_SIZE), LimitsOf(maxPages);
    ghost var d := e.store.View();
    ghost var last;
    assert Chunk(Since(items, d.cursor), size)[..0] == [];
    done, why, last := PageThrough(e, d, Since(items, e.store.cursor), size, lim);
    ChunksArePages(size);
    LoopPost(e, items, Chunks(size), lim, d, last, done, why);
  }

  /** The loop over the numbered pages. */
  method PageThrough(e: Emitter, ghost d: Db, listing: seq<Item>, size: nat, lim: Limits)
    returns (done: bool, why: Answer, ghost last: nat)
    requires size > 0 && ValidLimits(lim)
    requires AtPage(e, d, Chunk(listing, size), lim, 1) && e.high == d.cursor == e.store.cursor
    modifies e, e.store`cursor, e.store`rows, e.store`objects, e.store`count, e.store`behind, e.store`asked
    ensures LoopEnded(e, d, Chunk(listing, size), lim, last, done, why)
  {
    var cursor := e.store.cursor;
    ghost var pages := Chunk(listing, size);
    var newPos, page := cursor, 1;
    done, last := false, 0;
    while page <= lim.hardCap
      invariant AtPage(e, d, pages, lim, page) && newPos == e.high && !done && last == page - 1
    {
      var short;
      why, short, newPos := NextIssuePage(e, d, pages, page, listing, size, newPos);
      if why != Fine {
        return;
      }
      last := page;
      PageTurned(e, d, pages, lim, page);
      if short {
        done := true; // natural end of the stream
        break;
      }
      if page >= lim.maxPages && newPos != cursor {
        break; // budget reached and the mark moved
      }
      page := page + 1;
    }
    why := Fine;
  }

  lemma {:induction false} NoPulls(l: seq<Item>)
    requires forall it :: it in l ==> !it.pull
    ensures Issues(l) == l
  {
    if l != [] {
      NoPulls(l[..|l| - 1]);
      assert l == l[..|l| - 1] + [l[|l| - 1]];
    }
  }

  lemma PageMembers(pages: seq<seq<Item>>, page: nat)
    requires page < |pages|
    ensures forall it :: it in pages[page] ==> it in Flat(pages)
  {
    FlatNext(pages, page);
    assert pages[..|pages|] == pages;
    FlatPrefix(pages, page + 1, |pages|);
  }

  ghost predicate NoPullIn(pages: seq<seq<Item>>) {
    forall it :: it in Flat(pages) ==> !it.pull
  }

  /** A page of files is emitted whole. */
  lemma FilesOnly(pages: seq<seq<Item>>, i: nat)
    requires i < |pages| && NoPullIn(pages)
    ensures Issues(pages[i]) == pages[i]
  {
    PageMembers(pages, i);
    NoPulls(pages[i]);
  }

  lemma DriveHasNoPulls(items: seq<Item>, part: seq<Item> -> seq<seq<Item>>, c: Cursor)
    requires IsPaging(part) && forall it :: it in items ==> !it.pull
    ensures NoPullIn(part(Since(items, c)))
  {
    SinceLength(items, c);
  }

  /**
   One Drive, token-paged: the provider cuts the listing as it likes (short and empty pages
   included) and only the missing next-page token ends the stream.
   */
  method SyncDrive(e: Emitter, items: seq<Item>, part: seq<Item> -> seq<seq<Item>>, maxPages: int)
    returns (done: bool, why: Answer)
    requires Fresh(e) && IsPaging(part)
    requires forall it :: it in items ==> !it.pull
    modifies e, e.store`cursor, e.store`rows, e.store`objects, e.store`count, e.store`behind, e.store`asked
    ensures CallPost(e, items, part, LimitsOf(maxPages), old(e.store.View()), done, why)
  {
    var lim, pages := LimitsOf(maxPages), part(Since(items, e.store.cursor));
    ghost var d := e.store.View();
    ghost var last;
    DriveHasNoPulls(items, part, d.cursor);
    assert pages[..0] == [];
    done, why, last := FollowTokens(e, d, pages, lim);
    LoopPost(e, items, part, lim, d, last, done, why);
  }

  /** The loop over the pages and their tokens. */
  method FollowTokens(e: Emitter, ghost d: Db, pages: seq<seq<Item>>, lim: Limits)
    returns (done: bool, why: Answer, ghost last: nat)
    requires ValidLimits(lim) && pages != [] && NoPullIn(pages)
    requires AtPage(e, d, pages, lim, 1) && e.high == d.cursor == e.store.cursor
    modifies e, e.store`cursor, e.store`rows, e.store`objects, e.store`count, e.store`behind, e.store`asked
    ensures LoopEnded(e, d, pages, lim, last, done, why)
  {
    var cursor := e.store.cursor;
    var newPos, page := cursor, 1;
    done, last := false, 0;
    while page <= lim.hardCap
      invariant AtPage(e, d, pages, lim, page) && newPos == e.high && !done && last == page - 1
    {
      why, newPos := NextFilePage(e, d, pages, page, pages[page - 1], newPos);
      if why != Fine {
        return;
      }
      last := page;
      PageTurned(e, d, pages, lim, page);
      if page == |pages| {
        done := true; // no next-page token
        break;
      }
      if page >= lim.maxPages && newPos != cursor {
        break;
      }
      page := page + 1;
    }
    why := Fine;
  }

  /** The two cursored connectors. */
  datatype Connector = GitHub(perPage: int, maxPages: int) | Drive(part: seq<Item> -> seq<seq<Item>>, maxPages: int)

  ghost predicate Serves(c: Connector, items: seq<Item>) {
    c.Drive? ==> IsPaging(c.part) && forall it :: it in items ==> !it.pull
  }

  ghost function PagingOf(c: Connector): (part: seq<Item> -> seq<seq<Item>>)
    requires c.Drive? ==> IsPaging(c.part)
    ensures IsPaging(part)
  {
    match c
    case GitHub(perPage, _) =>
      ChunksArePages(Configured(perPage, PAGE_SIZE));
      Chunks(Configured(perPage, PAGE_SIZE))
    case Drive(part, _) => part
  }

  /**
   How a unit drain ends: cut before or after the source call, stopped, refused by the source or
   its credentials (with whether the failure could be recorded), partly or fully drained.
   */
  datatype SyncResult = Aborted | Stopped | Rejected(kind: Failure, recorded: bool) | More | CaughtUp

  /**
   What happens around the source call, given in advance: a stop that arrives as it returns, a
   failure that cannot be recorded, a commit that fails, a statement after the commit that does.
   */
  datatype Aftermath = Aftermath(stopLate: bool, recordFails: bool, commitFails: bool, tailFails: bool)

  /**
   How a drain ends, told from the last of the `n` answers it took, every one before it being fine:
   the first is to loading and marking the unit, the second to the credentials, the third to the
   admission slot, and the rest are the source call's. A call all of whose answers were fine is
   done or not.
   */
  ghost predicate ResultFits(r: SyncResult, n: nat, last: Answer, a: Aftermath, done: bool) {
    && (last == Crash ==> r == Aborted)
    && (last != Fine && (n == 1 || n == 3) ==> r == Aborted)
    && (last == Cancel && n == 2 ==> r == Rejected(Other, false))
    && (last.Bad? && n == 2 ==> r == Rejected(last.kind, !a.recordFails))
    && (r.Stopped? <==> n > 3 && last != Crash && (last == Cancel || a.stopLate))
    && (last.Bad? && n > 3 && !a.stopLate ==> r == Rejected(last.kind, !a.recordFails))
    && (last == Fine ==> n > 3)
    && (last == Fine && !a.stopLate && !done ==> r == More)
    && (last == Fine && !a.stopLate && done ==> r == if a.commitFails || a.tailFails then Aborted else CaughtUp)
  }

  /** What the call comes to when nothing interferes: whether it is done, and the rows it leaves. */
  ghost predicate WouldBeDone(c: Connector, items: seq<Item>, d: Db)
    requires Serves(c, items)
  {
    DoneFrom(PagingOf(c), items, LimitsOf(c.maxPages))(d.cursor)
  }

  ghost predicate Clean(h: Bytes -> Hash, c: Connector, items: seq<Item>, d: Db, d': Db)
    requires Serves(c, items)
  {
    CleanCall(h, PagingOf(c), items, LimitsOf(c.maxPages), d, d')
  }

  /** A drained prefix of some length. */
  ghost predicate Moved(h: Bytes -> Hash, items: seq<Item>, d: Db, d': Db, full: bool) {
    exists n: nat :: Drained(h, items, d, d', n, full)
  }

  /**
   What a call may do to a unit: its rows move by a drained prefix, and it ends synced only by a
   full drain that committed it, or untouched.
   */
  ghost predicate CallOutcome(h: Bytes -> Hash, items: seq<Item>, d: Db, st: Status, d': Db, st': Status) {
    && (Moved(h, items, d, d', false) || Moved(h, items, d, d', true))
    && (st' == Synced ==> (d'.committed && Moved(h, items, d, d', true)) || (d' == d && st == Synced))
  }

  lemma NotMoved(h: Bytes -> Hash, items: seq<Item>, d: Db)
    ensures Moved(h, items, d, d, false)
  {
    assert Drained(h, items, d, d, 0, false);
  }

  lemma FullIsPrefix(h: Bytes -> Hash, items: seq<Item>, d: Db, d': Db)
    requires Moved(h, items, d, d', true) && d'.committed == d.committed
    ensures Moved(h, items, d, d', false)
  {
    var n: nat :| Drained(h, items, d, d', n, true);
    assert Drained(h, items, d, d', n, false);
  }

  method CallConnector(e: Emitter, c: Connector, items: seq<Item>) returns (done: bool, why: Answer)
    requires Fresh(e) && Serves(c, items)
    modifies e, e.store`cursor, e.store`rows, e.store`objects, e.store`count, e.store`behind, e.store`asked
    ensures CallPost(e, items, PagingOf(c), LimitsOf(c.maxPages), old(e.store.View()), done, why)
  {
    match c {
      case GitHub(perPage, maxPages) => done, why := SyncRepoIssues(e, items, perPage, maxPages);
      case Drive(part, maxPages) => done, why := SyncDrive(e, items, part, maxPages);
    }
  }

  /** The call itself, with a fresh emitter on the unit's rows. */
  method DrainUnit(store: UnitStore, c: Connector, items: seq<Item>) returns (done: bool, why: Answer)
    requires Serves(c, items) && Backed(store.h, store.View()) && !store.behind
    modifies store`cursor, store`rows, store`objects, store`count, store`behind, store`asked
    ensures Moved(store.h, items, old(store.View()), store.View(), done)
    ensures EndsWith(store.world, old(store.asked), store.asked, why) && old(store.asked) < store.asked
    ensures store.behind ==> SomeLost(store.lost, old(store.asked), store.asked)
    ensures why != Fine ==> !done
    ensures why == Fine ==>
      && done == WouldBeDone(c, items, old(store.View()))
      && (!store.behind ==> Clean(store.h, c, items, old(store.View()), store.View()))
  {
    var e := new Emitter(store);
    done, why := CallConnector(e, c, items);
  }

  /**
   Rejected credentials put the connection into needs_reauth and are the only failure not to be
   retried; a throttle changes nothing here; anything else makes the unit an error. The write may
   fail, and its failure is ignored.
   */
  method Classify(store: UnitStore, kind: Failure, recordFails: bool) returns (r: SyncResult, retry: bool)
    modifies store`status, store`needsReauth
    ensures r == Rejected(kind, !recordFails) && (retry <==> kind != Auth)
    ensures store.needsReauth == (old(store.needsReauth) || (kind == Auth && !recordFails))
    ensures store.status == if kind == Other && !recordFails then Errored else old(store.status)
  {
    match kind {
      case Auth =>
        if !recordFails {
          store.needsReauth := true;
        }
        retry := false;
      case RateLimit =>
        retry := true;
      case Other =>
        if !recordFails {
          store.status := Errored;
        }
        retry := true;
    }
    r := Rejected(kind, !recordFails);
  }

  /** What a unit drain guarantees when it ends with result `r`, from rows `d` and status `st`. */
  ghost predicate SyncPost(
    store: UnitStore, items: seq<Item>, d: Db, st: Status, reauth: bool, r: SyncResult)
    reads store
  {
    && Moved(store.h, items, d, store.View(), r.CaughtUp? || (store.committed && !d.committed))
    && CallOutcome(store.h, items, d, st, store.View(), store.status)
    && (r.CaughtUp? ==> store.committed && store.status == Synced && store.count == |store.rows.Keys - store.deleted|)
    && (r.More? || r.Stopped? ==> store.status == Syncing)
    && (r.Rejected? ==> store.status == if r.recorded && r.kind == Other then Errored else Syncing)
    && store.needsReauth == (reauth || (r.Rejected? && r.recorded && r.kind == Auth))
  }

  /** The result is what the answers taken since make of it. */
  ghost predicate Answered(world: nat -> Answer, since: nat, asked: nat, a: Aftermath, done: bool, r: SyncResult) {
    && since < asked && AllFine(world, since, asked - 1)
    && ResultFits(r, asked - since, world(asked - 1), a, done)
  }

  /**
   The SyncUnit activity. Whatever happens, the unit's rows move by a drained prefix; it is
   committed only by a call that emitted everything, which is also the only way to become
   synced; a stop is not an error; every failure the source reports is classified; and when
   nothing interferes the call is the clean call Paging counts.
   */
  method SyncUnit(store: UnitStore, c: Connector, items: seq<Item>, a: Aftermath) returns (r: SyncResult)
    requires Serves(c, items) && Backed(store.h, store.View())
    modifies store
    ensures SyncPost(store, items, old(store.View()), old(store.status), old(store.needsReauth), r)
    ensures Answered(store.world, old(store.asked), store.asked, a, WouldBeDone(c, items, old(store.View())), r)
    ensures (r.More? || r.CaughtUp?) && !SomeLost(store.lost, old(store.asked), store.asked) ==>
      Clean(store.h, c, items, old(store.View()), store.View())
  {
    ghost var d, since := store.View(), store.asked;
    NotMoved(store.h, items, d);
    var ready;
    ready, r := Prepare(store, a, WouldBeDone(c, items, d));
    if ready {
      r := DrainAndFinish(store, c, items, a, old(store.status), since);
    }
  }

  /** What comes before the source call; the result is one only if it does not come to that call. */
  method Prepare(store: UnitStore, a: Aftermath, ghost done: bool) returns (ready: bool, r: SyncResult)
    modifies store`asked, store`status, store`needsReauth, store`behind
    ensures !store.behind && old(store.asked) < store.asked
    ensures ready ==>
      && store.asked == old(store.asked) + 3 && AllFine(store.world, old(store.asked), store.asked)
      && store.status == Syncing && store.needsReauth == old(store.needsReauth)
    ensures !ready ==>
      && Answered(store.world, old(store.asked), store.asked, a, done, r)
      && (r.Aborted? || r.Rejected?)
      && (r.Aborted? ==> store.status == old(store.status) || store.status == Syncing)
      && (r.Rejected? ==> store.status == if r.recorded && r.kind == Other then Errored else Syncing)
      && store.needsReauth == (old(store.needsReauth) || (r.Rejected? && r.recorded && r.kind == Auth))
  {
    ghost var since := store.asked;
    ready, r, store.behind := false, Aborted, false;
    var why := store.Ask(); // the connection and the unit are loaded and marked
    if why != Fine {
      return;
    }
    assert AllFine(store.world, since, store.asked);
    store.status := Syncing;
    why := store.Ask(); // a client is built from the credentials
    if why != Fine {
      r := Refused(store, why, a);
      return;
    }
    assert AllFine(store.world, since, store.asked);
    why := store.Ask(); // the admission limiter gives a slot
    ready := why == Fine;
  }

  /** No client: the failure is classified, and a cancelled context's failure cannot be recorded. */
  method Refused(store: UnitStore, why: Answer, a: Aftermath) returns (r: SyncResult)
    requires why != Fine
    modifies store`status, store`needsReauth
    ensures why == Crash ==> r == Aborted
    ensures why == Cancel ==> r == Rejected(Other, false)
    ensures why.Bad? ==> r == Rejected(why.kind, !a.recordFails)
    ensures r.Rejected? ==> store.status == if r.recorded && r.kind == Other then Errored else old(store.status)
    ensures r.Aborted? ==> store.status == old(store.status)
    ensures store.needsReauth == (old(store.needsReauth) || (r.Rejected? && r.recorded && r.kind == Auth))
  {
    var retry;
    match why {
      case Crash => r := Aborted;
      case Cancel => r, retry := Classify(store, Other, true);
      case Bad(kind) => r, retry := Classify(store, kind, a.recordFails);
    }
  }

  method DrainAndFinish(
    store: UnitStore, c: Connector, items: seq<Item>, a: Aftermath, ghost st: Status, ghost since: nat)
    returns (r: SyncResult)
    requires Serves(c, items) && Backed(store.h, store.View()) && store.status == Syncing && !store.behind
    requires store.asked == since + 3 && AllFine(store.world, since, store.asked)
    modifies store
    ensures SyncPost(store, items, old(store.View()), st, old(store.needsReauth), r)
    ensures Answered(store.world, since, store.asked, a, WouldBeDone(c, items, old(store.View())), r)
    ensures (r.More? || r.CaughtUp?) && !SomeLost(store.lost, since, store.asked) ==>
      Clean(store.h, c, items, old(store.View()), store.View())
  {
    ghost var d := store.View();
    var done, why := DrainUnit(store, c, items);
    ghost var d' := store.View();
    r := Finish(store, items, d, st, done, why, a);
    ConclusionFits(store.world, since, store.asked, why, a, done, WouldBeDone(c, items, d), r);
    StampKeepsClean(store.h, c, items, d, d', store.View(), why == Fine && !store.behind);
  }

  /** Stamping keeps an undisturbed call clean. */
  lemma StampKeepsClean(h: Bytes -> Hash, c: Connector, items: seq<Item>, d: Db, d': Db, d'': Db, calm: bool)
    requires Serves(c, items) && (calm ==> Clean(h, c, items, d, d'))
    requires calm ==> d'' == d' || (WouldBeDone(c, items, d) && Stamped(d', d''))
    ensures calm ==> Clean(h, c, items, d, d'')
  {
    if calm && WouldBeDone(c, items, d) && Stamped(d', d'') {
      assert Moved(h, items, d, d', true);
      CommitKeepsDrained(h, items, d, d', d'');
    }
  }

  /** The part of that which is about the source call and its last answer. */
  ghost predicate Concludes(r: SyncResult, why: Answer, a: Aftermath, done: bool) {
    && (why == Crash ==> r == Aborted)
    && (r.Stopped? <==> why != Crash && (why == Cancel || a.stopLate))
    && (why.Bad? && !a.stopLate ==> r == Rejected(why.kind, !a.recordFails))
    && (why == Fine && !a.stopLate ==>
      r == if !done then More else if a.commitFails || a.tailFails then Aborted else CaughtUp)
  }

  lemma ConclusionFits(
    world: nat -> Answer, since: nat, asked: nat, why: Answer, a: Aftermath, done: bool, full: bool, r: SyncResult)
    requires AllFine(world, since, since + 3) && EndsWith(world, since + 3, asked, why) && since + 3 < asked
    requires Concludes(r, why, a, done) && (why == Fine ==> full == done)
    ensures Answered(world, since, asked, a, full, r)
  {
    EndsWithJoins(world, since, since + 3, asked, why);
  }

  /** What follows the call: a stop wins, then a failure is classified, and a full drain is committed. */
  method Finish(
    store: UnitStore, ghost items: seq<Item>, ghost d: Db, ghost st: Status, done: bool, why: Answer, a: Aftermath)
    returns (r: SyncResult)
    requires Moved(store.h, items, d, store.View(), done) && store.committed == d.committed && store.status == Syncing
    requires why != Fine ==> !done
    modifies store`committed, store`status, store`count, store`needsReauth
    ensures SyncPost(store, items, d, st, old(store.needsReauth), r)
    ensures store.View() == old(store.View()) || (done && Stamped(old(store.View()), store.View()))
    ensures Concludes(r, why, a, done)
  {
    ghost var before := store.View();
    if done {
      FullIsPrefix(store.h, items, d, before);
    }
    if why == Crash {
      return Aborted;
    }
    if why == Cancel || a.stopLate {
      return Stopped; // the context was cancelled
    }
    if why.Bad? {
      var retry;
      r, retry := Classify(store, why.kind, a.recordFails);
      return;
    }
    if !done {
      return More;
    }
    var ok := Commit(store, a);
    if store.status == Synced {
      CommitKeepsDrained(store.h, items, d, before, store.View());
    }
    return if ok then CaughtUp else Aborted;
  }

  /** Stamp the unit, count its rows and mark it synced; the statement may fail, or a later one may. */
  method Commit(store: UnitStore, a: Aftermath) returns (ok: bool)
    requires store.status == Syncing
    modifies store`committed, store`status, store`count
    ensures ok == (!a.commitFails && !a.tailFails)
    ensures if a.commitFails then store.status == Syncing && store.View() == old(store.View())
      else store.status == Synced && Stamped(old(store.View()), store.View())
  {
    if a.commitFails {
      return false;
    }
    store.committed, store.status, store.count := true, Synced, |store.rows.Keys - store.deleted|;
    return !a.tailFails;
  }

  /** The unit is committed and its count is that of its rows that are not soft-deleted. */
  ghost predicate Stamped(d: Db, d': Db) {
    d' == d.(committed := true, count := |d.rows.Keys - d.deleted|)
  }

  /** Stamping a fully drained unit stays within what a full drain may do. */
  lemma CommitKeepsDrained(h: Bytes -> Hash, items: seq<Item>, d: Db, d1: Db, d2: Db)
    requires Moved(h, items, d, d1, true)
    requires Stamped(d1, d2)
    ensures Moved(h, items, d, d2, true)
    ensures d.committed ==> Moved(h, items, d, d2, false)
  {
    var n: nat :| Drained(h, items, d, d1, n, true);
    assert Drained(h, items, d, d2, n, true);
    if d.committed {
      FullIsPrefix(h, items, d, d2);
    }
  }
}
