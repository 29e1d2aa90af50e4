/**
 The livelock seen from the listing: when a call on GitHub's numbered pages is stuck, and a source
 on which every call is.
 */
module PullStretch {
  import opened SourceStream
  import opened Orbits
  import opened Wrappers
  import opened Paging
  import opened UnitDrain
  import opened LivePaging
  import opened Connectors

  /** The first `k` pages, when there are that many full ones, are the head of the listing. */
  lemma {:induction false} ChunkHead(l: seq<Item>, size: nat, k: nat)
    requires size > 0
    ensures k < |Chunk(l, size)| <==> Start(size, k) <= |l|
    ensures k < |Chunk(l, size)| ==> Flat(Chunk(l, size)[..k]) == l[..Start(size, k)]
    decreases k
  {
    if k > 0 && |l| >= size {
      var rest := l[size..];
      ChunkHead(rest, size, k - 1);
      if k < |Chunk(l, size)| {
        assert Chunk(l, size)[..k] == [l[..size]] + Chunk(rest, size)[..k - 1];
        FlatCons(l[..size], Chunk(rest, size)[..k - 1]);
        assert l[..size] + rest[..Start(size, k - 1)] == l[..Start(size, k)];
      }
    } else if k > 0 {
      StartPositive(size, k);
    }
  }

  lemma {:induction false} StartPositive(size: nat, k: nat)
    requires k > 0
    ensures Start(size, k) >= size
  {
    if k > 1 {
      StartPositive(size, k - 1);
    }
  }

  /**
   A stretch is barren exactly when the listing from the cursor fills the ceiling's pages and each
   item on them is a pull request or carries the cursor's own timestamp.
   */
  lemma BarrenListing(items: seq<Item>, c: Cursor, size: nat, lim: Limits)
    requires size > 0
    ensures var l, n := Since(items, c), lim.hardCap * size;
      Barren(Chunks(size)(l), c, lim) <==> n <= |l| && forall i :: 0 <= i < n ==> l[i].pull || l[i].stamp <= c
  {
    var l, n := Since(items, c), lim.hardCap * size;
    StartIsProduct(size, lim.hardCap);
    ChunkHead(l, size, lim.hardCap);
    if n <= |l| {
      var head := Flat(Chunk(l, size)[..lim.hardCap]);
      assert head == l[..n];
      assert forall i :: 0 <= i < n ==> head[i] == l[i] && head[i] in head;
    }
  }

  /** A listing that starts like that is never finished. */
  lemma PullStretchNeverDone(items: seq<Item>, c: Cursor, size: nat, lim: Limits)
    requires Sorted(items) && size > 0 && ValidLimits(lim) && IsPaging(Chunks(size))
    requires lim.hardCap * size <= |Since(items, c)|
    requires forall i :: 0 <= i < lim.hardCap * size ==> Since(items, c)[i].pull || Since(items, c)[i].stamp <= c
    ensures CallsToDone(Chunks(size), items, c, lim).None?
  {
    BarrenListing(items, c, size, lim);
    assert After(StepFrom(Chunks(size), items, lim), c, 0) == c;
    assert BarrenAt(Chunks(size), items, c, lim, 0);
    NeverDoneIffBarren(Chunks(size), items, c, lim);
  }

  const STRETCH: nat := 20000

  function Pulls(): (s: seq<Item>)
    ensures |s| == STRETCH && forall i :: 0 <= i < STRETCH ==> s[i] == Item(i, 1, true, [])
  {
    seq(STRETCH, (i: nat) => Item(i, 1, true, []))
  }

  /**
   An instance with the default page size, budget and ceiling: twenty thousand pull requests
   hide the issue behind them from every call, however often the unit is drained.
   */
  lemma PullRequestsHideIssue() returns (src: Source, it: Item)
    ensures ValidSource(src) && it in src.items && !it.pull && IsPaging(Chunks(PAGE_SIZE))
    ensures CallsToDone(Chunks(PAGE_SIZE), src.items, 0, LimitsOf(0)).None?
    ensures var pages := Chunk(src.items, PAGE_SIZE); 200 < |pages| && it !in Flat(pages[..200])
  {
    it := Item(STRETCH, 2, false, []);
    var items := Pulls() + [it];
    src := Source(items, 2);
    ChunksArePages(PAGE_SIZE);
    PullStretchNeverDone(items, 0, PAGE_SIZE, LimitsOf(0));
    StartIsProduct(PAGE_SIZE, 200);
    ChunkHead(items, PAGE_SIZE, 200);
    assert Flat(Chunk(items, PAGE_SIZE)[..200]) == Pulls();
  }
}
