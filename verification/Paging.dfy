/**
 Where an uninterrupted paging call stops, and how many such calls reach the end of the stream.

 Both connectors page through the since-listing up to a page budget, and go on past the budget
 (to a hard ceiling) while the high-water mark has not left the starting cursor.
 */
module Paging {
  import opened SourceStream
  import opened Drain
  import opened Orbits
  import opened Wrappers

  /** The per-call page budget and the hard ceiling. */
  datatype Limits = Limits(maxPages: nat, hardCap: nat)

  ghost predicate ValidLimits(lim: Limits) {
    1 <= lim.maxPages <= lim.hardCap
  }

  function Flat(pages: seq<seq<Item>>): seq<Item> {
    if pages == [] then [] else Flat(pages[..|pages| - 1]) + pages[|pages| - 1]
  }

  /** The high-water mark after the issues of `l`, starting from `c`. */
  function Reached(l: seq<Item>, c: Cursor): Cursor {
    HighWater(Issues(l), c)
  }

  /** The page after which an uninterrupted call stops, looking from page `p` on. */
  function StopPage(pages: seq<seq<Item>>, c: Cursor, lim: Limits, p: nat): (k: nat)
    requires 1 <= p <= |pages| && p <= lim.hardCap
    ensures p <= k <= |pages| && k <= lim.hardCap
    ensures k == |pages| || k == lim.hardCap || (lim.maxPages <= k && Reached(Flat(pages[..k]), c) != c)
    ensures forall q :: p <= q < k && lim.maxPages <= q ==> Reached(Flat(pages[..q]), c) == c
    decreases |pages| - p
  {
    if p == |pages| || p == lim.hardCap || (p >= lim.maxPages && Reached(Flat(pages[..p]), c) != c) then p
    else StopPage(pages, c, lim, p + 1)
  }

  /** A stretch the call cannot get past: the ceiling's worth of pages, more after it, no issue newer than `c`. */
  ghost predicate Barren(pages: seq<seq<Item>>, c: Cursor, lim: Limits) {
    && lim.hardCap < |pages|
    && forall it :: it in Flat(pages[..lim.hardCap]) && !it.pull ==> it.stamp <= c
  }

  /** The mark leaves the cursor exactly when some issue is newer. */
  lemma ReachedMeaning(l: seq<Item>, c: Cursor)
    ensures Reached(l, c) == c <==> forall it :: it in l && !it.pull ==> it.stamp <= c
    ensures Reached(l, c) == c || exists it :: it in l && !it.pull && it.stamp == Reached(l, c)
  {
    IssuesMembers(l);
    var i := Issues(l);
    HighWaterIsMax(i, c);
    if Reached(l, c) != c {
      var k :| 0 <= k < |i| && i[k].stamp == Reached(l, c);
      assert i[k] in l && !i[k].pull;
    } else {
      forall it | it in l && !it.pull ensures it.stamp <= c {
        assert it in i;
      }
    }
  }

  lemma {:induction false} FlatPrefix(pages: seq<seq<Item>>, a: nat, b: nat)
    requires a <= b <= |pages|
    ensures |Flat(pages[..a])| <= |Flat(pages[..b])|
    ensures Flat(pages[..b])[..|Flat(pages[..a])|] == Flat(pages[..a])
  {
    if a < b {
      FlatPrefix(pages, a, b - 1);
      assert pages[..b][..b - 1] == pages[..b - 1];
    }
  }

  lemma FlatNext(pages: seq<seq<Item>>, p: nat)
    requires p < |pages|
    ensures Flat(pages[..p + 1]) == Flat(pages[..p]) + pages[p]
  {
    assert pages[..p + 1][..p] == pages[..p];
  }

  /**
   Plateau progress. An uninterrupted call that is not done has moved the cursor strictly
   forward, unless it met a barren stretch; and a barren stretch always stops it in place.
   */
  lemma StuckIffBarren(pages: seq<seq<Item>>, c: Cursor, lim: Limits)
    requires ValidLimits(lim) && pages != []
    ensures var k := StopPage(pages, c, lim, 1);
      (k < |pages| && Reached(Flat(pages[..k]), c) == c) <==> Barren(pages, c, lim)
  {
    var k := StopPage(pages, c, lim, 1);
    if Barren(pages, c, lim) {
      ReachedMeaning(Flat(pages[..lim.hardCap]), c);
      FlatPrefix(pages, k, lim.hardCap);
      ReachedMeaning(Flat(pages[..k]), c);
      forall it | it in Flat(pages[..k]) && !it.pull ensures it.stamp <= c {
        assert it in Flat(pages[..lim.hardCap]);
      }
    } else if k < |pages| && Reached(Flat(pages[..k]), c) == c {
      ReachedMeaning(Flat(pages[..k]), c);
    }
  }

  // --- repeated calls on one listing ---

  /** How a provider cuts a listing into pages: at least one page, nothing lost or reordered. */
  ghost predicate IsPaging(part: seq<Item> -> seq<seq<Item>>) {
    forall l :: |part(l)| > 0 && Flat(part(l)) == l
  }

  /** Whether the uninterrupted call from cursor `c` reaches the end of the stream. */
  predicate CallDone(part: seq<Item> -> seq<seq<Item>>, items: seq<Item>, c: Cursor, lim: Limits)
    requires part(Since(items, c)) != [] && 1 <= lim.hardCap
  {
    var pages := part(Since(items, c));
    StopPage(pages, c, lim, 1) == |pages|
  }

  /** Where that call leaves the persisted cursor. */
  function CallCursor(part: seq<Item> -> seq<seq<Item>>, items: seq<Item>, c: Cursor, lim: Limits): (r: Cursor)
    requires part(Since(items, c)) != [] && 1 <= lim.hardCap
    ensures c <= r
  {
    var pages := part(Since(items, c));
    Reached(Flat(pages[..StopPage(pages, c, lim, 1)]), c)
  }

  /** The measure: how many items are newer than the cursor. */
  function Newer(items: seq<Item>, c: Cursor): nat {
    |Since(items, c + 1)|
  }

  lemma {:induction false} SinceShrinks(items: seq<Item>, a: Cursor, b: Cursor)
    requires a <= b
    ensures |Since(items, b)| <= |Since(items, a)|
    ensures (exists it :: it in items && a <= it.stamp < b) && Sorted(items) ==> |Since(items, b)| < |Since(items, a)|
  {
    if |items| > 0 && items[0].stamp < a {
      SinceShrinks(items[1..], a, b);
      assert items == [items[0]] + items[1..];
    } else if |items| > 0 && items[0].stamp < b {
      SinceLength(items[1..], b);
    } else if |items| > 0 && Sorted(items) {
      forall it | it in items ensures b <= it.stamp {
        var i :| 0 <= i < |items| && items[i] == it;
      }
    }
  }

  lemma {:induction false} SinceLength(items: seq<Item>, c: Cursor)
    ensures |Since(items, c)| <= |items|
    ensures forall it :: it in Since(items, c) ==> it in items
  {
    if |items| > 0 && items[0].stamp < c {
      SinceLength(items[1..], c);
    }
  }

  /** A call that moves the cursor moves it to the stamp of some item. */
  lemma CallCursorIsStamp(part: seq<Item> -> seq<seq<Item>>, items: seq<Item>, c: Cursor, lim: Limits)
    returns (it: Item)
    requires IsPaging(part) && ValidLimits(lim)
    requires CallCursor(part, items, c, lim) != c
    ensures it in items && it.stamp == CallCursor(part, items, c, lim)
  {
    var l := Since(items, c);
    var pages := part(l);
    var k := StopPage(pages, c, lim, 1);
    assert pages[..|pages|] == pages;
    FlatPrefix(pages, k, |pages|);
    ReachedMeaning(Flat(pages[..k]), c);
    it :| it in Flat(pages[..k]) && !it.pull && it.stamp == CallCursor(part, items, c, lim);
    assert it in l;
    SinceLength(items, c);
  }

  /** A call that moves the cursor leaves fewer newer items. */
  lemma CallShrinksNewer(part: seq<Item> -> seq<seq<Item>>, items: seq<Item>, c: Cursor, lim: Limits)
    requires Sorted(items) && IsPaging(part) && ValidLimits(lim)
    requires CallCursor(part, items, c, lim) != c
    ensures Newer(items, CallCursor(part, items, c, lim)) < Newer(items, c)
  {
    var it := CallCursorIsStamp(part, items, c, lim);
    SinceShrinks(items, c + 1, it.stamp + 1);
  }

  /**
   The three views of a listing under repeated uninterrupted calls: is this call done, where does
   it end, how much is left.
   */
  ghost function DoneFrom(part: seq<Item> -> seq<seq<Item>>, items: seq<Item>, lim: Limits): Cursor -> bool
    requires IsPaging(part) && ValidLimits(lim)
  {
    (c: Cursor) => CallDone(part, items, c, lim)
  }

  ghost function StepFrom(part: seq<Item> -> seq<seq<Item>>, items: seq<Item>, lim: Limits): Cursor -> Cursor
    requires IsPaging(part) && ValidLimits(lim)
  {
    (c: Cursor) => CallCursor(part, items, c, lim)
  }

  ghost function LeftFrom(items: seq<Item>): Cursor -> nat {
    (c: Cursor) => Newer(items, c)
  }

  lemma CallsShrink(part: seq<Item> -> seq<seq<Item>>, items: seq<Item>, lim: Limits)
    requires Sorted(items) && IsPaging(part) && ValidLimits(lim)
    ensures Shrinks(StepFrom(part, items, lim), LeftFrom(items))
  {
    forall c: Cursor | StepFrom(part, items, lim)(c) != c
      ensures LeftFrom(items)(StepFrom(part, items, lim)(c)) < LeftFrom(items)(c)
    {
      CallShrinksNewer(part, items, c, lim);
    }
  }

  /** How many uninterrupted calls reach the end of the stream from cursor `c`; None when they never do. */
  ghost function CallsToDone(
    part: seq<Item> -> seq<seq<Item>>, items: seq<Item>, c: Cursor, lim: Limits): (r: Option<nat>)
    requires Sorted(items) && IsPaging(part) && ValidLimits(lim)
    ensures r.Some? ==> 1 <= r.value <= Newer(items, c) + 1
  {
    CallsShrink(part, items, lim);
    FirstDone(DoneFrom(part, items, lim), StepFrom(part, items, lim), LeftFrom(items), c)
  }

  /** Call `n` is reached with nothing done before it, and starts at the foot of a barren stretch. */
  ghost predicate BarrenAt(part: seq<Item> -> seq<seq<Item>>, items: seq<Item>, c: Cursor, lim: Limits, n: nat)
    requires IsPaging(part) && ValidLimits(lim)
  {
    var step := StepFrom(part, items, lim);
    && (forall m: nat :: m < n ==> !DoneFrom(part, items, lim)(After(step, c, m)))
    && Barren(part(Since(items, After(step, c, n))), After(step, c, n), lim)
  }

  lemma StuckAtIsBarrenAt(part: seq<Item> -> seq<seq<Item>>, items: seq<Item>, c: Cursor, lim: Limits, n: nat)
    requires IsPaging(part) && ValidLimits(lim)
    ensures StuckAt(DoneFrom(part, items, lim), StepFrom(part, items, lim), c, n) <==> BarrenAt(part, items, c, lim, n)
  {
    var x := After(StepFrom(part, items, lim), c, n);
    StuckIffBarren(part(Since(items, x)), x, lim);
  }

  /**
   Termination of repeated draining, decided exactly: when CallsToDone is Some(n) the n-th call
   is the first one that is done, and when it is None no call ever is.
   */
  lemma CallsToDoneIsExact(part: seq<Item> -> seq<seq<Item>>, items: seq<Item>, c: Cursor, lim: Limits)
    requires Sorted(items) && IsPaging(part) && ValidLimits(lim)
    ensures IsFirst(DoneFrom(part, items, lim), StepFrom(part, items, lim), c, CallsToDone(part, items, c, lim))
  {
    CallsShrink(part, items, lim);
    FirstDoneIsExact(DoneFrom(part, items, lim), StepFrom(part, items, lim), LeftFrom(items), c);
  }

  /** The livelock, located: repeated calls never finish exactly when one of them meets a barren stretch. */
  lemma NeverDoneIffBarren(part: seq<Item> -> seq<seq<Item>>, items: seq<Item>, c: Cursor, lim: Limits)
    requires Sorted(items) && IsPaging(part) && ValidLimits(lim)
    ensures CallsToDone(part, items, c, lim).None? <==> exists n: nat :: BarrenAt(part, items, c, lim, n)
  {
    CallsShrink(part, items, lim);
    FirstDoneIsExact(DoneFrom(part, items, lim), StepFrom(part, items, lim), LeftFrom(items), c);
    forall n: nat
      ensures StuckAt(DoneFrom(part, items, lim), StepFrom(part, items, lim), c, n) <==>
        BarrenAt(part, items, c, lim, n)
    {
      StuckAtIsBarrenAt(part, items, c, lim, n);
    }
  }

  /** An uninterrupted call whose cursor writes all succeed. */
  ghost predicate CleanCall(
    h: Bytes -> Hash, part: seq<Item> -> seq<seq<Item>>, items: seq<Item>, lim: Limits, d: Db, d': Db)
    requires IsPaging(part) && ValidLimits(lim)
  {
    && d'.cursor == StepFrom(part, items, lim)(d.cursor)
    && exists n: nat :: Drained(h, items, d, d', n, DoneFrom(part, items, lim)(d.cursor))
  }

  // --- calls of which any number are cut short ---

  /** Any sequence of calls on one listing: each may be cut anywhere, those marked clean are not. */
  ghost predicate Calls(
    h: Bytes -> Hash, part: seq<Item> -> seq<seq<Item>>, items: seq<Item>, lim: Limits, t: seq<Db>, clean: seq<bool>)
    requires IsPaging(part) && ValidLimits(lim)
  {
    && |t| == |clean| + 1
    && forall j :: 0 <= j < |clean| ==> OneCall(h, part, items, lim, t[j], t[j + 1], clean[j])
  }

  ghost predicate OneCall(
    h: Bytes -> Hash, part: seq<Item> -> seq<seq<Item>>, items: seq<Item>, lim: Limits, d: Db, d': Db, clean: bool)
    requires IsPaging(part) && ValidLimits(lim)
  {
    && (exists n: nat, done: bool :: Drained(h, items, d, d', n, done))
    && (clean ==> CleanCall(h, part, items, lim, d, d'))
  }

  /** An uninterrupted call that does not start at a barren stretch. */
  ghost predicate Fruitful(part: seq<Item> -> seq<seq<Item>>, items: seq<Item>, lim: Limits, d: Db, clean: bool) {
    clean && !Barren(part(Since(items, d.cursor)), d.cursor, lim)
  }

  ghost function FruitfulCalls(
    part: seq<Item> -> seq<seq<Item>>, items: seq<Item>, lim: Limits, t: seq<Db>, clean: seq<bool>, k: nat): nat
    requires k <= |clean| <= |t|
  {
    if k == 0 then 0
    else
      var one := if Fruitful(part, items, lim, t[k - 1], clean[k - 1]) then 1 else 0;
      FruitfulCalls(part, items, lim, t, clean, k - 1) + one
  }

  ghost predicate DoneBefore(
    part: seq<Item> -> seq<seq<Item>>, items: seq<Item>, lim: Limits, t: seq<Db>, clean: seq<bool>, k: nat)
    requires k <= |clean| <= |t| && IsPaging(part) && ValidLimits(lim)
  {
    exists j :: 0 <= j < k && clean[j] && DoneFrom(part, items, lim)(t[j].cursor)
  }

  /** No call adds newer items, and a fruitful one that is not done takes at least one away. */
  lemma CallLowersNewer(
    h: Bytes -> Hash, part: seq<Item> -> seq<seq<Item>>, items: seq<Item>, lim: Limits, d: Db, d': Db, clean: bool)
    requires Sorted(items) && IsPaging(part) && ValidLimits(lim) && OneCall(h, part, items, lim, d, d', clean)
    ensures Newer(items, d'.cursor) <= Newer(items, d.cursor)
    ensures Fruitful(part, items, lim, d, clean) && !DoneFrom(part, items, lim)(d.cursor) ==>
      Newer(items, d'.cursor) < Newer(items, d.cursor)
  {
    SinceShrinks(items, d.cursor + 1, d'.cursor + 1);
    if Fruitful(part, items, lim, d, clean) && !DoneFrom(part, items, lim)(d.cursor) {
      StuckIffBarren(part(Since(items, d.cursor)), d.cursor, lim);
      CallShrinksNewer(part, items, d.cursor, lim);
    }
  }

  /** The measure over interrupted calls: until one is done, every fruitful call uses up a newer item. */
  lemma {:induction false} FruitfulCallsBounded(
    h: Bytes -> Hash, part: seq<Item> -> seq<seq<Item>>, items: seq<Item>, lim: Limits, t: seq<Db>, clean: seq<bool>,
    k: nat)
    requires Sorted(items) && IsPaging(part) && ValidLimits(lim)
    requires Calls(h, part, items, lim, t, clean) && k <= |clean|
    requires !DoneBefore(part, items, lim, t, clean, k)
    ensures Newer(items, t[k].cursor) + FruitfulCalls(part, items, lim, t, clean, k) <= Newer(items, t[0].cursor)
  {
    if k > 0 {
      FruitfulCallsBounded(h, part, items, lim, t, clean, k - 1);
      assert OneCall(h, part, items, lim, t[k - 1], t[k], clean[k - 1]);
      CallLowersNewer(h, part, items, lim, t[k - 1], t[k], clean[k - 1]);
    }
  }

  lemma {:induction false} CallsKeepInv(
    h: Bytes -> Hash, part: seq<Item> -> seq<seq<Item>>, src: Source, lim: Limits, t: seq<Db>, clean: seq<bool>, k: nat)
    requires IsPaging(part) && ValidLimits(lim) && Calls(h, part, src.items, lim, t, clean) && k <= |clean|
    requires Inv(h, State(src, t[0]))
    ensures Inv(h, State(src, t[k]))
  {
    if k > 0 {
      CallsKeepInv(h, part, src, lim, t, clean, k - 1);
      assert OneCall(h, part, src.items, lim, t[k - 1], t[k], clean[k - 1]);
      var n: nat, done: bool :| Drained(h, src.items, t[k - 1], t[k], n, done);
      CallKeepsInv(h, State(src, t[k - 1]), t[k], n, done);
    }
  }

  lemma {:induction false} StaysComplete(
    h: Bytes -> Hash, part: seq<Item> -> seq<seq<Item>>, src: Source, lim: Limits, t: seq<Db>, clean: seq<bool>, i: nat,
    k: nat)
    requires IsPaging(part) && ValidLimits(lim) && Calls(h, part, src.items, lim, t, clean) && i <= k <= |clean|
    requires Inv(h, State(src, t[0])) && Complete(h, src.items, t[i])
    ensures Complete(h, src.items, t[k])
  {
    if i < k {
      StaysComplete(h, part, src, lim, t, clean, i, k - 1);
      CallsKeepInv(h, part, src, lim, t, clean, k - 1);
      assert OneCall(h, part, src.items, lim, t[k - 1], t[k], clean[k - 1]);
      var n: nat, done: bool :| Drained(h, src.items, t[k - 1], t[k], n, done);
      CompleteKept(h, src.items, t[k - 1], t[k], n, done);
    }
  }

  /**
   Repeated draining ends, however many of the calls are interrupted and wherever: once more
   uninterrupted calls than there were newer items have started away from a barren stretch, one
   of them was done, and the whole source has been stored since.
   */
  lemma RepeatedCallsComplete(
    h: Bytes -> Hash, part: seq<Item> -> seq<seq<Item>>, src: Source, lim: Limits, t: seq<Db>, clean: seq<bool>)
    returns (j: nat)
    requires IsPaging(part) && ValidLimits(lim) && Calls(h, part, src.items, lim, t, clean)
    requires Inv(h, State(src, t[0]))
    requires FruitfulCalls(part, src.items, lim, t, clean, |clean|) > Newer(src.items, t[0].cursor)
    ensures j < |clean| && clean[j] && DoneFrom(part, src.items, lim)(t[j].cursor)
    ensures forall k :: j < k < |t| ==> Complete(h, src.items, t[k])
  {
    if !DoneBefore(part, src.items, lim, t, clean, |clean|) {
      FruitfulCallsBounded(h, part, src.items, lim, t, clean, |clean|);
      assert false;
    }
    j :| 0 <= j < |clean| && clean[j] && DoneFrom(part, src.items, lim)(t[j].cursor);
    CallsKeepInv(h, part, src, lim, t, clean, j);
    assert OneCall(h, part, src.items, lim, t[j], t[j + 1], clean[j]);
    var n: nat :| Drained(h, src.items, t[j], t[j + 1], n, DoneFrom(part, src.items, lim)(t[j].cursor));
    DoneIsComplete(h, State(src, t[j]), t[j + 1], n);
    forall k | j < k < |t| ensures Complete(h, src.items, t[k]) {
      StaysComplete(h, part, src, lim, t, clean, j + 1, k);
    }
  }
}
