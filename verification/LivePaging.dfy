/**
 Why the drain results ask for a listing that holds still during a call. Pages are requested by
 number, so an edit that moves an item to the end of the listing while a call is under way shifts
 everything behind it by one place. Exactly when that loses an item is decided here.
 */
module LivePaging {
  import opened SourceStream
  import opened UnitDrain
  import opened Paging

  /**
   The listing after the item at `i` left its place: it was deleted or edited, and `tail` (the
   edited item, new items) comes last.
   */
  function Shifted(l: seq<Item>, i: nat, tail: seq<Item>): seq<Item>
    requires i < |l|
  {
    l[..i] + l[i + 1..] + tail
  }

  /** What comes last is the item that left, or is new. */
  ghost predicate OthersStay(l: seq<Item>, i: nat, tail: seq<Item>) {
    forall m, n :: 0 <= m < |l| && m != i && 0 <= n < |tail| ==> tail[n].id != l[m].id
  }

  function Edited(l: seq<Item>, i: nat, x: Item): seq<Item>
    requires i < |l|
  {
    Shifted(l, i, [x])
  }

  /** Pages `lo`, `lo + 1`, ... up to the page before `hi`, one request after the other. */
  function Requests(l: seq<Item>, size: nat, lo: nat, hi: nat): seq<Item>
    requires size > 0 && lo <= hi
  {
    if lo == hi then [] else Requests(l, size, lo, hi - 1) + PageOf(l, size, hi - 1)
  }

  /** What a call reads when the listing changes from `l` to `l'` after its first `page` pages. */
  function Seen(l: seq<Item>, l': seq<Item>, size: nat, page: nat, pages: nat): seq<Item>
    requires size > 0 && page <= pages
  {
    Requests(l, size, 0, page) + Requests(l', size, page, pages)
  }

  function Cap(n: nat, l: seq<Item>): (r: nat)
    ensures r <= |l| && r <= n && (r == n || r == |l|)
  {
    if n < |l| then n else |l|
  }

  lemma ShiftSlice(l: seq<Item>, size: nat, a: nat, b: nat)
    requires size <= |l| && a <= b
    ensures l[size..][Cap(a, l[size..])..Cap(b, l[size..])] == l[Cap(a + size, l)..Cap(b + size, l)]
  {
  }

  /** The place in the listing where a page starts. */
  function Start(size: nat, page: nat): nat {
    if page == 0 then 0 else Start(size, page - 1) + size
  }

  lemma {:induction false} StartIsProduct(size: nat, page: nat)
    ensures Start(size, page) == page * size
  {
    if page > 0 {
      StartIsProduct(size, page - 1);
      assert page * size == (page - 1) * size + size;
    }
  }

  lemma {:induction false} PageIsSlice(l: seq<Item>, size: nat, page: nat)
    requires size > 0
    ensures PageOf(l, size, page) == l[Cap(Start(size, page), l)..Cap(Start(size, page + 1), l)]
    decreases page
  {
    if page > 0 && |l| >= size {
      PageIsSlice(l[size..], size, page - 1);
      ShiftSlice(l, size, Start(size, page - 1), Start(size, page));
    }
  }

  lemma {:induction false} RequestsAreSlice(l: seq<Item>, size: nat, lo: nat, hi: nat)
    requires size > 0 && lo <= hi
    ensures Start(size, lo) <= Start(size, hi)
    ensures Requests(l, size, lo, hi) == l[Cap(Start(size, lo), l)..Cap(Start(size, hi), l)]
    decreases hi
  {
    if lo < hi {
      RequestsAreSlice(l, size, lo, hi - 1);
      PageIsSlice(l, size, hi - 1);
      JoinSlices(l, Cap(Start(size, lo), l), Cap(Start(size, hi - 1), l), Cap(Start(size, hi), l));
    }
  }

  lemma JoinSlices(l: seq<Item>, a: nat, b: nat, c: nat)
    requires a <= b <= c <= |l|
    ensures l[a..b] + l[b..c] == l[a..c]
  {
  }

  /** Two listings read in one call: the head of one and the tail of the other. */
  lemma SeenIsSplice(l: seq<Item>, l': seq<Item>, size: nat, page: nat, pages: nat)
    requires size > 0 && page <= pages && page * size <= |l| && |l'| <= pages * size
    ensures Seen(l, l', size, page, pages) == l[..page * size] + l'[Cap(page * size, l')..]
  {
    StartIsProduct(size, page);
    StartIsProduct(size, pages);
    RequestsAreSlice(l, size, 0, page);
    RequestsAreSlice(l', size, page, pages);
  }

  /**
   A change during a call that takes an item out of its place, by an edit or a deletion, loses an
   untouched item exactly when that place was on a page already read and the listing went on
   behind those pages. What is added at the end does no harm.
   */
  lemma ShiftSkipsIff(l: seq<Item>, i: nat, tail: seq<Item>, size: nat, page: nat, pages: nat)
    requires i < |l| && UniqueIds(l) && OthersStay(l, i, tail)
    requires size > 0 && page <= pages && page * size <= |l| && |Shifted(l, i, tail)| <= pages * size
    ensures var l' := Shifted(l, i, tail);
      (exists m :: 0 <= m < |l| && l[m] in l' && l[m] !in Seen(l, l', size, page, pages)) <==> i < page * size < |l|
  {
    var l', k := Shifted(l, i, tail), page * size;
    SeenIsSplice(l, l', size, page, pages);
    if i < k < |l| {
      SkippedItem(l, i, tail, k);
    } else {
      forall m | 0 <= m < |l| && l[m] in l' ensures l[m] in l[..k] + l'[Cap(k, l')..] {
        KeptItem(l, i, tail, k, m);
      }
    }
  }

  /** The case of an edit. */
  lemma EditSkipsIff(l: seq<Item>, i: nat, x: Item, size: nat, page: nat, pages: nat)
    requires i < |l| && UniqueIds(l) && x.id == l[i].id
    requires size > 0 && page <= pages && page * size <= |l| <= pages * size
    ensures var l' := Edited(l, i, x);
      (exists m :: 0 <= m < |l| && l[m] in l' && l[m] !in Seen(l, l', size, page, pages)) <==> i < page * size < |l|
  {
    ShiftSkipsIff(l, i, [x], size, page, pages);
  }

  /** The first item behind the pages already read slips onto them. */
  lemma SkippedItem(l: seq<Item>, i: nat, tail: seq<Item>, k: nat)
    requires i < k < |l| && UniqueIds(l) && OthersStay(l, i, tail)
    ensures var l' := Shifted(l, i, tail); k <= |l'| && l[k] in l' && l[k] !in l[..k] + l'[k..]
  {
    var l' := Shifted(l, i, tail);
    assert l'[k - 1] == l[k];
    assert l'[k..] == l[k + 1..] + tail;
  }

  /** Every item that comes to lie behind the one that left is still read. */
  lemma KeptItem(l: seq<Item>, i: nat, tail: seq<Item>, k: nat, m: nat)
    requires m < |l| && i < |l| && k <= |l| && (k <= i || k == |l|)
    requires l[m] in Shifted(l, i, tail)
    ensures var l' := Shifted(l, i, tail); l[m] in l[..k] + l'[Cap(k, l')..]
  {
    var l' := Shifted(l, i, tail);
    var j :| 0 <= j < |l'| && l'[j] == l[m];
    if m < k {
      assert l[..k][m] == l[m];
    } else {
      var n := if m < i then m else if m > i then m - 1 else j;
      assert l'[n] == l[m];
      if n >= k {
        assert l'[k..][n - k] == l[m];
      } else {
        assert l[n] == l'[n];
        assert l[..k][n] == l[m];
      }
    }
  }

  /**
   The loss is for good: when the call goes on to emit an issue `y` newer than the skipped item
   (after an edit, the edited issue itself), the skipped item ends up strictly below the cursor,
   and no listing of any later source, from that cursor or a later one, has it again unless it
   is edited itself.
   */
  lemma SkippedForGood(l: seq<Item>, i: nat, tail: seq<Item>, size: nat, page: nat, pages: nat, c: Cursor, y: Item)
    requires i < |l| && UniqueIds(l) && OthersStay(l, i, tail)
    requires size > 0 && page <= pages && i < page * size < |l| && |Shifted(l, i, tail)| <= pages * size
    requires !y.pull && l[page * size].stamp < y.stamp && y in Seen(l, Shifted(l, i, tail), size, page, pages)
    ensures var it, seen := l[page * size], Seen(l, Shifted(l, i, tail), size, page, pages);
      && it in Shifted(l, i, tail) && it !in seen && it.stamp < Reached(seen, c)
      && forall later: seq<Item>, c': Cursor :: Sorted(later) && UniqueIds(later) && Reached(seen, c) <= c' ==>
        it !in Since(later, c')
  {
    var l', k := Shifted(l, i, tail), page * size;
    var seen := Seen(l, l', size, page, pages);
    SeenIsSplice(l, l', size, page, pages);
    SkippedItem(l, i, tail, k);
    IssuesMembers(seen);
    HighWaterIsMax(Issues(seen), c);
    assert y in Issues(seen);
    forall later: seq<Item>, c': Cursor | Sorted(later) && UniqueIds(later) && Reached(seen, c) <= c'
      ensures l[k] !in Since(later, c')
    {
      SinceIsFilter(later, c');
    }
  }

  /** An instance: three issues, two to a page; editing the first after page one hides the third. */
  lemma EditHidesThird() returns (l: seq<Item>, x: Item)
    ensures Sorted(l) && UniqueIds(l) && |l| == 3 && Sorted(Edited(l, 0, x)) && !l[2].pull
    ensures var seen := Seen(l, Edited(l, 0, x), 2, 1, 2);
      l[2] in Edited(l, 0, x) && l[2] !in seen && l[2] !in Since(Edited(l, 0, x), Reached(seen, 0))
  {
    l, x := Three(), Item(0, 4, false, [0]);
    ThreeShifted(x);
    SkippedForGood(l, 0, [x], 2, 1, 2, 0, x);
  }

  lemma ThreeShifted(x: Item)
    requires x.id == 0 && x.stamp == 4
    ensures Sorted(Edited(Three(), 0, x)) && |Edited(Three(), 0, x)| == 3
    ensures UniqueIds(Edited(Three(), 0, x)) && x in Seen(Three(), Edited(Three(), 0, x), 2, 1, 2)
  {
    var l' := Edited(Three(), 0, x);
    assert l' == [Three()[1], Three()[2], x];
    SeenIsSplice(Three(), l', 2, 1, 2);
    assert l'[2..][0] == x;
  }

  function Three(): seq<Item> {
    [Item(0, 1, false, []), Item(1, 2, false, []), Item(2, 3, false, [])]
  }
}
