/**
 A listing that changes before every page of a call: any number of items leave their places, by
 edits or deletions, and anything comes in at the end. However many pages the call reads, it loses
 no more untouched items than left from the pages it had read by then.
 */
module MovingListing {
  import opened SourceStream
  import opened Finite
  import opened UnitDrain
  import opened LivePaging

  /** The items that stay in their order when those of `gone` leave. */
  function Keep(l: seq<Item>, gone: set<ExternalId>): (r: seq<Item>)
    ensures |r| <= |l|
  {
    if l == [] then []
    else Keep(l[..|l| - 1], gone) + if l[|l| - 1].id in gone then [] else [l[|l| - 1]]
  }

  lemma {:induction false} KeepConcat(a: seq<Item>, b: seq<Item>, gone: set<ExternalId>)
    ensures Keep(a + b, gone) == Keep(a, gone) + Keep(b, gone)
  {
    if b == [] {
      assert a + b == a;
    } else {
      KeepConcat(a, b[..|b| - 1], gone);
      assert (a + b)[..|a + b| - 1] == a + b[..|b| - 1];
    }
  }

  lemma {:induction false} KeepMembers(l: seq<Item>, gone: set<ExternalId>)
    ensures forall it :: it in Keep(l, gone) <==> it in l && it.id !in gone
  {
    if l != [] {
      KeepMembers(l[..|l| - 1], gone);
      assert l == l[..|l| - 1] + [l[|l| - 1]];
    }
  }

  /** The next listing: what stays, in its order, and then whatever came in. */
  ghost predicate Changes(l: seq<Item>, l': seq<Item>, gone: set<ExternalId>) {
    && UniqueIds(l) && UniqueIds(l')
    && |Keep(l, gone)| <= |l'| && l'[..|Keep(l, gone)|] == Keep(l, gone)
  }

  /** How many items left from the first `k` places. */
  function Departures(l: seq<Item>, gone: set<ExternalId>, k: nat): nat {
    if k <= |l| then k - |Keep(l[..k], gone)| else 0
  }

  /** The items that slip onto the first `k` places: the first ones behind, as many as left before them. */
  function Slipped(l: seq<Item>, gone: set<ExternalId>, k: nat): (r: seq<Item>)
    ensures |r| <= Departures(l, gone, k)
  {
    if k <= |l| then
      var rest := Keep(l[k..], gone);
      rest[..Cap(Departures(l, gone, k), rest)]
    else []
  }

  /** Where the item at place `j` of `m` comes to lie when `m` follows `a`. */
  lemma PlaceIff(l': seq<Item>, a: seq<Item>, m: seq<Item>, d: nat, j: nat)
    requires UniqueIds(l') && |a| + |m| <= |l'| && l'[..|a| + |m|] == a + m && j < |m|
    ensures m[j] in l'[Cap(|a| + d, l')..] <==> d <= j
    ensures m[j] in m[..Cap(d, m)] <==> j < d
  {
    var n, k := |a| + j, Cap(|a| + d, l');
    forall i | 0 <= i < |m| ensures l'[|a| + i] == m[i] {
      assert (a + m)[|a| + i] == l'[..|a| + |m|][|a| + i];
    }
    if d <= j {
      assert l'[k..][n - k] == m[j];
    }
  }

  /** Exactly those do: any other item that stays is still behind the first `k` places. */
  lemma StaysBehindIff(l: seq<Item>, l': seq<Item>, gone: set<ExternalId>, k: nat, it: Item)
    requires Changes(l, l', gone) && k <= |l| && it in l[k..] && it.id !in gone
    ensures it in l'[Cap(k, l')..] <==> it !in Slipped(l, gone, k)
  {
    var rest := Keep(l[k..], gone);
    assert l == l[..k] + l[k..];
    KeepConcat(l[..k], l[k..], gone);
    KeepMembers(l[k..], gone);
    var j :| 0 <= j < |rest| && rest[j] == it;
    PlaceIff(l', Keep(l[..k], gone), rest, Departures(l, gone, k), j);
  }

  // --- a whole call ---

  /** The listing as each page finds it, and what left before the next one. */
  ghost predicate Listings(ls: seq<seq<Item>>, gs: seq<set<ExternalId>>) {
    && ls != [] && |gs| == |ls| - 1
    && forall p :: 0 <= p < |gs| ==> Changes(ls[p], ls[p + 1], gs[p])
  }

  /** An item that was there throughout and never left its place. */
  ghost predicate Untouched(gs: seq<set<ExternalId>>, l: seq<Item>, it: Item) {
    it in l && forall p :: 0 <= p < |gs| ==> it.id !in gs[p]
  }

  /** The items that slip away before each next page. */
  ghost function SlippedAt(ls: seq<seq<Item>>, gs: seq<set<ExternalId>>, size: nat): (ss: seq<set<Item>>)
    requires |gs| <= |ls|
    ensures |ss| == |gs| && forall p :: 0 <= p < |gs| ==> ss[p] == Members(Slipped(ls[p], gs[p], Start(size, p + 1)))
  {
    seq(|gs|, p requires 0 <= p < |gs| => Members(Slipped(ls[p], gs[p], Start(size, p + 1))))
  }

  /** What left, before each next page, from the pages read by then. */
  function DeparturesAt(ls: seq<seq<Item>>, gs: seq<set<ExternalId>>, size: nat): (ns: seq<nat>)
    requires |gs| <= |ls|
    ensures |ns| == |gs| && forall p :: 0 <= p < |gs| ==> ns[p] == Departures(ls[p], gs[p], Start(size, p + 1))
  {
    seq(|gs|, p requires 0 <= p < |gs| => Departures(ls[p], gs[p], Start(size, p + 1)))
  }

  /** An untouched item not read by page `p` is read by a later page or slips away. */
  lemma {:induction false} ReadOrSlipped(ls: seq<seq<Item>>, gs: seq<set<ExternalId>>, size: nat, p: nat, it: Item)
    returns (q: nat)
    requires Listings(ls, gs) && size > 0 && p < |ls| && |ls[|ls| - 1]| <= Start(size, |ls|)
    requires Untouched(gs, ls[0], it) && it in ls[p][Cap(Start(size, p), ls[p])..]
    ensures q < |ls| && (it in PageOf(ls[q], size, q) || it in UnionOf(SlippedAt(ls, gs, size), |gs|))
    decreases |ls| - p
  {
    q := p;
    var l, b := ls[p], Start(size, p + 1);
    ReadOrBehind(l, size, p, it);
    if it !in PageOf(l, size, p) {
      StaysBehindIff(l, ls[p + 1], gs[p], b, it);
      if it in Slipped(l, gs[p], b) {
        InUnion(SlippedAt(ls, gs, size), |gs|, p, it);
      } else {
        q := ReadOrSlipped(ls, gs, size, p + 1, it);
      }
    }
  }

  lemma ReadOrBehind(l: seq<Item>, size: nat, p: nat, it: Item)
    requires size > 0 && it in l[Cap(Start(size, p), l)..]
    ensures it in PageOf(l, size, p) || (Start(size, p + 1) <= |l| && it in l[Start(size, p + 1)..])
  {
    PageIsSlice(l, size, p);
    SplitSlice(l, Cap(Start(size, p), l), Cap(Start(size, p + 1), l));
  }

  lemma SplitSlice(l: seq<Item>, a: nat, b: nat)
    requires a <= b <= |l|
    ensures l[a..] == l[a..b] + l[b..]
  {
  }

  /**
   The bound: of the items that were there from the start and never left their places, a call
   that reads to the end misses at most one for every item that left a page already read.
   */
  lemma MissedAtMostDepartures(ls: seq<seq<Item>>, gs: seq<set<ExternalId>>, size: nat, missed: set<Item>)
    requires Listings(ls, gs) && size > 0 && |ls[|ls| - 1]| <= Start(size, |ls|)
    requires forall it :: it in missed ==> Untouched(gs, ls[0], it)
    requires forall it, q :: it in missed && 0 <= q < |ls| ==> it !in PageOf(ls[q], size, q)
    ensures |missed| <= SumOf(DeparturesAt(ls, gs, size), |gs|)
  {
    var ss, ns := SlippedAt(ls, gs, size), DeparturesAt(ls, gs, size);
    forall it | it in missed ensures it in UnionOf(ss, |gs|) {
      var q := ReadOrSlipped(ls, gs, size, 0, it);
    }
    SubsetCount(missed, UnionOf(ss, |gs|));
    forall p | 0 <= p < |gs| ensures |ss[p]| <= ns[p] {
      MembersAtMost(Slipped(ls[p], gs[p], Start(size, p + 1)));
    }
    UnionBounded(ss, ns, |gs|);
  }
}
