/**
 The source as a connector sees it: a list of items in ascending updated-at order, queried
 with an inclusive lower bound, and the pure folds a drain is measured against.

 Timestamps are the connectors' cursor strings. Only their order matters, so they are natural
 numbers, with 0 for the empty string. Of external ids and content hashes only equality matters.
 */
module SourceStream {

  type Cursor = nat
  type ExternalId = nat
  type Hash = nat
  newtype byte = x | 0 <= x < 256
  type Bytes = seq<byte>

  /** One item of the listing. `pull` marks a pull request, which the issues endpoint also lists. */
  datatype Item = Item(id: ExternalId, stamp: Cursor, pull: bool, body: Bytes)

  /** The source at one moment. No item is stamped later than the source's own clock. */
  datatype Source = Source(items: seq<Item>, clock: Cursor)

  ghost predicate Sorted(items: seq<Item>) {
    forall i, j :: 0 <= i < j < |items| ==> items[i].stamp <= items[j].stamp
  }

  ghost predicate UniqueIds(items: seq<Item>) {
    forall i, j :: 0 <= i < j < |items| ==> items[i].id != items[j].id
  }

  ghost predicate ValidSource(s: Source) {
    && Sorted(s.items)
    && UniqueIds(s.items)
    && forall i :: 0 <= i < |s.items| ==> s.items[i].stamp <= s.clock
  }

  /** Between calls items may vanish, and a created or edited item is stamped no earlier than the clock was. */
  ghost predicate SourceMoves(s: Source, s': Source) {
    && ValidSource(s')
    && s.clock <= s'.clock
    && forall it :: it in s'.items ==> it in s.items || s.clock <= it.stamp
  }

  /** The listing a connector pages through: everything at or after the cursor. */
  function Since(items: seq<Item>, c: Cursor): seq<Item> {
    if |items| > 0 && items[0].stamp < c then Since(items[1..], c) else items
  }

  /** Drop the pull requests, keeping the order. */
  function Issues(items: seq<Item>): seq<Item> {
    if items == [] then []
    else if items[|items| - 1].pull then Issues(items[..|items| - 1])
    else Issues(items[..|items| - 1]) + [items[|items| - 1]]
  }

  /** What a call starting at cursor `c` has to emit, in order. */
  function Pending(items: seq<Item>, c: Cursor): seq<Item> {
    Issues(Since(items, c))
  }

  /** The manifest after emitting `l` in order: the last writer of an id decides its content hash. */
  function ApplyRows(h: Bytes -> Hash, l: seq<Item>, rows: map<ExternalId, Hash>): map<ExternalId, Hash> {
    if l == [] then rows
    else
      var it := l[|l| - 1];
      ApplyRows(h, l[..|l| - 1], rows)[it.id := h(it.body)]
  }

  /** The highest cursor among `c` and the stamps of `l`. */
  function HighWater(l: seq<Item>, c: Cursor): (r: Cursor)
    ensures c <= r
  {
    if l == [] then c
    else
      var r := HighWater(l[..|l| - 1], c);
      if l[|l| - 1].stamp > r then l[|l| - 1].stamp else r
  }

  /** The high-water mark bounds every stamp and is attained. */
  lemma {:induction false} HighWaterIsMax(l: seq<Item>, c: Cursor)
    ensures forall i :: 0 <= i < |l| ==> l[i].stamp <= HighWater(l, c)
    ensures HighWater(l, c) == c || exists i :: 0 <= i < |l| && l[i].stamp == HighWater(l, c)
  {
    if l != [] {
      HighWaterIsMax(l[..|l| - 1], c);
      if HighWater(l, c) != c && l[|l| - 1].stamp != HighWater(l, c) {
        var i :| 0 <= i < |l| - 1 && l[..|l| - 1][i].stamp == HighWater(l, c);
        assert l[i].stamp == HighWater(l, c);
      }
    }
  }

  /** The since-listing is a suffix of the listing; the skipped part is older. */
  lemma {:induction false} SinceIsSuffix(items: seq<Item>, c: Cursor) returns (k: nat)
    ensures k <= |items| && Since(items, c) == items[k..]
    ensures forall i :: 0 <= i < k ==> items[i].stamp < c
    ensures k < |items| ==> c <= items[k].stamp
  {
    k := 0;
    if |items| > 0 && items[0].stamp < c {
      k := SinceIsSuffix(items[1..], c);
      assert forall i :: 1 <= i <= k ==> items[i] == items[1..][i - 1];
      k := k + 1;
    }
  }

  /** On a sorted listing the since-suffix is exactly the filter by timestamp. */
  lemma SinceIsFilter(items: seq<Item>, c: Cursor)
    requires Sorted(items) && UniqueIds(items)
    ensures forall it :: it in Since(items, c) <==> it in items && c <= it.stamp
    ensures Sorted(Since(items, c)) && UniqueIds(Since(items, c))
  {
    var k := SinceIsSuffix(items, c);
    forall it | it in items && c <= it.stamp ensures it in items[k..] {
      var i :| 0 <= i < |items| && items[i] == it;
      assert it == items[k..][i - k];
    }
  }

  lemma {:induction false} IssuesMembers(l: seq<Item>)
    ensures forall it :: it in Issues(l) <==> it in l && !it.pull
  {
    if l != [] {
      IssuesMembers(l[..|l| - 1]);
      assert l == l[..|l| - 1] + [l[|l| - 1]];
    }
  }

  lemma SnocOrder(l: seq<Item>, x: Item)
    requires Sorted(l) && UniqueIds(l)
    requires forall i :: 0 <= i < |l| ==> l[i].stamp <= x.stamp && l[i].id != x.id
    ensures Sorted(l + [x]) && UniqueIds(l + [x])
  {
  }

  lemma {:induction false} IssuesOrder(items: seq<Item>)
    requires Sorted(items) && UniqueIds(items)
    ensures Sorted(Issues(items)) && UniqueIds(Issues(items))
  {
    if items != [] {
      var n := |items| - 1;
      IssuesOrder(items[..n]);
      IssuesMembers(items[..n]);
      var l := Issues(items[..n]);
      forall i | 0 <= i < |l| ensures l[i].stamp <= items[n].stamp && l[i].id != items[n].id {
        assert l[i] in items[..n];
        var k :| 0 <= k < n && items[k] == l[i];
      }
      SnocOrder(l, items[n]);
    }
  }

  lemma {:induction false} IssuesConcat(a: seq<Item>, b: seq<Item>)
    ensures Issues(a + b) == Issues(a) + Issues(b)
  {
    if b == [] {
      assert a + b == a;
    } else {
      IssuesConcat(a, b[..|b| - 1]);
      assert (a + b)[..|a + b| - 1] == a + b[..|b| - 1];
    }
  }

  /** What a call must emit: exactly the non-pull items at or after the cursor, ascending, each once. */
  lemma PendingIsFilter(items: seq<Item>, c: Cursor)
    requires Sorted(items) && UniqueIds(items)
    ensures forall it :: it in Pending(items, c) <==> it in items && c <= it.stamp && !it.pull
    ensures Sorted(Pending(items, c)) && UniqueIds(Pending(items, c))
  {
    SinceIsFilter(items, c);
    IssuesMembers(Since(items, c));
    IssuesOrder(Since(items, c));
  }

  /** Emitting `l` records the current hash of each of its items. */
  lemma {:induction false} AppliedRow(h: Bytes -> Hash, l: seq<Item>, rows: map<ExternalId, Hash>, it: Item)
    requires UniqueIds(l) && it in l
    ensures it.id in ApplyRows(h, l, rows) && ApplyRows(h, l, rows)[it.id] == h(it.body)
  {
    var n := |l| - 1;
    if it != l[n] {
      var i :| 0 <= i < n && l[i] == it;
      assert l[..n][i] == it;
      AppliedRow(h, l[..n], rows, it);
      assert it.id != l[n].id;
    }
  }

  /** Emitting `l` leaves every other row as it was. */
  lemma {:induction false} UntouchedRow(h: Bytes -> Hash, l: seq<Item>, rows: map<ExternalId, Hash>, id: ExternalId)
    requires forall it :: it in l ==> it.id != id
    ensures id in ApplyRows(h, l, rows) <==> id in rows
    ensures id in rows ==> ApplyRows(h, l, rows)[id] == rows[id]
  {
    if l != [] {
      UntouchedRow(h, l[..|l| - 1], rows, id);
      assert l[|l| - 1] in l;
    }
  }

  /** A drain never drops a manifest row. */
  lemma {:induction false} RowsOnlyGrow(h: Bytes -> Hash, l: seq<Item>, rows: map<ExternalId, Hash>)
    ensures rows.Keys <= ApplyRows(h, l, rows).Keys
  {
    if l != [] {
      RowsOnlyGrow(h, l[..|l| - 1], rows);
    }
  }
}
