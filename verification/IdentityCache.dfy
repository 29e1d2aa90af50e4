/**
 The bounded, expiring identity cache: a recency list with an index, refined from a functional
 list, and characterised over every history of calls.
 */
module IdentityCache {
  import opened Wrappers
  import opened Finite

  type Time = int
  type Sub = nat
  type Identity = nat

  datatype Ent = Ent(sub: Sub, id: Identity, expires: Time)

  // --- the functional list, most recently used first ---

  function Find(s: seq<Ent>, sub: Sub): (i: nat)
    ensures i <= |s|
    ensures i < |s| ==> s[i].sub == sub
    ensures forall j :: 0 <= j < i ==> s[j].sub != sub
  {
    if s == [] then 0 else if s[0].sub == sub then 0 else 1 + Find(s[1..], sub)
  }

  predicate Has(s: seq<Ent>, sub: Sub) {
    Find(s, sub) < |s|
  }

  function Without<T>(s: seq<T>, i: nat): seq<T>
    requires i < |s|
  {
    s[..i] + s[i + 1..]
  }

  datatype Op = Get(sub: Sub, now: Time) | Add(sub: Sub, id: Identity, now: Time)

  /** A lookup hits when the entry is there and not past its expiry. */
  predicate Hits(s: seq<Ent>, sub: Sub, now: Time) {
    Has(s, sub) && now <= s[Find(s, sub)].expires
  }

  function Answer(s: seq<Ent>, sub: Sub, now: Time): Option<Identity> {
    if Hits(s, sub, now) then Some(s[Find(s, sub)].id) else None
  }

  function Step(s: seq<Ent>, op: Op, ttl: int, max: int): seq<Ent> {
    var i := Find(s, op.sub);
    match op
    case Get(sub, now) =>
      if i == |s| then s
      else if now > s[i].expires then Without(s, i)
      else [s[i]] + Without(s, i)
    case Add(sub, id, now) =>
      var e := Ent(sub, id, now + ttl);
      if i < |s| then [e] + Without(s, i)
      else if |s| + 1 > max then ([e] + s)[..|s|]
      else [e] + s
  }

  lemma StepKnown(s: seq<Ent>, op: Op, ttl: int, max: int)
    requires op.Add? && Has(s, op.sub)
    ensures Step(s, op, ttl, max) == [Ent(op.sub, op.id, op.now + ttl)] + Without(s, Find(s, op.sub))
  {
  }

  lemma StepNew(s: seq<Ent>, op: Op, ttl: int, max: int)
    requires op.Add? && !Has(s, op.sub)
    ensures var l := [Ent(op.sub, op.id, op.now + ttl)] + s;
      Step(s, op, ttl, max) == if |l| > max then l[..|l| - 1] else l
  {
  }

  // --- the cache ---

  class CacheEntry {
    const sub: Sub
    var id: Identity
    var expires: Time

    constructor (sub: Sub, id: Identity, expires: Time)
      ensures this.sub == sub && this.id == id && this.expires == expires
    {
      this.sub, this.id, this.expires := sub, id, expires;
    }
  }

  /** The index a recency list calls for. */
  ghost function Index(ll: seq<CacheEntry>): map<Sub, CacheEntry> {
    if ll == [] then map[] else Index(ll[1..])[ll[0].sub := ll[0]]
  }

  ghost predicate Unique(ll: seq<CacheEntry>) {
    ll == [] || (ll[0].sub !in Index(ll[1..]) && Unique(ll[1..]))
  }

  ghost function Ents(ll: seq<CacheEntry>): (s: seq<Ent>)
    reads ll
    ensures |s| == |ll|
  {
    if ll == [] then [] else [Ent(ll[0].sub, ll[0].id, ll[0].expires)] + Ents(ll[1..])
  }

  /** The index finds an entry exactly where a search of the list does. */
  lemma {:induction false} IndexFinds(ll: seq<CacheEntry>, sub: Sub)
    ensures var i := Find(Ents(ll), sub);
      if i < |ll| then sub in Index(ll) && ll[i].sub == sub && Index(ll)[sub] == ll[i]
        && Ents(ll)[i] == Ent(sub, ll[i].id, ll[i].expires)
      else sub !in Index(ll)
  {
    if ll != [] {
      IndexFinds(ll[1..], sub);
      assert Ents(ll)[1..] == Ents(ll[1..]);
    }
  }

  lemma WithoutTail<T>(s: seq<T>, k: nat)
    requires 0 < k < |s|
    ensures Without(s, k) == [s[0]] + Without(s[1..], k - 1)
    ensures Without(s, k)[1..] == Without(s[1..], k - 1)
  {
  }

  lemma {:induction false} WithoutEntry(ll: seq<CacheEntry>, k: nat)
    requires Unique(ll) && k < |ll|
    ensures Unique(Without(ll, k)) && Index(Without(ll, k)) == Index(ll) - {ll[k].sub}
    ensures ll[k].sub in Index(ll) && Index(ll)[ll[k].sub] == ll[k]
  {
    if k == 0 {
      assert Without(ll, 0) == ll[1..];
    } else {
      WithoutEntry(ll[1..], k - 1);
      WithoutTail(ll, k);
      PushEntry(Without(ll[1..], k - 1), ll[0]);
    }
  }

  lemma {:induction false} EntsAt(ll: seq<CacheEntry>, k: nat)
    requires k < |ll|
    ensures Ents(ll)[k] == Ent(ll[k].sub, ll[k].id, ll[k].expires)
    ensures Ents(Without(ll, k)) == Without(Ents(ll), k)
  {
    if k == 0 {
      assert Without(ll, 0) == ll[1..];
      assert Without(Ents(ll), 0) == Ents(ll[1..]);
    } else {
      EntsAt(ll[1..], k - 1);
      WithoutTail(ll, k);
    }
  }

  /** Keys are unique, so the search of the list finds every entry. */
  lemma {:induction false} FindsEntry(ll: seq<CacheEntry>, k: nat)
    requires Unique(ll) && k < |ll|
    ensures Find(Ents(ll), ll[k].sub) == k
  {
    assert Ents(ll)[1..] == Ents(ll[1..]);
    if k > 0 {
      FindsEntry(ll[1..], k - 1);
      WithoutEntry(ll[1..], k - 1);
    }
  }

  lemma {:induction false} AbsentEntry(ll: seq<CacheEntry>, e: CacheEntry)
    requires e.sub !in Index(ll)
    ensures e !in ll
  {
    if ll != [] {
      AbsentEntry(ll[1..], e);
    }
  }

  lemma PushEntry(ll: seq<CacheEntry>, e: CacheEntry)
    requires Unique(ll) && e.sub !in Index(ll)
    ensures Unique([e] + ll) && Index([e] + ll) == Index(ll)[e.sub := e]
  {
    assert ([e] + ll)[1..] == ll;
  }

  lemma EntsCons(e: CacheEntry, ll: seq<CacheEntry>)
    ensures Ents([e] + ll) == [Ent(e.sub, e.id, e.expires)] + Ents(ll)
  {
    assert ([e] + ll)[1..] == ll;
  }

  class Cache {
    const max: int
    const ttl: int
    var ll: seq<CacheEntry>
    var m: map<Sub, CacheEntry>
    ghost var h: seq<Op> // every call so far

    /** The list and its index are in bijection. */
    ghost predicate Valid()
      reads this
    {
      Unique(ll) && m == Index(ll)
    }

    constructor (max: int, ttl: int)
      ensures Valid() && Tracks() && h == [] && this.max == max && this.ttl == ttl
    {
      this.max, this.ttl, ll, m, h := max, ttl, [], map[], [];
    }

    /** The list is what the functional cache holds after the same calls. */
    ghost predicate Tracks()
      reads this, ll
    {
      Ents(ll) == State(h, ttl, max)
    }

    /** A lookup, recorded: it answers as the history of calls says. */
    method Get(sub: Sub, now: Time) returns (r: Option<Identity>)
      requires Valid() && Tracks()
      modifies this`ll, this`m, this`h
      ensures Valid() && Tracks() && h == old(h) + [Op.Get(sub, now)]
      ensures r == Answer(State(old(h), ttl, max), sub, now)
      ensures r.Some? ==>
        var a := LastAdd(old(h), sub); a >= 0 && r.value == old(h)[a].id && now <= old(h)[a].now + ttl
    {
      if Hits(Ents(ll), sub, now) {
        HitIsLastAdd(h, sub, now, ttl, max);
      }
      StateNext(h, Op.Get(sub, now), ttl, max);
      r := Lookup(sub, now);
      h := h + [Op.Get(sub, now)];
    }

    /** An insertion, recorded. */
    method Add(sub: Sub, id: Identity, now: Time)
      requires Valid() && Tracks()
      modifies this`ll, this`m, this`h, ll
      ensures Valid() && Tracks() && h == old(h) + [Op.Add(sub, id, now)]
    {
      StateNext(h, Op.Add(sub, id, now), ttl, max);
      Insert(sub, id, now);
      h := h + [Op.Add(sub, id, now)];
    }

    /** Unlink an entry from both the list and the index. */
    method Remove(el: CacheEntry, ghost k: nat)
      requires Valid() && k < |ll| && ll[k] == el
      modifies this`ll, this`m
      ensures Valid() && ll == Without(old(ll), k)
    {
      var i :| 0 <= i < |ll| && ll[i] == el;
      FindsEntry(ll, i);
      FindsEntry(ll, k);
      WithoutEntry(ll, i);
      ll := ll[..i] + ll[i + 1..];
      m := m - {el.sub};
    }

    method MoveToFront(el: CacheEntry, ghost k: nat)
      requires Valid() && k < |ll| && ll[k] == el
      modifies this`ll
      ensures Valid() && ll == [el] + Without(old(ll), k)
    {
      var i :| 0 <= i < |ll| && ll[i] == el;
      FindsEntry(ll, i);
      FindsEntry(ll, k);
      WithoutEntry(ll, i);
      PushEntry(Without(ll, i), el);
      ll := [el] + (ll[..i] + ll[i + 1..]);
    }

    method Touch(ent: CacheEntry, ghost k: nat)
      requires Valid() && k < |ll| && ll[k] == ent
      modifies this`ll
      ensures Valid() && Ents(ll) == [old(Ents(ll))[k]] + Without(old(Ents(ll)), k)
    {
      EntsAt(ll, k);
      EntsCons(ent, Without(ll, k));
      MoveToFront(ent, k);
    }

    /** Look a key up; an expired entry is dropped on read. */
    method Lookup(sub: Sub, now: Time) returns (r: Option<Identity>)
      requires Valid()
      modifies this`ll, this`m
      ensures Valid() && Ents(ll) == Step(old(Ents(ll)), Op.Get(sub, now), ttl, max)
      ensures r == Answer(old(Ents(ll)), sub, now)
    {
      IndexFinds(ll, sub);
      if sub !in m {
        return None;
      }
      var ent := m[sub];
      ghost var k := Find(Ents(ll), sub);
      EntsAt(ll, k);
      if now > ent.expires {
        Remove(ent, k);
        return None;
      }
      Touch(ent, k);
      return Some(ent.id);
    }

    /** The entry is updated where it is, then moved. */
    method Refresh(ent: CacheEntry, ghost k: nat, id: Identity, now: Time)
      requires Valid() && k < |ll| && ll[k] == ent
      modifies this`ll, ent
      ensures Valid() && Ents(ll) == [Ent(ent.sub, id, now + ttl)] + Without(old(Ents(ll)), k)
    {
      ghost var rest := Without(ll, k);
      EntsAt(ll, k);
      WithoutEntry(ll, k);
      AbsentEntry(rest, ent);
      ent.id := id;
      ent.expires := now + ttl;
      MoveToFront(ent, k);
      EntsCons(ent, rest);
    }

    method PushFront(sub: Sub, id: Identity, now: Time)
      requires Valid() && sub !in m
      modifies this`ll, this`m
      ensures Valid() && Ents(ll) == [Ent(sub, id, now + ttl)] + old(Ents(ll))
    {
      var el := new CacheEntry(sub, id, now + ttl);
      PushEntry(ll, el);
      EntsCons(el, ll);
      ll := [el] + ll;
      m := m[sub := el];
    }

    method RemoveBack()
      requires Valid() && ll != []
      modifies this`ll, this`m
      ensures Valid() && Ents(ll) == old(Ents(ll))[..|old(ll)| - 1]
    {
      EntsAt(ll, |ll| - 1);
      Remove(ll[|ll| - 1], |ll| - 1);
    }

    method AddNew(sub: Sub, id: Identity, now: Time)
      requires Valid() && sub !in m
      modifies this`ll, this`m
      ensures Valid()
      ensures var l := [Ent(sub, id, now + ttl)] + old(Ents(ll)); Ents(ll) == if |l| > max then l[..|l| - 1] else l
    {
      PushFront(sub, id, now);
      if |ll| > max {
        RemoveBack();
      }
    }

    /** Insert or refresh a key, and evict the least recently used entry if the cache is over capacity. */
    method Insert(sub: Sub, id: Identity, now: Time)
      requires Valid()
      modifies this`ll, this`m, ll
      ensures Valid() && Ents(ll) == Step(old(Ents(ll)), Op.Add(sub, id, now), ttl, max)
    {
      IndexFinds(ll, sub);
      if sub in m {
        StepKnown(Ents(ll), Op.Add(sub, id, now), ttl, max);
        Refresh(m[sub], Find(Ents(ll), sub), id, now);
        return;
      }
      StepNew(Ents(ll), Op.Add(sub, id, now), ttl, max);
      AddNew(sub, id, now);
    }
  }

  // --- every history of calls ---

  function State(h: seq<Op>, ttl: int, max: int): seq<Ent> {
    if h == [] then [] else Step(State(h[..|h| - 1], ttl, max), h[|h| - 1], ttl, max)
  }

  lemma StateNext(h: seq<Op>, op: Op, ttl: int, max: int)
    ensures State(h + [op], ttl, max) == Step(State(h, ttl, max), op, ttl, max)
  {
    assert (h + [op])[..|h|] == h;
  }

  /** The keys called since the last call for `sub`. */
  function Recent(h: seq<Op>, sub: Sub): set<Sub> {
    if h == [] || h[|h| - 1].sub == sub then {} else Recent(h[..|h| - 1], sub) + {h[|h| - 1].sub}
  }

  /** The position of the last insertion of `sub`, -1 when there is none. */
  function LastAdd(h: seq<Op>, sub: Sub): (a: int)
    ensures -1 <= a < |h|
    ensures a >= 0 ==> h[a].Add? && h[a].sub == sub
    ensures forall j :: a < j < |h| ==> !(h[j].Add? && h[j].sub == sub)
  {
    if h == [] then -1
    else if h[|h| - 1].Add? && h[|h| - 1].sub == sub then |h| - 1
    else LastAdd(h[..|h| - 1], sub)
  }

  predicate OnePerKey(s: seq<Ent>) {
    forall i, j :: 0 <= i < j < |s| ==> s[i].sub != s[j].sub
  }

  /** Every entry ahead of another one was used after it. */
  predicate ByRecency(s: seq<Ent>, h: seq<Op>) {
    forall i, j :: 0 <= i < j < |s| ==> s[i].sub in Recent(h, s[j].sub)
  }

  /** Every entry is what the last insertion of its key put there. */
  predicate FromLastAdd(s: seq<Ent>, h: seq<Op>, ttl: int) {
    forall i :: 0 <= i < |s| ==> FromAdd(s[i], h, ttl)
  }

  predicate FromAdd(e: Ent, h: seq<Op>, ttl: int) {
    var a := LastAdd(h, e.sub);
    a >= 0 && e == Ent(e.sub, h[a].id, h[a].now + ttl)
  }

  /** One entry per key, most recently used first, every entry from its key's last insertion. */
  predicate Good(s: seq<Ent>, h: seq<Op>, ttl: int) {
    OnePerKey(s) && ByRecency(s, h) && FromLastAdd(s, h, ttl)
  }

  predicate Lacks(s: seq<Ent>, sub: Sub) {
    forall i :: 0 <= i < |s| ==> s[i].sub != sub
  }

  lemma GoodWithout(s: seq<Ent>, h: seq<Op>, ttl: int, i: nat)
    requires Good(s, h, ttl) && i < |s|
    ensures Good(Without(s, i), h, ttl) && Lacks(Without(s, i), s[i].sub)
  {
    var w := Without(s, i);
    assert forall j :: 0 <= j < |w| ==> w[j] == s[if j < i then j else j + 1];
  }

  lemma GoodLater(s: seq<Ent>, p: seq<Op>, op: Op, ttl: int)
    requires Good(s, p, ttl) && Lacks(s, op.sub)
    ensures Good(s, p + [op], ttl)
  {
    var h := p + [op];
    assert h[..|h| - 1] == p;
    assert forall i :: 0 <= i < |s| ==> LastAdd(h, s[i].sub) == LastAdd(p, s[i].sub);
  }

  lemma GoodFront(s: seq<Ent>, p: seq<Op>, op: Op, ttl: int, e: Ent)
    requires Good(s, p + [op], ttl) && Lacks(s, op.sub) && e.sub == op.sub
    requires if op.Add? then e == Ent(op.sub, op.id, op.now + ttl) else FromAdd(e, p, ttl)
    ensures Good([e] + s, p + [op], ttl)
  {
    var h, r := p + [op], [e] + s;
    assert h[..|h| - 1] == p;
    assert [e][0] == e;
    assert forall j :: 1 <= j < |r| ==> r[j] == s[j - 1];
    forall i, j | 0 <= i < j < |r| ensures r[i].sub in Recent(h, r[j].sub) {
      assert r[j] == s[j - 1] && (i > 0 ==> r[i] == s[i - 1]);
    }
  }

  /** The bound, and what the list holds, after every history. */
  lemma {:induction false} StateMeaning(h: seq<Op>, ttl: int, max: int)
    ensures |State(h, ttl, max)| <= (if max > 0 then max else 0)
    ensures Good(State(h, ttl, max), h, ttl)
  {
    if h != [] {
      var p, op := h[..|h| - 1], h[|h| - 1];
      StateMeaning(p, ttl, max);
      StepMeaning(State(p, ttl, max), p, op, ttl, max);
      StepBound(State(p, ttl, max), op, ttl, max);
      assert h == p + [op];
    }
  }

  lemma StepBound(s: seq<Ent>, op: Op, ttl: int, max: int)
    requires |s| <= (if max > 0 then max else 0)
    ensures |Step(s, op, ttl, max)| <= (if max > 0 then max else 0)
  {
  }

  lemma GoodPrefix(s: seq<Ent>, h: seq<Op>, ttl: int, n: nat)
    requires Good(s, h, ttl) && n <= |s|
    ensures Good(s[..n], h, ttl)
  {
  }

  /** Dropping the called key's entry, if there is one, leaves a good list. */
  lemma DropCalled(s: seq<Ent>, p: seq<Op>, op: Op, ttl: int) returns (w: seq<Ent>)
    requires Good(s, p, ttl)
    ensures w == (if Has(s, op.sub) then Without(s, Find(s, op.sub)) else s)
    ensures Good(w, p + [op], ttl) && Lacks(w, op.sub)
  {
    w := s;
    if Has(s, op.sub) {
      GoodWithout(s, p, ttl, Find(s, op.sub));
      w := Without(s, Find(s, op.sub));
    }
    GoodLater(w, p, op, ttl);
  }

  lemma StepMeaning(s: seq<Ent>, p: seq<Op>, op: Op, ttl: int, max: int)
    requires Good(s, p, ttl)
    ensures Good(Step(s, op, ttl, max), p + [op], ttl)
  {
    var w := DropCalled(s, p, op, ttl);
    if op.Add? {
      var e := Ent(op.sub, op.id, op.now + ttl);
      GoodFront(w, p, op, ttl, e);
      if !Has(s, op.sub) && |s| + 1 > max {
        GoodPrefix([e] + w, p + [op], ttl, |w|);
      }
    } else if Hits(s, op.sub, op.now) {
      GoodFront(w, p, op, ttl, s[Find(s, op.sub)]);
    }
  }

  /**
   A hit answers with the identity last inserted for the key, and never later than that
   insertion's time plus the lifetime, whatever the clock did.
   */
  lemma HitIsLastAdd(h: seq<Op>, sub: Sub, now: Time, ttl: int, max: int)
    requires Hits(State(h, ttl, max), sub, now)
    ensures var a := LastAdd(h, sub);
      a >= 0 && Answer(State(h, ttl, max), sub, now) == Some(h[a].id) && now <= h[a].now + ttl
  {
    StateMeaning(h, ttl, max);
  }

  function Subs(s: seq<Ent>): (r: set<Sub>)
    ensures forall k :: k in r <==> exists i :: 0 <= i < |s| && s[i].sub == k
  {
    set i | 0 <= i < |s| :: s[i].sub
  }

  lemma {:induction false} SubsCount(s: seq<Ent>)
    requires OnePerKey(s)
    ensures |Subs(s)| == |s|
  {
    if s != [] {
      SubsCount(s[1..]);
      assert Subs(s) == Subs(s[1..]) + {s[0].sub} by {
        forall k | k in Subs(s) ensures k in Subs(s[1..]) + {s[0].sub} {
          var i :| 0 <= i < |s| && s[i].sub == k;
          if i > 0 {
            assert s[1..][i - 1].sub == k;
          }
        }
      }
    }
  }

  lemma FindBehind(e: Ent, s: seq<Ent>, sub: Sub)
    requires e.sub != sub
    ensures Find([e] + s, sub) == Find(s, sub) + 1
    ensures Has(s, sub) ==> ([e] + s)[Find([e] + s, sub)] == s[Find(s, sub)]
  {
    assert ([e] + s)[1..] == s;
  }

  lemma FindWithout(s: seq<Ent>, k: nat, sub: Sub)
    requires k < |s| && s[k].sub != sub && Has(s, sub)
    ensures var w := Without(s, k); Has(w, sub) && w[Find(w, sub)] == s[Find(s, sub)]
  {
    var w, i := Without(s, k), Find(s, sub);
    var j := if i < k then i else i - 1;
    assert w[j] == s[i];
    assert forall n :: 0 <= n < j ==> w[n] == s[if n < k then n else n + 1];
    assert forall n :: 0 <= n < j ==> w[n].sub != sub;
  }

  lemma FindInPrefix(s: seq<Ent>, n: nat, sub: Sub)
    requires n <= |s|
    ensures Has(s[..n], sub) <==> Find(s, sub) < n
    ensures Find(s, sub) < n ==> s[..n][Find(s[..n], sub)] == s[Find(s, sub)]
  {
    var i := Find(s[..n], sub);
    assert forall k :: 0 <= k < n ==> s[..n][k] == s[k];
    if Find(s, sub) < n {
      assert s[..n][Find(s, sub)].sub == sub;
    }
  }

  /** A call for another key removes an entry only by pushing the last one out of a full list. */
  lemma StepKeepsOthers(s: seq<Ent>, op: Op, sub: Sub, ttl: int, max: int)
    requires Has(s, sub) && op.sub != sub
    ensures var r := Step(s, op, ttl, max);
      if op.Add? && !Has(s, op.sub) && |s| >= max && Find(s, sub) == |s| - 1 then !Has(r, sub)
      else Has(r, sub) && r[Find(r, sub)] == s[Find(s, sub)]
  {
    if Has(s, op.sub) {
      var k := Find(s, op.sub);
      FindWithout(s, k, sub);
      if op.Add? {
        StepKnown(s, op, ttl, max);
        FindBehind(Ent(op.sub, op.id, op.now + ttl), Without(s, k), sub);
      } else {
        FindBehind(s[k], Without(s, k), sub);
      }
    } else if op.Add? {
      var e := Ent(op.sub, op.id, op.now + ttl);
      StepNew(s, op, ttl, max);
      FindBehind(e, s, sub);
      FindInPrefix([e] + s, |s|, sub);
    }
  }

  /** What a full list looks like after pushing out its last entry: everything in it was used since. */
  lemma PushedOut(s: seq<Ent>, p: seq<Op>, op: Op, e: Ent, ttl: int)
    requires Good(s, p, ttl) && s != [] && Lacks(s, op.sub) && e.sub == op.sub
    ensures var r := [e] + s[..|s| - 1]; |Subs(r)| == |s| && Subs(r) <= Recent(p + [op], s[|s| - 1].sub)
  {
    var h, r, last := p + [op], [e] + s[..|s| - 1], s[|s| - 1].sub;
    assert h[..|h| - 1] == p;
    assert forall j :: 1 <= j < |r| ==> r[j] == s[j - 1];
    SubsCount(r);
    forall k | k in Subs(r) ensures k in Recent(h, last) {
      var j :| 0 <= j < |r| && r[j].sub == k;
    }
  }

  /** An insertion, or a lookup within the lifetime, leaves its key at the front. */
  lemma HitLeads(s: seq<Ent>, op: Op, ttl: int, max: int)
    requires max >= 1 && (op.Add? || Hits(s, op.sub, op.now))
    ensures var r := Step(s, op, ttl, max); Has(r, op.sub) && Find(r, op.sub) == 0
  {
    var r := Step(s, op, ttl, max);
    assert r[0].sub == op.sub;
  }

  lemma StepLeaves(s: seq<Ent>, p: seq<Op>, op: Op, sub: Sub, ttl: int, max: int)
    requires 1 <= max && |s| <= max && Good(s, p, ttl)
    requires Has(s, sub) && !Has(Step(s, op, ttl, max), sub)
    ensures var r := Step(s, op, ttl, max);
      || (op.Get? && op.sub == sub && op.now > s[Find(s, sub)].expires)
      || (op.Add? && !Has(s, op.sub) && |Subs(r)| == max && Subs(r) <= Recent(p + [op], sub))
  {
    var r := Step(s, op, ttl, max);
    if op.sub == sub {
      if op.Add? || Hits(s, sub, op.now) {
        HitLeads(s, op, ttl, max);
      }
    } else {
      StepKeepsOthers(s, op, sub, ttl, max);
      var e := Ent(op.sub, op.id, op.now + ttl);
      assert r == [e] + s[..|s| - 1];
      PushedOut(s, p, op, e, ttl);
    }
  }

  /**
   An entry leaves in one of two ways: a lookup of its key past its expiry, or an insertion of a
   new key when `max` other keys, all of them cached afterwards, were used since its own last use.
   */
  lemma LeavesExpiredOrLeastRecent(p: seq<Op>, op: Op, sub: Sub, ttl: int, max: int)
    requires Has(State(p, ttl, max), sub) && !Has(State(p + [op], ttl, max), sub)
    ensures var s, r := State(p, ttl, max), State(p + [op], ttl, max);
      || (op.Get? && op.sub == sub && op.now > s[Find(s, sub)].expires)
      || (op.Add? && !Has(s, op.sub) && |Subs(r)| == max && Subs(r) <= Recent(p + [op], sub))
  {
    assert (p + [op])[..|p|] == p;
    StateMeaning(p, ttl, max);
    StepLeaves(State(p, ttl, max), p, op, sub, ttl, max);
  }

  /**
   The partner of the two results above: an insertion keeps answering as long as every lookup of
   its key comes within the lifetime and fewer than `max` other keys are called between two
   consecutive uses of it.
   */
  lemma {:induction false} HitGuarantee(h: seq<Op>, a: nat, sub: Sub, ttl: int, max: int)
    requires a < |h| && h[a].Add? && h[a].sub == sub
    requires forall j :: a < j < |h| && h[j].sub == sub ==> h[j].Get? && h[j].now <= h[a].now + ttl
    requires forall j :: a < j <= |h| ==> |Recent(h[..j], sub)| < max
    ensures Holds(State(h, ttl, max), Ent(sub, h[a].id, h[a].now + ttl))
    ensures forall now :: now <= h[a].now + ttl ==> Answer(State(h, ttl, max), sub, now) == Some(h[a].id)
  {
    var p, op := h[..|h| - 1], h[|h| - 1];
    assert h == p + [op] && h[..|h|] == h;
    if a < |h| - 1 {
      forall j | a < j <= |p| ensures |Recent(p[..j], sub)| < max {
        assert p[..j] == h[..j];
      }
      HitGuarantee(p, a, sub, ttl, max);
    }
    StateMeaning(p, ttl, max);
    StepHolds(State(p, ttl, max), p, op, Ent(sub, h[a].id, h[a].now + ttl), ttl, max);
  }

  predicate Holds(s: seq<Ent>, e: Ent) {
    Has(s, e.sub) && s[Find(s, e.sub)] == e
  }

  /** One step puts an entry there or keeps it. */
  lemma StepHolds(s: seq<Ent>, p: seq<Op>, op: Op, e: Ent, ttl: int, max: int)
    requires |s| <= max && Good(s, p, ttl) && |Recent(p + [op], e.sub)| < max
    requires op == Add(e.sub, e.id, e.expires - ttl)
      || (Holds(s, e) && (op.sub == e.sub ==> op.Get? && op.now <= e.expires))
    ensures Holds(Step(s, op, ttl, max), e)
  {
    var r := Step(s, op, ttl, max);
    if op.sub == e.sub {
      assert r[0] == e;
    } else {
      StepKeepsOthers(s, op, e.sub, ttl, max);
      if !Has(r, e.sub) {
        StepLeaves(s, p, op, e.sub, ttl, max);
        SubsetCount(Subs(r), Recent(p + [op], e.sub));
      }
    }
  }
}
