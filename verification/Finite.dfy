/** Counting the members of finite sequences and sets. */
module Finite {

  ghost predicate Distinct<T>(s: seq<T>) {
    forall i, j :: 0 <= i < j < |s| ==> s[i] != s[j]
  }

  function Members<T(==)>(s: seq<T>): set<T> {
    set x | x in s
  }

  lemma {:induction false} DistinctCount<T>(s: seq<T>)
    requires Distinct(s)
    ensures |Members(s)| == |s|
  {
    if s != [] {
      var n := |s| - 1;
      var front := s[..n];
      DistinctCount(front);
      assert s == front + [s[n]];
      assert Members(s) == Members(front) + {s[n]};
      assert s[n] !in Members(front);
    }
  }

  lemma SubsetCount<T>(a: set<T>, b: set<T>)
    requires a <= b
    ensures |a| <= |b| && |b - a| == |b| - |a|
    ensures |a| == |b| ==> a == b
  {
    assert b == a + (b - a);
  }

  /** One more element adds itself to the part of a sequence that lies in `k`, or nothing. */
  lemma MembersWithin<T>(s: seq<T>, x: T, k: set<T>)
    ensures Members(s + [x]) * k == if x in k then Members(s) * k + {x} else Members(s) * k
  {
    assert Members(s + [x]) == Members(s) + {x};
  }

  lemma {:induction false} MembersAtMost<T>(s: seq<T>)
    ensures |Members(s)| <= |s|
  {
    if s != [] {
      var front, x := s[..|s| - 1], s[|s| - 1];
      MembersAtMost(front);
      assert s == front + [x];
      assert Members(s) == Members(front) + {x};
    }
  }

  lemma UnionAtMost<T>(a: set<T>, b: set<T>)
    ensures |a + b| <= |a| + |b|
  {
    assert a + b == a + (b - a);
    SubsetCount(b - a, b);
  }

  /** The union of the first `n` sets. */
  ghost function UnionOf<T>(ss: seq<set<T>>, n: nat): set<T>
    requires n <= |ss|
  {
    if n == 0 then {} else UnionOf(ss, n - 1) + ss[n - 1]
  }

  function SumOf(ns: seq<nat>, n: nat): nat
    requires n <= |ns|
  {
    if n == 0 then 0 else SumOf(ns, n - 1) + ns[n - 1]
  }

  lemma {:induction false} InUnion<T>(ss: seq<set<T>>, n: nat, k: nat, x: T)
    requires k < n <= |ss| && x in ss[k]
    ensures x in UnionOf(ss, n)
  {
    if k < n - 1 {
      InUnion(ss, n - 1, k, x);
    }
  }

  lemma {:induction false} UnionBounded<T>(ss: seq<set<T>>, ns: seq<nat>, n: nat)
    requires n <= |ss| == |ns| && forall i :: 0 <= i < n ==> |ss[i]| <= ns[i]
    ensures |UnionOf(ss, n)| <= SumOf(ns, n)
  {
    if n > 0 {
      UnionBounded(ss, ns, n - 1);
      UnionAtMost(UnionOf(ss, n - 1), ss[n - 1]);
    }
  }
}
