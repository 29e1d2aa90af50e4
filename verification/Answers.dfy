/**
 How the steps of a drain that can go wrong do go: the answers are given in advance, one for each
 time the worker asks, so what a call makes of them can be stated.
 */
module Answers {

  /** What can be objected to: the credentials, the rate, or anything else. */
  datatype Failure = Auth | RateLimit | Other

  /** A step goes well, fails, finds the context cancelled by a stop, or takes the process down. */
  datatype Answer = Fine | Bad(kind: Failure) | Cancel | Crash

  /** The answers numbered `lo` to `hi - 1` are fine. */
  ghost predicate AllFine(world: nat -> Answer, lo: nat, hi: nat) {
    hi <= lo || (world(hi - 1) == Fine && AllFine(world, lo, hi - 1))
  }

  lemma {:induction false} AllFineMeaning(world: nat -> Answer, lo: nat, hi: nat)
    ensures AllFine(world, lo, hi) <==> forall k: nat :: lo <= k < hi ==> world(k) == Fine
  {
    if lo < hi {
      AllFineMeaning(world, lo, hi - 1);
    }
  }

  lemma {:induction false} AllFineJoins(world: nat -> Answer, lo: nat, mid: nat, hi: nat)
    requires lo <= mid <= hi
    ensures AllFine(world, lo, hi) <==> AllFine(world, lo, mid) && AllFine(world, mid, hi)
  {
    if mid < hi {
      AllFineJoins(world, lo, mid, hi - 1);
    }
  }

  /** From `lo` on every answer was fine up to the last one before `hi`, which is `why` unless that too was fine. */
  ghost predicate EndsWith(world: nat -> Answer, lo: nat, hi: nat, why: Answer) {
    && lo <= hi
    && if why == Fine then AllFine(world, lo, hi) else lo < hi && AllFine(world, lo, hi - 1) && world(hi - 1) == why
  }

  lemma EndsWithJoins(world: nat -> Answer, lo: nat, mid: nat, hi: nat, why: Answer)
    requires EndsWith(world, lo, mid, Fine) && EndsWith(world, mid, hi, why)
    ensures EndsWith(world, lo, hi, why)
  {
    AllFineJoins(world, lo, mid, if why == Fine then hi else hi - 1);
  }
}
