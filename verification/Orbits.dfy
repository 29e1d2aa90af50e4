/** Repeating one step until a goal holds: how often, or never. */
module Orbits {
  import opened Wrappers

  /** The point reached after `n` steps. */
  ghost function After<T>(step: T -> T, c: T, n: nat): T {
    if n == 0 then c else step(After(step, c, n - 1))
  }

  lemma {:induction false} AfterFirst<T>(step: T -> T, c: T, n: nat)
    ensures After(step, c, n + 1) == After(step, step(c), n)
  {
    if n > 0 {
      AfterFirst(step, c, n - 1);
    }
  }

  /** Every step that moves at all lowers the measure. */
  ghost predicate Shrinks<T(!new)>(step: T -> T, left: T -> nat) {
    forall c :: step(c) != c ==> left(step(c)) < left(c)
  }

  /** The number of the first step taken from a point satisfying `done`, counting from 1. */
  ghost function FirstDone<T(!new)>(done: T -> bool, step: T -> T, left: T -> nat, c: T): (r: Option<nat>)
    requires Shrinks(step, left)
    ensures r.Some? ==> 1 <= r.value <= left(c) + 1
    decreases left(c)
  {
    if done(c) then Some(1)
    else if step(c) == c then None
    else
      match FirstDone(done, step, left, step(c))
      case None => None
      case Some(n) => Some(n + 1)
  }

  /** Step `n` is the first one taken from a done point; with None no step is. */
  ghost predicate IsFirst<T(!new)>(done: T -> bool, step: T -> T, c: T, first: Option<nat>) {
    match first
    case Some(n) => n > 0 && done(After(step, c, n - 1)) && forall m: nat :: m < n - 1 ==> !done(After(step, c, m))
    case None => forall m: nat :: !done(After(step, c, m))
  }

  /** Point `n` is reached with nothing done before it, is not done and does not move. */
  ghost predicate StuckAt<T(!new)>(done: T -> bool, step: T -> T, c: T, n: nat) {
    && (forall m: nat :: m < n ==> !done(After(step, c, m)))
    && !done(After(step, c, n))
    && step(After(step, c, n)) == After(step, c, n)
  }

  lemma {:induction false} StuckForever<T(!new)>(done: T -> bool, step: T -> T, c: T, m: nat)
    requires !done(c) && step(c) == c
    ensures After(step, c, m) == c
  {
    if m > 0 {
      StuckForever(done, step, c, m - 1);
    }
  }

  /** Either a first done point exists, at the computed place, or the sequence sticks and is never done. */
  lemma {:induction false} FirstDoneIsExact<T(!new)>(done: T -> bool, step: T -> T, left: T -> nat, c: T)
    requires Shrinks(step, left)
    ensures IsFirst(done, step, c, FirstDone(done, step, left, c))
    ensures FirstDone(done, step, left, c).None? <==> exists n: nat :: StuckAt(done, step, c, n)
    decreases left(c)
  {
    assert After(step, c, 0) == c;
    if done(c) {
    } else if step(c) == c {
      forall m: nat ensures !done(After(step, c, m)) {
        StuckForever(done, step, c, m);
      }
      assert StuckAt(done, step, c, 0);
    } else {
      FirstDoneIsExact(done, step, left, step(c));
      forall m: nat | m > 0 ensures After(step, c, m) == After(step, step(c), m - 1) {
        AfterFirst(step, c, m - 1);
      }
      if n: nat :| StuckAt(done, step, step(c), n) {
        assert StuckAt(done, step, c, n + 1);
      }
      if n: nat :| StuckAt(done, step, c, n) {
        forall m: nat | m < n - 1 ensures !done(After(step, step(c), m)) {
          AfterFirst(step, c, m);
        }
        assert StuckAt(done, step, step(c), n - 1);
      }
    }
  }
}
