/**
 The AIMD admission limiter: one bucket row per scope, changed by single guarded UPDATE
 statements from any number of workers. The statements are pure steps; `Limiter` performs them on
 the table; the lemmas hold over every interleaving, with holders that crash or whose release is
 lost.
 */
module Admission {
  import opened Wrappers
  import opened Finite

  type Time = int
  type Worker = nat
  /** A bucket is kept per connection credential and per tenant. */
  datatype Scope = Credential(connection: nat) | Tenant(tenant: nat)

  datatype Bucket = Bucket(limit: int, inFlight: int, cooldown: Option<Time>)

  function Max(a: int, b: int): int {
    if a < b then b else a
  }

  function Min(a: int, b: int): int {
    if b < a then b else a
  }

  // --- the statements ---

  function Seeded(b: Option<Bucket>, start: int): Bucket {
    match b
    case None => Bucket(Max(start, 1), 0, None)
    case Some(x) => x
  }

  predicate CanAcquire(b: Bucket, now: Time) {
    b.inFlight < b.limit && (b.cooldown.None? || b.cooldown.value <= now)
  }

  function Acquired(b: Bucket): Bucket {
    b.(inFlight := b.inFlight + 1)
  }

  function Released(b: Bucket): Bucket {
    b.(inFlight := Max(b.inFlight - 1, 0))
  }

  function Grown(b: Bucket, cap: int): Bucket {
    if b.limit < cap && b.inFlight >= b.limit - 1 then b.(limit := Min(b.limit + 1, cap)) else b
  }

  function Throttled(b: Bucket, until: Option<Time>): Bucket {
    b.(limit := Max(b.limit / 2, 1), cooldown := until)
  }

  function CooldownOf(now: Time, retryAfter: int): Option<Time> {
    if retryAfter > 0 then Some(now + retryAfter) else None
  }

  /** The limiter over the bucket table. A statement without a matching row changes nothing. */
  class Limiter {
    var buckets: map<Scope, Bucket>

    constructor ()
      ensures buckets == map[]
    {
      buckets := map[];
    }

    ghost function Row(s: Scope): Option<Bucket>
      reads this
    {
      if s in buckets then Some(buckets[s]) else None
    }

    /** Seed on first use, then take a slot if one is free and no cooldown is in effect. */
    method Acquire(s: Scope, start: int, now: Time) returns (ok: bool)
      modifies this
      ensures var b := Seeded(old(Row(s)), start);
        ok == (b.inFlight < b.limit && (b.cooldown.Some? ==> b.cooldown.value <= now))
      ensures old(Row(s)).None? ==> ok
      ensures var b := Seeded(old(Row(s)), start); buckets == old(buckets)[s := if ok then Acquired(b) else b]
    {
      if s !in buckets {
        buckets := buckets[s := Bucket(Max(start, 1), 0, None)];
      }
      ok := buckets[s].inFlight < buckets[s].limit && (buckets[s].cooldown.None? || buckets[s].cooldown.value <= now);
      if ok {
        buckets := buckets[s := buckets[s].(inFlight := buckets[s].inFlight + 1)];
      }
    }

    method Release(s: Scope)
      modifies this
      ensures buckets == if s in old(buckets) then old(buckets)[s := Released(old(buckets)[s])] else old(buckets)
      ensures s in old(buckets) ==> buckets[s].inFlight == Max(old(buckets)[s].inFlight - 1, 0)
    {
      if s in buckets {
        buckets := buckets[s := buckets[s].(inFlight := Max(buckets[s].inFlight - 1, 0))];
      }
    }

    method RecordSuccess(s: Scope, cap: int)
      modifies this
      ensures buckets ==
        if s in old(buckets) then old(buckets)[s := Grown(old(buckets)[s], Max(cap, 1))] else old(buckets)
    {
      var top := Max(cap, 1);
      if s in buckets && buckets[s].limit < top && buckets[s].inFlight >= buckets[s].limit - 1 {
        buckets := buckets[s := buckets[s].(limit := Min(buckets[s].limit + 1, top))];
      }
    }

    method RecordThrottle(s: Scope, now: Time, retryAfter: int)
      modifies this
      ensures var until := CooldownOf(now, retryAfter);
        buckets == if s in old(buckets) then old(buckets)[s := Throttled(old(buckets)[s], until)] else old(buckets)
    {
      var until: Option<Time> := if retryAfter > 0 then Some(now + retryAfter) else None;
      if s in buckets {
        buckets := buckets[s := buckets[s].(limit := Max(buckets[s].limit / 2, 1), cooldown := until)];
      }
    }
  }

  // --- one bucket under every interleaving ---

  /** The connector's seed and hard cap, as the limiter floors them. */
  datatype Budget = Budget(start: int, cap: int)

  function Bound(g: Budget): int {
    Max(Max(g.start, 1), Max(g.cap, 1))
  }

  /** The bucket with its holders: `live` will release; `leaked` slots were taken by holders that never will. */
  datatype Sys = Sys(bucket: Bucket, live: set<Worker>, leaked: nat, now: Time)

  /**
   One atomic statement, or the passing of time. A holder's slot leaks when its process dies or
   when its deferred release runs on a context that a stop has already cancelled.
   */
  datatype Step =
    | Take(w: Worker)
    | Give(w: Worker)
    | Leak(w: Worker)
    | Success(w: Worker)
    | Throttle(w: Worker, retryAfter: int)
    | Tick(d: nat)

  predicate Enabled(s: Sys, e: Step) {
    match e
    case Take(w) => w !in s.live && CanAcquire(s.bucket, s.now)
    case Tick(_) => true
    case _ => e.w in s.live
  }

  function Do(g: Budget, s: Sys, e: Step): Sys {
    match e
    case Take(w) => s.(bucket := Acquired(s.bucket), live := s.live + {w})
    case Give(w) => s.(bucket := Released(s.bucket), live := s.live - {w})
    case Leak(w) => s.(live := s.live - {w}, leaked := s.leaked + 1)
    case Success(_) => s.(bucket := Grown(s.bucket, Max(g.cap, 1)))
    case Throttle(_, retryAfter) => s.(bucket := Throttled(s.bucket, CooldownOf(s.now, retryAfter)))
    case Tick(d) => s.(now := s.now + d)
  }

  function Fresh(g: Budget, now: Time): Sys {
    Sys(Seeded(None, g.start), {}, 0, now)
  }

  function RunFrom(g: Budget, s: Sys, es: seq<Step>): Sys {
    if es == [] then s else Do(g, RunFrom(g, s, es[..|es| - 1]), es[|es| - 1])
  }

  predicate Feasible(g: Budget, s: Sys, es: seq<Step>) {
    es == [] || (Feasible(g, s, es[..|es| - 1]) && Enabled(RunFrom(g, s, es[..|es| - 1]), es[|es| - 1]))
  }

  /**
   The limit stays within its bounds, and every slot in flight is held by a live holder or
   leaked: none is lost or double counted.
   */
  ghost predicate Safe(g: Budget, s: Sys) {
    && 1 <= s.bucket.limit <= Bound(g)
    && s.bucket.inFlight == |s.live| + s.leaked <= Bound(g)
  }

  lemma StepIsSafe(g: Budget, s: Sys, e: Step)
    requires Safe(g, s) && Enabled(s, e)
    ensures Safe(g, Do(g, s, e))
    ensures e.Give? ==> Do(g, s, e).bucket.inFlight == s.bucket.inFlight - 1
  {
    if e.Give? || e.Leak? {
      assert s.live == (s.live - {e.w}) + {e.w};
    }
  }

  /** Limiter safety under any interleaving; in particular the release clamp at zero never fires. */
  lemma {:induction false} RunIsSafe(g: Budget, s: Sys, es: seq<Step>)
    requires Safe(g, s) && Feasible(g, s, es)
    ensures Safe(g, RunFrom(g, s, es))
    ensures s.leaked <= RunFrom(g, s, es).leaked
  {
    if es != [] {
      RunIsSafe(g, s, es[..|es| - 1]);
      StepIsSafe(g, RunFrom(g, s, es[..|es| - 1]), es[|es| - 1]);
    }
  }

  /** The seeded bucket is safe, so every run from it is. */
  lemma FreshIsSafe(g: Budget, now: Time, es: seq<Step>)
    requires Feasible(g, Fresh(g, now), es)
    ensures Safe(g, RunFrom(g, Fresh(g, now), es))
  {
    RunIsSafe(g, Fresh(g, now), es);
  }

  /** Of the attempts, in order, those that take place: each one the state it meets allows. */
  function Happens(g: Budget, s: Sys, tries: seq<Step>): seq<Step> {
    if tries == [] then []
    else
      var before, e := Happens(g, s, tries[..|tries| - 1]), tries[|tries| - 1];
      if Enabled(RunFrom(g, s, before), e) then before + [e] else before
  }

  /**
   Any schedule of attempts, performed on the table by the limiter: a worker that holds no slot
   tries to take one and may be refused; one that holds a slot gives it back, loses it or reports
   an outcome. What took place is every attempt that was possible, a feasible run, and the row is
   the bucket of that run.
   */
  method Perform(l: Limiter, s: Scope, g: Budget, now: Time, tries: seq<Step>) returns (done: seq<Step>)
    requires s !in l.buckets
    modifies l
    ensures done == Happens(g, Fresh(g, now), tries)
    ensures Feasible(g, Fresh(g, now), done) && Safe(g, RunFrom(g, Fresh(g, now), done))
    ensures Seeded(l.Row(s), g.start) == RunFrom(g, Fresh(g, now), done).bucket
    ensures l.buckets - {s} == old(l.buckets)
  {
    done := [];
    var live: set<Worker>, clock := {}, now;
    ghost var y := Fresh(g, now);
    for i := 0 to |tries|
      invariant done == Happens(g, Fresh(g, now), tries[..i]) && y == RunFrom(g, Fresh(g, now), done)
      invariant Shows(l.Row(s), g, live, clock, y) && l.buckets - {s} == old(l.buckets)
    {
      HappensNext(g, Fresh(g, now), tries, i);
      var took;
      took, live, clock := Attempt(l, s, g, live, clock, tries[i], y);
      if took {
        done, y := done + [tries[i]], Do(g, y, tries[i]);
      }
    }
    assert tries[..|tries|] == tries;
    HappensIsFeasible(g, Fresh(g, now), tries);
    FreshIsSafe(g, now, done);
  }

  lemma HappensNext(g: Budget, s: Sys, tries: seq<Step>, i: nat)
    requires i < |tries|
    ensures var before, e := Happens(g, s, tries[..i]), tries[i];
      && Happens(g, s, tries[..i + 1]) == (if Enabled(RunFrom(g, s, before), e) then before + [e] else before)
      && RunFrom(g, s, before + [e]) == Do(g, RunFrom(g, s, before), e)
  {
    var before := Happens(g, s, tries[..i]);
    assert tries[..i + 1][..i] == tries[..i];
    assert (before + [tries[i]])[..|before|] == before;
  }

  lemma {:induction false} HappensIsFeasible(g: Budget, s: Sys, tries: seq<Step>)
    ensures Feasible(g, s, Happens(g, s, tries))
  {
    if tries != [] {
      var n := |tries| - 1;
      HappensIsFeasible(g, s, tries[..n]);
      var before := Happens(g, s, tries[..n]);
      assert (before + [tries[n]])[..|before|] == before;
    }
  }

  /** The row, the holders and the clock are those of a state; before the first take there is no row. */
  ghost predicate Shows(row: Option<Bucket>, g: Budget, live: set<Worker>, clock: Time, y: Sys) {
    Seeded(row, g.start) == y.bucket && live == y.live && clock == y.now && (live != {} ==> row.Some?)
  }

  /** One attempt: it takes place exactly if it is enabled, and otherwise changes nothing but the seeding. */
  method Attempt(l: Limiter, s: Scope, g: Budget, live: set<Worker>, clock: Time, e: Step, ghost y: Sys)
    returns (took: bool, live': set<Worker>, clock': Time)
    requires Shows(l.Row(s), g, live, clock, y)
    modifies l
    ensures took == Enabled(y, e) && Shows(l.Row(s), g, live', clock', if took then Do(g, y, e) else y)
    ensures l.buckets - {s} == old(l.buckets) - {s}
  {
    took, live', clock' := true, live, clock;
    if e.Tick? {
      clock' := clock + e.d;
    } else if e.Take? {
      took := e.w !in live;
      if took {
        took := l.Acquire(s, g.start, clock);
        live' := if took then live + {e.w} else live;
      }
    } else {
      took := e.w in live;
      if took {
        Report(l, s, g, clock, e);
        live' := if e.Give? || e.Leak? then live - {e.w} else live;
      }
    }
  }

  /** What a holder does to the row. */
  method Report(l: Limiter, s: Scope, g: Budget, now: Time, e: Step)
    requires s in l.buckets && !e.Take? && !e.Tick?
    modifies l
    ensures l.buckets == old(l.buckets)[s := Do(g, Sys(old(l.buckets)[s], {}, 0, now), e).bucket]
  {
    match e {
      case Give(_) => l.Release(s);
      case Success(_) => l.RecordSuccess(s, g.cap);
      case Throttle(_, retryAfter) => l.RecordThrottle(s, now, retryAfter);
      case _ =>
    }
  }

  // --- leaked slots ---

  /** One run after another. */
  lemma {:induction false} RunsCompose(g: Budget, s: Sys, a: seq<Step>, b: seq<Step>)
    requires Feasible(g, s, a) && Feasible(g, RunFrom(g, s, a), b)
    ensures Feasible(g, s, a + b) && RunFrom(g, s, a + b) == RunFrom(g, RunFrom(g, s, a), b)
  {
    if b == [] {
      assert a + b == a;
    } else {
      var n := |b| - 1;
      RunsCompose(g, s, a, b[..n]);
      assert (a + b)[..|a| + n] == a + b[..n];
    }
  }

  lemma OneStep(g: Budget, s: Sys, e: Step)
    requires Enabled(s, e)
    ensures Feasible(g, s, [e]) && RunFrom(g, s, [e]) == Do(g, s, e)
  {
    assert [e][..0] == [];
    assert Feasible(g, s, []) && RunFrom(g, s, []) == s;
  }

  /** Successes of a live holder raise the limit past the leaked slots, as far as the cap allows. */
  lemma {:induction false} CanOutgrowLeaks(g: Budget, s: Sys) returns (es: seq<Step>)
    requires Safe(g, s) && s.live != {} && s.leaked < Max(g.cap, 1)
    ensures Feasible(g, s, es) && Safe(g, RunFrom(g, s, es))
    ensures RunFrom(g, s, es).leaked == s.leaked < RunFrom(g, s, es).bucket.limit
    decreases s.leaked - s.bucket.limit
  {
    es := [];
    if s.bucket.limit <= s.leaked {
      var w :| w in s.live;
      SubsetCount({w}, s.live);
      var e := Success(w);
      StepIsSafe(g, s, e);
      OneStep(g, s, e);
      var rest := CanOutgrowLeaks(g, Do(g, s, e));
      RunsCompose(g, s, [e], rest);
      es := [e] + rest;
    }
  }

  /** Every live holder can give its slot back. */
  lemma {:induction false} CanDrain(g: Budget, s: Sys) returns (es: seq<Step>)
    requires Safe(g, s)
    ensures Feasible(g, s, es)
    ensures var y := RunFrom(g, s, es);
      Safe(g, y) && y.live == {} && y.leaked == s.leaked && y.bucket.limit == s.bucket.limit
    decreases s.live
  {
    es := [];
    if s.live != {} {
      var w :| w in s.live;
      var e := Give(w);
      StepIsSafe(g, s, e);
      OneStep(g, s, e);
      var rest := CanDrain(g, Do(g, s, e));
      RunsCompose(g, s, [e], rest);
      es := [e] + rest;
    }
  }

  /** At rest with a slot not leaked, waiting out the cooldown is enough. */
  lemma CanTakeAtRest(g: Budget, s: Sys, w: Worker) returns (es: seq<Step>)
    requires Safe(g, s) && s.live == {} && s.leaked < s.bucket.limit
    ensures Feasible(g, s, es + [Take(w)])
  {
    var wait: nat := match s.bucket.cooldown case None => 0 case Some(t) => if t > s.now then t - s.now else 0;
    es := [Tick(wait)];
    OneStep(g, s, Tick(wait));
    OneStep(g, Do(g, s, Tick(wait)), Take(w));
    RunsCompose(g, s, es, [Take(w)]);
  }

  /** Leaks at or above both the limit and the cap are never made up for. */
  lemma {:induction false} StarvedStays(g: Budget, s: Sys, es: seq<Step>)
    requires Safe(g, s) && s.bucket.limit <= s.leaked && (s.live == {} || Max(g.cap, 1) <= s.leaked)
      && Feasible(g, s, es)
    ensures var y := RunFrom(g, s, es);
      Safe(g, y) && y.bucket.limit <= y.leaked && (y.live == {} || Max(g.cap, 1) <= y.leaked)
    ensures forall i :: 0 <= i < |es| ==> !es[i].Take?
  {
    if es != [] {
      StarvedStays(g, s, es[..|es| - 1]);
      StepIsSafe(g, RunFrom(g, s, es[..|es| - 1]), es[|es| - 1]);
    }
  }

  /**
   Some future acquire can succeed if and only if fewer slots have leaked than the current limit,
   or a holder is left whose successes can still raise the limit past them below the cap. Nothing
   in the code gives a leaked slot back.
   */
  lemma AcquirableIffFewerLeaks(g: Budget, s: Sys, w: Worker)
    requires Safe(g, s)
    ensures (exists es: seq<Step> :: Feasible(g, s, es + [Take(w)])) <==>
      s.leaked < s.bucket.limit || (s.live != {} && s.leaked < Max(g.cap, 1))
  {
    if s.leaked < s.bucket.limit || (s.live != {} && s.leaked < Max(g.cap, 1)) {
      var a := [];
      if s.bucket.limit <= s.leaked {
        a := CanOutgrowLeaks(g, s);
      }
      var y := RunFrom(g, s, a);
      var b := CanDrain(g, y);
      var z := RunFrom(g, y, b);
      RunsCompose(g, s, a, b);
      var c := CanTakeAtRest(g, z, w);
      RunsCompose(g, s, a + b, c + [Take(w)]);
      assert a + b + (c + [Take(w)]) == (a + b + c) + [Take(w)];
    } else if es: seq<Step> :| Feasible(g, s, es + [Take(w)]) {
      var all := es + [Take(w)];
      assert all[|es|].Take?;
      StarvedStays(g, s, all);
    }
  }

  /** `k` drains, one after the other, each stopped so that its release is lost. */
  function Stops(k: nat): seq<Step> {
    if k == 0 then [] else Stops(k - 1) + [Take(k), Leak(k)]
  }

  lemma {:induction false} StopsLeak(g: Budget, now: Time, k: nat)
    requires k <= Max(g.start, 1)
    ensures Feasible(g, Fresh(g, now), Stops(k))
    ensures RunFrom(g, Fresh(g, now), Stops(k)) == Sys(Bucket(Max(g.start, 1), k, None), {}, k, now)
  {
    if k > 0 {
      StopsLeak(g, now, k - 1);
      var s := RunFrom(g, Fresh(g, now), Stops(k - 1));
      var s' := Do(g, s, Take(k));
      OneStep(g, s, Take(k));
      OneStep(g, s', Leak(k));
      RunsCompose(g, s, [Take(k)], [Leak(k)]);
      assert [Take(k)] + [Leak(k)] == [Take(k), Leak(k)];
      RunsCompose(g, Fresh(g, now), Stops(k - 1), [Take(k), Leak(k)]);
      assert s'.live - {k} == {};
    }
  }

  /**
   Starvation, reached from a fresh bucket under every budget, the connectors' own (four slots,
   ten slots) included: as many stopped drains as the bucket starts with slots, and no acquire
   ever succeeds again.
   */
  lemma StoppedDrainsStarve(g: Budget, now: Time)
    ensures Feasible(g, Fresh(g, now), Stops(Max(g.start, 1)))
    ensures forall later: seq<Step>, w: Worker ::
      !Feasible(g, RunFrom(g, Fresh(g, now), Stops(Max(g.start, 1))), later + [Take(w)])
  {
    var k := Max(g.start, 1);
    StopsLeak(g, now, k);
    var s := RunFrom(g, Fresh(g, now), Stops(k));
    FreshIsSafe(g, now, Stops(k));
    forall later: seq<Step>, w: Worker ensures !Feasible(g, s, later + [Take(w)]) {
      AcquirableIffFewerLeaks(g, s, w);
    }
  }

  // --- AIMD arithmetic ---

  function Pow2(k: nat): (r: nat)
    ensures r > 0
  {
    if k == 0 then 1 else 2 * Pow2(k - 1)
  }

  function Count(es: seq<Step>, p: Step -> bool): nat {
    if es == [] then 0 else Count(es[..|es| - 1], p) + if p(es[|es| - 1]) then 1 else 0
  }

  function Throttles(es: seq<Step>): nat {
    Count(es, (e: Step) => e.Throttle?)
  }

  function Successes(es: seq<Step>): nat {
    Count(es, (e: Step) => e.Success?)
  }

  lemma DivTwice(a: nat, b: nat)
    requires b > 0
    ensures (a / b) / 2 == a / (2 * b)
  {
    var q, r := a / b, a % b;
    var h := q / 2;
    Doubles(h, b);
    if q == 2 * h {
      assert a == (2 * h) * b + r;
      QuotientUnique(a, 2 * b, h, r);
    } else {
      assert q == 2 * h + 1;
      assert a == (2 * h + 1) * b + r;
      QuotientUnique(a, 2 * b, h, b + r);
    }
  }

  lemma Doubles(h: int, b: int)
    ensures (2 * h) * b == h * (2 * b) && (2 * h + 1) * b == h * (2 * b) + b
  {
  }

  lemma QuotientUnique(a: int, d: int, q: int, r: int)
    requires d > 0 && a == q * d + r && 0 <= r < d
    ensures a / d == q
  {
    var q' := a / d;
    assert q' * d <= a < q' * d + d;
    if q < q' {
      MulMonotone(q + 1, q', d);
    } else if q' < q {
      MulMonotone(q' + 1, q, d);
    }
  }

  lemma MulMonotone(x: int, y: int, d: int)
    requires x <= y && d > 0
    ensures x * d <= y * d
  {
  }

  /** Any run with k throttles and no success takes the limit from L to max(1, L div 2^k). */
  lemma {:induction false} ThrottlesHalve(g: Budget, s: Sys, es: seq<Step>)
    requires s.bucket.limit >= 1
    requires forall i :: 0 <= i < |es| ==> !es[i].Success?
    ensures RunFrom(g, s, es).bucket.limit == Max(1, s.bucket.limit / Pow2(Throttles(es)))
  {
    if es != [] {
      var n := |es| - 1;
      ThrottlesHalve(g, s, es[..n]);
      if es[n].Throttle? {
        DivTwice(s.bucket.limit, Pow2(Throttles(es[..n])));
      }
    }
  }

  /** Whether the bucket is busy enough for a success to count. */
  predicate Saturated(b: Bucket) {
    b.inFlight >= b.limit - 1
  }

  /**
   Any run with no throttle and n successes, each under saturating load, takes the limit from L
   to min(cap, L + n), or leaves it where it was above the cap.
   */
  lemma {:induction false} SuccessesAdd(g: Budget, s: Sys, es: seq<Step>)
    requires forall i :: 0 <= i < |es| ==> !es[i].Throttle?
    requires forall i :: 0 <= i < |es| && es[i].Success? ==> Saturated(RunFrom(g, s, es[..i]).bucket)
    ensures RunFrom(g, s, es).bucket.limit == Max(s.bucket.limit, Min(Max(g.cap, 1), s.bucket.limit + Successes(es)))
  {
    if es != [] {
      var n := |es| - 1;
      forall i | 0 <= i < n && es[..n][i].Success? ensures Saturated(RunFrom(g, s, es[..n][..i]).bucket) {
        assert es[..n][..i] == es[..i];
      }
      SuccessesAdd(g, s, es[..n]);
      assert es[n].Success? ==> Saturated(RunFrom(g, s, es[..n]).bucket);
    }
  }

  /** An idle bucket never grows: successes below the ceiling leave the limit alone. */
  lemma {:induction false} IdleNeverGrows(g: Budget, s: Sys, es: seq<Step>)
    requires forall i :: 0 <= i < |es| && es[i].Success? ==> !Saturated(RunFrom(g, s, es[..i]).bucket)
    requires s.bucket.limit >= 1
    ensures RunFrom(g, s, es).bucket.limit <= s.bucket.limit
  {
    if es != [] {
      var n := |es| - 1;
      forall i | 0 <= i < n && es[..n][i].Success? ensures !Saturated(RunFrom(g, s, es[..n][..i]).bucket) {
        assert es[..n][..i] == es[..i];
      }
      IdleNeverGrows(g, s, es[..n]);
      assert es[n].Success? ==> !Saturated(RunFrom(g, s, es[..n]).bucket);
    }
  }

  // --- cooldown ---

  /** When the latest throttle's cooldown ends, by the clock of its own moment. */
  function LatestCooldown(g: Budget, s: Sys, es: seq<Step>): Option<Time> {
    if es == [] then s.bucket.cooldown
    else
      var e := es[|es| - 1];
      if e.Throttle? then CooldownOf(RunFrom(g, s, es[..|es| - 1]).now, e.retryAfter)
      else LatestCooldown(g, s, es[..|es| - 1])
  }

  /**
   The cooldown in force is exactly the latest throttle's: no acquire succeeds before it ends,
   and an earlier throttle's longer cooldown does not delay one after it.
   */
  lemma {:induction false} CooldownIsLatest(g: Budget, s: Sys, es: seq<Step>, w: Worker)
    ensures RunFrom(g, s, es).bucket.cooldown == LatestCooldown(g, s, es)
    ensures var now := RunFrom(g, s, es).now;
      Enabled(RunFrom(g, s, es), Take(w)) ==>
        LatestCooldown(g, s, es).None? || LatestCooldown(g, s, es).value <= now
  {
    if es != [] {
      CooldownIsLatest(g, s, es[..|es| - 1], w);
    }
  }

  // --- where the cooldown comes from ---

  const DEFAULT_RETRY: int := 60

  /**
   The wait a throttled response asks for: a Retry-After that parses, else a reset time that lies
   ahead, else a minute.
   */
  function RetryAfter(header: Option<int>, reset: Option<Time>, now: Time): int {
    match header
    case Some(secs) => secs
    case None => if reset.Some? && reset.value > now then reset.value - now else DEFAULT_RETRY
  }

  predicate Blocks(cooldown: Option<Time>, at: Time) {
    cooldown.Some? && at < cooldown.value
  }

  /**
   A throttle opens the bucket earlier than the cooldown in force would have, at some moment from
   now on, exactly when that cooldown is still running and the response asks for a shorter wait.
   */
  lemma ThrottleReopensIff(g: Budget, s: Sys, w: Worker, header: Option<int>, reset: Option<Time>)
    ensures var wait := RetryAfter(header, reset, s.now);
      var after := Do(g, s, Throttle(w, wait)).bucket.cooldown;
      (exists at :: s.now <= at && Blocks(s.bucket.cooldown, at) && !Blocks(after, at)) <==>
        Blocks(s.bucket.cooldown, s.now) && s.now + Max(wait, 0) < s.bucket.cooldown.value
  {
    var wait := RetryAfter(header, reset, s.now);
    var after := Do(g, s, Throttle(w, wait)).bucket.cooldown;
    if Blocks(s.bucket.cooldown, s.now) && s.now + Max(wait, 0) < s.bucket.cooldown.value {
      var at := s.now + Max(wait, 0);
      assert Blocks(s.bucket.cooldown, at) && !Blocks(after, at);
    }
  }

  /**
   It clears the cooldown altogether exactly when the response carries a Retry-After of zero or
   less; without the header it never does.
   */
  lemma ThrottleClearsIff(g: Budget, s: Sys, w: Worker, header: Option<int>, reset: Option<Time>)
    ensures Do(g, s, Throttle(w, RetryAfter(header, reset, s.now))).bucket.cooldown.None? <==>
      header.Some? && header.value <= 0
  {
  }

  /**
   Otherwise the bucket opens when the response says: after the Retry-After, at the reset time, or
   after a minute, and not a moment earlier or later.
   */
  lemma ThrottleOpensAsAsked(g: Budget, s: Sys, w: Worker, header: Option<int>, reset: Option<Time>, at: Time)
    requires s.now <= at
    ensures var after := Do(g, s, Throttle(w, RetryAfter(header, reset, s.now))).bucket.cooldown;
      && (header.Some? ==> (Blocks(after, at) <==> at < s.now + header.value))
      && (header.None? && reset.Some? && reset.value > s.now ==> (Blocks(after, at) <==> at < reset.value))
      && (header.None? && (reset.Some? ==> reset.value <= s.now) ==> (Blocks(after, at) <==> at < s.now + 60))
  {
  }

  /**
   An instance with GitHub's budget: two holders are throttled, the first for a minute, the
   second with "Retry-After: 0"; a third worker gets in at once.
   */
  lemma ZeroRetryAfterReopens(now: Time)
    ensures var g, es := Budget(4, 8),
      [Take(0), Take(1), Throttle(0, RetryAfter(Some(60), None, now)), Throttle(1, RetryAfter(Some(0), None, now))];
      Feasible(g, Fresh(g, now), es + [Give(0), Give(1), Take(2)])
  {
    var g := Budget(4, 8);
    var es := [Take(0), Take(1), Throttle(0, 60), Throttle(1, 0), Give(0), Give(1), Take(2)];
    var s := Fresh(g, now);
    assert es == [Take(0), Take(1), Throttle(0, 60), Throttle(1, 0)] + [Give(0), Give(1), Take(2)];
    for i := 0 to |es|
      invariant Feasible(g, Fresh(g, now), es[..i]) && s == RunFrom(g, Fresh(g, now), es[..i])
      invariant s.now == now && s == StateAt(now, i)
    {
      assert es[..i + 1][..i] == es[..i];
      assert Enabled(s, es[i]);
      s := Do(g, s, es[i]);
    }
    assert es[..|es|] == es;
  }

  /** The states of that instance. */
  function StateAt(now: Time, i: nat): Sys {
    match i
    case 0 => Sys(Bucket(4, 0, None), {}, 0, now)
    case 1 => Sys(Bucket(4, 1, None), {0}, 0, now)
    case 2 => Sys(Bucket(4, 2, None), {0, 1}, 0, now)
    case 3 => Sys(Bucket(2, 2, Some(now + 60)), {0, 1}, 0, now)
    case 4 => Sys(Bucket(1, 2, None), {0, 1}, 0, now)
    case 5 => Sys(Bucket(1, 1, None), {1}, 0, now)
    case 6 => Sys(Bucket(1, 0, None), {}, 0, now)
    case _ => Sys(Bucket(1, 1, None), {2}, 0, now)
  }

  // --- when a slot is to be had ---

  /** The clock after some steps: only the passing of time moves it. */
  function Clock(es: seq<Step>, start: Time): Time {
    if es == [] then start else Clock(es[..|es| - 1], start) + if es[|es| - 1].Tick? then es[|es| - 1].d else 0
  }

  /** When the latest throttle's wait is over; `base` if there was none. */
  function LatestEnd(es: seq<Step>, start: Time, base: Time): Time {
    if es == [] then base
    else
      var n := |es| - 1;
      if es[n].Throttle? then Clock(es[..n], start) + Max(es[n].retryAfter, 0) else LatestEnd(es[..n], start, base)
  }

  lemma {:induction false} ClockIsNow(g: Budget, s: Sys, es: seq<Step>)
    ensures RunFrom(g, s, es).now == Clock(es, s.now)
  {
    if es != [] {
      ClockIsNow(g, s, es[..|es| - 1]);
    }
  }

  /** The cooldown blocks exactly until then. */
  lemma {:induction false} CooledExactly(g: Budget, s: Sys, es: seq<Step>, at: Time)
    requires Clock(es, s.now) <= at
    ensures var base := if s.bucket.cooldown.Some? then s.bucket.cooldown.value else s.now;
      Blocks(RunFrom(g, s, es).bucket.cooldown, at) <==> at < LatestEnd(es, s.now, base)
  {
    if es == [] {
      assert RunFrom(g, s, es) == s;
    } else {
      var n := |es| - 1;
      ClockIsNow(g, s, es[..n]);
      if !es[n].Throttle? {
        CooledExactly(g, s, es[..n], at);
      }
    }
  }

  /**
   After any run from a safe state, a worker without a slot gets one at once if and only if the
   slots held and leaked are fewer than the limit and the latest throttle's wait is over.
   */
  lemma SlotIffFreeAndCooled(g: Budget, s: Sys, es: seq<Step>, w: Worker)
    requires Safe(g, s) && Feasible(g, s, es) && w !in RunFrom(g, s, es).live
    ensures var y := RunFrom(g, s, es);
      var base := if s.bucket.cooldown.Some? then s.bucket.cooldown.value else s.now;
      Feasible(g, s, es + [Take(w)]) <==>
        |y.live| + y.leaked < y.bucket.limit && LatestEnd(es, s.now, base) <= Clock(es, s.now)
  {
    RunIsSafe(g, s, es);
    ClockIsNow(g, s, es);
    CooledExactly(g, s, es, Clock(es, s.now));
    assert (es + [Take(w)])[..|es|] == es;
  }
}
