/**
 The driver itself: nested loops over a mutable in-flight set, run against an environment that
 answers every activity, picks every completion and sends signals as it likes.
 */
module ConnectionDriver {
  import opened ConnectionRun
  import opened Finite
  import opened Wrappers
  import Admission

  // --- the batch query ---

  /** A limited, ordered query: the first `limit` runnable units by id. */
  ghost predicate IsBatch(t: Table, limit: nat, ids: seq<Id>) {
    && (forall i, j :: 0 <= i < j < |ids| ==> ids[i] < ids[j])
    && (forall i :: 0 <= i < |ids| ==> ids[i] in Runnable(t))
    && |ids| == (if |Runnable(t)| < limit then |Runnable(t)| else limit)
    && (forall i, r :: 0 <= i < |ids| && r in Runnable(t) && r !in ids ==> ids[i] < r)
  }

  lemma {:induction false} LeastExists(s: set<Id>) returns (m: Id)
    requires s != {}
    ensures m in s && forall x :: x in s ==> m <= x
  {
    var x :| x in s;
    if s == {x} {
      m := x;
    } else {
      m := LeastExists(s - {x});
      if x < m {
        m := x;
      }
      assert forall y :: y in s ==> y == x || y in s - {x};
    }
  }

  /** The batch query: selected units that are due and not terminal, in id order, up to the limit. */
  method NextUnitBatch(t: Table, limit: nat) returns (ids: seq<Id>)
    ensures IsBatch(t, limit, ids)
    ensures forall i :: 0 <= i < |ids| ==>
      ids[i] in t && t[ids[i]].selected && t[ids[i]].retryDue && t[ids[i]].status in {Idle, Queued, Syncing}
    ensures |ids| < limit ==> forall id ::
      id in t && t[id].selected && t[id].retryDue && t[id].status in {Idle, Queued, Syncing} ==> id in ids
  {
    ids := [];
    var rest := Runnable(t);
    ghost var all := rest;
    while |ids| < limit && rest != {}
      invariant |ids| <= limit && |ids| + |rest| == |all| && rest <= all
      invariant forall i, j :: 0 <= i < j < |ids| ==> ids[i] < ids[j]
      invariant forall i :: 0 <= i < |ids| ==> ids[i] in all
      invariant forall r :: r in all ==> r in ids || r in rest
      invariant forall i, r :: 0 <= i < |ids| && r in rest ==> ids[i] < r
      decreases |rest|
    {
      ghost var least := LeastExists(rest);
      var m :| m in rest && forall x :: x in rest ==> m <= x;
      ids, rest := ids + [m], rest - {m};
    }
    forall id | id in t && t[id].selected && t[id].retryDue && t[id].status in {Idle, Queued, Syncing}
      ensures id in all
    {
    }
  }

  /**
   Work conservation by pigeonhole: if every unit a query limited to `p` returned is already in
   flight and fewer than `p` are, the limit was not reached, so every runnable unit is in flight.
   */
  lemma LimitNotReached(t: Table, p: nat, ids: seq<Id>, inFlight: set<Id>)
    requires IsBatch(t, p, ids)
    requires forall i :: 0 <= i < |ids| ==> ids[i] in inFlight
    requires |inFlight| < p
    ensures Runnable(t) <= inFlight
  {
    var got := Members(ids);
    DistinctCount(ids);
    forall id | id in got ensures id in inFlight && id in Runnable(t) {
      var i :| 0 <= i < |ids| && ids[i] == id;
    }
    SubsetCount(got, inFlight);
    SubsetCount(got, Runnable(t));
  }

  // --- capacity ---

  function Min(a: int, b: int): int {
    if b < a then b else a
  }

  /** The batch size: the least of the three ceilings, floored at one. */
  function BatchSize(credentialLimit: int, tenantCap: int): (p: nat)
    ensures 1 <= p <= GLOBAL_WORKER_CAP
    ensures p == 1 || (p <= credentialLimit && p <= tenantCap)
    ensures p == GLOBAL_WORKER_CAP || credentialLimit <= p || tenantCap <= p
  {
    var m := Min(Min(credentialLimit, tenantCap), GLOBAL_WORKER_CAP);
    if m < 1 then 1 else m
  }

  /** The documented batch size: non-positive ceilings are ignored instead of clamping. */
  function DocumentedSize(credentialLimit: int, tenantCap: int): int {
    var a := if credentialLimit > 0 then Min(credentialLimit, GLOBAL_WORKER_CAP) else GLOBAL_WORKER_CAP;
    if tenantCap > 0 then Min(a, tenantCap) else a
  }

  /** Code and comment agree exactly when both ceilings are positive, or one of them is one. */
  lemma SizeIsDocumentedIff(credentialLimit: int, tenantCap: int)
    ensures BatchSize(credentialLimit, tenantCap) == DocumentedSize(credentialLimit, tenantCap) <==>
      (credentialLimit > 0 && tenantCap > 0) || credentialLimit == 1 || tenantCap == 1
  {
  }

  /** What Capacity reads: the learned limit, or the connector's seed while the bucket has none. */
  function CredentialLimit(b: Option<Admission.Bucket>, start: int): int {
    match b
    case Some(x) => if x.limit == 0 then start else x.limit
    case None => start
  }

  /** The learned limit counts once the bucket has one, the connector's seed before; P is then the least ceiling. */
  lemma CapacityUsesLimits(b: Option<Admission.Bucket>, start: int, tenantCap: int)
    ensures var limit := if b.Some? && b.value.limit != 0 then b.value.limit else start;
      var p := BatchSize(CredentialLimit(b, start), tenantCap);
      && (p == 1 || (p <= limit && p <= tenantCap && p <= 32))
      && (p == limit || p == tenantCap || p == 32 || (p == 1 && (limit < 1 || tenantCap < 1)))
  {
  }

  /** On every pair of buckets the limiter can have, and for every connector with a positive seed, they agree. */
  lemma LiveSizeIsDocumented(
    g: Admission.Budget, tenant: Admission.Budget, now: int,
    es: seq<Admission.Step>, fs: seq<Admission.Step>, seeded: bool)
    requires g.start > 0
    requires Admission.Feasible(g, Admission.Fresh(g, now), es)
      && Admission.Feasible(tenant, Admission.Fresh(tenant, now), fs)
    ensures var row := if seeded then Some(Admission.RunFrom(g, Admission.Fresh(g, now), es).bucket) else None;
      var cap := Admission.RunFrom(tenant, Admission.Fresh(tenant, now), fs).bucket.limit;
      BatchSize(CredentialLimit(row, g.start), cap) == DocumentedSize(CredentialLimit(row, g.start), cap)
  {
    Admission.FreshIsSafe(g, now, es);
    Admission.FreshIsSafe(tenant, now, fs);
  }

  // --- the driver ---

  /**
   While units are in flight, only they change status; selection and backoff may change anywhere,
   tombstones may be collected, and no unit appears.
   */
  ghost predicate Drifted(t: Table, inFlight: set<Id>, t': Table) {
    && (forall id :: id in t' ==> id in t)
    && (forall id :: id in t && id !in inFlight ==>
      (id in t' ==> t'[id].status == t[id].status) && (t[id].status != Removed ==> id in t'))
  }

  /**
   What the environment does to an execution, given in advance: which control activities fail, the
   two limits each capacity reading finds, the unit tables as users and drains change them, what
   each reading of the signal channels brings, and when it is late.
   */
  datatype Script = Script(
    fails: nat -> bool, limits: nat -> (int, int), drift: nat -> Table, inbox: nat -> Signals, late: nat -> bool)

  predicate NoneFails(fails: nat -> bool, n: nat) {
    n == 0 || (NoneFails(fails, n - 1) && !fails(n - 1))
  }

  /** It was late at one of the first `n` turns. */
  predicate LateBy(late: nat -> bool, n: nat) {
    n > 0 && (late(n) || LateBy(late, n - 1))
  }

  /** The unit is selected neither in the table the execution found nor in any the environment brings about. */
  ghost predicate NeverSelected(origin: Table, drift: nat -> Table, id: Id) {
    && (id in origin ==> !origin[id].selected)
    && forall k: nat :: id in drift(k) ==> !drift(k)[id].selected
  }

  /** Units that finished synced or were found so stay so, and units never launched have not moved. */
  ghost predicate UnitsKept(
    origin: Table, kept: set<Id>, ever: set<Id>, synced: set<Id>, inFlight: set<Id>, table: Table) {
    && (forall id :: id in synced + kept ==> id in table && table[id].status == Synced && id !in inFlight)
    && kept !! ever
    && inFlight <= ever && Drifted(origin, ever, table)
  }

  /** Nothing entered or left the pool, and no refill is under way. */
  ghost predicate SamePool(a: Pool, b: Pool) {
    !b.refilling && b.inFlight == a.inFlight && b.ever == a.ever && b.synced == a.synced
  }

  /** The unit table as the environment moves it, and which units are in flight. */
  class UnitPool {
    const drift: nat -> Table
    var drifts: nat
    var table: Table
    var inFlight: set<Id>
    ghost var ever: set<Id>   // launched in this execution
    ghost var synced: set<Id> // left the pool synced
    ghost const origin: Table // the units as this execution found them
    ghost const kept: set<Id> // synced before this execution began, in the middle of a run
    ghost const w: Id         // any one unit

    ghost predicate Ok()
      reads this
    {
      && UnitsKept(origin, kept, ever, synced, inFlight, table)
      && (NeverSelected(origin, drift, w) ==> w !in ever && (w in table ==> !table[w].selected))
    }

    constructor (table: Table, midRun: bool, drift: nat -> Table, ghost w: Id)
      ensures Ok() && this.table == table == origin && this.drift == drift && this.w == w
      ensures inFlight == {} && ever == {} && synced == {}
      ensures kept == if midRun then set id | id in table && table[id].status == Synced else {}
    {
      this.drift, drifts, this.table, origin, this.w := drift, 0, table, table, w;
      inFlight, ever, synced := {}, {}, {};
      kept := if midRun then set id | id in table && table[id].status == Synced else {};
    }

    /** The environment moves: in-flight units progress, the user changes the selection, backoffs elapse. */
    method Interfere()
      requires Ok()
      modifies this`table, this`drifts
      ensures Ok()
    {
      var t := drift(drifts);
      drifts := drifts + 1;
      if Plausible(t) {
        table := t;
      }
    }

    predicate Plausible(t: Table)
      reads this
      ensures Plausible(t) ==> Drifted(table, inFlight, t)
    {
      && (forall id | id in t :: id in table)
      && (forall id | id in table ::
        id !in inFlight ==> (id in t ==> t[id].status == table[id].status) && (table[id].status != Removed ==> id in t))
    }

    method Take(id: Id)
      requires Ok() && id in Runnable(table) && id !in inFlight
      modifies this`inFlight, this`ever
      ensures Ok() && inFlight == old(inFlight) + {id} && ever == old(ever) + {id} && id !in synced
    {
      assert NeedsWork(table[id]);
      inFlight, ever := inFlight + {id}, ever + {id};
    }

    method Drop(id: Id) returns (done: bool)
      requires Ok() && id in inFlight
      modifies this`inFlight, this`synced
      ensures Ok() && inFlight == old(inFlight) - {id} && synced == (if done then old(synced) + {id} else old(synced))
      ensures done == (id in table && table[id].status == Synced)
    {
      done := id in table && table[id].status == Synced;
      inFlight := inFlight - {id};
      if done {
        synced := synced + {id};
      }
    }
  }

  class Driver {
    const script: Script
    const units: UnitPool
    var calls: nat            // control activities called so far
    var sized: nat            // capacity readings
    var turns: nat            // readings of the signal channels
    var processed: nat
    var stopRequested: bool
    var disconnectRequested: bool
    var rerunRequested: bool
    var stoppingCAN: bool
    var log: seq<Event>
    ghost var s: Pool         // what the log amounts to
    ghost var ps: seq<Pool>   // and how it came to that

    /** The log is legal and the driver's own variables say what it says. */
    ghost predicate Logged()
      reads this
    {
      && Followed(log, ps) && s == ps[|log|]
      && s.finishes == processed
      && s.sig.stopped == stopRequested && s.sig.disconnected == disconnectRequested
      && s.sig.triggered == rerunRequested && s.tripped == stoppingCAN
      && (disconnectRequested ==> stopRequested)
    }

    ghost predicate Valid()
      reads this, units
    {
      && Logged() && units.Ok()
      && s.inFlight == units.inFlight && s.ever == units.ever && s.synced == units.synced
    }

    constructor (table: Table, midRun: bool, script: Script, ghost w: Id)
      ensures Valid() && fresh(units) && log == [] && units.inFlight == {} && !stopRequested && !stoppingCAN
      ensures units.table == table == units.origin && units.drift == script.drift && units.w == w
      ensures units.kept == if midRun then set id | id in table && table[id].status == Synced else {}
      ensures this.script == script && calls == 0 && sized == 0 && turns == 0 && processed == 0
    {
      this.script := script;
      units := new UnitPool(table, midRun, script.drift, w);
      calls, sized, turns, processed, log, s, ps := 0, 0, 0, 0, [], EMPTY_POOL, [EMPTY_POOL];
      stopRequested, disconnectRequested, rerunRequested, stoppingCAN := false, false, false, false;
    }

    /** Call a control activity. */
    method Control() returns (ok: bool)
      modifies this`calls
      ensures ok == !script.fails(old(calls)) && calls == old(calls) + 1
    {
      ok := !script.fails(calls);
      calls := calls + 1;
    }

    /** Every control activity called so far succeeded. */
    ghost predicate Fine()
      reads this
    {
      NoneFails(script.fails, calls)
    }

    method Record(e: Event)
      requires Followed(log, ps) && s == ps[|log|] && LegalNext(s, e)
      modifies this`log, this`s, this`ps
      ensures log == old(log) + [e] && Followed(log, ps) && s == ps[|log|] == Apply(old(s), e)
    {
      FollowedNext(log, ps, e);
      log, s, ps := log + [e], Apply(s, e), ps + [Apply(s, e)];
    }

    method Launch(id: Id, p: nat)
      requires Valid() && s.refilling && s.p == p
      requires id in Runnable(units.table) && id !in units.inFlight && |units.inFlight| < p
      modifies this`log, this`s, this`ps, units`inFlight, units`ever
      ensures Valid() && s.refilling && s.p == p
      ensures units.inFlight == old(units.inFlight) + {id} && s.sig == old(s.sig)
    {
      units.Take(id);
      Record(Launched(id));
    }

    /** Launch the units of one batch that are not in flight yet, until the pool is full. */
    method LaunchBatch(ids: seq<Id>, p: nat) returns (launched: nat)
      requires Valid() && s.refilling && s.p == p
      requires forall i :: 0 <= i < |ids| ==> ids[i] in Runnable(units.table)
      modifies this`log, this`s, this`ps, units`inFlight, units`ever
      ensures Valid() && s.refilling && s.p == p
      ensures |units.inFlight| == |old(units.inFlight)| + launched && s.sig == old(s.sig)
      ensures forall id :: id in units.inFlight ==> id in old(units.inFlight) || id in ids
      ensures |units.inFlight| < p ==> forall i :: 0 <= i < |ids| ==> ids[i] in units.inFlight
    {
      launched := 0;
      ghost var before := units.inFlight;
      for i := 0 to |ids|
        invariant Valid() && s.refilling && s.p == p
        invariant |units.inFlight| == |before| + launched && s.sig == old(s.sig)
        invariant forall id :: id in units.inFlight ==> id in before || id in ids
        invariant forall k :: 0 <= k < i ==> ids[k] in units.inFlight
      {
        if |units.inFlight| >= p {
          break;
        }
        if ids[i] !in units.inFlight {
          Launch(ids[i], p);
          launched := launched + 1;
        }
      }
    }

    /** One query of a refill, and the launches it leads to. */
    method Query(p: nat) returns (ok: bool, launched: nat, runnable: set<Id>)
      requires Valid() && s.refilling && s.p == p && |units.inFlight| < p && Fine()
      modifies this`log, this`s, this`ps, this`calls
      modifies units`inFlight, units`ever, units`table, units`drifts
      ensures Valid() && s.refilling && s.p == p && s.sig == old(s.sig)
      ensures calls == old(calls) + 1 && (if ok then Fine() else script.fails(calls - 1))
      ensures ok ==> runnable == Runnable(units.table) && |units.inFlight| == |old(units.inFlight)| + launched
      ensures ok && launched == 0 ==> runnable <= units.inFlight
    {
      launched, runnable := 0, {};
      units.Interfere();
      ok := Control();
      if !ok {
        return; // the batch query failed
      }
      var ids := NextUnitBatch(units.table, p);
      runnable := Runnable(units.table);
      launched := LaunchBatch(ids, p);
      if launched == 0 {
        LimitNotReached(units.table, p, ids, units.inFlight);
      }
    }

    /**
     Top the pool up to P, re-querying until it is full or a query brings nothing new. A refill
     that stops with a free slot has every unit its last query could have returned in flight.
     */
    method Refill() returns (ok: bool, launched: nat)
      requires Valid() && !stopRequested && !stoppingCAN && processed < CONTINUE_AS_NEW_UNITS && Fine()
      modifies this`log, this`s, this`ps, this`calls, this`sized
      modifies units`inFlight, units`ever, units`table, units`drifts
      ensures Valid() && s.sig == old(s.sig)
      ensures calls > old(calls) && (if ok then Fine() else script.fails(calls - 1))
      ensures ok ==>
        && sized == old(sized) + 1
        && s.p == BatchSize(script.limits(old(sized)).0, script.limits(old(sized)).1)
      ensures ok ==> !s.refilling && |units.inFlight| == |old(units.inFlight)| + launched
      ensures ok && |units.inFlight| < s.p ==> Runnable(units.table) <= units.inFlight
      ensures ok && units.inFlight == {} ==> s.drained && Runnable(units.table) == {}
    {
      launched := 0;
      var p;
      ok, p := ReadCapacity();
      if !ok {
        return;
      }
      var runnable;
      ok, launched, runnable := TopUp(p);
      if ok {
        if units.inFlight == {} {
          assert runnable.value == {};
        }
        Record(Refilled(runnable));
      }
    }

    /** Nothing is launched once a stop was observed or the bound has tripped. */
    method RefillUnlessEnding() returns (ok: bool, launched: nat)
      requires Valid() && !s.refilling && Fine() && (stoppingCAN || processed < CONTINUE_AS_NEW_UNITS)
      modifies this`log, this`s, this`ps, this`calls, this`sized
      modifies units`inFlight, units`ever, units`table, units`drifts
      ensures Valid() && s.sig == old(s.sig) && (if ok then Fine() else calls > 0 && script.fails(calls - 1))
      ensures ok ==> !s.refilling && |units.inFlight| == |old(units.inFlight)| + launched
      ensures stopRequested || stoppingCAN ==> ok && units.inFlight == old(units.inFlight)
      ensures ok && units.inFlight == {} ==>
        stoppingCAN || stopRequested || (s.drained && Runnable(units.table) == {})
    {
      if stopRequested || stoppingCAN {
        return true, 0;
      }
      ok, launched := Refill();
    }

    /** The capacity activity: how many units this refill may have in flight. */
    method ReadCapacity() returns (ok: bool, p: nat)
      requires Valid() && !stopRequested && !stoppingCAN && processed < CONTINUE_AS_NEW_UNITS && Fine()
      modifies this`log, this`s, this`ps, this`calls, this`sized
      ensures Valid() && s.sig == old(s.sig)
      ensures calls == old(calls) + 1 && (if ok then Fine() else script.fails(calls - 1))
      ensures ok ==>
        && sized == old(sized) + 1 && s.refilling && s.p == p
        && p == BatchSize(script.limits(old(sized)).0, script.limits(old(sized)).1)
    {
      p := 0;
      ok := Control();
      if !ok {
        return; // the activity failed
      }
      var limits := script.limits(sized);
      sized := sized + 1;
      p := BatchSize(limits.0, limits.1);
      Record(Sized(p));
    }

    /** Query and launch until the pool is full or a query brings nothing new. */
    method TopUp(p: nat) returns (ok: bool, launched: nat, runnable: Option<set<Id>>)
      requires Valid() && s.refilling && s.p == p && Fine()
      modifies this`log, this`s, this`ps, this`calls
      modifies units`inFlight, units`ever, units`table, units`drifts
      ensures Valid() && s.refilling && s.p == p && s.sig == old(s.sig)
      ensures calls >= old(calls) && (if ok then Fine() else calls > 0 && script.fails(calls - 1))
      ensures ok ==> |units.inFlight| == |old(units.inFlight)| + launched
      ensures ok && |units.inFlight| < p ==> runnable == Some(Runnable(units.table)) && runnable.value <= units.inFlight
    {
      ok, launched, runnable := true, 0, None;
      while |units.inFlight| < p
        invariant Valid() && s.refilling && s.p == p && s.sig == old(s.sig)
        invariant |units.inFlight| == |old(units.inFlight)| + launched
        invariant ok && calls >= old(calls) && Fine()
        decreases p - |units.inFlight|
      {
        var now, all;
        ok, now, all := Query(p);
        if !ok {
          return;
        }
        launched, runnable := launched + now, Some(all);
        if now == 0 {
          break;
        }
      }
    }

    /** A unit's future completes: it leaves the pool and is counted. */
    method Finish(id: Id)
      requires Valid() && id in units.inFlight && !s.refilling
      modifies this`log, this`s, this`ps, this`processed, units`inFlight, units`synced
      ensures Valid() && !s.refilling && s.sig == old(s.sig)
      ensures units.inFlight == old(units.inFlight) - {id} && processed == old(processed) + 1
    {
      var synced := units.Drop(id);
      Record(Finished(id, synced));
      processed := processed + 1;
    }

    /** Wait for one in-flight unit; which one is up to the source. */
    method AwaitOne()
      requires Valid() && units.inFlight != {} && !s.refilling
      modifies this`log, this`s, this`ps, this`processed
      modifies units`inFlight, units`synced, units`table, units`drifts
      ensures Valid() && !s.refilling && s.sig == old(s.sig)
      ensures |units.inFlight| == |old(units.inFlight)| - 1 && processed == old(processed) + 1
    {
      units.Interfere();
      var id :| id in units.inFlight;
      Finish(id);
    }

    /** Read the run-control signals that have arrived, without blocking. */
    method DrainSignals() returns (stop: bool, disconnect: bool, trigger: bool)
      requires Logged() && !s.refilling
      modifies this`log, this`s, this`ps, this`stopRequested, this`disconnectRequested, this`rerunRequested, this`turns
      ensures Logged() && SamePool(old(s), s) && log == old(log) + [Signalled(stop, disconnect, trigger)]
      ensures Signals(stop, disconnect, trigger) == script.inbox(old(turns)) && turns == old(turns) + 1
      ensures s.sig == Hears(old(s.sig), script.inbox(old(turns)))
      ensures stopRequested == (old(stopRequested) || stop || disconnect)
      ensures disconnectRequested == (old(disconnectRequested) || disconnect)
      ensures rerunRequested == (old(rerunRequested) || trigger)
    {
      var arrived := script.inbox(turns);
      stop, disconnect, trigger, turns := arrived.stop, arrived.disconnect, arrived.trigger, turns + 1;
      Record(Signalled(stop, disconnect, trigger));
      stopRequested := stopRequested || stop || disconnect;
      disconnectRequested := disconnectRequested || disconnect;
      rerunRequested := rerunRequested || trigger;
    }

    /** The log holds exactly what the signal channels brought. */
    ghost predicate HeardAll()
      reads this
    {
      |s.sig.heard| == turns && forall k :: 0 <= k < turns ==> s.sig.heard[k] == script.inbox(k)
    }

    /** Trip the history bound once enough units are processed, or after long enough. */
    method CheckBound()
      requires Logged() && !s.refilling && (stoppingCAN || processed <= CONTINUE_AS_NEW_UNITS)
      modifies this`log, this`s, this`ps, this`stoppingCAN
      ensures Logged() && SamePool(old(s), s) && s.sig == old(s.sig)
      ensures stoppingCAN == (old(stoppingCAN) || processed >= 1000 || script.late(turns))
    {
      if !stoppingCAN && (processed >= CONTINUE_AS_NEW_UNITS || script.late(turns)) {
        Record(Tripped);
        stoppingCAN := true;
      }
    }

    /** The history bound has tripped, by count or by time. */
    ghost predicate Bounded()
      reads this
    {
      processed >= 1000 || LateBy(script.late, turns)
    }

    /**
     The drain: refill, wait for one completion, read signals, check the bound. It ends with an
     empty pool, either drained (or stopped) or ready to hand over, or because a control
     activity failed.
     */
    method Drain() returns (ok: bool)
      requires Valid() && log == [] && units.inFlight == {} && !stoppingCAN && processed == 0 && turns == 0
      requires s.sig.heard == [] && Fine()
      modifies this, units
      ensures Valid() && HeardAll() && (if ok then Fine() else calls > 0 && script.fails(calls - 1))
      ensures ok ==> turns == processed && (stoppingCAN <==> Bounded())
      ensures ok ==> units.inFlight == {}
      ensures ok ==> stoppingCAN || stopRequested || (s.drained && Runnable(units.table) == {})
    {
      while true
        invariant Valid() && !s.refilling && HeardAll() && Fine() && turns == processed
        invariant stoppingCAN <==> Bounded()
        invariant if stoppingCAN then units.inFlight != {} else processed < CONTINUE_AS_NEW_UNITS
        decreases if stoppingCAN then 0 else CONTINUE_AS_NEW_UNITS - processed, |units.inFlight|
      {
        var launched;
        ok, launched := RefillUnlessEnding();
        if !ok {
          return;
        }
        if units.inFlight == {} && launched == 0 {
          return true;
        }
        Turn();
        if stoppingCAN && units.inFlight == {} {
          return true;
        }
      }
    }

    /** One turn of the pool: a completion, the signals, the bound. */
    method Turn()
      requires Valid() && !s.refilling && HeardAll() && units.inFlight != {} && turns == processed
      requires stoppingCAN <==> Bounded()
      modifies this`log, this`s, this`ps, this`processed, this`turns
      modifies this`stopRequested, this`disconnectRequested, this`rerunRequested, this`stoppingCAN
      modifies units`inFlight, units`synced, units`table, units`drifts
      ensures Valid() && !s.refilling && HeardAll() && turns == processed == old(processed) + 1
      ensures |units.inFlight| == |old(units.inFlight)| - 1
      ensures (stoppingCAN <==> Bounded()) && (old(stoppingCAN) ==> stoppingCAN)
    {
      AwaitOne();
      var _, _, _ := DrainSignals();
      assert Valid();
      CheckBound();
    }
  }

  // --- one execution ---

  datatype Ending = Rested | Disconnected | Rerun | Continued | Failed

  /** One execution of the run: how it was started, the unit table before and after, its log and how it ended. */
  datatype Exec = Exec(midRun: bool, before: Table, log: seq<Event>, end: Ending, after: Table)

  ghost predicate Settles(end: Ending) {
    end.Rested? || end.Disconnected? || end.Rerun?
  }

  /** A unit that finished synced stays so, and a resumed execution leaves alone those it found synced. */
  ghost predicate Keeps(midRun: bool, before: Table, s: Pool, after: Table) {
    && (forall id :: id in s.synced ==> id in after && after[id].status == Synced)
    && (midRun ==> forall id :: id in before && before[id].status == Synced ==>
      id !in s.ever && id in after && after[id].status == Synced)
  }

  /**
   A unit that was not launched is as the execution began with it, unless it was tombstoned; only
   a discovery adds units.
   */
  ghost predicate LeavesRest(midRun: bool, before: Table, s: Pool, after: Table) {
    && (midRun ==> forall id :: id in after ==> id in before)
    && forall id :: id in before && id in after && id !in s.ever ==>
      after[id].status == Removed || after[id].status == Begun(midRun, before)[id].status
  }

  /** How the log, the signals it observed and the ending fit together. */
  ghost predicate EndsAs(log: seq<Event>, s: Pool, end: Ending) {
    && (Settles(end) ==> log != [] && log[|log| - 1].Settled?)
    && (end.Continued? ==> log != [] && log[|log| - 1].HandedOver?)
    && (!end.Failed? ==> (s.tripped <==> end.Continued?))
    && (Settles(end) ==> (end.Disconnected? <==> s.sig.disconnected))
    && (Settles(end) ==> (end.Rerun? <==> s.sig.triggered && !s.sig.stopped))
  }

  /** What every execution guarantees. */
  ghost predicate ExecOk(x: Exec) {
    var s := Replay(x.log);
    && Legal(x.log)
    && EndsAs(x.log, s, x.end)
    && (Settles(x.end) && !s.sig.stopped ==> Runnable(x.after) == {})
    && Keeps(x.midRun, x.before, s, x.after)
    && (!x.end.Failed? ==> LeavesRest(x.midRun, x.before, s, x.after))
  }

  /** StartRun re-arms the selected units that were terminal in the previous cycle. */
  function StartRun(t: Table): Table {
    map id | id in t :: t[id].(status := Rearmed(t[id].selected, t[id].status))
  }

  /** The units as the execution begins: only a fresh run re-arms them. */
  function Begun(midRun: bool, before: Table): Table {
    if midRun then before else StartRun(before)
  }

  /** What a discovery pass may do to the table: add units and tombstone some. */
  predicate Rediscovers(t: Table, t': Table) {
    forall id | id in t ::
      && id in t' && t'[id].selected == t[id].selected
      && (t'[id].status == t[id].status || t'[id].status == Removed)
  }

  lemma DriverKeeps(d: Driver, t: Table, midRun: bool)
    requires d.Valid()
    requires midRun ==> forall id :: id in t && t[id].status == Synced ==> id in d.units.kept
    requires if midRun then d.units.origin == t else Rediscovers(StartRun(t), d.units.origin)
    ensures Keeps(midRun, t, d.s, d.units.table) && LeavesRest(midRun, t, d.s, d.units.table)
  {
  }

  /** A followed log with a fitting ending and table makes an execution as guaranteed. */
  lemma MakesExec(x: Exec, ps: seq<Pool>)
    requires Followed(x.log, ps) && EndsAs(x.log, ps[|x.log|], x.end)
    requires Settles(x.end) && !ps[|x.log|].sig.stopped ==> Runnable(x.after) == {}
    requires Keeps(x.midRun, x.before, ps[|x.log|], x.after) && LeavesRest(x.midRun, x.before, ps[|x.log|], x.after)
    ensures ExecOk(x) && Replay(x.log) == ps[|x.log|]
  {
    LegalBySteps(x.log, ps);
  }

  /** After the drain: hand over if the bound tripped, and only otherwise settle and look at the signals. */
  method Conclude(d: Driver, t: Table, midRun: bool) returns (x: Exec)
    requires d.Logged() && d.s.inFlight == {}
    requires d.stoppingCAN || d.stopRequested || (d.s.drained && Runnable(d.units.table) == {})
    requires Keeps(midRun, t, d.s, d.units.table) && LeavesRest(midRun, t, d.s, d.units.table)
    modifies d`log, d`s, d`ps, d`calls
    ensures ExecOk(x) && x.midRun == midRun && x.before == t && x.after == d.units.table
    ensures Replay(x.log) == old(d.s)
    ensures d.stoppingCAN ==> x.end == Continued
    ensures !d.stoppingCAN ==> (x.end.Failed? <==> d.script.fails(old(d.calls)))
  {
    if d.stoppingCAN {
      d.Record(HandedOver);
      x := Exec(midRun, t, d.log, Continued, d.units.table);
      MakesExec(x, d.ps);
      return;
    }
    var ok := d.Control();
    if !ok {
      x := Exec(midRun, t, d.log, Failed, d.units.table); // the settle activity failed
      MakesExec(x, d.ps);
      return;
    }
    d.Record(Settled);
    var end :=
      if d.disconnectRequested then Disconnected
      else if d.rerunRequested && !d.stopRequested then Rerun
      else Rested;
    x := Exec(midRun, t, d.log, end, d.units.table);
    MakesExec(x, d.ps);
  }

  /**
   runConnection: start and discover (a fresh run only), drain, then settle or hand over. The
   contract covers every behaviour of the activities, the source and the user: the execution fails
   only if a control activity does, it hears exactly what the signal channels brought, one reading
   per completed unit, and it never launches a unit `w` that is selected in no table.
   */
  method RunConnection(
    t: Table, midRun: bool, startFails: bool, discoveryFails: bool, found: Table, script: Script, ghost w: Id)
    returns (x: Exec)
    ensures ExecOk(x) && x.midRun == midRun && x.before == t
    ensures x.end.Failed? ==> (!midRun && (startFails || discoveryFails)) || exists i: nat :: script.fails(i)
    ensures !midRun && (startFails || discoveryFails) ==> x.end.Failed? && x.log == []
    ensures forall k :: 0 <= k < |Replay(x.log).sig.heard| ==> Replay(x.log).sig.heard[k] == script.inbox(k)
    ensures !x.end.Failed? ==> |Replay(x.log).sig.heard| == Replay(x.log).finishes
    ensures NeverSelected(t, script.drift, w) && (w in found ==> !found[w].selected) ==> Launched(w) !in x.log
  {
    var start := t;
    if !midRun {
      if startFails {
        return Exec(midRun, t, [], Failed, start);
      }
      start := StartRun(t);
      if Rediscovers(start, found) {
        start := found; // discovery rewrites the catalog
      }
      if discoveryFails {
        return Exec(midRun, t, [], Failed, start);
      }
    }
    var d := new Driver(start, midRun, script, w);
    var ok := d.Drain();
    DriverKeeps(d, t, midRun);
    if ok {
      x := Conclude(d, t, midRun);
    } else {
      x := Exec(midRun, t, d.log, Failed, d.units.table);
      MakesExec(x, d.ps);
    }
    if Launched(w) in x.log {
      LaunchedEver(x.log, w);
    }
  }

  // --- runs across executions ---

  /** One run: executions that hand over to each other, with nothing in flight in between. */
  ghost predicate IsRun(xs: seq<Exec>) {
    && (forall i :: 0 <= i < |xs| ==> ExecOk(xs[i]))
    && (forall i :: 0 <= i < |xs| - 1 ==> HandsOver(xs[i], xs[i + 1]))
  }

  ghost predicate HandsOver(x: Exec, y: Exec) {
    x.end.Continued? && y.midRun && Drifted(x.after, {}, y.before)
  }

  lemma FinishedIsSynced(log: seq<Event>, id: Id)
    requires Finished(id, true) in log
    ensures id in Replay(log).synced
  {
    var k :| 0 <= k < |log| && log[k] == Finished(id, true);
    ReplayNext(log, k);
    Accumulates(log, k + 1, |log|);
    assert log[..|log|] == log;
  }

  lemma {:induction false} SyncedAcrossExecutions(xs: seq<Exec>, i: nat, j: nat, id: Id)
    requires IsRun(xs) && i <= j < |xs|
    requires id in xs[i].after && xs[i].after[id].status == Synced
    ensures id in xs[j].after && xs[j].after[id].status == Synced
    ensures i < j ==> id !in Replay(xs[j].log).ever
  {
    if i < j {
      SyncedAcrossExecutions(xs, i, j - 1, id);
      assert HandsOver(xs[j - 1], xs[j]);
    }
  }

  /**
   One completion per run: a unit that finished synced is not launched again, in this execution
   or any later one of the run.
   */
  lemma OneCompletionPerRun(xs: seq<Exec>, i: nat, j: nat, id: Id)
    requires IsRun(xs) && i < j < |xs|
    requires Finished(id, true) in xs[i].log
    ensures Launched(id) !in xs[j].log
    ensures id in xs[j].after && xs[j].after[id].status == Synced
  {
    FinishedIsSynced(xs[i].log, id);
    SyncedAcrossExecutions(xs, i, j, id);
    if Launched(id) in xs[j].log {
      LaunchedEver(xs[j].log, id);
    }
  }

  /** A unit of the last table was there in every earlier one: after the first execution's discovery no unit appears. */
  lemma {:induction false} ThereThroughout(xs: seq<Exec>, i: nat, j: nat, id: Id)
    requires IsRun(xs) && i <= j < |xs| && (forall k :: 0 <= k < |xs| ==> !xs[k].end.Failed?)
    requires id in xs[j].after
    ensures id in xs[i].after && (i < j ==> id in xs[j].before)
  {
    if i < j {
      assert HandsOver(xs[j - 1], xs[j]);
      ThereThroughout(xs, i, j - 1, id);
    }
  }

  /** A unit that no execution launched is as the run began with it, or tombstoned. */
  lemma {:induction false} NeverLaunched(xs: seq<Exec>, n: nat, id: Id)
    requires IsRun(xs) && n < |xs| && (forall k :: 0 <= k < |xs| ==> !xs[k].end.Failed?) && !xs[0].midRun
    requires id in xs[0].before && id in xs[n].after
    requires forall k :: 0 <= k <= n ==> id !in Replay(xs[k].log).ever
    ensures xs[n].after[id].status == Removed || xs[n].after[id].status == Begun(false, xs[0].before)[id].status
  {
    if n > 0 {
      assert HandsOver(xs[n - 1], xs[n]);
      ThereThroughout(xs, n - 1, n, id);
      NeverLaunched(xs, n - 1, id);
    }
  }

  /**
   A run that settles with no stop has gone through everything, however many executions it took:
   a unit that was selected when it began, and is selected, due and not tombstoned at the end,
   was launched by one of its executions and is terminal, even if it was already terminal from
   the run before.
   */
  lemma RunRechecks(xs: seq<Exec>, id: Id) returns (i: nat)
    requires IsRun(xs) && xs != [] && !xs[0].midRun
    requires Settles(xs[|xs| - 1].end) && !Replay(xs[|xs| - 1].log).sig.stopped
    requires id in xs[0].before && xs[0].before[id].selected
    requires var t := xs[|xs| - 1].after; id in t && t[id].selected && t[id].retryDue && t[id].status != Removed
    ensures i < |xs| && Launched(id) in xs[i].log
    ensures xs[|xs| - 1].after[id].status in {Synced, Errored}
  {
    var n := |xs| - 1;
    assert id !in Runnable(xs[n].after) && id in Begun(false, xs[0].before);
    forall k | 0 <= k < |xs| ensures !xs[k].end.Failed? {
      assert k < n ==> HandsOver(xs[k], xs[k + 1]);
    }
    if forall k :: 0 <= k <= n ==> id !in Replay(xs[k].log).ever {
      NeverLaunched(xs, n, id);
      assert false;
    }
    i :| 0 <= i <= n && id in Replay(xs[i].log).ever;
    EverLaunched(xs[i].log, id);
  }

  /**
   Clean endings. An execution settles or hands over only with an empty pool. A settle with no
   stop follows a query that found nothing runnable. An observed stop, disconnect or trigger has
   its effect exactly when the history bound had not tripped: then a stop settles the run, a
   disconnect ends the workflow, and a trigger without a stop asks for another run. When it had
   tripped, the execution hands over and all three are dropped.
   */
  lemma CleanEndings(x: Exec)
    requires ExecOk(x) && !x.end.Failed?
    ensures Replay(x.log).inFlight == {}
    ensures Replay(x.log).launches == Replay(x.log).finishes <= CONTINUE_AS_NEW_UNITS + GLOBAL_WORKER_CAP - 1
    ensures Settles(x.end) && !Replay(x.log).sig.stopped ==> Runnable(x.after) == {}
    ensures Replay(x.log).sig.stopped ==> (Settles(x.end) <==> !Replay(x.log).tripped)
    ensures Replay(x.log).sig.disconnected ==> (x.end == Disconnected <==> !Replay(x.log).tripped)
    ensures Replay(x.log).sig.triggered && !Replay(x.log).sig.stopped ==> (x.end == Rerun <==> !Replay(x.log).tripped)
    ensures Replay(x.log).tripped <==> x.end == Continued
  {
    var n := |x.log| - 1;
    LegalAt(x.log, n);
    PoolAccounting(x.log);
    assert x.log[..n + 1] == x.log;
  }

  /** The log of the instance's first execution: it observes a stop in the turn in which the bound trips. */
  function StoppedLog(): seq<Event> {
    [Sized(1), Launched(0), Refilled(None), Finished(0, false), Signalled(true, false, false), Tripped, HandedOver]
  }

  /** The log of its second: the unit is launched again and finishes. */
  function ResumedLog(): seq<Event> {
    [Sized(1), Launched(0), Refilled(None), Finished(0, true), Sized(1), Refilled(Some({})), Settled]
  }

  lemma StoppedLogIsLegal()
    ensures Legal(StoppedLog())
    ensures var sig := Sig(true, false, false, [Signals(true, false, false)]);
      Replay(StoppedLog()) == Pool({}, {0}, 1, 1, 1, false, false, {}, true, sig)
  {
    var p0 := EMPTY_POOL;
    var p1 := p0.(p := 1, refilling := true);
    var p2 := p1.(inFlight := {0}, ever := {0}, launches := 1);
    var p3 := p2.(refilling := false);
    var p4 := p3.(inFlight := {}, finishes := 1);
    var p5 := p4.(sig := Sig(true, false, false, [Signals(true, false, false)]));
    var p6 := p5.(tripped := true);
    LegalBySteps(StoppedLog(), [p0, p1, p2, p3, p4, p5, p6, p6]);
  }

  lemma ResumedLogIsLegal()
    ensures Legal(ResumedLog())
    ensures Replay(ResumedLog()) == Pool({}, {0}, 1, 1, 1, false, true, {0}, false, Sig(false, false, false, []))
  {
    var p0 := EMPTY_POOL;
    var p1 := p0.(p := 1, refilling := true);
    var p2 := p1.(inFlight := {0}, ever := {0}, launches := 1);
    var p3 := p2.(refilling := false);
    var p4 := p3.(inFlight := {}, finishes := 1, synced := {0});
    var p5 := p4.(refilling := true);
    var p6 := p5.(refilling := false, drained := true);
    LegalBySteps(ResumedLog(), [p0, p1, p2, p3, p4, p5, p6, p6]);
  }

  /**
   The dropped stop, as an instance: the first execution of a run observes a stop, and the second
   launches a unit. It shows that what RunConnection guarantees admits such a run; that the driver
   takes it is seen by following its branches, and is not itself stated.
   */
  lemma StopIsDropped() returns (xs: seq<Exec>)
    ensures IsRun(xs) && |xs| == 2
    ensures Replay(xs[0].log).sig.stopped && Launched(0) in xs[1].log
  {
    StoppedLogIsLegal();
    ResumedLogIsLegal();
    var idle, syncing, synced := map[0 := Row(true, Idle, true)], map[0 := Row(true, Syncing, true)],
      map[0 := Row(true, Synced, true)];
    var x := Exec(false, idle, StoppedLog(), Continued, syncing);
    var y := Exec(true, syncing, ResumedLog(), Rested, synced);
    assert Runnable(synced) == {};
    assert ExecOk(x) && ExecOk(y) && HandsOver(x, y);
    xs := [x, y];
    assert ResumedLog()[1] == Launched(0);
  }

  // --- the workflow around the runs ---

  /** Where the connection's workflow stands: in its waiting loop, in an execution of a run, or ended. */
  datatype Phase = Waiting | Running(midRun: bool) | Closed

  /** A new execution of the workflow: only one that resumes a run skips the waiting loop. */
  function Entered(midRun: bool): Phase {
    if midRun then Running(true) else Waiting
  }

  /** Where an execution's ending leads. A resumed one does not come back to the loop it skipped. */
  function AfterRun(midRun: bool, end: Ending): Phase {
    match end
    case Continued => Entered(true)
    case Rerun => Entered(false)
    case Failed => Closed
    case Disconnected => Closed
    case Rested => if midRun then Closed else Waiting
  }

  /**
   After a settled run the workflow is never in another run, whatever triggers the run coalesced:
   it waits or has ended. It is still alive exactly if no disconnect was observed and either the
   run needed no hand-over or a trigger without a stop restarted the workflow.
   */
  lemma SettledRunLeadsTo(xs: seq<Exec>)
    requires IsRun(xs) && xs != [] && !xs[0].midRun
    requires Settles(xs[|xs| - 1].end)
    ensures var x := xs[|xs| - 1]; var s := Replay(x.log);
      && !AfterRun(x.midRun, x.end).Running?
      && (AfterRun(x.midRun, x.end) == Waiting <==>
        !s.sig.disconnected && (|xs| == 1 || (s.sig.triggered && !s.sig.stopped)))
      && (AfterRun(x.midRun, x.end) == Closed <==>
        s.sig.disconnected || (|xs| > 1 && (s.sig.stopped || !s.sig.triggered)))
  {
    if |xs| > 1 {
      assert HandsOver(xs[|xs| - 2], xs[|xs| - 1]);
    }
  }

  /** What reaches the waiting loop, and the executions of runs. */
  datatype Happening = Trigger | TimerDue | Disconnect | Other | Ran(x: Exec)

  ghost predicate Moves(p: Phase, h: Happening, p': Phase) {
    match h
    case Trigger => p == Waiting && p' == Running(false)
    case TimerDue => p == Waiting && p' == Running(false)
    case Disconnect => p == Waiting && p' == Closed
    case Other => p == Waiting && p' == Waiting
    case Ran(x) => p == Running(x.midRun) && p' == AfterRun(x.midRun, x.end)
  }

  ghost predicate Life(ps: seq<Phase>, hs: seq<Happening>) {
    |ps| == |hs| + 1 && ps[0] == Waiting && forall i :: 0 <= i < |hs| ==> Moves(ps[i], hs[i], ps[i + 1])
  }

  /**
   The promised "run once more" does not happen by itself: in every life of the workflow, between
   a settled run and the next one a new trigger or a due timer has arrived, even if the settled
   run had coalesced a trigger.
   */
  lemma {:induction false} NextRunNeedsNewTrigger(ps: seq<Phase>, hs: seq<Happening>, i: nat, j: nat) returns (k: nat)
    requires Life(ps, hs) && i < j < |hs|
    requires hs[i].Ran? && Settles(hs[i].x.end) && ps[j].Running?
    ensures i < k < j && (hs[k] == Trigger || hs[k] == TimerDue)
    decreases j
  {
    assert Moves(ps[i], hs[i], ps[i + 1]);
    k := j - 1;
    assert Moves(ps[k], hs[k], ps[j]);
    if hs[k].Ran? {
      assert k > i;
      k := NextRunNeedsNewTrigger(ps, hs, i, k);
    }
  }
}
