/**
 The worker-pool driver of one connection: it keeps up to P units in flight, refills freed slots
 from a limited query, honours stop signals at completion boundaries, and hands over to a new
 execution when its history bound trips.

 Runs are judged by their event log. `Legal` is an acceptor for logs, written from what the
 design promises; the driver is shown to produce only legal logs, whatever its environment does,
 and the lemmas about legal logs are then facts about every run.
 */
module ConnectionRun {
  import opened Wrappers

  /** Units by rank of their external id, the order the batch query uses. */
  type Id = nat

  datatype Status = Idle | Queued | Syncing | Synced | Errored | Removed

  /** `retryDue`: the poison backoff is unset or has elapsed. */
  datatype Row = Row(selected: bool, status: Status, retryDue: bool)

  type Table = map<Id, Row>

  const GLOBAL_WORKER_CAP: nat := 32
  const CONTINUE_AS_NEW_UNITS: nat := 1000

  predicate NeedsWork(r: Row) {
    r.selected && r.retryDue && r.status != Synced && r.status != Errored && r.status != Removed
  }

  /** What the start of a fresh run makes of a unit: a selected one that was terminal in the last cycle is due again. */
  function Rearmed(selected: bool, status: Status): Status {
    if selected && (status == Synced || status == Errored) then Idle else status
  }

  /** The units a query with no limit would return. */
  function Runnable(t: Table): set<Id> {
    set id | id in t && NeedsWork(t[id])
  }

  // --- event logs ---

  datatype Event =
    | Sized(p: nat)                                        // the admission controller returned P
    | Launched(id: Id)
    | Refilled(runnable: Option<set<Id>>)                  // a refill ended; what its last query, if any, could return
    | Finished(id: Id, synced: bool)                       // a unit left the pool; whether it left synced
    | Signalled(stop: bool, disconnect: bool, trigger: bool)
    | Tripped                                              // the history bound
    | Settled
    | HandedOver

  /** What one reading of the signal channels brings. */
  datatype Signals = Signals(stop: bool, disconnect: bool, trigger: bool)

  /** The signals observed so far: what they ask for, and each reading. */
  datatype Sig = Sig(stopped: bool, disconnected: bool, triggered: bool, heard: seq<Signals>)

  function Hears(g: Sig, x: Signals): Sig {
    Sig(g.stopped || x.stop || x.disconnect, g.disconnected || x.disconnect, g.triggered || x.trigger, g.heard + [x])
  }

  /** What a log amounts to so far. */
  datatype Pool = Pool(
    inFlight: set<Id>, ever: set<Id>, launches: nat, finishes: nat, p: nat, refilling: bool, drained: bool,
    synced: set<Id>, tripped: bool, sig: Sig)

  const EMPTY_POOL := Pool({}, {}, 0, 0, 0, false, false, {}, false, Sig(false, false, false, []))

  function Apply(s: Pool, e: Event): Pool {
    match e
    case Sized(p) => s.(p := p, refilling := true, drained := false)
    case Launched(id) => s.(inFlight := s.inFlight + {id}, ever := s.ever + {id}, launches := s.launches + 1)
    case Refilled(runnable) => s.(refilling := false, drained := runnable == Some({}))
    case Finished(id, ok) =>
      s.(inFlight := s.inFlight - {id}, finishes := s.finishes + 1, refilling := false, drained := false,
      synced := if ok then s.synced + {id} else s.synced)
    case Signalled(stop, disconnect, trigger) => s.(sig := Hears(s.sig, Signals(stop, disconnect, trigger)))
    case Tripped => s.(tripped := true)
    case Settled => s
    case HandedOver => s
  }

  function Replay(log: seq<Event>): Pool {
    if log == [] then EMPTY_POOL else Apply(Replay(log[..|log| - 1]), log[|log| - 1])
  }

  /** What may happen next. */
  predicate LegalNext(s: Pool, e: Event) {
    match e
    case Sized(p) => 1 <= p <= GLOBAL_WORKER_CAP && !s.sig.stopped && !s.tripped && s.finishes < CONTINUE_AS_NEW_UNITS
    case Launched(id) => s.refilling && |s.inFlight| < s.p && id !in s.inFlight && id !in s.synced
    case Refilled(runnable) => s.refilling && (s.p <= |s.inFlight| || (runnable.Some? && runnable.value <= s.inFlight))
    case Finished(id, _) => id in s.inFlight && !s.refilling
    case Signalled(_, _, _) => !s.refilling
    case Tripped => !s.refilling
    case Settled => s.inFlight == {} && !s.tripped && (s.sig.stopped || s.drained)
    case HandedOver => s.inFlight == {} && s.tripped
  }

  predicate Legal(log: seq<Event>) {
    log == [] || (Legal(log[..|log| - 1]) && LegalNext(Replay(log[..|log| - 1]), log[|log| - 1]))
  }

  /** Every event of a legal log was legal where it happened. */
  lemma {:induction false} LegalAt(log: seq<Event>, k: nat)
    requires Legal(log) && k < |log|
    ensures Legal(log[..k]) && Legal(log[..k + 1])
    ensures LegalNext(Replay(log[..k]), log[k])
    ensures Replay(log[..k + 1]) == Apply(Replay(log[..k]), log[k])
  {
    assert log[..k + 1][..k] == log[..k];
    if k == |log| - 1 {
      assert log[..k + 1] == log;
    } else {
      LegalAt(log[..|log| - 1], k);
      assert log[..|log| - 1][..k] == log[..k];
      assert log[..|log| - 1][..k + 1] == log[..k + 1];
    }
  }

  ghost predicate Accounted(s: Pool) {
    && s.launches == s.finishes + |s.inFlight|
    && |s.inFlight| <= GLOBAL_WORKER_CAP
    && s.launches <= CONTINUE_AS_NEW_UNITS + GLOBAL_WORKER_CAP - 1
    && (s.refilling ==> s.finishes < CONTINUE_AS_NEW_UNITS && s.p <= GLOBAL_WORKER_CAP && !s.sig.stopped && !s.tripped)
    && !(s.refilling && s.drained)
  }

  lemma AccountedNext(s: Pool, e: Event)
    requires Accounted(s) && LegalNext(s, e)
    ensures Accounted(Apply(s, e))
  {
  }

  /**
   Pool accounting and the history bound, at every moment of every run: launches are the units
   processed plus those in flight, at most 32 are in flight, a refill only runs before the
   bound, and no execution launches more than 1000 + 31 units.
   */
  lemma {:induction false} PoolAccounting(log: seq<Event>)
    requires Legal(log)
    ensures Accounted(Replay(log))
  {
    if log != [] {
      PoolAccounting(log[..|log| - 1]);
      AccountedNext(Replay(log[..|log| - 1]), log[|log| - 1]);
    }
  }

  lemma WithinNext(s: Pool, e: Event, top: nat)
    requires |s.inFlight| <= top && s.p <= top && LegalNext(s, e) && (e.Sized? ==> e.p <= top)
    ensures |Apply(s, e).inFlight| <= top && Apply(s, e).p <= top
  {
    if e.Finished? {
      assert s.inFlight - {e.id} <= s.inFlight;
    }
  }

  /** In flight never exceeds the largest P read so far. */
  lemma {:induction false} InFlightWithinLargestP(log: seq<Event>, top: nat)
    requires Legal(log)
    requires forall e :: e in log && e.Sized? ==> e.p <= top
    ensures |Replay(log).inFlight| <= top && Replay(log).p <= top
  {
    if log != [] {
      var n := |log| - 1;
      forall e | e in log[..n] && e.Sized? ensures e.p <= top {
        assert e in log;
      }
      InFlightWithinLargestP(log[..n], top);
      assert log[n] in log;
      WithinNext(Replay(log[..n]), log[n], top);
    }
  }

  lemma ReplayNext(log: seq<Event>, k: nat)
    requires k < |log|
    ensures Replay(log[..k + 1]) == Apply(Replay(log[..k]), log[k])
  {
    assert log[..k + 1][..k] == log[..k];
  }

  /** Flags and finished-synced units only accumulate. */
  ghost predicate Grown(s: Pool, s': Pool) {
    s.synced <= s'.synced && s.ever <= s'.ever && (s.sig.stopped ==> s'.sig.stopped) && (s.tripped ==> s'.tripped)
  }

  lemma GrownNext(s: Pool, s': Pool, e: Event)
    requires Grown(s, s')
    ensures Grown(s, Apply(s', e))
  {
  }

  lemma {:induction false} Accumulates(log: seq<Event>, i: nat, j: nat)
    requires i <= j <= |log|
    ensures Grown(Replay(log[..i]), Replay(log[..j]))
  {
    if i < j {
      Accumulates(log, i, j - 1);
      ReplayNext(log, j - 1);
      GrownNext(Replay(log[..i]), Replay(log[..j - 1]), log[j - 1]);
    }
  }

  /** After a stop or a disconnect is observed nothing more is launched. */
  lemma NoLaunchAfterStop(log: seq<Event>, i: nat, j: nat)
    requires Legal(log) && i < j < |log|
    requires log[i].Signalled? && (log[i].stop || log[i].disconnect)
    ensures !log[j].Launched?
  {
    LegalAt(log, i);
    LegalAt(log, j);
    Accumulates(log, i + 1, j);
    PoolAccounting(log[..j]);
  }

  /** A unit that left the pool synced is not launched again. */
  lemma SyncedOnce(log: seq<Event>, i: nat, j: nat)
    requires Legal(log) && i < j < |log|
    requires log[i].Finished? && log[i].synced
    ensures log[j] != Launched(log[i].id)
  {
    LegalAt(log, i);
    LegalAt(log, j);
    Accumulates(log, i + 1, j);
  }

  lemma {:induction false} StaysInFlight(log: seq<Event>, i: nat, j: nat, id: Id)
    requires Legal(log) && i <= j <= |log|
    requires id in Replay(log[..i]).inFlight
    requires forall k :: i <= k < j ==> !(log[k].Finished? && log[k].id == id)
    ensures id in Replay(log[..j]).inFlight
  {
    if i < j {
      StaysInFlight(log, i, j - 1, id);
      LegalAt(log, j - 1);
    }
  }

  /** No unit is in flight twice: between two launches of a unit it finished. */
  lemma NoDoubleLaunch(log: seq<Event>, i: nat, j: nat) returns (k: nat)
    requires Legal(log) && i < j < |log|
    requires log[i].Launched? && log[j] == log[i]
    ensures i < k < j && log[k].Finished? && log[k].id == log[i].id
  {
    LegalAt(log, i);
    LegalAt(log, j);
    if forall k :: i + 1 <= k < j ==> !(log[k].Finished? && log[k].id == log[i].id) {
      StaysInFlight(log, i + 1, j, log[i].id);
      assert false;
    }
    k :| i < k < j && log[k].Finished? && log[k].id == log[i].id;
  }

  lemma LaunchedEver(log: seq<Event>, id: Id)
    requires Launched(id) in log
    ensures id in Replay(log).ever
  {
    var k :| 0 <= k < |log| && log[k] == Launched(id);
    ReplayNext(log, k);
    Accumulates(log, k + 1, |log|);
    assert log[..|log|] == log;
  }

  lemma {:induction false} EverLaunched(log: seq<Event>, id: Id)
    requires id in Replay(log).ever
    ensures Launched(id) in log
  {
    var n := |log| - 1;
    if log[n] != Launched(id) {
      EverLaunched(log[..n], id);
    }
  }

  /** The log followed step by step. */
  ghost predicate Followed(log: seq<Event>, ps: seq<Pool>) {
    && |ps| == |log| + 1 && ps[0] == EMPTY_POOL
    && forall i {:trigger log[i]} :: 0 <= i < |log| ==> LegalNext(ps[i], log[i]) && ps[i + 1] == Apply(ps[i], log[i])
  }

  lemma FollowedNext(log: seq<Event>, ps: seq<Pool>, e: Event)
    requires Followed(log, ps) && LegalNext(ps[|log|], e)
    ensures Followed(log + [e], ps + [Apply(ps[|log|], e)])
  {
  }

  /** A log is legal if it can be followed step by step. */
  lemma {:induction false} LegalBySteps(log: seq<Event>, ps: seq<Pool>)
    requires Followed(log, ps)
    ensures Legal(log) && Replay(log) == ps[|log|]
  {
    if log != [] {
      LegalBySteps(log[..|log| - 1], ps[..|log|]);
    }
  }
}
