/**
 Run control: what a fresh run resets, how a finished run rolls the units up into the
 connection's resting status, and why a connection that needs re-authorisation stays that way.
 */
module RunControl {
  import opened Wrappers
  import opened ConnectionRun

  datatype Unit = Unit(selected: bool, status: Status, committed: bool)
  type Units = map<Id, Unit>

  datatype ConnStatus =
    | Connected | ConnectedWarnings | Backfilling | Error
    | SyncingNow | NeedsReauth | Disabled | Stopping

  // --- the rollup ---

  function Selected(units: Units): set<Id> {
    set id | id in units && units[id].selected && units[id].status != Removed
  }

  function Failing(units: Units): set<Id> {
    set id | id in units && units[id].selected && units[id].status == Errored
  }

  /** Selected units that never finished a full pass. */
  function Uncommitted(units: Units): set<Id> {
    set id | id in units && units[id].selected && units[id].status != Removed && !units[id].committed
  }

  function SettleStatus(total: nat, errored: nat, uncommitted: nat): ConnStatus {
    if total == 0 then Connected
    else if errored == total then Error
    else if uncommitted > errored then Backfilling
    else if errored > 0 then ConnectedWarnings
    else Connected
  }

  function Rollup(units: Units): ConnStatus {
    SettleStatus(|Selected(units)|, |Failing(units)|, |Uncommitted(units)|)
  }

  lemma SplitCounts(a: set<Id>, b: set<Id>)
    ensures |a| == |a - b| + |a * b| && |b| == |b - a| + |a * b|
    ensures a <= b && |a| == |b| ==> a == b
    ensures |a - b| == 0 <==> a <= b
  {
    assert a == (a - b) + (a * b) && b == (b - a) + (a * b);
    if a <= b {
      assert b == a + (b - a);
    }
  }

  /**
   What each resting status says about the units, in both directions. Backfilling means that the
   units still on their first pass without an error outnumber those that failed after theirs.
   */
  lemma RollupMeaning(units: Units)
    ensures var s, e, u := Selected(units), Failing(units), Uncommitted(units);
      && (Rollup(units) == Error <==> s != {} && e == s)
      && (Rollup(units) == Backfilling <==> e != s && |u - e| > |e - u|)
      && (Rollup(units) == Connected <==> e == {} && u == {})
      && (Rollup(units) == ConnectedWarnings <==> e != {} && e != s && |u - e| <= |e - u|)
  {
    var s, e, u := Selected(units), Failing(units), Uncommitted(units);
    assert e <= s && u <= s;
    SplitCounts(e, s);
    SplitCounts(u, e);
  }

  /** The same on the columns: what a reader of the unit table can tell from each status. */
  lemma RollupOnColumns(units: Units)
    ensures Rollup(units) == Error <==>
      && (exists id :: id in units && units[id].selected && units[id].status != Removed)
      && (forall id :: id in units && units[id].selected && units[id].status != Removed ==> units[id].status == Errored)
    ensures Rollup(units) == Connected <==>
      forall id :: id in units && units[id].selected && units[id].status != Removed ==>
        units[id].status != Errored && units[id].committed
    ensures var young := set id | id in units && units[id].selected && !units[id].committed
        && units[id].status != Removed && units[id].status != Errored;
      var late := set id | id in units && units[id].selected && units[id].committed && units[id].status == Errored;
      var some := exists id :: id in units && units[id].selected && units[id].status !in {Removed, Errored};
      && (Rollup(units) == Backfilling <==> some && |young| > |late|)
      && (Rollup(units) == ConnectedWarnings <==>
        some && |young| <= |late| && exists id :: id in units && units[id].selected && units[id].status == Errored)
  {
    var s, e, u := Selected(units), Failing(units), Uncommitted(units);
    RollupMeaning(units);
    assert u - e == set id | id in units && units[id].selected && !units[id].committed
      && units[id].status != Removed && units[id].status != Errored;
    assert e - u == set id | id in units && units[id].selected && units[id].committed && units[id].status == Errored;
    forall id | id in units && units[id].selected && units[id].status !in {Removed, Errored}
      ensures id in s && id !in e
    {
    }
    if e != s {
      var id :| id in s && id !in e;
      assert id in units && units[id].selected && units[id].status !in {Removed, Errored};
    }
    forall id | id in units && units[id].selected
      ensures id in e <==> units[id].status == Errored
      ensures id in s <==> units[id].status != Removed
      ensures id in u <==> units[id].status != Removed && !units[id].committed
    {
    }
  }

  /** The documented promise: some unit is uncommitted and not failing, and not every unit failed. */
  ghost predicate StillBackfilling(units: Units) {
    Failing(units) != Selected(units) && Uncommitted(units) - Failing(units) != {}
  }

  /**
   The reported Backfilling implies the documented one, but not conversely: the two agree exactly
   unless the healthy first-pass units are matched or outnumbered by failing committed ones.
   */
  lemma BackfillingVersusPromise(units: Units)
    ensures Rollup(units) == Backfilling ==> StillBackfilling(units)
    ensures var e, u := Failing(units), Uncommitted(units);
      (StillBackfilling(units) && Rollup(units) != Backfilling) <==> (e != Selected(units) && 0 < |u - e| <= |e - u|)
  {
    RollupMeaning(units);
    SplitCounts(Uncommitted(units), Failing(units));
  }

  /** The gap is real: one unit on its first pass and one failed after its own are reported as settled with warnings. */
  lemma BackfillingGap()
    ensures exists units: Units :: StillBackfilling(units) && Rollup(units) == ConnectedWarnings
  {
    var units: Units := map[0 := Unit(true, Idle, false), 1 := Unit(true, Errored, true)];
    assert Selected(units) == {0, 1} && Failing(units) == {1} && Uncommitted(units) == {0};
    assert 0 in Uncommitted(units) - Failing(units) && 0 in Selected(units) && 0 !in Failing(units);
    assert |Selected(units)| == 2 && |Failing(units)| == 1 && |Uncommitted(units)| == 1;
    assert StillBackfilling(units) && Rollup(units) == ConnectedWarnings;
  }

  // --- the activities ---

  predicate Guarded(s: ConnStatus) {
    s == NeedsReauth || s == Disabled || s == Stopping
  }

  class Connection {
    var units: Units
    var status: ConnStatus
    var lastSuccess: Option<int>

    /** Re-arm the selected terminal units and show the connection as syncing, unless a guarded status wins. */
    method StartRun()
      modifies this
      ensures units.Keys == old(units).Keys && lastSuccess == old(lastSuccess)
      ensures forall id :: id in units ==>
        && units[id].committed == old(units)[id].committed && units[id].selected == old(units)[id].selected
        && (units[id].status != old(units)[id].status <==>
          old(units)[id].selected && old(units)[id].status in {Synced, Errored})
        && (units[id].status != old(units)[id].status ==> units[id].status == Idle)
      ensures status == if old(status) in {NeedsReauth, Disabled, Stopping} then old(status) else SyncingNow
      ensures status == Effect(Machine(old(status), 0, None), Begin).status
    {
      units := map id | id in units :: units[id].(status := Rearmed(units[id].selected, units[id].status));
      if !Guarded(status) {
        status := SyncingNow;
      }
    }

    /** Settle to the rolled-up status, but never over needs_reauth. */
    method SettleConnection(now: int) returns (rollup: ConnStatus)
      modifies this`status, this`lastSuccess
      ensures rollup == Rollup(units)
      ensures status == if old(status) == NeedsReauth then NeedsReauth else rollup
      ensures status == Effect(Effect(Machine(old(status), 0, None), ReadStatus), SettleEnds(rollup)).status
      ensures lastSuccess ==
        if old(status) != NeedsReauth && rollup in {Connected, ConnectedWarnings} then Some(now) else old(lastSuccess)
    {
      rollup := SettleStatus(|Selected(units)|, |Failing(units)|, |Uncommitted(units)|);
      if status == NeedsReauth {
        return;
      }
      status := rollup;
      if rollup == Connected || rollup == ConnectedWarnings {
        lastSuccess := Some(now);
      }
    }
  }

  // --- sticky needs_reauth ---

  /**
   Discovery and settle read the connection's status before they write it, so the machine keeps
   what they read. `pool` counts the unit drains in flight.
   */
  datatype Machine = Machine(status: ConnStatus, pool: nat, held: Option<ConnStatus>)

  datatype Step =
    | Begin                          // StartRun's guarded UPDATE
    | ReadStatus                     // discovery or settle loads the row
    | DiscoveryRejected              // the source rejected the credentials during discovery
    | DiscoveryEnds(degraded: bool)  // a degraded pass writes back the status it read
    | SettleEnds(rollup: ConnStatus)
    | Launch
    | UnitRejected                   // the source rejected the credentials during a drain
    | UnitEnds
    | Reconnect                      // the user: a new authorisation
    | Disconnect                     // the user: soft delete

  /** Nothing is launched while discovery or settle holds a status it read. */
  predicate Enabled(m: Machine, e: Step) {
    match e
    case ReadStatus => m.held.None?
    case DiscoveryRejected => m.held.Some?
    case DiscoveryEnds(_) => m.held.Some?
    case SettleEnds(_) => m.held.Some?
    case Launch => m.held.None?
    case UnitRejected => m.pool > 0
    case UnitEnds => m.pool > 0
    case _ => true
  }

  /** The effect of a step, whether or not it was supposed to happen then. */
  function Effect(m: Machine, e: Step): Machine {
    match e
    case Begin => if Guarded(m.status) then m else m.(status := SyncingNow)
    case ReadStatus => m.(held := Some(m.status))
    case DiscoveryRejected => m.(status := NeedsReauth, held := None)
    case DiscoveryEnds(degraded) =>
      m.(status := if degraded && m.held.Some? then m.held.value else m.status, held := None)
    case SettleEnds(rollup) => m.(status := if m.held == Some(NeedsReauth) then m.status else rollup, held := None)
    case Launch => m.(pool := m.pool + 1)
    case UnitRejected => m.(status := NeedsReauth)
    case UnitEnds => if m.pool > 0 then m.(pool := m.pool - 1) else m
    case Reconnect => m.(status := Connected)
    case Disconnect => m.(status := Disabled)
  }

  ghost predicate Run(t: seq<Machine>, es: seq<Step>) {
    |t| == |es| + 1 && forall i :: 0 <= i < |es| ==> Enabled(t[i], es[i]) && t[i + 1] == Effect(t[i], es[i])
  }

  /** A discovery or settle reads the status while a drain is in flight, before step `n`. */
  ghost predicate Overlaps(t: seq<Machine>, es: seq<Step>, n: nat)
    requires n <= |es| <= |t|
  {
    exists k :: 0 <= k < n && es[k] == ReadStatus && t[k].pool > 0
  }

  /** What is held while a status write is pending: no drain is running, and needs_reauth was not missed. */
  ghost predicate Inv(m: Machine) {
    m.held.Some? ==> m.pool == 0 && (m.status == NeedsReauth ==> m.held == Some(NeedsReauth))
  }

  lemma {:induction false} RunInv(t: seq<Machine>, es: seq<Step>, n: nat)
    requires Run(t, es) && n < |t| && t[0].held.None?
    ensures Inv(t[n]) || Overlaps(t, es, n)
  {
    if n > 0 {
      RunInv(t, es, n - 1);
      assert t[n] == Effect(t[n - 1], es[n - 1]);
    }
  }

  /**
   Once an auth failure sets needs_reauth, nothing but the user clears it, no start, discovery,
   drain or settle of any later run, unless a discovery or settle has read the status while a
   drain was in flight.
   */
  lemma {:induction false} NeedsReauthIsSticky(t: seq<Machine>, es: seq<Step>, i: nat, j: nat)
    requires Run(t, es) && t[0].held.None? && i <= j < |t|
    requires t[i].status == NeedsReauth
    requires forall k :: i <= k < j ==> es[k] != Reconnect && es[k] != Disconnect
    ensures t[j].status == NeedsReauth || Overlaps(t, es, j)
  {
    if i < j {
      NeedsReauthIsSticky(t, es, i, j - 1);
      RunInv(t, es, j - 1);
      assert t[j] == Effect(t[j - 1], es[j - 1]);
    }
  }

  /**
   The user's new authorisation lasts until the source rejects the credentials again, unless a
   discovery that had read needs_reauth before it ends degraded and writes that back.
   */
  lemma {:induction false} AuthorisationLasts(t: seq<Machine>, es: seq<Step>, i: nat, n: nat)
    requires Run(t, es) && i < n < |t| && es[i] == Reconnect
    requires forall k :: i < k < n ==> !es[k].UnitRejected? && !es[k].DiscoveryRejected?
    requires forall k :: i < k < n && es[k].SettleEnds? ==> exists units :: es[k].rollup == Rollup(units)
    ensures || (t[n].status != NeedsReauth && (t[n].held == Some(NeedsReauth) ==> t[i].held == Some(NeedsReauth)))
      || (t[i].held == Some(NeedsReauth)
        && exists k :: i < k < n && es[k] == DiscoveryEnds(true) && t[k].held == Some(NeedsReauth))
  {
    assert Enabled(t[n - 1], es[n - 1]) && t[n] == Effect(t[n - 1], es[n - 1]);
    if i < n - 1 {
      AuthorisationLasts(t, es, i, n - 1);
    }
  }

  /** That exception is real too: the connection asks for credentials it was just given. */
  lemma AuthorisationUndone(pool: nat)
    ensures var given := Effect(Effect(Machine(NeedsReauth, pool, None), ReadStatus), Reconnect);
      given.status == Connected && Effect(given, DiscoveryEnds(true)).status == NeedsReauth
  {
  }

  /** Stickiness has a real exception: with a drain in flight discovery and settle can overwrite needs_reauth. */
  lemma OverlapLosesReauth(status: ConnStatus, rollup: ConnStatus)
    requires status != NeedsReauth && rollup != NeedsReauth
    ensures var m := Machine(status, 1, None);
      && Effect(Effect(Effect(m, ReadStatus), UnitRejected), DiscoveryEnds(true)).status != NeedsReauth
      && Effect(Effect(Effect(m, ReadStatus), UnitRejected), SettleEnds(rollup)).status != NeedsReauth
  {
  }
}
