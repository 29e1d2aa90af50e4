/**
 Mark-and-sweep discovery: every pass stamps the units it sees with a fresh generation, and only
 a pass that is not suspiciously small tombstones the rest and queues their artifacts for erasure.
 */
module Discovery {

  import opened Finite

  type Id = nat
  type Time = int
  datatype Status = Idle | Syncing | Synced | Errored | Removed

  /** `touched` is updated_at. */
  datatype UnitRow = UnitRow(status: Status, selected: bool, generation: nat, touched: Time)

  /** An artifact belongs to the unit it was pulled from. */
  datatype ArtRow = ArtRow(container: Id, purgePending: bool)

  type Units = map<Id, UnitRow>
  type Arts = map<Id, ArtRow>

  const GRACE: nat := 7

  function Live(units: Units): set<Id> {
    set id | id in units && units[id].status != Removed
  }

  /** The degraded-discovery guard: empty, or below half of the last known good. A first discovery is exempt. */
  predicate IsDegraded(discovered: nat, lastKnownGood: nat) {
    lastKnownGood > 0 && (discovered == 0 || 2 * discovered < lastKnownGood)
  }

  /** Where the environment cuts a pass short: nowhere, before or at a mark, at the sweep or at the queueing. */
  datatype Cut = NoCut | AtStart | AtMark(k: nat) | AtSweep | AtQueue

  /** Upsert one observed unit: an existing row keeps its status and selection. */
  function Mark(units: Units, id: Id, g: nat, now: Time): Units {
    units[id := if id in units then units[id].(generation := g, touched := now) else UnitRow(Idle, false, g, now)]
  }

  function MarkAll(units: Units, listed: seq<Id>, g: nat, now: Time): Units {
    if listed == [] then units else Mark(MarkAll(units, listed[..|listed| - 1], g, now), listed[|listed| - 1], g, now)
  }

  function Unseen(units: Units, g: nat): set<Id> {
    set id | id in units && units[id].generation < g && units[id].status != Removed
  }

  function Sweep(units: Units, g: nat, now: Time): Units {
    map id | id in units :: if id in Unseen(units, g) then units[id].(status := Removed, touched := now) else units[id]
  }

  predicate OfRemoved(units: Units, a: ArtRow) {
    a.container in units && units[a.container].status == Removed
  }

  function MarkArts(units: Units, arts: Arts): Arts {
    map a | a in arts :: if OfRemoved(units, arts[a]) then arts[a].(purgePending := true) else arts[a]
  }

  /** Hard-delete tombstones that nothing touched within the grace. */
  function Collect(units: Units, now: Time): Units {
    map id | id in units && !(units[id].status == Removed && units[id].touched < now - GRACE) :: units[id]
  }

  lemma {:induction false} MarkAllMeaning(units: Units, listed: seq<Id>, g: nat, now: Time, id: Id)
    ensures id in MarkAll(units, listed, g, now) <==> id in units || id in listed
    ensures id in listed && id in units ==>
      MarkAll(units, listed, g, now)[id] == units[id].(generation := g, touched := now)
    ensures id in listed && id !in units ==> MarkAll(units, listed, g, now)[id] == UnitRow(Idle, false, g, now)
    ensures id in units && id !in listed ==> MarkAll(units, listed, g, now)[id] == units[id]
  {
    if listed != [] {
      var n := |listed| - 1;
      MarkAllMeaning(units, listed[..n], g, now, id);
      assert listed == listed[..n] + [listed[n]];
    }
  }

  // --- one pass ---

  /**
   How a pass ended: an error while listing or marking, the guard, or a sweep whose artifact
   marking did or did not go through.
   */
  datatype Outcome = Aborted(marked: nat) | Degraded | Swept(queued: bool)

  datatype Catalog = Catalog(units: Units, arts: Arts)

  /** The generation of the pass is above every stamp in the table. */
  ghost predicate FreshGeneration(units: Units, g: nat) {
    forall id :: id in units ==> units[id].generation < g
  }

  ghost predicate Pass(c: Catalog, c': Catalog, listed: seq<Id>, g: nat, now: Time, o: Outcome) {
    && FreshGeneration(c.units, g)
    && match o
       case Aborted(k) => k <= |listed| && c' == Catalog(MarkAll(c.units, listed[..k], g, now), c.arts)
       case Degraded => IsDegraded(|listed|, |Live(c.units)|) && c' == Catalog(MarkAll(c.units, listed, g, now), c.arts)
       case Swept(queued) =>
         var marked := MarkAll(c.units, listed, g, now);
         && !IsDegraded(|listed|, |Live(c.units)|)
         && c'.units == Sweep(marked, g, now)
         && c'.arts == (if queued && Unseen(marked, g) != {} then MarkArts(c'.units, c.arts) else c.arts)
  }

  class CatalogStore {
    var units: Units
    var arts: Arts

    ghost function View(): Catalog
      reads this
    {
      Catalog(units, arts)
    }

    /** COALESCE(max(generation), 0) over the connection's units. */
    method MaxUnitGeneration() returns (m: nat)
      ensures forall id :: id in units ==> units[id].generation <= m
      ensures m == 0 || exists id :: id in units && units[id].generation == m
    {
      m := 0;
      var rest := units.Keys;
      while rest != {}
        invariant rest <= units.Keys
        invariant forall id :: id in units && id !in rest ==> units[id].generation <= m
        invariant m == 0 || exists id :: id in units && units[id].generation == m
        decreases |rest|
      {
        var id :| id in rest;
        if units[id].generation > m {
          m := units[id].generation;
        }
        rest := rest - {id};
      }
    }

    /**
     One discovery pass. `listed` is what the source answered; any statement may fail, which ends
     the pass where it stands. A pass that gets past its marks is refused exactly if the listing
     has less than half as many entries as there were live units, and otherwise sweeps; it queues
     unless it is cut there.
     */
    method DiscoverUnits(listed: seq<Id>, now: Time, cut: Cut) returns (o: Outcome, g: nat)
      modifies this
      ensures Pass(old(View()), View(), listed, g, now, o)
      ensures o == Aborted(0) || cut != AtStart
      ensures cut.AtMark? && cut.k < |listed| ==> o == Aborted(cut.k)
      ensures cut in {NoCut, AtSweep, AtQueue} || (cut.AtMark? && |listed| <= cut.k) ==>
        var short := 2 * |listed| < |set id | id in old(units) && old(units)[id].status != Removed|;
        && (o.Degraded? <==> short)
        && (!short ==> if cut == AtSweep then o == Aborted(|listed|) else o.Swept? && (cut != AtQueue ==> o.queued))
    {
      var lastKnownGood := |Live(units)|;
      assert Live(units) == set id | id in units && units[id].status != Removed;
      var top := MaxUnitGeneration();
      g := top + 1;
      if cut == AtStart {
        assert listed[..0] == [];
        return Aborted(0), g; // no client, or the source refused
      }
      for i := 0 to |listed|
        invariant units == MarkAll(old(units), listed[..i], g, now) && arts == old(arts)
        invariant cut.AtMark? ==> i <= cut.k
      {
        if cut == AtMark(i) {
          return Aborted(i), g;
        }
        assert listed[..i + 1][..i] == listed[..i];
        units := Mark(units, listed[i], g, now);
      }
      assert listed[..|listed|] == listed;
      var discovered := |listed|;
      var degraded := discovered == 0 && lastKnownGood > 0;
      if lastKnownGood > 0 && 2 * discovered < lastKnownGood {
        degraded := true;
      }
      if degraded {
        return Degraded, g;
      }
      if cut == AtSweep {
        return Aborted(|listed|), g; // the sweep failed
      }
      var swept := |Unseen(units, g)|;
      units := Sweep(units, g, now);
      if swept > 0 {
        if cut == AtQueue {
          return Swept(false), g; // a crash here, or a failed marking
        }
        arts := MarkArts(units, arts);
      }
      return Swept(true), g;
    }
  }

  /** What a pass does to one unit, exactly. */
  lemma PassOnUnit(c: Catalog, c': Catalog, listed: seq<Id>, g: nat, now: Time, o: Outcome, id: Id)
    requires Pass(c, c', listed, g, now, o)
    ensures id in c.units ==> id in c'.units
    ensures id in c'.units && c'.units[id].status == Removed <==>
      && id in c.units
      && (c.units[id].status == Removed || (o.Swept? && id !in listed))
    ensures id in c.units && id in c'.units && c'.units[id].status != Removed ==>
      c'.units[id].status == c.units[id].status
    ensures id in c.units ==> c'.units[id].selected == c.units[id].selected
    ensures id !in c.units && id in c'.units ==>
      id in listed && c'.units[id].status == Idle && !c'.units[id].selected
  {
    var seen := if o.Aborted? then listed[..o.marked] else listed;
    MarkAllMeaning(c.units, seen, g, now, id);
  }

  /**
   A pass that did not sweep changed no status and queued no artifact; one that swept listed at
   least half the live units, and one that was refused listed less than half of them.
   */
  lemma GuardHolds(c: Catalog, c': Catalog, listed: seq<Id>, g: nat, now: Time, o: Outcome)
    requires Pass(c, c', listed, g, now, o)
    ensures !o.Swept? ==>
      && c'.arts == c.arts
      && forall id :: id in c.units ==> id in c'.units && c'.units[id].status == c.units[id].status
    ensures o.Swept? ==> |Live(c.units)| <= 2 * |listed|
    ensures o.Degraded? ==> 2 * |listed| < |Live(c.units)|
  {
    forall id | id in c.units && !o.Swept? ensures id in c'.units && c'.units[id].status == c.units[id].status {
      PassOnUnit(c, c', listed, g, now, o, id);
    }
  }

  /**
   The live units after a sweep are the listed ones that were live or new: a re-listed tombstone
   is not among them.
   */
  lemma LiveAfterSweep(c: Catalog, c': Catalog, listed: seq<Id>, g: nat, now: Time, queued: bool)
    requires Pass(c, c', listed, g, now, Swept(queued))
    ensures Live(c'.units) == set id | id in listed && (id in c.units ==> c.units[id].status != Removed)
  {
    forall id ensures id in Live(c'.units) <==> id in listed && (id in c.units ==> c.units[id].status != Removed) {
      PassOnUnit(c, c', listed, g, now, Swept(queued), id);
      MarkAllMeaning(c.units, listed, g, now, id);
    }
  }

  /** The guard counts listed entries, not live units: a listing of old tombstones passes it and leaves nothing live. */
  lemma GuardIsNotLiveness()
    ensures exists c: Catalog, c': Catalog ::
      Pass(c, c', [0], 2, 0, Swept(true)) && Live(c.units) == {1} && Live(c'.units) == {}
  {
    var units := map[0 := UnitRow(Removed, true, 1, 0), 1 := UnitRow(Synced, true, 1, 0)];
    var c := Catalog(units, map[]);
    var listed := [0];
    var c' := Catalog(Sweep(MarkAll(units, listed, 2, 0), 2, 0), map[]);
    assert Live(units) == {1};
    assert Pass(c, c', listed, 2, 0, Swept(true)) by {
      assert MarkArts(c'.units, map[]) == map[];
    }
    LiveAfterSweep(c, c', listed, 2, 0, true);
  }

  // --- runs ---

  /** Everything that writes the modelled columns of the two tables, each event one statement or one pass. */
  datatype Event =
    | Discover(listed: seq<Id>, g: nat, now: Time, o: Outcome)
    | GC(now: Time)
    | Select(picked: set<Id>, now: Time)           // a saved selection touches every unit of the connection
    | Work(id: Id, status: Status, now: Time)      // a run starts or drains a unit and writes its row
    | Pull(a: Id, id: Id, now: Time)               // a drain of a unit writes an artifact's row
    | Disconnect(now: Time)                        // the user revokes the connection: every artifact is queued
    | Purge(rows: set<Id>, now: Time)              // the outbox drops rows of queued artifacts

  /**
   What each event may do. A run launches no removed unit, but a drain left over from an execution
   that failed may still write one that was removed since, and nothing guards its statements.
   */
  ghost predicate Next(c: Catalog, c': Catalog, e: Event) {
    match e
    case Discover(listed, g, now, o) => Pass(c, c', listed, g, now, o)
    case GC(now) => c' == c.(units := Collect(c.units, now))
    case Select(picked, now) => c' == c.(units := Selected(c.units, picked, now))
    case Work(id, status, now) =>
      && id in c.units && (status == Removed ==> c.units[id].status == Removed)
      && c' == c.(units := c.units[id := c.units[id].(status := status, touched := now)])
    case Pull(a, id, now) =>
      && id in c.units
      && c' == Catalog(c.units[id := c.units[id].(touched := now)],
        c.arts[a := ArtRow(id, a in c.arts && c.arts[a].purgePending)])
    case Disconnect(_) => c' == c.(arts := AllQueuedNow(c.arts))
    case Purge(rows, _) =>
      && (forall a :: a in rows ==> a in c.arts && c.arts[a].purgePending)
      && c' == c.(arts := c.arts - rows)
  }

  function Selected(units: Units, picked: set<Id>, now: Time): Units {
    map id | id in units :: units[id].(selected := id in picked, touched := now)
  }

  function AllQueuedNow(arts: Arts): Arts {
    map a | a in arts :: arts[a].(purgePending := true)
  }

  ghost predicate Run(t: seq<Catalog>, es: seq<Event>) {
    |t| == |es| + 1 && forall i :: 0 <= i < |es| ==> Next(t[i], t[i + 1], es[i])
  }

  ghost predicate Gone(c: Catalog, id: Id) {
    id in c.units && c.units[id].status == Removed
  }

  /**
   Mark-and-sweep safety over every run: a unit is tombstoned only by a pass that passed the
   guard and did not list it.
   */
  lemma {:induction false} TombstonedByHealthyPass(t: seq<Catalog>, es: seq<Event>, n: nat, id: Id) returns (k: nat)
    requires Run(t, es) && n < |t|
    requires !Gone(t[0], id) && Gone(t[n], id)
    ensures k < n && es[k].Discover? && es[k].o.Swept? && id !in es[k].listed
    ensures id in Live(t[k].units) && Gone(t[k + 1], id)
    ensures |Live(t[k].units)| <= 2 * |es[k].listed|
  {
    k := n - 1;
    assert Next(t[k], t[k + 1], es[k]);
    if Gone(t[k], id) {
      k := TombstonedByHealthyPass(t, es, n - 1, id);
    } else {
      var e := es[k];
      PassOnUnit(t[k], t[k + 1], e.listed, e.g, e.now, e.o, id);
      GuardHolds(t[k], t[k + 1], e.listed, e.g, e.now, e.o);
    }
  }

  /**
   After the last saved selection, a unit is selected if and only if it was picked there and has
   been in the table ever since: one that is found anew, or again after a collection, is not.
   */
  lemma {:induction false} SelectionIsLastSaved(t: seq<Catalog>, es: seq<Event>, k: nat, n: nat, id: Id)
    requires Run(t, es) && k < n < |t| && es[k].Select? && id in t[n].units
    requires forall m :: k < m < n ==> !es[m].Select?
    ensures t[n].units[id].selected <==> id in es[k].picked && forall m :: k < m <= n ==> id in t[m].units
  {
    var e := es[n - 1];
    assert Next(t[n - 1], t[n], e);
    if k < n - 1 {
      if id in t[n - 1].units {
        SelectionIsLastSaved(t, es, k, n - 1, id);
      }
      if e.Discover? {
        PassOnUnit(t[n - 1], t[n], e.listed, e.g, e.now, e.o, id);
      }
    }
  }

  /** A left-over drain gives a tombstone a live status again. */
  ghost predicate Revives(c: Catalog, e: Event, id: Id) {
    Gone(c, id) && e.Work? && e.id == id && e.status != Removed
  }

  /**
   A tombstone is final while the row exists: no pass that lists it, no selection that picks it
   and no new run revives it, only a left-over drain can. Otherwise it goes by collection, and
   only when it was not touched within the grace.
   */
  lemma {:induction false} TombstoneIsFinal(t: seq<Catalog>, es: seq<Event>, n: nat, id: Id)
    requires Run(t, es) && n < |t| && Gone(t[0], id)
    requires forall i :: 0 <= i < n && es[i].GC? && Gone(t[i], id) ==> es[i].now - GRACE <= t[i].units[id].touched
    ensures Gone(t[n], id) || exists k :: 0 <= k < n && Revives(t[k], es[k], id)
  {
    if n > 0 {
      TombstoneIsFinal(t, es, n - 1, id);
      var e := es[n - 1];
      assert Next(t[n - 1], t[n], e);
      if e.Discover? {
        PassOnUnit(t[n - 1], t[n], e.listed, e.g, e.now, e.o, id);
      }
      assert Gone(t[n - 1], id) && !Gone(t[n], id) ==> Revives(t[n - 1], e, id);
    }
  }

  /** A collection leaves every unit that is not a tombstone as it was. */
  lemma CollectionKeepsLive(c: Catalog, c': Catalog, now: Time, id: Id)
    requires Next(c, c', GC(now)) && id in c.units && c.units[id].status != Removed
    ensures id in c'.units && c'.units[id] == c.units[id] && c'.arts == c.arts
  {
  }

  /** Being listed refreshes a tombstone. */
  lemma ListingRefreshes(c: Catalog, c': Catalog, listed: seq<Id>, g: nat, now: Time, o: Outcome, id: Id)
    requires Pass(c, c', listed, g, now, o) && !o.Aborted? && id in listed
    ensures id in c'.units && c'.units[id].touched == now
  {
    MarkAllMeaning(c.units, listed, g, now, id);
  }

  /** The units an event marked: an aborted pass got only so far. */
  function Marked(e: Event): seq<Id> {
    match e
    case Discover(listed, _, _, o) => if o.Aborted? && o.marked <= |listed| then listed[..o.marked] else listed
    case _ => []
  }

  /** Events happen in the order of the clock, and the row's last touch lies before them. */
  ghost predicate Clocked(t: seq<Catalog>, es: seq<Event>, id: Id) {
    && |t| > 0 && id in t[0].units
    && (forall i, j :: 0 <= i < j < |es| ==> es[i].now <= es[j].now)
    && forall i :: 0 <= i < |es| ==> t[0].units[id].touched <= es[i].now
  }

  /** What moves a tombstone's age: a pass that marks it, every saved selection, and a left-over drain. */
  predicate Touches(e: Event, id: Id) {
    e.Select? || id in Marked(e) || ((e.Work? || e.Pull?) && e.id == id)
  }

  /** Something touched the tombstone at or after `cut`: it was made then, or an event since touches it. */
  ghost predicate TouchedSince(t: seq<Catalog>, es: seq<Event>, n: nat, id: Id, cut: Time)
    requires |t| > 0 && id in t[0].units && n <= |es|
  {
    cut <= t[0].units[id].touched || exists k :: 0 <= k < n && Touches(es[k], id) && cut <= es[k].now
  }

  lemma TouchedByStep(c: Catalog, c': Catalog, e: Event, id: Id)
    requires Next(c, c', e) && Gone(c, id) && Gone(c', id)
    ensures c'.units[id].touched == if Touches(e, id) then e.now else c.units[id].touched
  {
    if e.Discover? {
      MarkAllMeaning(c.units, Marked(e), e.g, e.now, id);
    }
  }

  lemma {:induction false} TouchedIff(t: seq<Catalog>, es: seq<Event>, n: nat, id: Id, cut: Time)
    requires Run(t, es) && Clocked(t, es, id) && n <= |es|
    requires Gone(t[n], id) && forall i :: 0 <= i < n ==> Gone(t[i], id)
    ensures cut <= t[n].units[id].touched <==> TouchedSince(t, es, n, id, cut)
  {
    if n > 0 {
      TouchedIff(t, es, n - 1, id, cut);
      assert Next(t[n - 1], t[n], es[n - 1]);
      TouchedByStep(t[n - 1], t[n], es[n - 1], id);
    }
  }

  /**
   When a tombstone is collected: a collection removes it exactly if, for the whole grace before,
   it was not made, no pass marked it, no selection was saved and no left-over drain wrote it. So
   listing it keeps it, and so does saving any selection of the connection's units.
   */
  lemma TombstoneCollectedIff(t: seq<Catalog>, es: seq<Event>, n: nat, id: Id)
    requires Run(t, es) && Clocked(t, es, id) && n < |es| && es[n].GC?
    requires forall i :: 0 <= i <= n ==> Gone(t[i], id)
    ensures id !in t[n + 1].units <==> !TouchedSince(t, es, n, id, es[n].now - GRACE)
  {
    TouchedIff(t, es, n, id, es[n].now - GRACE);
    assert Next(t[n], t[n + 1], es[n]);
  }

  /**
   A unit that came back and is listed, or otherwise touched, at least once per grace stays
   removed and is never collected, unless a left-over drain revives it.
   */
  lemma {:induction false} RelistedNeverCollected(t: seq<Catalog>, es: seq<Event>, n: nat, id: Id)
    requires Run(t, es) && Clocked(t, es, id) && n <= |es| && Gone(t[0], id)
    requires forall i :: 0 <= i < n && es[i].GC? ==> TouchedSince(t, es, i, id, es[i].now - GRACE)
    ensures (forall i :: 0 <= i <= n ==> Gone(t[i], id)) || exists k :: 0 <= k < n && Revives(t[k], es[k], id)
  {
    if n > 0 {
      RelistedNeverCollected(t, es, n - 1, id);
      if forall i :: 0 <= i <= n - 1 ==> Gone(t[i], id) {
        var c, c', e := t[n - 1], t[n], es[n - 1];
        assert Next(c, c', e);
        if e.Discover? {
          PassOnUnit(c, c', e.listed, e.g, e.now, e.o, id);
        } else if e.GC? {
          TombstoneCollectedIff(t, es, n - 1, id);
        }
        assert Gone(c', id) || Revives(c, e, id);
      }
    }
  }

  // --- artifacts of removed units ---

  /** Every artifact of a tombstoned unit is queued for erasure. */
  ghost predicate AllQueued(c: Catalog) {
    forall a :: a in c.arts && OfRemoved(c.units, c.arts[a]) ==> c.arts[a].purgePending
  }

  /** A pass queues an artifact only if its unit is tombstoned, and never takes one back. */
  lemma OnlyRemovedQueued(c: Catalog, c': Catalog, listed: seq<Id>, g: nat, now: Time, o: Outcome, a: Id)
    requires Pass(c, c', listed, g, now, o) && a in c.arts
    ensures a in c'.arts && c'.arts[a].container == c.arts[a].container
    ensures c.arts[a].purgePending ==> c'.arts[a].purgePending
    ensures c'.arts[a].purgePending && !c.arts[a].purgePending ==>
      o.Swept? && o.queued && OfRemoved(c'.units, c'.arts[a])
  {
  }

  /**
   A sweep that tombstones a unit and gets to mark the artifacts queues them all, including any
   an earlier pass left behind.
   */
  lemma SweepQueuesAll(c: Catalog, c': Catalog, listed: seq<Id>, g: nat, now: Time)
    requires Pass(c, c', listed, g, now, Swept(true))
    ensures Live(c.units) - Live(c'.units) != {} ==> AllQueued(c')
    ensures Live(c.units) <= Live(c'.units) ==> c'.arts == c.arts
  {
    forall id ensures id in Unseen(MarkAll(c.units, listed, g, now), g) <==>
      id in Live(c.units) && id !in Live(c'.units) {
      PassOnUnit(c, c', listed, g, now, Swept(true), id);
      MarkAllMeaning(c.units, listed, g, now, id);
    }
  }

  /**
   Marking is tied to a sweep that removes something: over every run an artifact left unqueued,
   say by a crash, is queued later only by a pass that tombstones some unit, or by a disconnect.
   */
  lemma {:induction false} QueuedOnlyBySweepOrDisconnect(t: seq<Catalog>, es: seq<Event>, n: nat, a: Id)
    returns (k: nat)
    requires Run(t, es) && n < |t|
    requires a in t[0].arts && !t[0].arts[a].purgePending
    requires a in t[n].arts && t[n].arts[a].purgePending
    ensures k < n
    ensures es[k].Disconnect? || (es[k].Discover? && es[k].o == Swept(true)
      && Live(t[k].units) - Live(t[k + 1].units) != {})
  {
    k := n - 1;
    var c, c', e := t[k], t[n], es[k];
    assert Next(c, c', e);
    if a in c.arts && c.arts[a].purgePending {
      k := QueuedOnlyBySweepOrDisconnect(t, es, k, a);
    } else if e.Discover? {
      OnlyRemovedQueued(c, c', e.listed, e.g, e.now, e.o, a);
      SweepQueuesAll(c, c', e.listed, e.g, e.now);
      var u :| u in Live(c.units) && u !in Live(c'.units);
      assert u in Live(c.units) - Live(c'.units);
    }
  }

  /** After a disconnect every artifact is queued, and stays so until the outbox drops it. */
  lemma {:induction false} DisconnectQueuesForGood(t: seq<Catalog>, es: seq<Event>, k: nat, n: nat, a: Id)
    requires Run(t, es) && k < n < |t| && es[k].Disconnect? && a in t[k].arts
    ensures (a in t[n].arts && t[n].arts[a].purgePending) || exists m :: k < m < n && es[m].Purge? && a in es[m].rows
  {
    var e := es[n - 1];
    assert Next(t[n - 1], t[n], e);
    if k < n - 1 {
      DisconnectQueuesForGood(t, es, k, n - 1, a);
      if e.Discover? && a in t[n - 1].arts {
        OnlyRemovedQueued(t[n - 1], t[n], e.listed, e.g, e.now, e.o, a);
      }
    }
  }

  /** An artifact row keeps its container unless a drain writes the row again. */
  lemma {:induction false} ContainerKept(t: seq<Catalog>, es: seq<Event>, n: nat, a: Id) returns (k: nat)
    requires Run(t, es) && n < |t| && a in t[0].arts && a in t[n].arts
    ensures t[n].arts[a].container == t[0].arts[a].container || (k < n && es[k].Pull? && es[k].a == a)
  {
    k := 0;
    if n > 0 {
      k := n - 1;
      var e := es[k];
      assert Next(t[k], t[n], e);
      if a in t[k].arts && !(e.Pull? && e.a == a) {
        if e.Discover? {
          OnlyRemovedQueued(t[k], t[n], e.listed, e.g, e.now, e.o, a);
        }
        k := ContainerKept(t, es, n - 1, a);
      }
    }
  }

  lemma {:induction false} AppearsByMarking(t: seq<Catalog>, es: seq<Event>, n: nat, id: Id) returns (k: nat)
    requires Run(t, es) && n < |t| && id !in t[0].units && id in t[n].units
    ensures k < n && id in Marked(es[k])
  {
    k := n - 1;
    assert Next(t[k], t[k + 1], es[k]);
    if id in t[k].units {
      k := AppearsByMarking(t, es, n - 1, id);
    } else if es[k].Discover? {
      MarkAllMeaning(t[k].units, Marked(es[k]), es[k].g, es[k].now, id);
    }
  }

  /** How an artifact whose unit has no row any more comes to be queued at step `k` or `m`. */
  predicate Reached(es: seq<Event>, a: Id, u: Id, k: nat, m: nat) {
    && k < |es|
    && (|| es[k].Disconnect?
        || (es[k].Pull? && es[k].a == a)
        || (u in Marked(es[k]) && k < m < |es| && es[m].Discover? && es[m].o.Swept? && u !in es[m].listed))
  }

  /**
   Once collection has dropped the unit's row, passes alone do not reach an unqueued artifact of
   it, whatever else they remove: it is queued only after a disconnect, after a drain has written
   the artifact again, or after one pass has marked the unit again and a later one tombstoned it.
   */
  lemma {:induction false} OrphanQueuedOnlyIf(t: seq<Catalog>, es: seq<Event>, n: nat, a: Id) returns (k: nat, m: nat)
    requires Run(t, es) && n < |t|
    requires a in t[0].arts && !t[0].arts[a].purgePending && t[0].arts[a].container !in t[0].units
    requires a in t[n].arts && t[n].arts[a].purgePending
    ensures k < n && Reached(es[..n], a, t[0].arts[a].container, k, m)
  {
    var i := n - 1;
    k, m := i, i;
    var e, u := es[i], t[0].arts[a].container;
    assert Next(t[i], t[n], e);
    if a in t[i].arts && t[i].arts[a].purgePending {
      k, m := OrphanQueuedOnlyIf(t, es, i, a);
      assert es[..n][..i] == es[..i];
    } else if e.Discover? {
      OnlyRemovedQueued(t[i], t[n], e.listed, e.g, e.now, e.o, a);
      k := ContainerKept(t, es, n, a);
      if t[n].arts[a].container == u {
        m := TombstonedByHealthyPass(t, es, n, u);
        k := AppearsByMarking(t, es, m, u);
      }
    }
  }

  /** A listing that passes the guard can always be swept. */
  lemma SweepPasses(c: Catalog, listed: seq<Id>, g: nat, now: Time, queued: bool) returns (c': Catalog)
    requires FreshGeneration(c.units, g) && !IsDegraded(|listed|, |Live(c.units)|)
    ensures Pass(c, c', listed, g, now, Swept(queued))
  {
    var marked := MarkAll(c.units, listed, g, now);
    var units := Sweep(marked, g, now);
    c' := Catalog(units, if queued && Unseen(marked, g) != {} then MarkArts(units, c.arts) else c.arts);
  }

  /** The same listing passes the guard again, with the next generation. */
  lemma SweepAgain(c: Catalog, c': Catalog, listed: seq<Id>, g: nat, now: Time, queued: bool)
    requires Pass(c, c', listed, g, now, Swept(queued)) && listed != []
    ensures FreshGeneration(c'.units, g + 1) && !IsDegraded(|listed|, |Live(c'.units)|)
  {
    forall id | id in c'.units ensures c'.units[id].generation < g + 1 {
      MarkAllMeaning(c.units, listed, g, now, id);
    }
    LiveAfterSweep(c, c', listed, g, now, queued);
    SubsetCount(Live(c'.units), Members(listed));
    MembersAtMost(listed);
  }

  /** A pass that sweeps a live unit away and stops before the marking. */
  lemma CrashedPass(c: Catalog, listed: seq<Id>, g: nat, now: Time, u: Id) returns (c': Catalog)
    requires FreshGeneration(c.units, g) && !IsDegraded(|listed|, |Live(c.units)|)
    requires u in Live(c.units) && u !in listed
    ensures Pass(c, c', listed, g, now, Swept(false)) && c'.arts == c.arts && listed != []
    ensures Gone(c', u) && c'.units[u].touched == now
  {
    c' := SweepPasses(c, listed, g, now, false);
    SubsetCount({u}, Live(c.units));
    MarkAllMeaning(c.units, listed, g, now, u);
  }

  /** The next healthy pass with the same listing tombstones nothing, so it queues nothing. */
  lemma QuietPass(c: Catalog, c': Catalog, listed: seq<Id>, g: nat, now: Time, u: Id) returns (c'': Catalog)
    requires Pass(c, c', listed, g, now, Swept(false)) && listed != [] && Gone(c', u) && u !in listed
    ensures Pass(c', c'', listed, g + 1, now, Swept(true)) && c''.arts == c'.arts
    ensures Gone(c'', u) && c''.units[u].touched == c'.units[u].touched
  {
    SweepAgain(c, c', listed, g, now, false);
    c'' := SweepPasses(c', listed, g + 1, now, true);
    assert Live(c'.units) <= Live(c''.units) by {
      LiveAfterSweep(c, c', listed, g, now, false);
      LiveAfterSweep(c', c'', listed, g + 1, now, true);
    }
    assert c''.arts == c'.arts by {
      SweepQueuesAll(c', c'', listed, g + 1, now);
    }
    PassOnUnit(c', c'', listed, g + 1, now, Swept(true), u);
    TouchedByStep(c', c'', Discover(listed, g + 1, now, Swept(true)), u);
  }

  /**
   How an artifact is left behind for good. Take any catalog, any listing that passes the guard
   and misses a live unit, and let the process stop between the sweep and the marking. A second,
   healthy pass with the same listing queues nothing, a collection after the grace drops the
   unit's row, and the artifact of the unit is still not queued.
   */
  lemma CrashLeavesArtifact(c: Catalog, listed: seq<Id>, g: nat, now: Time, a: Id)
    returns (t: seq<Catalog>, es: seq<Event>)
    requires FreshGeneration(c.units, g) && !IsDegraded(|listed|, |Live(c.units)|)
    requires a in c.arts && !c.arts[a].purgePending && c.arts[a].container in Live(c.units)
      && c.arts[a].container !in listed
    ensures es == [Discover(listed, g, now, Swept(false)), Discover(listed, g + 1, now, Swept(true)),
      GC(now + GRACE + 1)]
    ensures Run(t, es) && t[0] == c && Gone(t[2], c.arts[a].container)
    ensures c.arts[a].container !in t[3].units && t[3].arts == c.arts
  {
    var u := c.arts[a].container;
    var c1 := CrashedPass(c, listed, g, now, u);
    var c2 := QuietPass(c, c1, listed, g, now, u);
    var gc := GC(now + GRACE + 1);
    var c3 := c2.(units := Collect(c2.units, gc.now));
    es := [Discover(listed, g, now, Swept(false)), Discover(listed, g + 1, now, Swept(true)), gc];
    t := [c, c1, c2, c3];
    assert Next(c, c1, es[0]) && Next(c1, c2, es[1]) && Next(c2, c3, es[2]);
  }

  /** An instance: two units, one of them missing from the listing. */
  lemma ArtifactLeftBehind() returns (t: seq<Catalog>, es: seq<Event>)
    ensures Run(t, es) && |es| == 3 && 5 in t[0].arts && t[0].arts[5].container in Live(t[0].units)
    ensures 5 in t[3].arts && t[3].arts[5].container !in t[3].units && !t[3].arts[5].purgePending
  {
    var c := Catalog(map[0 := UnitRow(Synced, true, 1, 0), 1 := UnitRow(Synced, true, 1, 0)],
      map[5 := ArtRow(0, false)]);
    assert Live(c.units) == {0, 1};
    t, es := CrashLeavesArtifact(c, [1], 2, 1, 5);
  }
}
