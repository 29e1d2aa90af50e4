/**
 The coalescing event broker, and the protocol between change notifications and watching streams:
 no interleaving loses a wake-up, although a subscriber's channel holds a single signal.
 */
module Broker {
  type Tenant = nat

  // --- the broker ---

  /** A channel of capacity one, made for one subscription. */
  class Signal {
    ghost const tenant: Tenant
    ghost const id: nat
    var pending: bool

    constructor (ghost tenant: Tenant, ghost id: nat)
      ensures !pending && this.tenant == tenant && this.id == id
    {
      this.tenant, this.id, pending := tenant, id, false;
    }
  }

  type Subs = map<Tenant, map<nat, Signal>>

  function Of(subs: Subs, t: Tenant): map<nat, Signal> {
    if t in subs then subs[t] else map[]
  }

  /** No tenant is kept without a subscriber. */
  ghost predicate NoEmpty(subs: Subs) {
    forall t :: t in subs ==> subs[t] != map[]
  }

  /** Every channel sits under its own tenant and id, so no two subscriptions share one. */
  ghost predicate Owned(subs: Subs, next: nat) {
    forall t, id :: t in subs && id in subs[t] ==> id < next && subs[t][id].tenant == t && subs[t][id].id == id
  }

  function Added(subs: Subs, t: Tenant, id: nat, ch: Signal): Subs {
    var chans: map<nat, Signal> := Of(subs, t)[id := ch];
    subs[t := chans]
  }

  function Dropped(subs: Subs, t: Tenant, id: nat): Subs {
    if t !in subs then subs
    else if subs[t] - {id} == map[] then subs - {t}
    else subs[t := subs[t] - {id}]
  }

  lemma AddedKeeps(subs: Subs, next: nat, t: Tenant, ch: Signal)
    requires NoEmpty(subs) && Owned(subs, next) && ch.tenant == t && ch.id == next
    ensures NoEmpty(Added(subs, t, next, ch)) && Owned(Added(subs, t, next, ch), next + 1)
  {
    var a := Added(subs, t, next, ch);
    assert next in a[t];
    assert forall u :: u in subs && u != t ==> a[u] == subs[u];
  }

  lemma DroppedKeeps(subs: Subs, next: nat, t: Tenant, id: nat)
    requires NoEmpty(subs) && Owned(subs, next)
    ensures NoEmpty(Dropped(subs, t, id)) && Owned(Dropped(subs, t, id), next)
  {
    var d := Dropped(subs, t, id);
    assert forall u :: u in subs && u != t ==> d[u] == subs[u];
  }

  /** A subscription taken adds its own channel and nothing else. */
  lemma OfAdded(subs: Subs, t: Tenant, id: nat, ch: Signal, u: Tenant, i: nat)
    ensures i in Of(Added(subs, t, id, ch), u) <==> (u == t && i == id) || i in Of(subs, u)
    ensures Of(Added(subs, t, id, ch), t)[id] == ch
    ensures (u != t || i != id) && i in Of(subs, u) ==> Of(Added(subs, t, id, ch), u)[i] == Of(subs, u)[i]
  {
  }

  /** A subscription given back takes its own channel and nothing else. */
  lemma OfDropped(subs: Subs, t: Tenant, id: nat, u: Tenant, i: nat)
    ensures i in Of(Dropped(subs, t, id), u) <==> i in Of(subs, u) && !(u == t && i == id)
    ensures i in Of(Dropped(subs, t, id), u) ==> Of(Dropped(subs, t, id), u)[i] == Of(subs, u)[i]
  {
    if t in subs && u == t && i in subs[t] && i != id {
      assert i in subs[t] - {id};
    }
  }

  datatype SubOp = Took(tenant: Tenant, id: nat, ch: Signal) | Gave(tenant: Tenant, id: nat)

  /** The table after any interleaving of subscriptions taken and given back. */
  function TableAfter(ops: seq<SubOp>): Subs {
    if ops == [] then map[]
    else
      var subs := TableAfter(ops[..|ops| - 1]);
      match ops[|ops| - 1]
      case Took(t, id, ch) => Added(subs, t, id, ch)
      case Gave(t, id) => Dropped(subs, t, id)
  }

  /** Subscription (t, id) was taken at step `k` with channel `ch`, and neither taken again nor given back since. */
  ghost predicate Stands(ops: seq<SubOp>, t: Tenant, id: nat, ch: Signal, k: nat) {
    && k < |ops| && ops[k] == Took(t, id, ch)
    && forall i :: k < i < |ops| ==> !(ops[i].tenant == t && ops[i].id == id)
  }

  /** Exactly the subscriptions taken and not given back are in the table, each with its own channel. */
  lemma {:induction false} TableIsStanding(ops: seq<SubOp>, t: Tenant, id: nat)
    ensures id in Of(TableAfter(ops), t) <==> exists ch, k :: Stands(ops, t, id, ch, k)
    ensures forall ch, k :: Stands(ops, t, id, ch, k) ==>
      id in Of(TableAfter(ops), t) && Of(TableAfter(ops), t)[id] == ch
  {
    if ops != [] {
      var n := |ops| - 1;
      var front, op := ops[..n], ops[n];
      TableIsStanding(front, t, id);
      if op.Took? {
        OfAdded(TableAfter(front), op.tenant, op.id, op.ch, t, id);
      } else {
        OfDropped(TableAfter(front), op.tenant, op.id, t, id);
      }
      if op.tenant == t && op.id == id {
        assert op.Took? ==> Stands(ops, t, id, op.ch, n);
      } else {
        forall ch, k ensures Stands(ops, t, id, ch, k) <==> Stands(front, t, id, ch, k) {
        }
      }
    }
  }

  /** Unsubscribing undoes subscribing, to the last map entry. */
  lemma DroppedUndoesAdded(subs: Subs, next: nat, t: Tenant, ch: Signal)
    requires NoEmpty(subs) && Owned(subs, next)
    ensures Dropped(Added(subs, t, next, ch), t, next) == subs
  {
    var a := Added(subs, t, next, ch);
    assert next !in Of(subs, t);
    assert a[t] - {next} == Of(subs, t);
    assert forall u :: u in subs && u != t ==> a[u] == subs[u];
  }

  class Hub {
    var next: nat
    var subs: Subs

    ghost predicate Valid()
      reads this
    {
      NoEmpty(subs) && Owned(subs, next)
    }

    constructor ()
      ensures Valid() && subs == map[]
    {
      next, subs := 0, map[];
    }

    /** A new channel under a new id; the pair (tenant, id) is what unsubscribing takes. */
    method Subscribe(tenant: Tenant) returns (ch: Signal, id: nat)
      requires Valid()
      modifies this
      ensures Valid() && fresh(ch) && !ch.pending && id == old(next)
      ensures subs == Added(old(subs), tenant, id, ch) && id in Of(subs, tenant) && Of(subs, tenant)[id] == ch
      ensures forall t, i :: (t != tenant || i != id) ==>
        (i in Of(subs, t) <==> i in Of(old(subs), t)) && (i in Of(subs, t) ==> Of(subs, t)[i] == Of(old(subs), t)[i])
    {
      id := next;
      next := next + 1;
      ch := new Signal(tenant, id);
      AddedKeeps(subs, id, tenant, ch);
      if tenant !in subs {
        subs := subs[tenant := map[]];
      }
      var chans: map<nat, Signal> := subs[tenant][id := ch];
      subs := subs[tenant := chans];
      assert subs == Added(old(subs), tenant, id, ch);
      forall t, i
        ensures i in Of(subs, t) <==> (t == tenant && i == id) || i in Of(old(subs), t)
        ensures (t != tenant || i != id) && i in Of(subs, t) ==> Of(subs, t)[i] == Of(old(subs), t)[i]
      {
        OfAdded(old(subs), tenant, id, ch, t, i);
      }
    }

    method Unsubscribe(tenant: Tenant, id: nat)
      requires Valid()
      modifies this`subs
      ensures Valid() && subs == Dropped(old(subs), tenant, id) && id !in Of(subs, tenant)
      ensures forall t, i :: (t != tenant || i != id) ==>
        (i in Of(subs, t) <==> i in Of(old(subs), t)) && (i in Of(subs, t) ==> Of(subs, t)[i] == Of(old(subs), t)[i])
    {
      DroppedKeeps(subs, next, tenant, id);
      if tenant in subs {
        subs := subs[tenant := subs[tenant] - {id}];
        if subs[tenant] == map[] {
          subs := subs - {tenant};
        }
      }
      assert subs == Dropped(old(subs), tenant, id);
      forall t, i
        ensures i in Of(subs, t) <==> i in Of(old(subs), t) && !(t == tenant && i == id)
        ensures i in Of(subs, t) ==> Of(subs, t)[i] == Of(old(subs), t)[i]
      {
        OfDropped(old(subs), tenant, id, t, i);
      }
    }

    /** Wake every subscriber of the tenant and nobody else, in any order. */
    method Publish(tenant: Tenant)
      requires Valid()
      modifies Of(subs, tenant).Values
      ensures forall id :: id in Of(subs, tenant) ==> Of(subs, tenant)[id].pending
      ensures forall t, id :: t != tenant && id in Of(subs, t) ==>
        Of(subs, t)[id].pending == old(Of(subs, t)[id].pending)
    {
      var chans := Of(subs, tenant);
      var todo := chans.Keys;
      while todo != {}
        invariant todo <= chans.Keys
        invariant forall id :: id in chans && id !in todo ==> chans[id].pending
        invariant forall t, id :: t != tenant && id in Of(subs, t) ==>
          Of(subs, t)[id].pending == old(Of(subs, t)[id].pending)
      {
        var id :| id in todo;
        if !chans[id].pending {
          chans[id].pending := true;
        }
        todo := todo - {id};
      }
    }
  }

  // --- the protocol ---

  type Version = nat
  type Watcher = nat

  /** Where a stream is: about to list, about to send what it listed, waiting for a signal, or on its way out. */
  datatype Phase = Reading | Sending(listed: Version) | Waiting | Leaving

  datatype Stream = Stream(tenant: Tenant, phase: Phase, pending: bool, sent: Version)

  /** A publication under way: it holds the broker's lock and has still to signal `todo`. */
  datatype Publication = Idle | Publishing(tenant: Tenant, change: Version, todo: set<Watcher>)

  /**
   `version` counts the changes committed for a tenant, `published` is the latest one whose
   publication is over. Receiving needs no lock, so streams move while a publication is under way.
   */
  datatype Sys = Sys(
    version: map<Tenant, Version>, published: map<Tenant, Version>, streams: map<Watcher, Stream>, lock: Publication)

  function At(m: map<Tenant, Version>, t: Tenant): Version {
    if t in m then m[t] else 0
  }

  datatype Step =
    | Commit(tenant: Tenant)
    | Begin(tenant: Tenant, change: Version)
    | Wake(w: Watcher)
    | End
    | Join(w: Watcher, tenant: Tenant)
    | List(w: Watcher)
    | Send(w: Watcher)
    | Receive(w: Watcher)
    | Fail(w: Watcher)
    | Leave(w: Watcher)

  predicate Enabled(s: Sys, e: Step) {
    match e
    case Commit(_) => true
    case Begin(t, v) => s.lock.Idle? && v <= At(s.version, t)
    case Wake(w) => s.lock.Publishing? && w in s.lock.todo && w in s.streams
    case End => s.lock.Publishing? && s.lock.todo == {}
    case Join(w, t) => s.lock.Idle? && w !in s.streams
    case List(w) => w in s.streams && s.streams[w].phase.Reading?
    case Send(w) => w in s.streams && s.streams[w].phase.Sending?
    case Receive(w) => w in s.streams && s.streams[w].phase.Waiting? && s.streams[w].pending
    case Fail(w) => w in s.streams
    case Leave(w) => s.lock.Idle? && w in s.streams && s.streams[w].phase.Leaving?
  }

  function Max(a: Version, b: Version): Version {
    if a < b then b else a
  }

  function Effect(s: Sys, e: Step): Sys
    requires Enabled(s, e)
  {
    match e
    case Commit(t) => s.(version := s.version[t := At(s.version, t) + 1])
    case Begin(t, v) => s.(lock := Publishing(t, v, set w | w in s.streams && s.streams[w].tenant == t))
    case Wake(w) =>
      s.(streams := s.streams[w := s.streams[w].(pending := true)], lock := s.lock.(todo := s.lock.todo - {w}))
    case End =>
      s.(published := s.published[s.lock.tenant := Max(At(s.published, s.lock.tenant), s.lock.change)], lock := Idle)
    case Join(w, t) => s.(streams := s.streams[w := Stream(t, Reading, false, 0)])
    case List(w) => s.(streams := s.streams[w := s.streams[w].(phase := Sending(At(s.version, s.streams[w].tenant)))])
    case Send(w) => s.(streams := s.streams[w := s.streams[w].(phase := Waiting, sent := s.streams[w].phase.listed)])
    case Receive(w) => s.(streams := s.streams[w := s.streams[w].(phase := Reading, pending := false)])
    case Fail(w) => s.(streams := s.streams[w := s.streams[w].(phase := Leaving)])
    case Leave(w) => s.(streams := s.streams - {w})
  }

  ghost predicate Run(t: seq<Sys>, es: seq<Step>) {
    && |t| == |es| + 1 && t[0] == Sys(map[], map[], map[], Idle)
    && forall i :: 0 <= i < |es| ==> Enabled(t[i], es[i]) && t[i + 1] == Effect(t[i], es[i])
  }

  /** The stream has sent the change, is about to, or will list again before it waits. */
  predicate Covered(s: Stream, v: Version) {
    || s.pending || s.phase.Reading? || s.phase.Leaving?
    || (s.phase.Sending? && v <= s.phase.listed)
    || (s.phase.Waiting? && v <= s.sent)
  }

  ghost predicate Inv(s: Sys) {
    && (forall t :: t in s.published ==> s.published[t] <= At(s.version, t))
    && (forall w :: w in s.streams ==> Covered(s.streams[w], At(s.published, s.streams[w].tenant)))
    && (s.lock.Publishing? ==>
      && s.lock.change <= At(s.version, s.lock.tenant)
      && (forall w :: w in s.lock.todo ==> w in s.streams && s.streams[w].tenant == s.lock.tenant)
      && (forall w :: w in s.streams && s.streams[w].tenant == s.lock.tenant && w !in s.lock.todo ==>
            Covered(s.streams[w], s.lock.change)))
  }

  predicate OfStream(e: Step) {
    e.Join? || e.List? || e.Send? || e.Receive? || e.Fail? || e.Leave?
  }

  lemma StreamStepKeepsInv(s: Sys, e: Step)
    requires Inv(s) && Enabled(s, e) && OfStream(e)
    ensures Inv(Effect(s, e))
  {
  }

  lemma PublishStepKeepsInv(s: Sys, e: Step)
    requires Inv(s) && Enabled(s, e) && !OfStream(e)
    ensures Inv(Effect(s, e))
  {
  }

  lemma StepKeepsInv(s: Sys, e: Step)
    requires Inv(s) && Enabled(s, e)
    ensures Inv(Effect(s, e))
  {
    if OfStream(e) {
      StreamStepKeepsInv(s, e);
    } else {
      PublishStepKeepsInv(s, e);
    }
  }

  lemma StepPublishes(s: Sys, e: Step, t: Tenant)
    requires Enabled(s, e)
    ensures At(s.published, t) <= At(Effect(s, e).published, t)
  {
  }

  lemma {:induction false} RunKeepsInv(t: seq<Sys>, es: seq<Step>, n: nat)
    requires Run(t, es) && n < |t|
    ensures Inv(t[n])
  {
    if n > 0 {
      RunKeepsInv(t, es, n - 1);
      StepKeepsInv(t[n - 1], es[n - 1]);
    }
  }

  lemma {:induction false} PublishedGrows(t: seq<Sys>, es: seq<Step>, k: nat, n: nat, tenant: Tenant)
    requires Run(t, es) && k <= n < |t|
    ensures At(t[k].published, tenant) <= At(t[n].published, tenant)
  {
    if k < n {
      PublishedGrows(t, es, k, n - 1, tenant);
      StepPublishes(t[n - 1], es[n - 1], tenant);
    }
  }

  /**
   No lost wake-up: after any interleaving, a stream waiting on an empty channel has sent a
   snapshot at least as new as every change whose publication to its tenant is over.
   */
  lemma NoLostWakeUp(t: seq<Sys>, es: seq<Step>, k: nat, n: nat, w: Watcher)
    requires Run(t, es) && k < n < |t| && es[k] == End
    requires w in t[n].streams && t[n].streams[w].phase == Waiting && !t[n].streams[w].pending
    requires t[k].lock.tenant == t[n].streams[w].tenant
    ensures t[k].lock.change <= t[n].streams[w].sent
  {
    RunKeepsInv(t, es, n);
    PublishedGrows(t, es, k + 1, n, t[k].lock.tenant);
    assert t[k + 1] == Effect(t[k], es[k]);
  }

  /**
   The publication is what the guarantee hangs on: a committed change whose notification is missed
   leaves a waiting stream behind, until a later change is published.
   */
  lemma MissedNotificationDelays() returns (t: seq<Sys>, es: seq<Step>)
    ensures Run(t, es) && 0 in t[|es|].streams
    ensures var s := t[|es|].streams[0]; s.phase == Waiting && !s.pending && s.sent < At(t[|es|].version, s.tenant)
  {
    es := [Join(0, 7), List(0), Send(0), Commit(7)];
    var s0 := Sys(map[], map[], map[], Idle);
    var s1 := Effect(s0, es[0]);
    var s2 := Effect(s1, es[1]);
    var s3 := Effect(s2, es[2]);
    t := [s0, s1, s2, s3, Effect(s3, es[3])];
  }

  // --- what a burst costs ---

  /** The steps a stream takes by itself until it waits on an empty channel. */
  function Owed(s: Sys, w: Watcher): nat {
    if w !in s.streams then 0 else
      (match s.streams[w].phase case Reading => 2 case Sending(_) => 1 case Waiting => 0 case Leaving => 0) +
      (if s.streams[w].pending then 3 else 0)
  }

  predicate Own(e: Step, w: Watcher) {
    e == List(w) || e == Send(w) || e == Receive(w)
  }

  /** Own steps taken so far. */
  function Taken(es: seq<Step>, n: nat, w: Watcher): nat
    requires n <= |es|
  {
    if n == 0 then 0 else Taken(es, n - 1, w) + (if Own(es[n - 1], w) then 1 else 0)
  }

  /**
   What a step makes the stream do: two steps for joining, three for a signal into an empty
   channel, none for one into a full channel.
   */
  function Cost(s: Sys, e: Step, w: Watcher): nat
    requires Enabled(s, e)
  {
    if e.Join? && e.w == w then 2 else if e == Wake(w) && !s.streams[w].pending then 3 else 0
  }

  ghost function Caused(t: seq<Sys>, es: seq<Step>, n: nat, w: Watcher): nat
    requires Run(t, es) && n <= |es|
  {
    if n == 0 then 0 else Caused(t, es, n - 1, w) + Cost(t[n - 1], es[n - 1], w)
  }

  lemma StepOwes(s: Sys, e: Step, w: Watcher)
    requires Enabled(s, e)
    ensures var own := if Own(e, w) then 1 else 0;
      && own + Owed(Effect(s, e), w) <= Owed(s, w) + Cost(s, e, w)
      && (e != Fail(w) && (w in s.streams ==> !s.streams[w].phase.Leaving?) ==>
            own + Owed(Effect(s, e), w) == Owed(s, w) + Cost(s, e, w))
  {
  }

  /**
   Signals coalesce: a stream never takes more steps than its joins and the signals that found
   its channel empty call for, and until it leaves it owes exactly the rest.
   */
  lemma {:induction false} BurstsCoalesce(t: seq<Sys>, es: seq<Step>, n: nat, w: Watcher)
    requires Run(t, es) && n <= |es|
    ensures Taken(es, n, w) + Owed(t[n], w) <= Caused(t, es, n, w)
    ensures (forall i :: 0 <= i < n ==> es[i] != Fail(w)) ==> Taken(es, n, w) + Owed(t[n], w) == Caused(t, es, n, w)
  {
    if n > 0 {
      BurstsCoalesce(t, es, n - 1, w);
      StepOwes(t[n - 1], es[n - 1], w);
      if forall i :: 0 <= i < n ==> es[i] != Fail(w) {
        NotLeaving(t, es, n - 1, w);
      }
    }
  }

  lemma {:induction false} NotLeaving(t: seq<Sys>, es: seq<Step>, n: nat, w: Watcher)
    requires Run(t, es) && n <= |es| && forall i :: 0 <= i < n ==> es[i] != Fail(w)
    ensures w in t[n].streams ==> !t[n].streams[w].phase.Leaving?
  {
    if n > 0 {
      NotLeaving(t, es, n - 1, w);
      assert t[n] == Effect(t[n - 1], es[n - 1]);
    }
  }
}
