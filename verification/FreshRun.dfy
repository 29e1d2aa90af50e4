/**
 Driver and drain together: what a run that settles has stored. The driver says which units
 were launched and how they ended; the drain says what a call that ends synced has stored.
 */
module FreshRun {
  import opened SourceStream
  import opened Drain
  import opened Connectors
  import opened ConnectionRun
  import opened ConnectionDriver

  /** One attempt at draining a unit: the source it saw, and the unit's rows and status before and after. */
  datatype Call = Call(src: Source, d: Db, st: Status, d': Db, st': Status)

  /**
   The attempts made on one unit, retries included. Between them the source moves and rows may be
   hidden or shown; nothing else writes the unit while its run lasts.
   */
  ghost predicate Attempts(h: Bytes -> Hash, cs: seq<Call>) {
    && (forall i :: 0 <= i < |cs| ==> CallOutcome(h, cs[i].src.items, cs[i].d, cs[i].st, cs[i].d', cs[i].st'))
    && (forall i :: 0 <= i < |cs| - 1 ==> Succeeds(cs[i], cs[i + 1]))
  }

  ghost predicate Succeeds(a: Call, b: Call) {
    SourceMoves(a.src, b.src) && b.d == a.d'.(deleted := b.d.deleted) && b.st == a.st'
  }

  lemma HidingKeeps(h: Bytes -> Hash, items: seq<Item>, d: Db, d': Db)
    requires d' == d.(deleted := d'.deleted)
    ensures Complete(h, items, d) ==> Complete(h, items, d')
    ensures Backed(h, d) ==> Backed(h, d')
    ensures Gapless(h, items, d) ==> Gapless(h, items, d')
  {
    assert forall it :: Stored(h, d, it) ==> Stored(h, d', it);
  }

  lemma AttemptKeepsInv(h: Bytes -> Hash, c: Call)
    requires CallOutcome(h, c.src.items, c.d, c.st, c.d', c.st') && Inv(h, State(c.src, c.d))
    ensures Inv(h, State(c.src, c.d'))
  {
    if Moved(h, c.src.items, c.d, c.d', false) {
      var n: nat :| Drained(h, c.src.items, c.d, c.d', n, false);
      CallKeepsInv(h, State(c.src, c.d), c.d', n, false);
    } else {
      var n: nat :| Drained(h, c.src.items, c.d, c.d', n, true);
      CallKeepsInv(h, State(c.src, c.d), c.d', n, true);
    }
  }

  lemma {:induction false} AttemptsKeepInv(h: Bytes -> Hash, cs: seq<Call>, n: nat)
    requires Attempts(h, cs) && n < |cs| && Inv(h, State(cs[0].src, cs[0].d))
    ensures Inv(h, State(cs[n].src, cs[n].d))
  {
    if n > 0 {
      AttemptsKeepInv(h, cs, n - 1);
      AttemptKeepsInv(h, cs[n - 1]);
      assert Succeeds(cs[n - 1], cs[n]);
      SourceKeepsInv(h, State(cs[n - 1].src, cs[n - 1].d'), cs[n].src);
      HidingKeeps(h, cs[n].src.items, cs[n - 1].d', cs[n].d);
    }
  }

  lemma FullCallIsComplete(h: Bytes -> Hash, c: Call)
    requires Inv(h, State(c.src, c.d)) && Moved(h, c.src.items, c.d, c.d', true)
    ensures Complete(h, c.src.items, c.d')
  {
    var n: nat :| Drained(h, c.src.items, c.d, c.d', n, true);
    DoneIsComplete(h, State(c.src, c.d), c.d', n);
  }

  /** An attempt that ends synced drained in full, or found the unit synced and did nothing. */
  ghost predicate DidAll(h: Bytes -> Hash, c: Call) {
    c.d'.committed && Moved(h, c.src.items, c.d, c.d', true)
  }

  /**
   A unit that was not synced and ends synced was drained in full by one of its attempts, and is
   complete for the source that attempt saw; later attempts did nothing to it.
   */
  lemma {:induction false} SyncedIsComplete(h: Bytes -> Hash, cs: seq<Call>, n: nat) returns (j: nat)
    requires Attempts(h, cs) && n < |cs| && Inv(h, State(cs[0].src, cs[0].d))
    requires cs[0].st != Synced && cs[n].st' == Synced
    ensures j <= n && Complete(h, cs[j].src.items, cs[n].d') && cs[n].d'.committed
    ensures forall k :: j < k <= n ==> cs[k].d' == cs[k].d && cs[k].st == Synced
  {
    j := n;
    if DidAll(h, cs[n]) {
      AttemptsKeepInv(h, cs, n);
      FullCallIsComplete(h, cs[n]);
    } else {
      assert cs[n].d' == cs[n].d && cs[n].st == Synced;
      assert Succeeds(cs[n - 1], cs[n]);
      j := SyncedIsComplete(h, cs, n - 1);
      HidingKeeps(h, cs[j].src.items, cs[n - 1].d', cs[n].d);
    }
  }

  /**
   The attempts fit the run: there is one if some execution launched the unit, the first finds it
   as the run began with it, the last leaves it as the run does.
   */
  ghost predicate Fits(xs: seq<Exec>, id: Id, cs: seq<Call>) {
    && xs != [] && id in xs[0].before && id in xs[|xs| - 1].after
    && ((exists i :: 0 <= i < |xs| && Launched(id) in xs[i].log) ==> cs != [])
    && (cs != [] ==>
      && cs[0].st == Begun(xs[0].midRun, xs[0].before)[id].status
      && cs[|cs| - 1].st' == xs[|xs| - 1].after[id].status)
  }

  /**
   What a run achieves, hand-overs included: when it settles without a stop, every unit that was
   selected when it began, and is selected, due and not tombstoned at the end, is in error or
   holds everything its source had when one of the run's attempts read it, and is committed.
   */
  lemma RunStores(h: Bytes -> Hash, xs: seq<Exec>, id: Id, cs: seq<Call>) returns (j: nat)
    requires IsRun(xs) && xs != [] && !xs[0].midRun
    requires Settles(xs[|xs| - 1].end) && !Replay(xs[|xs| - 1].log).sig.stopped
    requires Fits(xs, id, cs) && xs[0].before[id].selected
    requires var r := xs[|xs| - 1].after[id]; r.selected && r.retryDue && r.status != Removed
    requires Attempts(h, cs) && (cs != [] ==> Inv(h, State(cs[0].src, cs[0].d)))
    ensures cs != []
    ensures var st := xs[|xs| - 1].after[id].status;
      || st == Errored
      || (st == Synced && j < |cs| && Complete(h, cs[j].src.items, cs[|cs| - 1].d') && cs[|cs| - 1].d'.committed)
  {
    var i := RunRechecks(xs, id);
    j := 0;
    if xs[|xs| - 1].after[id].status == Synced {
      j := SyncedIsComplete(h, cs, |cs| - 1);
    }
  }
}
