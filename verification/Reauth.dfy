/**
 Why the status steps of RunControl come when they do. The steps are read off the driver's event
 logs and the workflow's life, in every way the drains' and the user's own steps may fall between
 them; that discovery and settle find an empty pool is then a theorem, and needs_reauth is sticky
 over whole lives.
 */
module Reauth {
  import opened Wrappers
  import opened ConnectionRun
  import opened RunControl
  import D = ConnectionDriver

  // --- runs of steps ---

  function Final(m: Machine, es: seq<Step>): Machine {
    if es == [] then m else Effect(Final(m, es[..|es| - 1]), es[|es| - 1])
  }

  /** A step that can happen and, if it reads the status, finds nothing in flight. */
  predicate Sound(m: Machine, e: Step) {
    Enabled(m, e) && (e == ReadStatus ==> m.pool == 0)
  }

  predicate AllSound(m: Machine, es: seq<Step>) {
    es == [] || (AllSound(m, es[..|es| - 1]) && Sound(Final(m, es[..|es| - 1]), es[|es| - 1]))
  }

  lemma {:induction false} Append(m: Machine, a: seq<Step>, b: seq<Step>)
    requires AllSound(m, a) && AllSound(Final(m, a), b)
    ensures AllSound(m, a + b) && Final(m, a + b) == Final(Final(m, a), b)
  {
    if b == [] {
      assert a + b == a;
    } else {
      var n := |b| - 1;
      Append(m, a, b[..n]);
      assert (a + b)[..|a| + n] == a + b[..n];
    }
  }

  lemma One(m: Machine, e: Step)
    requires Sound(m, e)
    ensures AllSound(m, [e]) && Final(m, [e]) == Effect(m, e)
  {
    assert [e][..0] == [];
    assert Final(m, []) == m && AllSound(m, []);
  }

  ghost function Trace(m: Machine, es: seq<Step>): (t: seq<Machine>)
    ensures |t| == |es| + 1 && forall i :: 0 <= i <= |es| ==> t[i] == Final(m, es[..i])
  {
    seq(|es| + 1, i requires 0 <= i <= |es| => Final(m, es[..i]))
  }

  lemma {:induction false} SoundAt(m: Machine, es: seq<Step>, i: nat)
    requires AllSound(m, es) && i < |es|
    ensures Sound(Final(m, es[..i]), es[i]) && Final(m, es[..i + 1]) == Effect(Final(m, es[..i]), es[i])
  {
    var n := |es| - 1;
    assert es[..i + 1][..i] == es[..i];
    if i < n {
      SoundAt(m, es[..n], i);
      assert es[..n][..i] == es[..i] && es[..n][..i + 1] == es[..i + 1];
    }
  }

  lemma TraceRuns(m: Machine, es: seq<Step>)
    requires AllSound(m, es)
    ensures Run(Trace(m, es), es) && forall n :: 0 <= n <= |es| ==> !Overlaps(Trace(m, es), es, n)
  {
    forall i | 0 <= i < |es| ensures Sound(Trace(m, es)[i], es[i])
      && Trace(m, es)[i + 1] == Effect(Trace(m, es)[i], es[i]) {
      SoundAt(m, es, i);
    }
  }

  // --- what falls between ---

  /** Nothing in flight and no status read but not yet written. */
  predicate Quiet(m: Machine) {
    m.pool == 0 && m.held.None?
  }

  /** Steps nobody schedules: the user's at any time, a drain's rejection while units are in flight. */
  predicate Between(es: seq<Step>, busy: bool) {
    forall i :: 0 <= i < |es| ==> es[i] == Step.Reconnect || es[i] == Step.Disconnect || (busy && es[i] == UnitRejected)
  }

  lemma {:induction false} BetweenRuns(m: Machine, es: seq<Step>, busy: bool)
    requires Between(es, busy) && (busy ==> m.pool > 0)
    ensures AllSound(m, es) && Final(m, es).pool == m.pool && Final(m, es).held == m.held
  {
    if es != [] {
      BetweenRuns(m, es[..|es| - 1], busy);
    }
  }

  predicate Closes(e: Step) {
    e.DiscoveryEnds? || e.DiscoveryRejected? || e.SettleEnds?
  }

  /** A status is read, anything may fall between, and it is written. */
  lemma HoldRuns(m: Machine, mid: seq<Step>, e: Step)
    requires Quiet(m) && Between(mid, false) && Closes(e)
    ensures AllSound(m, [ReadStatus] + mid + [e]) && Quiet(Final(m, [ReadStatus] + mid + [e]))
  {
    One(m, ReadStatus);
    var m1 := Effect(m, ReadStatus);
    BetweenRuns(m1, mid, false);
    Append(m, [ReadStatus], mid);
    var m2 := Final(m1, mid);
    One(m2, e);
    Append(m, [ReadStatus] + mid, [e]);
  }

  // --- an execution's log as steps ---

  /** How the free choices fall at one event: within a settle, its rollup, and after the event. */
  datatype Note = Note(mid: seq<Step>, rollup: ConnStatus, after: seq<Step>)

  function StepsOf(e: Event, n: Note): seq<Step> {
    match e
    case Launched(_) => [Launch]
    case Finished(_, _) => [UnitEnds]
    case Settled => [ReadStatus] + n.mid + [SettleEnds(n.rollup)]
    case _ => []
  }

  function Script(log: seq<Event>, ns: seq<Note>): seq<Step>
    requires |ns| == |log|
  {
    if log == [] then []
    else
      var k := |log| - 1;
      Script(log[..k], ns[..k]) + StepsOf(log[k], ns[k]) + ns[k].after
  }

  /** Rejections fall only where the log has units in flight. */
  ghost predicate Noted(log: seq<Event>, ns: seq<Note>) {
    && |ns| == |log|
    && forall i :: 0 <= i < |log| ==>
      Between(ns[i].mid, false) && Between(ns[i].after, Replay(log[..i + 1]).inFlight != {})
  }

  lemma NotedPrefix(log: seq<Event>, ns: seq<Note>)
    requires Noted(log, ns) && log != []
    ensures Noted(log[..|log| - 1], ns[..|log| - 1])
  {
    var k := |log| - 1;
    forall i | 0 <= i < k ensures Between(ns[..k][i].mid, false)
      && Between(ns[..k][i].after, Replay(log[..k][..i + 1]).inFlight != {}) {
      assert log[..k][..i + 1] == log[..i + 1];
    }
  }

  lemma EventRuns(m: Machine, s: Pool, e: Event, n: Note)
    requires LegalNext(s, e) && m.held.None? && m.pool == |s.inFlight| && Between(n.mid, false)
    ensures AllSound(m, StepsOf(e, n))
    ensures Final(m, StepsOf(e, n)).held.None? && Final(m, StepsOf(e, n)).pool == |Apply(s, e).inFlight|
  {
    match e {
      case Launched(id) => One(m, Launch);
      case Finished(id, _) =>
        assert s.inFlight == (s.inFlight - {id}) + {id};
        One(m, UnitEnds);
      case Settled => HoldRuns(m, n.mid, SettleEnds(n.rollup));
      case _ =>
    }
  }

  /** A legal log can be played: the machine's pool is the log's, and the status is read only when it is empty. */
  lemma {:induction false} ScriptRuns(m: Machine, log: seq<Event>, ns: seq<Note>)
    requires Legal(log) && Noted(log, ns) && Quiet(m)
    ensures AllSound(m, Script(log, ns))
    ensures Final(m, Script(log, ns)).held.None? && Final(m, Script(log, ns)).pool == |Replay(log).inFlight|
  {
    if log != [] {
      var k := |log| - 1;
      var a := Script(log[..k], ns[..k]);
      NotedPrefix(log, ns);
      ScriptRuns(m, log[..k], ns[..k]);
      var m1 := Final(m, a);
      EventRuns(m1, Replay(log[..k]), log[k], ns[k]);
      Append(m, a, StepsOf(log[k], ns[k]));
      var m2 := Final(m1, StepsOf(log[k], ns[k]));
      assert log[..k + 1] == log;
      BetweenRuns(m2, ns[k].after, Replay(log).inFlight != {});
      Append(m, a + StepsOf(log[k], ns[k]), ns[k].after);
    }
  }

  // --- a whole life ---

  /** A discovery, if one takes place: what falls between its read and its end. */
  datatype Look = NoLook | Look(mid: seq<Step>, end: Step)

  predicate LookOk(l: Look) {
    l.Look? ==> Between(l.mid, false) && (l.end.DiscoveryEnds? || l.end.DiscoveryRejected?)
  }

  function LookSteps(l: Look): seq<Step> {
    if l.NoLook? then [] else [ReadStatus] + l.mid + [l.end]
  }

  /**
   The choices at one happening of a life: whether a fresh run got to its start, its discovery,
   its log's notes, and the user's steps after it.
   */
  datatype Choice = Choice(begun: bool, look: Look, notes: seq<Note>, after: seq<Step>)

  ghost predicate Fits(h: D.Happening, c: Choice) {
    LookOk(c.look) && Between(c.after, false) && (h.Ran? ==> Noted(h.x.log, c.notes))
  }

  function HappeningSteps(h: D.Happening, c: Choice): seq<Step>
    requires h.Ran? ==> |c.notes| == |h.x.log|
  {
    (match h
     case Ran(x) =>
       (if !x.midRun && c.begun then [Begin] else []) + (if x.midRun then [] else LookSteps(c.look))
         + Script(x.log, c.notes)
     case Other => LookSteps(c.look)
     case _ => []) + c.after
  }

  ghost predicate Shaped(hs: seq<D.Happening>, cs: seq<Choice>) {
    |cs| == |hs| && forall i :: 0 <= i < |hs| && hs[i].Ran? ==> |cs[i].notes| == |hs[i].x.log|
  }

  ghost function LifeSteps(hs: seq<D.Happening>, cs: seq<Choice>): seq<Step>
    requires Shaped(hs, cs)
  {
    if hs == [] then [] else LifeSteps(hs[..|hs| - 1], cs[..|hs| - 1]) + HappeningSteps(hs[|hs| - 1], cs[|hs| - 1])
  }

  lemma LookRuns(m: Machine, l: Look)
    requires Quiet(m) && LookOk(l)
    ensures AllSound(m, LookSteps(l)) && Quiet(Final(m, LookSteps(l)))
  {
    if l.Look? {
      HoldRuns(m, l.mid, l.end);
    }
  }

  lemma StartRuns(m: Machine, begun: bool, l: Look)
    requires Quiet(m) && LookOk(l)
    ensures var es := (if begun then [Begin] else []) + LookSteps(l); AllSound(m, es) && Quiet(Final(m, es))
  {
    var a := if begun then [Begin] else [];
    if begun {
      One(m, Begin);
    }
    LookRuns(Final(m, a), l);
    Append(m, a, LookSteps(l));
  }

  /** One happening, from a quiet state: it can be played, and unless an execution failed it ends quiet again. */
  lemma HappeningRuns(m: Machine, h: D.Happening, c: Choice)
    requires Quiet(m) && Fits(h, c) && (h.Ran? ==> D.ExecOk(h.x))
    ensures AllSound(m, HappeningSteps(h, c))
    ensures !(h.Ran? && h.x.end.Failed?) ==> Quiet(Final(m, HappeningSteps(h, c)))
  {
    var body: seq<Step> := [];
    if h.Ran? {
      var start := if h.x.midRun then [] else (if c.begun then [Begin] else []) + LookSteps(c.look);
      if !h.x.midRun {
        StartRuns(m, c.begun, c.look);
      }
      ScriptRuns(Final(m, start), h.x.log, c.notes);
      Append(m, start, Script(h.x.log, c.notes));
      body := start + Script(h.x.log, c.notes);
      if !h.x.end.Failed? {
        D.CleanEndings(h.x);
      }
    } else if h.Other? {
      LookRuns(m, c.look);
      body := LookSteps(c.look);
    }
    assert HappeningSteps(h, c) == body + c.after;
    BetweenRuns(Final(m, body), c.after, false);
    Append(m, body, c.after);
  }

  /** No execution of the life failed, which would leave its drains in flight. */
  ghost predicate NoneFailed(hs: seq<D.Happening>) {
    forall i :: 0 <= i < |hs| && hs[i].Ran? ==> !hs[i].x.end.Failed?
  }

  /**
   Every life can be played, in every interleaving: whenever a discovery or a settle reads the
   status, no drain is in flight.
   */
  lemma {:induction false} LifeRuns(m: Machine, ps: seq<D.Phase>, hs: seq<D.Happening>, cs: seq<Choice>)
    requires Quiet(m) && D.Life(ps, hs) && Shaped(hs, cs) && AllFit(hs, cs)
    ensures AllSound(m, LifeSteps(hs, cs))
    ensures ps[|hs|] != D.Closed || NoneFailed(hs) ==> Quiet(Final(m, LifeSteps(hs, cs)))
  {
    if hs != [] {
      var n := |hs| - 1;
      var a, b := LifeSteps(hs[..n], cs[..n]), HappeningSteps(hs[n], cs[n]);
      LifePrefix(ps, hs, cs);
      LifeRuns(m, ps[..n + 1], hs[..n], cs[..n]);
      HappeningRuns(Final(m, a), hs[n], cs[n]);
      Append(m, a, b);
      assert LifeSteps(hs, cs) == a + b;
    }
  }

  /** Every happening's choices fit it, and every execution is one the driver guarantees. */
  ghost predicate AllFit(hs: seq<D.Happening>, cs: seq<Choice>) {
    |cs| == |hs| && forall i :: 0 <= i < |hs| ==> Fits(hs[i], cs[i]) && (hs[i].Ran? ==> D.ExecOk(hs[i].x))
  }

  /** All but the last happening of a life, which was not over before it; a failed execution ends it. */
  lemma LifePrefix(ps: seq<D.Phase>, hs: seq<D.Happening>, cs: seq<Choice>)
    requires D.Life(ps, hs) && Shaped(hs, cs) && AllFit(hs, cs) && hs != []
    ensures var n := |hs| - 1;
      && D.Life(ps[..n + 1], hs[..n]) && Shaped(hs[..n], cs[..n]) && AllFit(hs[..n], cs[..n]) && ps[n] != D.Closed
      && (hs[n].Ran? && hs[n].x.end.Failed? ==> ps[n + 1] == D.Closed && !NoneFailed(hs))
  {
    var n := |hs| - 1;
    assert D.Moves(ps[n], hs[n], ps[n + 1]);
    forall i | 0 <= i < n ensures D.Moves(ps[..n + 1][i], hs[..n][i], ps[..n + 1][i + 1]) {
      assert D.Moves(ps[i], hs[i], ps[i + 1]);
    }
  }

  // --- one life after the other ---

  /** A workflow's life with its choices, and the user's steps until the next one is started. */
  datatype Chapter = Chapter(ps: seq<D.Phase>, hs: seq<D.Happening>, cs: seq<Choice>, after: seq<Step>)

  ghost predicate ChapterOk(c: Chapter) {
    D.Life(c.ps, c.hs) && Shaped(c.hs, c.cs) && AllFit(c.hs, c.cs) && Between(c.after, false)
  }

  /** All but the last went without a failed execution. */
  ghost predicate Chronicle(book: seq<Chapter>) {
    && (forall i :: 0 <= i < |book| ==> ChapterOk(book[i]))
    && (forall i :: 0 <= i < |book| - 1 ==> NoneFailed(book[i].hs))
  }

  ghost function BookSteps(book: seq<Chapter>): seq<Step>
    requires forall i :: 0 <= i < |book| ==> ChapterOk(book[i])
  {
    if book == [] then []
    else
      var n := |book| - 1;
      assert ChapterOk(book[n]);
      BookSteps(book[..n]) + (LifeSteps(book[n].hs, book[n].cs) + book[n].after)
  }

  lemma ChapterRuns(m: Machine, c: Chapter)
    requires Quiet(m) && ChapterOk(c)
    ensures AllSound(m, LifeSteps(c.hs, c.cs) + c.after)
    ensures NoneFailed(c.hs) ==> Quiet(Final(m, LifeSteps(c.hs, c.cs) + c.after))
  {
    LifeRuns(m, c.ps, c.hs, c.cs);
    BetweenRuns(Final(m, LifeSteps(c.hs, c.cs)), c.after, false);
    Append(m, LifeSteps(c.hs, c.cs), c.after);
  }

  /** Lives one after the other can be played as well, as long as none but the last had an execution fail. */
  lemma {:induction false} BookRuns(m: Machine, book: seq<Chapter>)
    requires Quiet(m) && Chronicle(book)
    ensures AllSound(m, BookSteps(book))
    ensures (forall i :: 0 <= i < |book| ==> NoneFailed(book[i].hs)) ==> Quiet(Final(m, BookSteps(book)))
  {
    if book != [] {
      var n := |book| - 1;
      forall i | 0 <= i < n ensures NoneFailed(book[..n][i].hs) {
        assert NoneFailed(book[i].hs);
      }
      BookRuns(m, book[..n]);
      ChapterRuns(Final(m, BookSteps(book[..n])), book[n]);
      Append(m, BookSteps(book[..n]), LifeSteps(book[n].hs, book[n].cs) + book[n].after);
    }
  }

  /**
   Sticky needs_reauth over whole lives of the workflow, one after the other: wherever it is set,
   and however drains and user fall between, it stays until a step of the user's.
   */
  lemma NeedsReauthSticksForLife(m: Machine, book: seq<Chapter>, i: nat, j: nat)
    requires Quiet(m) && Chronicle(book)
    requires i <= j <= |BookSteps(book)| && Final(m, BookSteps(book)[..i]).status == NeedsReauth
    requires forall k :: i <= k < j ==> BookSteps(book)[k] != Step.Reconnect && BookSteps(book)[k] != Step.Disconnect
    ensures Final(m, BookSteps(book)[..j]).status == NeedsReauth
  {
    var es := BookSteps(book);
    BookRuns(m, book);
    TraceRuns(m, es);
    assert es[..0] == [];
    NeedsReauthIsSticky(Trace(m, es), es, i, j);
  }

  /**
   A failed execution is where it ends: it can leave a drain in flight, and the discovery of the
   workflow started next may then overwrite the needs_reauth that drain reports.
   */
  lemma RestartLosesReauth(status: ConnStatus)
    requires status != NeedsReauth
    ensures var m, es := Machine(status, 1, None), [ReadStatus, UnitRejected, DiscoveryEnds(true)];
      && Run(Trace(m, es), es) && Trace(m, es)[2].status == NeedsReauth && Trace(m, es)[3].status != NeedsReauth
  {
    var m, es := Machine(status, 1, None), [ReadStatus, UnitRejected, DiscoveryEnds(true)];
    assert es[..0] == [] && es[..1][..0] == [] && es[..2][..1] == es[..1] && es[..3][..2] == es[..2];
  }
}
