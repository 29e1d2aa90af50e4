/**
 The concurrent fold of one page of issues: comment fetches run on a bounded pool and land in
 per-index slots, so whatever order they finish in, the page comes out in listing order.
 */
module IssueFold {
  import opened SourceStream
  import opened Answers
  import opened Wrappers

  const COMMENT_CONCURRENCY: nat := 8

  datatype FoldResult = Folded(arts: seq<Item>) | Failed(why: Answer)

  lemma IssuesNext(raws: seq<Item>, i: nat)
    requires i < |raws|
    ensures Issues(raws[..i + 1]) == Issues(raws[..i]) + (if raws[i].pull then [] else [raws[i]])
  {
    assert raws[..i + 1][..i] == raws[..i];
  }

  /**
   The scheduler is arbitrary: at each turn the next fetch may start (never more than the limit at
   once), or any running fetch may end. Each decoded issue and each fetch takes the next of the
   given answers, until the first that is not fine. The page succeeds exactly when all of them
   are, and then it is the in-order list of the page's issues.
   */
  method FoldIssuePage(raws: seq<Item>, world: nat -> Answer, start: nat)
    returns (r: FoldResult, asked: nat, widest: nat)
    ensures r.Folded? <==> AllFine(world, start, start + |raws| + |Issues(raws)|)
    ensures r.Folded? ==> r.arts == Issues(raws) && asked == start + |raws| + |Issues(raws)|
    ensures r.Failed? ==> r.why != Fine && EndsWith(world, start, asked, r.why)
    ensures widest <= COMMENT_CONCURRENCY
  {
    asked, widest := start, 0;
    var items: seq<Item> := [];
    for i := 0 to |raws|
      invariant items == Issues(raws[..i]) && asked == start + i && AllFine(world, start, asked)
    {
      var decoded := world(asked);
      asked := asked + 1;
      if decoded != Fine {
        AllFineJoins(world, start, asked, start + |raws| + |Issues(raws)|);
        return Failed(decoded), asked, widest;
      }
      IssuesNext(raws, i);
      if !raws[i].pull {
        items := items + [raws[i]];
      }
    }
    assert raws[..|raws|] == raws;
    AllFineJoins(world, start, asked, asked + |items|);
    r, asked, widest := FoldComments(items, world, asked);
    AllFineJoins(world, start, start + |raws|, if r.Failed? then asked - 1 else asked);
  }

  /** The error group of one page: a fetch per issue, each landing in its own slot. */
  class Group {
    const items: seq<Item>
    const world: nat -> Answer
    const docs: array<Option<Bytes>>
    ghost const start: nat
    var running: set<nat>
    var launched: nat
    var widest: nat
    var asked: nat
    var why: Answer

    ghost predicate Valid()
      reads this, docs
    {
      && launched <= docs.Length == |items|
      && |running| <= widest <= COMMENT_CONCURRENCY
      && (forall i :: i in running ==> i < launched)
      && EndsWith(world, start, asked, why) && asked <= start + launched
      && (why == Fine ==> asked + |running| == start + launched && Landed())
    }

    /** Every fetch that was launched and has ended left its issue's document in its own slot. */
    ghost predicate Landed()
      requires launched <= docs.Length == |items|
      reads this, docs
    {
      forall i :: 0 <= i < launched && i !in running ==> docs[i] == Some(items[i].body)
    }

    constructor (items: seq<Item>, world: nat -> Answer, start: nat)
      ensures Valid() && this.items == items && this.world == world && this.start == start
      ensures fresh(docs) && running == {} && launched == 0 && why == Fine
    {
      this.items, this.world, this.start := items, world, start;
      docs := new Option<Bytes>[|items|](_ => None);
      running, launched, widest, asked, why := {}, 0, 0, start, Fine;
    }

    method Start()
      requires Valid() && launched < |items| && |running| < COMMENT_CONCURRENCY
      modifies this`running, this`launched, this`widest
      ensures Valid() && launched == old(launched) + 1
    {
      running := running + {launched};
      launched := launched + 1;
      widest := if widest < |running| then |running| else widest;
    }

    /** A fetch ends. After the first failure or a stop its outcome no longer counts. */
    method End(i: nat)
      requires Valid() && i in running
      modifies this`running, this`asked, this`why, docs
      ensures Valid() && running == old(running) - {i}
      ensures old(why) != Fine ==> why != Fine
    {
      if why == Fine {
        why := world(asked);
        asked := asked + 1;
        docs[i] := Some(items[i].body); // read only if every fetch goes well
      }
      running := running - {i};
    }
  }

  /** One comment fetch per issue. The launcher may notice a failure late, and what runs is waited for. */
  method FoldComments(items: seq<Item>, world: nat -> Answer, start: nat)
    returns (r: FoldResult, asked: nat, widest: nat)
    ensures r.Folded? <==> AllFine(world, start, start + |items|)
    ensures r.Folded? ==> r.arts == items && asked == start + |items|
    ensures r.Failed? ==> r.why != Fine && EndsWith(world, start, asked, r.why)
    ensures widest <= COMMENT_CONCURRENCY
  {
    var g := new Group(items, world, start);
    var launching := true;
    while launching || g.running != {}
      invariant g.Valid() && (!launching ==> g.launched == |items| || g.why != Fine)
      decreases launching, |items| - g.launched, |g.running|
    {
      var launchNow: bool := *; // the scheduler's choice
      if launching && (g.running == {} || (launchNow && |g.running| < COMMENT_CONCURRENCY)) {
        var noticed: bool := *; // the launch may already be blocked on the pool when the group is cancelled
        if g.launched == |items| || (noticed && g.why != Fine) {
          launching := false;
        } else {
          g.Start();
        }
      } else {
        var i :| i in g.running;
        g.End(i);
      }
    }
    if g.why != Fine {
      AllFineJoins(world, start, g.asked, start + |items|);
      return Failed(g.why), g.asked, g.widest;
    }
    var arts := Assemble(items, g.docs);
    return Folded(arts), g.asked, g.widest;
  }

  method Assemble(items: seq<Item>, docs: array<Option<Bytes>>) returns (arts: seq<Item>)
    requires docs.Length == |items| && forall i :: 0 <= i < |items| ==> docs[i] == Some(items[i].body)
    ensures arts == items
  {
    arts := [];
    for i := 0 to |items|
      invariant arts == items[..i]
    {
      arts := arts + [items[i].(body := docs[i].value)];
    }
  }
}
