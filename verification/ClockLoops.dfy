/** One turn of each loop over the heaps, against the declarative operation the whole loop performs. */
module ClockLoops {
  import opened Times
  import opened Entries
  import opened ClockModel

  /** The top of the heap set aside or dropped. */
  function Drop(c: Clock, w: Entry): Clock {
    c.(heap := c.heap - {w}, deferred := if Live(c, w) then c.deferred + {w} else c.deferred)
  }

  lemma SkimStep(c: Clock, p: Params, w: Entry)
    requires Distinct(c.heap) && IsLeast(ByDeadline, c.heap, w) && !Eligible(c, p, w)
    ensures Skim(Drop(c, w), p) == Skim(c, p) && Top(Drop(c, w), p) == Top(c, p)
  {
    var d := Drop(c, w);
    forall y | y in c.heap && Eligible(c, p, y) ensures Less(ByDeadline, w, y) {
      assert !Less(ByDeadline, y, w);
    }
    assert Junk(c, p, {}) == Junk(d, p, {}) + {w};
    assert LiveOf(c, Junk(c, p, {})) == LiveOf(c, Junk(d, p, {})) + LiveOf(c, {w});
    assert d.deferred == c.deferred + LiveOf(c, {w});
  }

  lemma SkimStop(c: Clock, p: Params, w: Entry)
    requires Distinct(c.heap) && IsLeast(ByDeadline, c.heap, w) && Eligible(c, p, w)
    ensures Skim(c, p) == c && Top(c, p) == if Due(p, w) then Some(w) else None
  {
    assert Junk(c, p, {}) == {};
    LeastUnique(ByDeadline, c.heap, w);
  }

  lemma SkimEmpty(c: Clock, p: Params)
    requires c.heap == {}
    ensures Skim(c, p) == c && Top(c, p) == None
  {
    assert Junk(c, p, {}) == {};
  }

  /** After skimming, the least entry of a nonempty heap is eligible. */
  lemma SkimLeast(c: Clock, p: Params)
    requires Distinct(c.heap) && Skim(c, p).heap != {}
    ensures Eligible(c, p, Least(ByDeadline, Skim(c, p).heap))
  {
    var h := Skim(c, p).heap;
    var w := Least(ByDeadline, h);
    if !Eligible(c, p, w) {
      forall y | y in c.heap && Eligible(c, p, y) && y !in {} ensures Less(ByDeadline, w, y) {
        assert y in h && !Less(ByDeadline, y, w);
      }
    }
  }

  /** What a skimmed heap's top says. */
  ghost predicate TopIs(c: Clock, p: Params, r: Option<Entry>) {
    if c.heap == {} then r == None
    else
      var w := Least(ByDeadline, c.heap);
      Eligible(c, p, w) && r == if Due(p, w) then Some(w) else None
  }

  // ----- gathering an instant -----

  ghost function Gathered(c: Clock, p: Params, a: Time): Clock {
    Assemble(c, Junk(c, p, Reach(c, p, a)), Joining(c, p, a))
  }

  ghost function Assemble(c: Clock, junk: set<Entry>, joining: set<Entry>): Clock {
    c.(heap := c.heap - junk - joining, deferred := c.deferred + LiveOf(c, junk),
       end := MaxTime(c.end, Latest(joining)), instant := c.instant + joining)
  }

  /** Gathering goes on from `c` while the entries in `later` wait outside the heap. */
  ghost function GatheredWith(c: Clock, p: Params, a: Time, later: set<Entry>): Clock {
    var g := Gathered(c, p, a);
    g.(heap := g.heap + later)
  }

  ghost function Pruned(c: Clock): Clock {
    c.(instant := c.instant - DeadTops(c, ByPriority, c.instant))
  }

  lemma CollectSplit(c: Clock, p: Params, a: Time)
    ensures Collect(c, p, a) == Pruned(Gathered(c, p, a))
  {
    var g := Gathered(c, p, a);
    assert DeadTops(g, ByPriority, g.instant) == DeadTops(c, ByPriority, g.instant);
  }

  /** Skimming first makes no difference. */
  lemma GatherSkim(c: Clock, p: Params, a: Time)
    ensures Gathered(Skim(c, p), p, a) == Gathered(c, p, a)
  {
    var d, r := Skim(c, p), Reach(c, p, a);
    assert Reach(d, p, a) == r;
    assert Joining(d, p, a) == Joining(c, p, a);
    var first, all, rest := Junk(c, p, {}), Junk(c, p, r), Junk(d, p, r);
    assert all == first + rest;
    assert LiveOf(c, all) == LiveOf(c, first) + LiveOf(c, rest);
    assert d.heap - rest - Joining(c, p, a) == c.heap - all - Joining(c, p, a);
  }

  lemma NothingReached(c: Clock, p: Params, a: Time)
    requires Distinct(c.heap) && exists r :: TopIs(c, p, r) && (r.Some? ==> !IsClose(r.value.deadline, a, p.tol))
    ensures Reach(c, p, a) == {} && Junk(c, p, {}) == {}
  {
    if c.heap != {} {
      var w := Least(ByDeadline, c.heap);
      forall x | x in c.heap ensures x !in Reach(c, p, a) {}
    }
  }

  /** The loop ends: the least entry is eligible but not due and close, or there is none. */
  lemma GatherStop(c: Clock, p: Params, a: Time)
    requires Distinct(c.heap) && exists r :: TopIs(c, p, r) && (r.Some? ==> !IsClose(r.value.deadline, a, p.tol))
    ensures Gathered(c, p, a) == c
  {
    hide Reach, Junk, TopIs;
    NothingReached(c, p, a);
    assert Joining(c, p, a) == {};
    assert LiveOf(c, {}) == {};
  }

  lemma ReachStep(c: Clock, p: Params, a: Time, w: Entry)
    requires Distinct(c.heap) && IsLeast(ByDeadline, c.heap, w) && Eligible(c, p, w)
    requires Due(p, w) && IsClose(w.deadline, a, p.tol)
    ensures var d := c.(heap := c.heap - {w});
      Reach(c, p, a) == Reach(d, p, a) + {w} && Junk(c, p, Reach(c, p, a)) == Junk(d, p, Reach(d, p, a))
  {
    var d := c.(heap := c.heap - {w});
    forall y | y in c.heap && Eligible(c, p, y) && !Less(ByDeadline, w, y) ensures y == w {
      assert !Less(ByDeadline, y, w);
    }
    assert w in Reach(c, p, a);
    forall x | x in c.heap && Eligible(c, p, x) && x != w ensures x in Reach(c, p, a) <==> x in Reach(d, p, a) {}
  }

  lemma LatestWith(s: set<Entry>, w: Entry, end: Time)
    requires w !in s
    ensures MaxTime(MaxTime(end, w.deadline), Latest(s)) == MaxTime(end, Latest(s + {w}))
  {
    LatestBounds(s);
    LatestBounds(s + {w});
    assert w in s + {w};
    var l :| IsLatest(s + {w}, l) && l.deadline == Latest(s + {w});
    if s != {} {
      var k :| IsLatest(s, k) && k.deadline == Latest(s);
      assert k in s + {w};
    }
  }

  lemma GatherJoin(c: Clock, p: Params, a: Time, w: Entry)
    requires Distinct(c.heap) && IsLeast(ByDeadline, c.heap, w) && Eligible(c, p, w) && w !in c.instant
    requires Due(p, w) && IsClose(w.deadline, a, p.tol) && w.seqno < c.instantSeq
    ensures var d := c.(heap := c.heap - {w}, instant := c.instant + {w}, end := MaxTime(c.end, w.deadline));
      Gathered(d, p, a) == Gathered(c, p, a)
  {
    var e := c.(heap := c.heap - {w});
    var d := e.(instant := c.instant + {w}, end := MaxTime(c.end, w.deadline));
    ReachStep(c, p, a, w);
    SameHeap(e, d, p, a);
    assert Joining(c, p, a) == Joining(e, p, a) + {w};
    AssembleJoin(c, Junk(d, p, Reach(d, p, a)), Joining(d, p, a), w);
  }

  lemma AssembleJoin(c: Clock, junk: set<Entry>, joining: set<Entry>, w: Entry)
    requires w !in joining
    ensures var d := c.(heap := c.heap - {w}, instant := c.instant + {w}, end := MaxTime(c.end, w.deadline));
      Assemble(d, junk, joining) == Assemble(c, junk, joining + {w})
  {
    var d := c.(heap := c.heap - {w}, instant := c.instant + {w}, end := MaxTime(c.end, w.deadline));
    LatestWith(joining, w, c.end);
    assert d.heap - junk - joining == c.heap - junk - (joining + {w});
    assert d.instant + joining == c.instant + (joining + {w});
  }

  lemma SameHeap(e: Clock, d: Clock, p: Params, a: Time)
    requires d.heap == e.heap && d.cancelled == e.cancelled && d.instantSeq == e.instantSeq
    ensures Reach(d, p, a) == Reach(e, p, a) && Joining(d, p, a) == Joining(e, p, a)
    ensures Junk(d, p, Reach(d, p, a)) == Junk(e, p, Reach(e, p, a))
  {
    assert Reach(d, p, a) == Reach(e, p, a);
    assert Junk(d, p, Reach(d, p, a)) == Junk(e, p, Reach(e, p, a));
  }

  lemma GatherLater(c: Clock, p: Params, a: Time, w: Entry)
    requires Distinct(c.heap) && IsLeast(ByDeadline, c.heap, w) && Eligible(c, p, w)
    requires Due(p, w) && IsClose(w.deadline, a, p.tol) && c.instantSeq <= w.seqno
    ensures var d := c.(heap := c.heap - {w});
      var g := Gathered(d, p, a); Gathered(c, p, a) == g.(heap := g.heap + {w})
  {
    var d := c.(heap := c.heap - {w});
    ReachStep(c, p, a, w);
    assert Joining(c, p, a) == Joining(d, p, a);
    assert w !in Junk(c, p, Reach(c, p, a));
    assert Gathered(c, p, a).heap == Gathered(d, p, a).heap + {w};
  }

  // ----- pruning cancelled tops -----

  lemma PruneStep(c: Clock, o: Order, s: set<Entry>, w: Entry)
    requires Distinct(s) && IsLeast(o, s, w) && !Live(c, w)
    ensures s - DeadTops(c, o, s) == (s - {w}) - DeadTops(c, o, s - {w})
  {
    forall y | y in s && Live(c, y) ensures Less(o, w, y) {
      assert !Less(o, y, w);
    }
    assert DeadTops(c, o, s) == DeadTops(c, o, s - {w}) + {w};
  }

  lemma PruneStop(c: Clock, o: Order, s: set<Entry>)
    requires s == {} || (Distinct(s) && Live(c, Least(o, s)))
    ensures DeadTops(c, o, s) == {}
  {
    if s != {} {
      var w := Least(o, s);
      forall x | x in s && !Live(c, x) ensures !Less(o, x, w) {}
    }
  }
}
