/** With zero tolerance and no `call_at` in the past, the two heaps and the open instant are one queue
    ordered by (deadline, priority, registration), and every wake is exactly at its deadline or overdue. */
module ZeroTolerance {
  import opened Times
  import opened Entries
  import opened ClockModel
  import opened Instants
  import opened Burst
  import C = Conservation

  /** No callback joined the open instant after its deadline. */
  predicate NoJoins(c: Clock) {
    c.anchor.Some? ==> forall x :: x in c.instant ==> x.deadline == c.anchor.value
  }

  function Queue(c: Clock): set<Entry> {
    LiveOf(c, c.heap) + LiveOf(c, c.instant)
  }

  /** The open instant is the part of the queue at the anchor. */
  lemma InstantOfQueue(c: Clock, p: Params)
    requires Driving(c, p) && NoJoins(c)
    ensures LiveOf(c, c.instant) == set x | x in Queue(c) && c.anchor == Some(x.deadline)
  {
    hide C.Conserved;
    ZeroCloseness(p);
    forall x | x in LiveOf(c, c.heap) ensures c.anchor != Some(x.deadline) {
      if c.anchor == Some(x.deadline) { assert false; }
    }
  }

  lemma FrozenLeast(c: Clock, f: Clock, p: Params)
    requires Driving(c, p) && NoJoins(c) && LiveOf(c, c.instant) != {} && c.anchor.Some? && Frozen(c, f, p)
    ensures Least(ByPriority, f.instant) == Least(ByDeadline, Queue(c)) && NoJoins(Pop(f))
    ensures Queue(Pop(f)) == Queue(c) - {Least(ByDeadline, Queue(c))}
  {
    hide C.Conserved;
    ZeroCloseness(p);
    var w := Least(ByPriority, f.instant);
    forall x | x in Queue(c) ensures !Less(ByDeadline, x, w) {
      if x in c.heap && Lt(x.deadline, c.anchor.value) {
        assert false;
      }
      if x in c.heap && x.deadline == c.anchor.value {
        InstantOfQueue(c, p);
      }
    }
    LeastUnique(ByDeadline, Queue(c), w);
    var g := Pop(f);
    assert LiveOf(g, g.heap) == LiveOf(c, c.heap);
    assert LiveOf(g, g.instant) == LiveOf(c, c.instant) - {w};
  }

  lemma OpenedLeast(c: Clock, f: Clock, p: Params)
    requires Driving(c, p) && LiveOf(c, c.instant) == {} && Opened(c, f, p)
    ensures Least(ByPriority, f.instant) == Least(ByDeadline, Queue(c)) && NoJoins(Pop(f))
    ensures f.anchor == Some(Least(ByDeadline, Queue(c)).deadline)
    ensures Queue(Pop(f)) == Queue(c) - {Least(ByDeadline, Queue(c))}
  {
    hide C.Conserved;
    ZeroCloseness(p);
    var w := Least(ByPriority, f.instant);
    var first := Least(ByDeadline, ReadyOf(c, p));
    assert w.deadline == first.deadline;
    forall x | x in Queue(c) ensures !Less(ByDeadline, x, w) {
      if Due(p, x) {
        assert x in ReadyOf(c, p) && !Less(ByDeadline, x, first);
        if x.deadline == w.deadline { assert x in f.instant; }
      }
    }
    LeastUnique(ByDeadline, Queue(c), w);
    var g := Pop(f);
    assert LiveOf(g, g.heap) == LiveOf(c, c.heap) - f.instant;
    assert LiveOf(g, g.instant) == f.instant - {w};
  }

  /** Every pop takes the least of the queue, if it is due; overdue entries wake at once, others on time. */
  lemma PopIsLeast(c: Clock, p: Params)
    requires Driving(c, p) && NoJoins(c)
    ensures var f := Find(c, p); var q := Queue(c);
      if f.instant == {} then forall x :: x in q ==> Lt(At(p.t), x.deadline)
      else
        var w := Least(ByPriority, f.instant);
        && q != {} && w == Least(ByDeadline, q) && Le(w.deadline, At(p.t))
        && f.now == Arrival(p, c.now, w.deadline) && f.anchor == Some(w.deadline)
        && f.nextSeq == c.nextSeq + (if c.anchor == Some(w.deadline) then 0 else 1)
        && Queue(Pop(f)) == q - {w} && NoJoins(Pop(f))
  {
    hide C.Conserved;
    FindForm(c, p);
    ZeroCloseness(p);
    InstantOfQueue(c, p);
    var f := Find(c, p);
    if LiveOf(c, c.instant) != {} {
      FrozenLeast(c, f, p);
      assert Least(ByPriority, f.instant) in LiveOf(c, c.instant);
    } else if ReadyOf(c, p) != {} {
      OpenedLeast(c, f, p);
      FindEqual(c, p);
      OpenedAnchor(c, f, p);
    } else {
      forall x | x in Queue(c) ensures Lt(At(p.t), x.deadline) {
        assert x !in ReadyOf(c, p);
      }
    }
  }

  lemma OpenedAnchor(c: Clock, f: Clock, p: Params)
    requires Driving(c, p) && NoJoins(c) && LiveOf(c, c.instant) == {} && Opened(c, f, p) && Equal(f)
    ensures c.anchor != f.anchor && f.now == Arrival(p, c.now, f.anchor.value)
  {
    hide C.Conserved;
    InstantOfQueue(c, p);
    OpenedLeast(c, f, p);
  }
}
