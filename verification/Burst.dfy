/** With zero tolerance, stopping on the way changes nothing: an advance to `a` and then to `b` is one
    advance to `b`, wake for wake, for any clients that act only in reaction to wakes. */
module Burst {
  import opened Times
  import opened Entries
  import opened ClockModel
  import opened Instants
  import opened Runs
  import opened Drives
  import C = Conservation
  import P = Promptness

  predicate Zero(p: Params) {
    p.tol == ZERO_TOLERANCE
  }

  /** An instant of equal deadlines, already reached. */
  predicate Equal(c: Clock) {
    c.anchor.Some? ==> c.end == c.anchor.value && Le(c.end, At(c.now))
  }

  lemma ZeroRegular()
    ensures Regular(ZERO_TOLERANCE)
  {
    RegularIff(ZERO_TOLERANCE);
  }

  lemma ZeroCloseness(p: Params)
    requires Zero(p)
    ensures forall d: Time :: Near(d, p.t, p.tol) ==> Le(d, At(p.t))
    ensures forall d: Time, e: Time :: IsClose(d, e, p.tol) <==> d == e
    ensures forall x: Entry :: !Blocked(p, x) && (Due(p, x) <==> Le(x.deadline, At(p.t)))
  {
    forall d: Time, e: Time ensures IsClose(d, e, p.tol) <==> d == e {
      if d.At? && e.At? { assert Slack(d.r, e.r, p.tol) == 0.0; }
    }
    forall d: Time | Near(d, p.t, p.tol) ensures Le(d, At(p.t)) {
      assert Slack(d.r, p.t, p.tol) == 0.0;
    }
  }

  lemma FindEqual(c: Clock, p: Params)
    requires Phase(c, p) && Zero(p) && Equal(c)
    ensures Equal(Find(c, p))
  {
    FindForm(c, p);
    ZeroCloseness(p);
    LatestBounds(Find(c, p).instant);
  }

  lemma SkimTarget(c: Clock, p: Params, q: Params)
    requires Zero(p) && Zero(q)
    ensures Skim(c, p) == Skim(c, q)
  {
    ZeroCloseness(p);
    ZeroCloseness(q);
    assert Junk(c, p, {}) == Junk(c, q, {});
  }

  lemma CollectTarget(c: Clock, p: Params, q: Params, a: Time)
    requires Zero(p) && Zero(q) && p.t <= q.t && Le(a, At(p.t))
    ensures Collect(c, p, a) == Collect(c, q, a)
    ensures Le(c.end, a) ==> Le(Collect(c, p, a).end, a)
  {
    ZeroCloseness(p);
    ZeroCloseness(q);
    assert Reach(c, p, a) == Reach(c, q, a);
    assert Junk(c, p, Reach(c, p, a)) == Junk(c, q, Reach(c, q, a));
    assert Joining(c, p, a) == Joining(c, q, a);
    forall x | x in Joining(c, p, a) ensures x.deadline == a {
      assert !Less(ByDeadline, x, x);
    }
  }

  lemma ArriveTarget(c: Clock, p: Params, q: Params, a: Time)
    requires p.t <= q.t && Le(a, At(p.t)) && Le(c.end, a)
    ensures Arrive(c, p) == Arrive(c, q)
  {}

  lemma ReopenTarget(c: Clock, p: Params, q: Params)
    requires Zero(p) && Zero(q) && p.t <= q.t && Top(c, p).Some?
    ensures Reopen(c, p) == Reopen(c, q)
  {
    ZeroCloseness(p);
    ZeroCloseness(q);
    SkimTarget(c, p, q);
    var a := Top(c, p).value.deadline;
    var o := Open(Skim(c, p), a);
    CollectTarget(o, p, q, a);
    ArriveTarget(Collect(o, p, a), p, q, a);
  }

  /** The state in which the clock looks for a new instant. */
  ghost function Closed(c: Clock, p: Params): Clock {
    if c.anchor.None? then c else Collect(c, p, c.anchor.value)
  }

  /** A wake found for the nearer target is the wake found for the farther one. */
  lemma FindTarget(c: Clock, p: Params, q: Params)
    requires Zero(p) && Zero(q) && p.t <= q.t && Phase(c, p) && C.Conserved(c) && Equal(c)
    ensures Find(c, p).instant != {} ==> Find(c, q) == Find(c, p)
    ensures Find(c, p).instant == {} ==>
      var d := Closed(c, p);
      d.instant == {} && C.Conserved(d) && Top(d, p).None? && Find(c, p) == Reopen(d, p) && Find(c, q) == Reopen(d, q)
  {
    hide C.Conserved;
    var d := Closed(c, p);
    if c.anchor.Some? {
      CollectTarget(c, p, q, c.anchor.value);
      C.CollectConserved(c, p, c.anchor.value);
      ArriveTarget(d, p, q, c.anchor.value);
    }
    if d.instant == {} {
      P.ReopenFinds(d, p);
      if Top(d, p).Some? { ReopenTarget(d, p, q); }
    }
  }

  /** Resuming after the nearer target opens the same instant at the same time. */
  lemma ReopenResumed(d: Clock, p: Params, q: Params)
    requires Zero(p) && Zero(q) && p.t <= q.t && d.now <= p.t && d.instant == {} && d.deferred == {} && d.advancing
    requires Top(d, p).None? && C.Conserved(d)
    ensures var e := Begin(Finish(Reopen(d, p), p));
      && Reopen(e, q).instant == Reopen(d, q).instant
      && (Reopen(d, q).instant != {} ==> Reopen(e, q) == Reopen(d, q))
      && Finish(Reopen(e, q), q) == Finish(Reopen(d, q), q)
  {
    ZeroCloseness(p);
    ZeroCloseness(q);
    SkimTarget(d, p, q);
    var s := Skim(d, p).(anchor := None);
    SkimTwice(d, q);
    assert LiveOf(d, Junk(d, p, {})) <= s.deferred;
    var e := Begin(Finish(Reopen(d, p), p));
    NoDeferral(d, p);
    assert e == s.(now := p.t);
    assert Junk(e, q, {}) == Junk(s, q, {});
    assert Skim(e, q) == Skim(s, q).(now := p.t);
    assert Top(e, q) == Top(d, q);
    P.ReopenFinds(d, q);
    if Top(d, q).Some? {
      var a := Top(d, q).value.deadline;
      var o, o' := Open(Skim(d, q), a), Open(Skim(e, q), a);
      assert o' == o.(now := p.t);
      CollectNow(o, q, a, p.t);
      ReopenArrives(o, p, q, a);
    }
  }

  /** With zero tolerance nothing is ever set aside. */
  lemma NoDeferral(d: Clock, p: Params)
    requires Zero(p) && d.deferred == {}
    ensures Skim(d, p).deferred == {}
  {
    ZeroCloseness(p);
    assert LiveOf(d, Junk(d, p, {})) == {};
  }

  lemma CollectNow(o: Clock, q: Params, a: Time, t: real)
    ensures Collect(o.(now := t), q, a) == Collect(o, q, a).(now := t)
  {
    var o' := o.(now := t);
    assert Reach(o', q, a) == Reach(o, q, a);
    assert Joining(o', q, a) == Joining(o, q, a);
    assert Junk(o', q, Reach(o, q, a)) == Junk(o, q, Reach(o, q, a));
    var members := o.instant + Joining(o, q, a);
    assert DeadTops(o', ByPriority, members) == DeadTops(o, ByPriority, members);
    assert LiveOf(o', Junk(o, q, Reach(o, q, a))) == LiveOf(o, Junk(o, q, Reach(o, q, a)));
  }

  lemma ReopenArrives(o: Clock, p: Params, q: Params, a: Time)
    requires Zero(q) && p.t <= q.t && o.now <= p.t && o.instant == {} && o.end == NegInf
    requires Lt(At(p.t), a) && Le(a, At(q.t)) && Collect(o, q, a).instant != {}
    ensures var d := Collect(o, q, a); Arrive(d, q) == Arrive(d.(now := p.t), q)
  {
    ZeroCloseness(q);
    var joining := Joining(o, q, a);
    forall x | x in joining ensures x.deadline == a {
      assert !Less(ByDeadline, x, x);
    }
    assert joining != {};
    LatestBounds(joining);
    assert Latest(joining) == a;
  }

  /** What a drive with zero tolerance keeps. */
  ghost predicate Driving(c: Clock, p: Params) {
    Zero(p) && Phase(c, p) && C.Conserved(c) && Equal(c) && c.advancing && c.deferred == {}
  }

  lemma {:induction false} ApplyAllFlags(c: Clock, ms: seq<Move>)
    ensures ApplyAll(c, ms).advancing == c.advancing && ApplyAll(c, ms).deferred == c.deferred
    decreases |ms|
  {
    if ms != [] { ApplyAllFlags(Client(c, ms[0]), ms[1..]); }
  }

  lemma CycleDriving(c: Clock, p: Params, react: seq<Serve> -> seq<Move>)
    requires Driving(c, p) && Find(c, p).instant != {}
    ensures Driving(Cycle(c, p, react), p)
  {
    hide C.Conserved;
    CyclePhase(c, p, react);
    FindEqual(c, p);
    FindForm(c, p);
    ZeroCloseness(p);
    var g := Pop(Find(c, p));
    ApplyAllFlags(g, react(g.trace));
    ApplyAllPhase(g, p, react(g.trace));
    assert Cycle(c, p, react).deferred == {};
  }

  /** The stop at the nearer target: what the second advance starts from. */
  lemma StopAt(c: Clock, p: Params, q: Params, react: seq<Serve> -> seq<Move>, m: nat)
    requires Driving(c, p) && Zero(q) && p.t <= q.t && Find(c, p).instant == {}
    ensures Drive(Begin(Finish(Find(c, p), p)), q, react, m).1 == Drive(c, q, react, m).1
    ensures Drive(c, q, react, m).1 ==> Drive(Begin(Finish(Find(c, p), p)), q, react, m) == Drive(c, q, react, m)
  {
    hide C.Conserved, Phase;
    FindTarget(c, p, q);
    var d := Closed(c, p);
    assert d.deferred == {} && d.now <= p.t && d.advancing by { ClosedPlain(c, p); }
    ReopenResumed(d, p, q);
    var e := Begin(Finish(Find(c, p), p));
    assert Find(e, q) == Reopen(e, q);
  }

  lemma ClosedPlain(c: Clock, p: Params)
    requires Driving(c, p)
    ensures var d := Closed(c, p); d.deferred == {} && d.now <= p.t && d.advancing
  {
    ZeroCloseness(p);
  }

  /** Stopping on the way: the second advance continues the first exactly. */
  lemma {:induction false} BurstSplit(c: Clock, p: Params, q: Params, react: seq<Serve> -> seq<Move>, n: nat, m: nat)
    requires Driving(c, p) && Zero(q) && p.t <= q.t && Drive(c, p, react, n).1
    ensures var stopped := Drive(c, p, react, n).0;
      Drive(Begin(stopped), q, react, m).1 ==> Drive(c, q, react, n + m) == Drive(Begin(stopped), q, react, m)
    decreases n
  {
    hide Driving, Find, Cycle, Finish;
    if Find(c, p).instant == {} {
      StopAt(c, p, q, react, m);
      if Drive(c, q, react, m).1 { DriveMore(c, q, react, m, n + m); }
    } else {
      assert Find(c, q) == Find(c, p) by { LaterFind(c, p, q); }
      CycleDriving(c, p, react);
      BurstSplit(Cycle(c, p, react), p, q, react, n - 1, m);
      assert Cycle(c, q, react) == Cycle(c, p, react) by { SameCycle(c, p, q, react); }
    }
  }

  lemma LaterFind(c: Clock, p: Params, q: Params)
    requires Driving(c, p) && Zero(q) && p.t <= q.t && Find(c, p).instant != {}
    ensures Find(c, q) == Find(c, p)
  {
    FindTarget(c, p, q);
  }

  lemma SameCycle(c: Clock, p: Params, q: Params, react: seq<Serve> -> seq<Move>)
    requires Find(c, q) == Find(c, p) && Find(c, p).instant != {}
    ensures Cycle(c, q, react) == Cycle(c, p, react)
  {}

  /** Whenever one advance finishes, so do the two, with the same trace and the same clock. */
  lemma {:induction false} BurstJoin(c: Clock, p: Params, q: Params, react: seq<Serve> -> seq<Move>, n: nat)
    requires Driving(c, p) && Zero(q) && p.t <= q.t && Drive(c, q, react, n).1
    ensures Drive(c, p, react, n).1
    ensures Drive(Begin(Drive(c, p, react, n).0), q, react, n) == Drive(c, q, react, n)
    decreases n
  {
    hide Driving, Find, Cycle, Finish;
    if Find(c, p).instant == {} {
      StopAt(c, p, q, react, n);
    } else {
      LaterFind(c, p, q);
      SameCycle(c, p, q, react);
      CycleDriving(c, p, react);
      BurstJoin(Cycle(c, p, react), p, q, react, n - 1);
      DriveMore(Begin(Drive(c, p, react, n).0), q, react, n - 1, n);
    }
  }

  /** A clock between advances. */
  ghost predicate AtRest(c: Clock) {
    C.Conserved(c) && !c.advancing && c.anchor.None? && c.instant == {} && c.deferred == {}
  }

  lemma RestDrives(c: Clock, p: Params)
    requires AtRest(c) && Zero(p) && c.now <= p.t
    ensures Driving(Begin(c), p)
  {
    ZeroRegular();
    assert C.ServedSet(Begin(c)) == C.ServedSet(c);
  }

  /** `advance_to(a)` then `advance_to(b)` is `advance_to(b)`: each finishes when the other does, with the
      same wakes at the same times and the same clock at the end. */
  lemma BurstInvariance(c: Clock, p: Params, q: Params, react: seq<Serve> -> seq<Move>)
    requires AtRest(c) && Zero(p) && Zero(q) && c.now <= p.t <= q.t
    ensures forall n: nat | Drive(Begin(c), q, react, n).1 ::
      Drive(Begin(c), p, react, n).1 &&
      Drive(Begin(Drive(Begin(c), p, react, n).0), q, react, n) == Drive(Begin(c), q, react, n)
    ensures forall n: nat, m: nat | Drive(Begin(c), p, react, n).1 && Drive(Begin(Drive(Begin(c), p, react, n).0), q, react, m).1 ::
      Drive(Begin(c), q, react, n + m) == Drive(Begin(Drive(Begin(c), p, react, n).0), q, react, m)
  {
    RestDrives(c, p);
    hide Driving;
    forall n: nat | Drive(Begin(c), q, react, n).1
      ensures Drive(Begin(c), p, react, n).1 &&
        Drive(Begin(Drive(Begin(c), p, react, n).0), q, react, n) == Drive(Begin(c), q, react, n)
    {
      BurstJoin(Begin(c), p, q, react, n);
    }
    forall n: nat, m: nat | Drive(Begin(c), p, react, n).1 && Drive(Begin(Drive(Begin(c), p, react, n).0), q, react, m).1
      ensures Drive(Begin(c), q, react, n + m) == Drive(Begin(Drive(Begin(c), p, react, n).0), q, react, m)
    {
      BurstSplit(Begin(c), p, q, react, n, m);
    }
  }
}
