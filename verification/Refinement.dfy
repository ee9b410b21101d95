/** The two-heap loop refines a plan: sort the due entries by deadline, cut them into instants by closeness
    to the earliest one left, sort each instant by (priority, seq), stamp it with one time. */
module Refinement {
  import opened Times
  import opened Entries
  import opened ClockModel
  import opened Instants
  import opened Runs
  import opened Drives
  import C = Conservation

  datatype Stamp = Stamp(entry: Entry, at: real)

  ghost function ByPrio(s: set<Entry>): seq<Entry>
    decreases |s|
  {
    if s == {} then []
    else
      var w := Least(ByPriority, s);
      [w] + ByPrio(s - {w})
  }

  function StampAll(es: seq<Entry>, at: real): seq<Stamp> {
    seq(|es|, i requires 0 <= i < |es| => Stamp(es[i], at))
  }

  /** The instant cut first from a nonempty set of due entries. */
  ghost function FirstInstant(due: set<Entry>, tol: Tolerance): (members: set<Entry>)
    requires due != {}
    ensures {} != members <= due
  {
    var w := Least(ByDeadline, due);
    var members := CloseTo(due, w.deadline, tol);
    assert w in members;
    members
  }

  ghost function Plan(now: real, p: Params, due: set<Entry>): seq<Stamp>
    decreases |due|
  {
    if due == {} then []
    else
      var members := FirstInstant(due, p.tol);
      var at := Arrival(p, now, Latest(members));
      assert |due - members| < |due|;
      StampAll(ByPrio(members), at) + Plan(at, p, due - members)
  }

  /** What is left to serve in a given state, if clients stay quiet. */
  ghost function Pending(c: Clock, p: Params): seq<Stamp> {
    StampAll(ByPrio(LiveOf(c, c.instant)), c.now) + Plan(c.now, p, ReadyOf(c, p))
  }

  lemma StampCons(w: Entry, es: seq<Entry>, at: real)
    ensures StampAll([w] + es, at) == [Stamp(w, at)] + StampAll(es, at)
  {}

  lemma FrozenServesPlan(c: Clock, f: Clock, p: Params)
    requires Sound(c) && Frozen(c, f, p)
    ensures Pending(c, p) == [Stamp(Least(ByPriority, f.instant), f.now)] + Pending(Pop(f), p)
  {
    var live, w, g := LiveOf(c, c.instant), Least(ByPriority, f.instant), Pop(f);
    assert LiveOf(g, g.instant) == live - {w};
    assert ReadyOf(g, p) == ReadyOf(c, p);
    StampCons(w, ByPrio(live - {w}), c.now);
  }

  lemma OpenedLeft(c: Clock, f: Clock, p: Params)
    requires Sound(c) && Opened(c, f, p)
    ensures var w, g := Least(ByPriority, f.instant), Pop(f); var members := FirstInstant(ReadyOf(c, p), p.tol);
      && f.instant == members && f.end == Latest(members) && f.now == Arrival(p, c.now, f.end)
      && LiveOf(g, g.instant) == members - {w} && ReadyOf(g, p) == ReadyOf(c, p) - members && g.now == f.now
  {
    var members := FirstInstant(ReadyOf(c, p), p.tol);
    assert f.instant == members;
    var w, g := Least(ByPriority, f.instant), Pop(f);
    hide IsLeast, IsLatest, Less, Arrival;
    assert LiveOf(g, g.instant) == members - {w};
    assert ReadyOf(g, p) == ReadyOf(c, p) - members;
  }

  lemma OpenedServesPlan(c: Clock, f: Clock, p: Params)
    requires Sound(c) && LiveOf(c, c.instant) == {} && Opened(c, f, p)
    ensures Pending(c, p) == [Stamp(Least(ByPriority, f.instant), f.now)] + Pending(Pop(f), p)
  {
    hide IsLeast, IsLatest, Less, Arrival, Sound, LiveOf, Pop;
    OpenedLeft(c, f, p);
    var w, g := Least(ByPriority, f.instant), Pop(f);
    var members := FirstInstant(ReadyOf(c, p), p.tol);
    hide Opened;
    StampCons(w, ByPrio(members - {w}), f.now);
    assert StampAll(ByPrio(LiveOf(c, c.instant)), c.now) == [];
  }

  /** Every pop, at any point of an advance and whatever clients did before, serves the head of the plan. */
  lemma PopServesPlan(c: Clock, p: Params)
    requires Phase(c, p)
    ensures var f := Find(c, p);
      if f.instant == {} then Pending(c, p) == []
      else Pending(c, p) == [Stamp(Least(ByPriority, f.instant), f.now)] + Pending(Pop(f), p)
  {
    FindForm(c, p);
    var f := Find(c, p);
    if LiveOf(c, c.instant) != {} {
      FrozenServesPlan(c, f, p);
    } else if ReadyOf(c, p) != {} {
      OpenedServesPlan(c, f, p);
    }
  }

  ghost function Stamps(trace: seq<Serve>): seq<Stamp> {
    seq(|trace|, i requires 0 <= i < |trace| => Stamp(trace[i].entry, trace[i].at))
  }

  lemma StampsSnoc(trace: seq<Serve>, v: Serve)
    ensures Stamps(trace + [v]) == Stamps(trace) + [Stamp(v.entry, v.at)]
  {}

  function Quiet(h: seq<Serve>): seq<Move> {
    []
  }

  /** With quiet clients the advance returns after exactly the planned wakes, each at its planned time. */
  lemma {:induction false} QuietAdvanceIsPlan(c: Clock, p: Params, n: nat)
    requires Phase(c, p) && C.Conserved(c)
    ensures var r := Drive(c, p, Quiet, n);
      && (r.1 <==> |Pending(c, p)| < n)
      && (r.1 ==> Stamps(r.0.trace) == Stamps(c.trace) + Pending(c, p))
    decreases n
  {
    hide Phase, C.Conserved, Find, Pending, Stamps;
    if n != 0 {
      PopServesPlan(c, p);
      var f := Find(c, p);
      C.FindConserved(c, p);
      if f.instant != {} {
        CyclePhase(c, p, Quiet);
        var d := Cycle(c, p, Quiet);
        assert d == Pop(f);
        QuietAdvanceIsPlan(d, p, n - 1);
        StampsSnoc(c.trace, Serve(Least(ByPriority, f.instant), f.now, f.instantSeq, f.nextSeq));
      }
    }
  }

  // ----- the plan itself -----

  function EntriesOf(w: seq<Stamp>): seq<Entry> {
    seq(|w|, i requires 0 <= i < |w| => w[i].entry)
  }

  /** Each member once. */
  ghost predicate Lists(w: seq<Entry>, s: set<Entry>) {
    |w| == |s| && forall x :: x in w <==> x in s
  }

  ghost predicate Within(w: seq<Stamp>, p: Params, now: real) {
    && (forall i :: 0 <= i < |w| ==> now <= w[i].at <= p.t && Timely(p, w[i].entry, w[i].at))
    && (forall i, j :: 0 <= i < j < |w| ==> w[i].at <= w[j].at)
  }

  lemma {:induction false} ByPrioLists(s: set<Entry>)
    ensures Lists(ByPrio(s), s)
    decreases |s|
  {
    if s != {} {
      var m := Least(ByPriority, s);
      ByPrioLists(s - {m});
      hide IsLeast;
      assert |s - {m}| == |s| - 1;
      var v := ByPrio(s - {m});
      assert forall x :: x in [m] + v <==> x == m || x in v;
    }
  }

  /** An instant is served in strict (priority, registration) order. */
  lemma {:induction false} ByPrioSorted(s: set<Entry>, i: nat, j: nat)
    requires Distinct(s) && i < j < |ByPrio(s)|
    ensures Prior(ByPrio(s)[i], ByPrio(s)[j])
    decreases |s|
  {
    var m := Least(ByPriority, s);
    var v := ByPrio(s - {m});
    if i == 0 {
      ByPrioLists(s - {m});
      var y := v[j - 1];
      assert y in v && y in s && !Less(ByPriority, y, m);
    } else {
      ByPrioSorted(s - {m}, i - 1, j - 1);
    }
  }

  lemma ListsConcat(u: seq<Entry>, v: seq<Entry>, s: set<Entry>, due: set<Entry>)
    requires s <= due && Lists(u, s) && Lists(v, due - s)
    ensures Lists(u + v, due)
  {
    assert s + (due - s) == due;
    assert |s + (due - s)| == |s| + |due - s|;
    forall x ensures x in u + v <==> x in due {}
  }

  lemma WithinConcat(es: seq<Entry>, at: real, v: seq<Stamp>, p: Params, now: real)
    requires now <= at <= p.t && Within(v, p, at) && forall x :: x in es ==> Timely(p, x, at)
    ensures Within(StampAll(es, at) + v, p, now)
  {}

  lemma FirstAt(now: real, p: Params, members: set<Entry>)
    requires now <= p.t && forall x :: x in members ==> Due(p, x) && !Blocked(p, x)
    ensures var at := Arrival(p, now, Latest(members));
      now <= at <= p.t && forall x :: x in members ==> Timely(p, x, at)
  {
    C.ArrivalForward(p, now, Latest(members));
    LatestBounds(members);
    forall x | x in members ensures Timely(p, x, Arrival(p, now, Latest(members))) {
      ArrivalTimely(p, x, now, Latest(members));
    }
  }

  /** The plan serves each due entry exactly once, none early, at nondecreasing times up to the target. */
  lemma {:induction false} PlanServesEachOnce(now: real, p: Params, due: set<Entry>)
    requires now <= p.t && forall x :: x in due ==> Due(p, x) && !Blocked(p, x)
    ensures Lists(EntriesOf(Plan(now, p, due)), due) && Within(Plan(now, p, due), p, now)
    decreases |due|
  {
    hide Due, Blocked, Timely, Within, Lists, ByPrio, Arrival, Latest, IsLeast, IsLatest, CloseTo, Less;
    if due != {} {
      var members := FirstInstant(due, p.tol);
      var at := Arrival(p, now, Latest(members));
      var es, v := ByPrio(members), Plan(at, p, due - members);
      assert |due - members| < |due|;
      FirstAt(now, p, members);
      PlanServesEachOnce(at, p, due - members);
      ByPrioLists(members);
      ListsConcat(es, EntriesOf(v), members, due);
      assert EntriesOf(StampAll(es, at) + v) == es + EntriesOf(v);
      assert forall x :: x in es ==> x in members by { ListsIn(es, members); }
      WithinConcat(es, at, v, p, now);
    } else {
      assert Lists([], due) && Within([], p, now) by { NothingDue(p, now); }
      assert EntriesOf([]) == [];
    }
  }

  lemma ListsIn(es: seq<Entry>, s: set<Entry>)
    requires Lists(es, s)
    ensures forall x :: x in es ==> x in s
  {}

  lemma NothingDue(p: Params, now: real)
    ensures Lists([], {}) && Within([], p, now)
  {}
}
