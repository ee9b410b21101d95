/** An advance whose clients re-register at most once per wake, at least `delta` ahead, returns, after a
    number of wakes bounded by the time left to each due entry, at any tolerance. */
module Termination {
  import opened Times
  import opened Entries
  import opened ClockModel
  import opened Instants
  import opened Runs
  import opened Drives
  import C = Conservation
  import P = Promptness

  function Later(d: Time, now: real): real {
    if d.At? && now < d.r then d.r else now
  }

  /** Wakes left in the chain an entry may start: one past the target, else one per step of `delta` and two. */
  function Cost(p: Params, delta: real, now: real, d: Time): nat
    requires delta > 0.0
  {
    if Lt(At(p.t), d) || p.t < now then 1 else ((p.t - Later(d, now)) / delta).Floor + 2
  }

  ghost function Total(p: Params, delta: real, now: real, s: set<Entry>): nat
    requires delta > 0.0
    decreases |s|
  {
    if s == {} then 0
    else
      var x := Least(ByDeadline, s);
      Cost(p, delta, now, x.deadline) + Total(p, delta, now, s - {x})
  }

  /** What any advance keeps from its start on, at any tolerance. */
  ghost predicate Ongoing(c: Clock, p: Params) {
    C.Conserved(c) && P.Members(c, p) && c.now <= p.t
  }

  /** The due entries still to wake. */
  ghost function Owed(c: Clock, p: Params): set<Entry> {
    ReadyOf(c, p) + LiveOf(c, c.instant)
  }

  lemma {:induction false} TotalWithout(p: Params, delta: real, now: real, s: set<Entry>, x: Entry)
    requires delta > 0.0 && x in s
    ensures Total(p, delta, now, s) == Cost(p, delta, now, x.deadline) + Total(p, delta, now, s - {x})
    decreases |s|
  {
    var m := Least(ByDeadline, s);
    if m != x {
      TotalWithout(p, delta, now, s - {m}, x);
      TotalWithout(p, delta, now, s - {x}, m);
      assert s - {m} - {x} == s - {x} - {m};
    }
  }

  lemma {:induction false} TotalSubset(p: Params, delta: real, now: real, s: set<Entry>, u: set<Entry>)
    requires delta > 0.0 && s <= u
    ensures Total(p, delta, now, s) <= Total(p, delta, now, u)
    decreases |u|
  {
    if x :| x in u && x !in s {
      TotalWithout(p, delta, now, u, x);
      TotalSubset(p, delta, now, s, u - {x});
    } else {
      assert s == u;
    }
  }

  lemma FloorMonotone(x: real, y: real)
    requires x <= y
    ensures x.Floor <= y.Floor
  {}

  lemma DivMonotone(x: real, y: real, delta: real)
    requires delta > 0.0 && x <= y
    ensures (x / delta).Floor <= (y / delta).Floor
  {
    FloorMonotone(x / delta, y / delta);
  }

  lemma DivStep(x: real, y: real, delta: real)
    requires delta > 0.0 && x + delta <= y
    ensures (x / delta).Floor + 1 <= (y / delta).Floor
  {
    var u, v := x / delta, y / delta;
    assert u * delta == x && v * delta == y;
    assert (u + 1.0) * delta == u * delta + delta;
    if v < u + 1.0 { MulLess(delta, v, u + 1.0); }
    FloorMonotone(u + 1.0, v);
  }

  lemma CostFalls(p: Params, delta: real, now: real, later: real, d: Time)
    requires delta > 0.0 && now <= later <= p.t
    ensures 1 <= Cost(p, delta, later, d) <= Cost(p, delta, now, d)
  {
    if !Lt(At(p.t), d) {
      DivMonotone(0.0, p.t - Later(d, later), delta);
      DivMonotone(p.t - Later(d, later), p.t - Later(d, now), delta);
    }
  }

  lemma {:induction false} TotalFalls(p: Params, delta: real, now: real, later: real, s: set<Entry>)
    requires delta > 0.0 && now <= later <= p.t
    ensures Total(p, delta, later, s) <= Total(p, delta, now, s)
    decreases |s|
  {
    if s != {} {
      var x := Least(ByDeadline, s);
      CostFalls(p, delta, now, later, x.deadline);
      TotalFalls(p, delta, now, later, s - {x});
    }
  }

  // ----- reactions -----

  /** At most one registration, at least `delta` after `now`; cancellations are free. */
  ghost predicate Spaced(now: real, ms: seq<Move>, delta: real)
    decreases |ms|
  {
    ms == [] ||
    (match ms[0]
     case Sleep(d, _) => Le(At(now + delta), d) && Cancels(ms[1..])
     case Callback(d, _) => Le(At(now + delta), d) && Cancels(ms[1..])
     case _ => Spaced(now, ms[1..], delta))
  }

  predicate Cancels(ms: seq<Move>) {
    forall m :: m in ms ==> !m.Sleep? && !m.Callback?
  }

  /** Clients whose reaction to each wake is spaced from the time of that wake. */
  ghost predicate SpacedReact(react: seq<Serve> -> seq<Move>, delta: real) {
    forall h: seq<Serve> :: h != [] ==> Spaced(h[|h| - 1].at, react(h), delta)
  }

  lemma {:induction false} CancelsOwe(c: Clock, p: Params, ms: seq<Move>)
    requires Cancels(ms)
    ensures Owed(ApplyAll(c, ms), p) <= Owed(c, p)
    decreases |ms|
  {
    if ms != [] {
      assert ms[0] in ms;
      assert Owed(Client(c, ms[0]), p) <= Owed(c, p);
      CancelsOwe(Client(c, ms[0]), p, ms[1..]);
    }
  }

  /** What a new entry can add: nothing once time has reached the target. */
  ghost predicate Adds(c: Clock, o: set<Entry>, p: Params, delta: real) {
    o <= Owed(c, p) || exists x: Entry :: o <= Owed(c, p) + {x} && Le(At(c.now + delta), x.deadline) && c.now < p.t
  }

  lemma RegisterAdds(c: Clock, p: Params, m: Move, delta: real)
    requires c.now <= p.t && delta > 0.0 && (m.Sleep? || m.Callback?) && Le(At(c.now + delta), m.deadline)
    ensures Adds(c, Owed(Client(c, m), p), p, delta)
  {
    var d := Client(c, m);
    var x := ClockModel.Fresh(c, m.deadline, m.priority, m.Callback?);
    assert d.heap == c.heap + {x} && d.instant == c.instant;
    assert ReadyOf(d, p) <= ReadyOf(c, p) + {x};
    if Ready(d, p, x) {
      assert Owed(d, p) <= Owed(c, p) + {x};
    } else {
      assert Owed(d, p) <= Owed(c, p);
    }
  }

  lemma {:induction false} SpacedAdds(c: Clock, p: Params, ms: seq<Move>, delta: real)
    requires c.now <= p.t && delta > 0.0 && Spaced(c.now, ms, delta)
    ensures Adds(c, Owed(ApplyAll(c, ms), p), p, delta)
    decreases |ms|
  {
    if ms != [] {
      var d := Client(c, ms[0]);
      if ms[0].Sleep? || ms[0].Callback? {
        RegisterAdds(c, p, ms[0], delta);
        CancelsOwe(d, p, ms[1..]);
      } else {
        CancelsOwe(c, p, [ms[0]]);
        assert ApplyAll(c, [ms[0]]) == d by { assert [ms[0]][1..] == []; assert ApplyAll(d, []) == d; }
        P.ClientNow(c, ms[0]);
        SpacedAdds(d, p, ms[1..], delta);
      }
    }
  }

  // ----- what a turn of the loop keeps -----

  lemma {:induction false} ApplyAllOngoing(c: Clock, p: Params, ms: seq<Move>)
    requires Ongoing(c, p)
    ensures var d := ApplyAll(c, ms); Ongoing(d, p) && d.now == c.now && d.trace == c.trace
    decreases |ms|
  {
    hide C.Conserved, P.Members, Client;
    if ms != [] {
      C.ClientConserved(c, ms[0]);
      P.ClientMembers(c, p, ms[0]);
      ApplyAllOngoing(Client(c, ms[0]), p, ms[1..]);
    }
  }

  lemma PopOngoing(c: Clock, p: Params)
    requires Ongoing(c, p) && Find(c, p).instant != {}
    ensures var f := Find(c, p);
      && Ongoing(Pop(f), p) && Timely(p, Least(ByPriority, f.instant), f.now) && c.now <= f.now <= p.t
      && |Pop(f).trace| == |c.trace| + 1
  {
    hide C.Conserved, P.Members, Find;
    C.FindConserved(c, p);
    C.PopConserved(Find(c, p));
    AnchorOfConserved(c);
    P.FindTimely(c, p);
    P.PopMembers(Find(c, p), p);
  }

  lemma AnchorOfConserved(c: Clock)
    requires C.Conserved(c)
    ensures c.anchor.None? ==> c.instant == {}
  {}

  lemma CycleOngoing(c: Clock, p: Params, react: seq<Serve> -> seq<Move>)
    requires Ongoing(c, p) && Find(c, p).instant != {}
    ensures var f, d := Find(c, p), Cycle(c, p, react);
      Ongoing(Pop(f), p) && Ongoing(d, p) && d.now == f.now && d.trace == Pop(f).trace && |d.trace| == |c.trace| + 1
  {
    hide Ongoing, Find;
    PopOngoing(c, p);
    ApplyAllOngoing(Pop(Find(c, p)), p, react(Pop(Find(c, p)).trace));
  }

  // ----- the bound -----

  /** What a pass over the heap moves or drops adds nothing owed. */
  ghost predicate OwesNoMore(c: Clock, d: Clock, p: Params) {
    d.cancelled == c.cancelled && d.heap <= c.heap && LiveOf(d, d.instant) <= LiveOf(c, c.instant) + ReadyOf(c, p)
  }

  lemma CollectOwes(c: Clock, p: Params, a: Time)
    ensures OwesNoMore(c, Collect(c, p, a), p)
  {
    forall x | x in Joining(c, p, a) ensures x in ReadyOf(c, p) {
      assert x in Reach(c, p, a) && !Less(ByDeadline, x, x);
    }
  }

  lemma ReopenOwes(c: Clock, p: Params)
    requires c.instant == {}
    ensures OwesNoMore(c, Reopen(c, p), p)
  {
    var s := Skim(c, p);
    if Top(c, p).Some? {
      var a := Top(c, p).value.deadline;
      CollectOwes(Open(s, a), p, a);
      assert ReadyOf(Open(s, a), p) <= ReadyOf(c, p);
    }
  }

  lemma OwesOn(c: Clock, d: Clock, f: Clock, p: Params)
    requires OwesNoMore(c, d, p) && OwesNoMore(d, f, p)
    ensures OwesNoMore(c, f, p)
  {
    assert ReadyOf(d, p) <= ReadyOf(c, p);
  }

  lemma FindOwes(c: Clock, p: Params)
    requires Ongoing(c, p)
    ensures OwesNoMore(c, Find(c, p), p)
  {
    AnchorOfConserved(c);
    hide C.Conserved, P.Members, Reopen, Collect, OwesNoMore;
    if c.anchor.None? {
      ReopenOwes(c, p);
    } else {
      var d := Collect(c, p, c.anchor.value);
      CollectOwes(c, p, c.anchor.value);
      if d.instant == {} {
        ReopenOwes(d, p);
        OwesOn(c, d, Reopen(d, p), p);
      } else {
        Arrived(c, d, p);
      }
    }
  }

  lemma Arrived(c: Clock, d: Clock, p: Params)
    requires OwesNoMore(c, d, p)
    ensures OwesNoMore(c, Arrive(d, p), p)
  {}

  lemma PopOwes(c: Clock, p: Params)
    requires Ongoing(c, p) && Find(c, p).instant != {}
    ensures var f := Find(c, p); var w := Least(ByPriority, f.instant);
      w in Owed(c, p) && Owed(Pop(f), p) <= Owed(c, p) - {w} && Timely(p, w, f.now) && c.now <= f.now <= p.t
  {
    PopOngoing(c, p);
    FindOwes(c, p);
    C.FindConserved(c, p);
    LeavesOwed(c, Find(c, p), p);
  }

  lemma LeavesOwed(c: Clock, f: Clock, p: Params)
    requires Sound(f) && f.instant != {} && Live(f, Least(ByPriority, f.instant)) && OwesNoMore(c, f, p)
    ensures var w := Least(ByPriority, f.instant); w in Owed(c, p) && Owed(Pop(f), p) <= Owed(c, p) - {w}
  {
    var w, g := Least(ByPriority, f.instant), Pop(f);
    assert w in LiveOf(f, f.instant);
    assert ReadyOf(g, p) == ReadyOf(f, p) <= ReadyOf(c, p) && w !in ReadyOf(f, p);
    assert LiveOf(g, g.instant) == LiveOf(f, f.instant) - {w};
  }

  /** The entry a wake registers costs at least one wake less than the wake's own. */
  lemma ChainShrinks(p: Params, delta: real, now: real, w: Entry, d: Time)
    requires delta > 0.0 && now < p.t && Timely(p, w, now) && Le(At(now + delta), d)
    ensures Cost(p, delta, now, d) + 1 <= Cost(p, delta, now, w.deadline)
  {
    assert Later(w.deadline, now) == now;
    if !Lt(At(p.t), d) {
      DivStep(p.t - d.r, p.t - now, delta);
    } else {
      DivMonotone(0.0, p.t - now, delta);
    }
  }

  lemma AddedTotal(p: Params, delta: real, g: Clock, o: set<Entry>, owed: set<Entry>, w: Entry)
    requires delta > 0.0 && w in owed && Owed(g, p) <= owed - {w} && Timely(p, w, g.now) && g.now <= p.t
    requires Adds(g, o, p, delta)
    ensures Total(p, delta, g.now, o) < Total(p, delta, g.now, owed)
  {
    hide Owed;
    var rest := owed - {w};
    TotalWithout(p, delta, g.now, owed, w);
    CostFalls(p, delta, g.now, g.now, w.deadline);
    if o <= rest {
      TotalSubset(p, delta, g.now, o, rest);
    } else {
      var x: Entry :| o <= Owed(g, p) + {x} && Le(At(g.now + delta), x.deadline) && g.now < p.t;
      ChainShrinks(p, delta, g.now, w, x.deadline);
      TotalSubset(p, delta, g.now, o, rest + {x});
      TotalWithout(p, delta, g.now, rest + {x}, x);
      TotalSubset(p, delta, g.now, rest + {x} - {x}, rest);
    }
  }

  lemma CycleOwes(c: Clock, p: Params, react: seq<Serve> -> seq<Move>, delta: real)
    requires Ongoing(c, p) && delta > 0.0 && SpacedReact(react, delta) && Find(c, p).instant != {}
    ensures Total(p, delta, Cycle(c, p, react).now, Owed(Cycle(c, p, react), p)) < Total(p, delta, c.now, Owed(c, p))
  {
    hide Ongoing, Owed, Find, Adds, Timely, Spaced, Total;
    PopOwes(c, p);
    PopOngoing(c, p);
    CycleOngoing(c, p, react);
    var f := Find(c, p);
    var w, g := Least(ByPriority, f.instant), Pop(f);
    SpacedAdds(g, p, react(g.trace), delta);
    TotalFalls(p, delta, c.now, f.now, Owed(c, p));
    AddedTotal(p, delta, g, Owed(Cycle(c, p, react), p), Owed(c, p), w);
  }

  lemma SameTrace(c: Clock, p: Params)
    ensures Finish(Find(c, p), p).trace == c.trace
  {}

  /** The advance returns, after at most the owed number of wakes, at any tolerance. */
  lemma {:induction false} AdvanceTerminates(c: Clock, p: Params, react: seq<Serve> -> seq<Move>, delta: real, n: nat)
    requires Ongoing(c, p) && delta > 0.0 && SpacedReact(react, delta)
    requires Total(p, delta, c.now, Owed(c, p)) < n
    ensures var r := Drive(c, p, react, n);
      r.1 && |r.0.trace| <= |c.trace| + Total(p, delta, c.now, Owed(c, p))
    decreases n
  {
    hide Ongoing, Owed, SpacedReact, Find, Cycle, Total, Finish;
    if Find(c, p).instant == {} {
      SameTrace(c, p);
    } else {
      CycleOwes(c, p, react, delta);
      CycleOngoing(c, p, react);
      AdvanceTerminates(Cycle(c, p, react), p, react, delta, n - 1);
    }
  }

  /** Every advance of every run: begun from rest with any target that is not past, at any tolerance, it returns, after
      at most the owed number of wakes. */
  lemma EveryAdvanceTerminates(t0: real, work: nat, moves: seq<Move>, p: Params, react: seq<Serve> -> seq<Move>, delta: real)
    requires Run(Initial(t0, work), moves).pc.Resting? && delta > 0.0 && SpacedReact(react, delta)
    requires Run(Initial(t0, work), moves).c.now <= p.t
    ensures var c := Begin(Run(Initial(t0, work), moves).c);
      var bound := Total(p, delta, c.now, Owed(c, p));
      var r := Drive(c, p, react, bound + 1);
      r.1 && |r.0.trace| <= |c.trace| + bound
  {
    hide Ongoing, Owed, Total, Drive, Run, C.Inv, SpacedReact;
    var s := Run(Initial(t0, work), moves);
    C.EveryRunConserves(t0, work, moves);
    StartsOngoing(s, p);
    var c := Begin(s.c);
    AdvanceTerminates(c, p, react, delta, Total(p, delta, c.now, Owed(c, p)) + 1);
  }

  lemma StartsOngoing(s: Config, p: Params)
    requires C.Inv(s) && s.pc.Resting? && s.c.now <= p.t
    ensures Ongoing(Begin(s.c), p)
  {
    C.BeginConserved(s.c);
  }

  /** The bound in the entries' own terms: at most `floor(max(0, t - d) / delta) + 2` wakes each. */
  lemma CostBound(p: Params, delta: real, now: real, d: real)
    requires delta > 0.0 && now <= p.t
    ensures Cost(p, delta, now, At(d)) <= (Max(0.0, p.t - d) / delta).Floor + 2
  {
    if d <= p.t {
      DivMonotone(p.t - Later(At(d), now), p.t - d, delta);
    } else {
      assert 0.0 / delta == 0.0;
    }
  }
}
