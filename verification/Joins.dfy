/** A callback registered during an instant and due in it is served in that very instant, at any tolerance. */
module Joins {
  import opened Times
  import opened Entries
  import opened ClockModel
  import opened Runs
  import C = Conservation

  /** `x` belongs to instant `k`: it waits there, was served there, or was cancelled. */
  ghost predicate Belongs(c: Clock, x: Entry, k: nat) {
    && (forall i :: 0 <= i < |c.trace| && c.trace[i].entry == x ==> c.trace[i].instant == k)
    && (!Live(c, x) || Served(c, x) || (x in c.instant && c.anchor.Some? && c.instantSeq == k))
  }

  /** A live member stays a member until it is served. */
  lemma FindBelongs(c: Clock, p: Params, x: Entry, k: nat)
    requires Belongs(c, x, k)
    ensures Belongs(Find(c, p), x, k)
    ensures Live(c, x) && !Served(c, x) ==> x in Find(c, p).instant && Find(c, p).instantSeq == k
  {
    C.FindHistory(c, p);
    if Live(c, x) && !Served(c, x) {
      var d := Collect(c, p, c.anchor.value);
      assert x in d.instant;
      assert Find(c, p) == Arrive(d, p);
    } else {
      hide Find;
    }
  }

  lemma PopBelongs(f: Clock, x: Entry, k: nat)
    requires C.Conserved(f) && f.instant != {} && Live(f, Least(ByPriority, f.instant)) && Belongs(f, x, k)
    ensures Belongs(Pop(f), x, k)
  {
    var w, g := Least(ByPriority, f.instant), Pop(f);
    assert w !in C.ServedSet(f);
    assert forall y :: Served(f, y) ==> Served(g, y) by {
      forall y | Served(f, y) ensures Served(g, y) {
        var i :| 0 <= i < |f.trace| && f.trace[i].entry == y;
        assert g.trace[i].entry == y;
      }
    }
    if w == x { assert g.trace[|f.trace|].entry == x; }
  }

  lemma ClientBelongs(c: Clock, m: Move, x: Entry, k: nat)
    requires Belongs(c, x, k)
    ensures Belongs(Client(c, m), x, k)
  {}

  /** A step that does not end the advance keeps it; a step that completes the advance finds `x` served or cancelled. */
  lemma TickBelongs(s: Config, x: Entry, k: nat)
    requires C.Inv(s) && (s.pc.Popping? || s.pc.Peeking?) && Belongs(s.c, x, k)
    ensures var n := Step(s, Tick); Belongs(n.c, x, k) && (n.pc.Resting? ==> !Live(n.c, x) || Served(n.c, x))
  {
    var f := Find(s.c, s.p);
    FindBelongs(s.c, s.p, x, k);
    C.FindConserved(s.c, s.p);
    C.FindHistory(s.c, s.p);
    if f.instant != {} {
      PopBelongs(f, x, k);
      hide Find, Pop, Belongs;
    } else {
      hide Find;
      FinishBelongs(f, s.p, x, k);
    }
  }

  lemma FinishBelongs(f: Clock, p: Params, x: Entry, k: nat)
    requires Belongs(f, x, k) && (!Live(f, x) || Served(f, x))
    ensures Belongs(Finish(f, p), x, k) && (!Live(Finish(f, p), x) || Served(Finish(f, p), x))
  {
    assert Finish(f, p).trace == f.trace;
  }

  lemma StepBelongs(s: Config, m: Move, x: Entry, k: nat)
    requires C.Inv(s) && !s.pc.Resting? && Belongs(s.c, x, k) && Step(s, m).pc != Resting(Failed)
    ensures var n := Step(s, m); Belongs(n.c, x, k) && (n.pc.Resting? ==> !Live(n.c, x) || Served(n.c, x))
  {
    if s.pc.Settling? {
      ClientBelongs(s.c, m, x, k);
      hide Belongs, Client, C.Conserved;
    } else if m.Tick? {
      TickBelongs(s, x, k);
    }
  }

  /** The advance goes on through these moves, and may complete with the last one. */
  ghost predicate Uninterrupted(s: Config, moves: seq<Move>)
    decreases |moves|
  {
    moves == [] ||
    (!s.pc.Resting? && Step(s, moves[0]).pc != Resting(Failed) && Uninterrupted(Step(s, moves[0]), moves[1..]))
  }

  lemma {:induction false} RunBelongs(s: Config, moves: seq<Move>, x: Entry, k: nat)
    requires C.Inv(s) && Belongs(s.c, x, k) && Uninterrupted(s, moves)
    requires s.pc.Resting? ==> !Live(s.c, x) || Served(s.c, x)
    ensures var n := Run(s, moves); Belongs(n.c, x, k) && (n.pc.Resting? ==> !Live(n.c, x) || Served(n.c, x))
    decreases |moves|
  {
    hide C.Inv, Belongs, Step;
    if moves != [] {
      StepBelongs(s, moves[0], x, k);
      C.StepInv(s, moves[0]);
      RunBelongs(Step(s, moves[0]), moves[1..], x, k);
    }
  }

  lemma CallBelongs(s: Config, d: Time, priority: int)
    requires C.Inv(s) && s.pc.Settling? && s.c.anchor.Some? && Le(d, At(s.c.now))
    ensures var n := Step(s, Callback(d, priority));
      n.pc == s.pc && Belongs(n.c, ClockModel.Fresh(s.c, d, priority, true), s.c.instantSeq)
  {
    var x := ClockModel.Fresh(s.c, d, priority, true);
    forall i | 0 <= i < |s.c.trace| ensures s.c.trace[i].entry != x {
      assert s.c.trace[i].entry in C.ServedSet(s.c);
    }
  }

  /** A `call_at` made in a settle during an instant and due by `now()`: as long as its advance does not fail, it is
      served in that instant and in no other, and when the advance completes it has been served or cancelled. */
  lemma CallJoinsItsInstant(t0: real, work: nat, before: seq<Move>, d: Time, priority: int, after: seq<Move>)
    requires var s := Run(Initial(t0, work), before);
      && s.pc.Settling? && s.c.anchor.Some? && Le(d, At(s.c.now))
      && Uninterrupted(Step(s, Callback(d, priority)), after)
    ensures var s := Run(Initial(t0, work), before);
      var x, n := ClockModel.Fresh(s.c, d, priority, true), Run(Initial(t0, work), before + [Callback(d, priority)] + after);
      && (forall i :: 0 <= i < |n.c.trace| && n.c.trace[i].entry == x ==> n.c.trace[i].instant == s.c.instantSeq)
      && (n.pc.Resting? ==> !Live(n.c, x) || Served(n.c, x))
  {
    var s, m := Run(Initial(t0, work), before), Callback(d, priority);
    C.EveryRunConserves(t0, work, before);
    CallBelongs(s, d, priority);
    C.StepInv(s, m);
    hide C.Inv, Step, Served;
    RunSnoc(Initial(t0, work), before, m);
    RunAppend(Initial(t0, work), before + [m], after);
    RunBelongs(Step(s, m), after, ClockModel.Fresh(s.c, d, priority, true), s.c.instantSeq);
  }
}
