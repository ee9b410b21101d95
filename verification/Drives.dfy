/** An advance whose clients act only in reaction to wakes, as a function of the reactions. */
module Drives {
  import opened Times
  import opened ClockModel
  import opened Instants
  import opened Runs
  import C = Conservation
  import P = Promptness
  import F = FrozenInstants

  predicate IsClient(m: Move) {
    m.Sleep? || m.Callback? || m.DropCallback? || m.DropSleep?
  }

  predicate ClientsOnly(ms: seq<Move>) {
    forall m :: m in ms ==> IsClient(m)
  }

  ghost function ApplyAll(c: Clock, ms: seq<Move>): Clock
    decreases |ms|
  {
    if ms == [] then c else ApplyAll(Client(c, ms[0]), ms[1..])
  }

  /** One wake, when there is one, and the reactions to it. */
  ghost function Cycle(c: Clock, p: Params, react: seq<Serve> -> seq<Move>): Clock
    requires Find(c, p).instant != {}
  {
    var g := Pop(Find(c, p));
    ApplyAll(g, react(g.trace))
  }

  /** At most `n` turns of the loop of `_advance_to`, and whether it has returned. */
  ghost function Drive(c: Clock, p: Params, react: seq<Serve> -> seq<Move>, n: nat): (Clock, bool)
    decreases n
  {
    if n == 0 then (c, false)
    else if Find(c, p).instant == {} then (Finish(Find(c, p), p), true)
    else Drive(Cycle(c, p, react), p, react, n - 1)
  }

  lemma {:induction false} ApplyAllPhase(c: Clock, p: Params, ms: seq<Move>)
    requires Phase(c, p) && C.Conserved(c)
    ensures var d := ApplyAll(c, ms);
      Phase(d, p) && C.Conserved(d) && d.now == c.now && d.trace == c.trace && d.anchor == c.anchor && d.end == c.end
    decreases |ms|
  {
    if ms != [] {
      F.ClientPhase(c, p, ms[0]);
      C.ClientConserved(c, ms[0]);
      ApplyAllPhase(Client(c, ms[0]), p, ms[1..]);
    }
  }

  /** What a turn of the loop keeps. */
  lemma CyclePhase(c: Clock, p: Params, react: seq<Serve> -> seq<Move>)
    requires Phase(c, p) && C.Conserved(c) && Find(c, p).instant != {}
    ensures var f, d := Find(c, p), Cycle(c, p, react);
      && Phase(Pop(f), p) && C.Conserved(Pop(f)) && Phase(d, p) && C.Conserved(d)
      && d.now == f.now && d.trace == Pop(f).trace
  {
    FindPhase(c, p);
    C.FindConserved(c, p);
    C.PopConserved(Find(c, p));
    ApplyAllPhase(Pop(Find(c, p)), p, react(Pop(Find(c, p)).trace));
  }

  lemma {:induction false} DriveMore(c: Clock, p: Params, react: seq<Serve> -> seq<Move>, n: nat, m: nat)
    requires n <= m && Drive(c, p, react, n).1
    ensures Drive(c, p, react, m) == Drive(c, p, react, n)
    decreases n
  {
    hide Find, Cycle, Finish;
    if Find(c, p).instant != {} {
      DriveMore(Cycle(c, p, react), p, react, n - 1, m - 1);
    }
  }

  /** A pop that found nothing changes nothing the second time: the peek agrees. */
  lemma FindAgain(c: Clock, p: Params)
    requires C.Conserved(c) && Find(c, p).instant == {}
    ensures Find(Find(c, p), p) == Find(c, p)
  {
    var d := if c.anchor.None? then c else Collect(c, p, c.anchor.value);
    if c.anchor.Some? { C.CollectConserved(c, p, c.anchor.value); }
    P.ReopenFinds(d, p);
    SkimTwice(d, p);
  }

  lemma FindStays(c: Clock, p: Params)
    requires C.Conserved(c)
    ensures Find(c, p).instant == {} ==> Find(Find(c, p), p) == Find(c, p)
  {
    if Find(c, p).instant == {} { FindAgain(c, p); }
  }

  lemma SkimTwice(d: Clock, p: Params)
    requires d.instant == {}
    ensures var s := Skim(d, p).(anchor := None); Skim(s, p) == s && Top(s, p) == Top(d, p)
  {
    var s := Skim(d, p).(anchor := None);
    forall x | x in d.heap && Eligible(d, p, x) ensures x in s.heap {}
    assert Junk(s, p, {}) == {};
    assert s.heap - {} == s.heap && LiveOf(s, {}) == {} && s.deferred + {} == s.deferred;
  }

  // ----- a drive is a run -----

  lemma {:induction false} ClientsRun(s: Config, ms: seq<Move>)
    requires s.pc.Settling? && ClientsOnly(ms)
    ensures Run(s, ms) == s.(c := ApplyAll(s.c, ms))
    decreases |ms|
  {
    if ms != [] {
      assert ms[0] in ms;
      ClientsRun(Step(s, ms[0]), ms[1..]);
    }
  }

  lemma Run1(s: Config, m: Move)
    ensures Run(s, [m]) == Step(s, m)
  {
    assert [m][1..] == [];
    assert Run(Step(s, m), []) == Step(s, m);
  }

  lemma TurnIsRun(s: Config, react: seq<Serve> -> seq<Move>) returns (moves: seq<Move>)
    requires s.pc.Popping? && !s.p.hooked && Find(s.c, s.p).instant != {}
    requires forall h: seq<Serve> :: ClientsOnly(react(h))
    ensures Run(s, moves) == s.(c := Cycle(s.c, s.p, react))
  {
    var s1 := Step(s, Tick);
    var ms := react(s1.c.trace);
    ClientsRun(s1, ms);
    Run1(s, Tick);
    RunAppend(s, [Tick], ms);
    var s2 := s1.(c := ApplyAll(s1.c, ms));
    Run1(s2, RoundDone(false));
    RunAppend(s, [Tick] + ms, [RoundDone(false)]);
    moves := [Tick] + ms + [RoundDone(false)];
  }

  lemma LastTurnIsRun(s: Config) returns (moves: seq<Move>)
    requires s.pc.Popping? && !s.p.hooked && C.Conserved(s.c)
    requires Find(s.c, s.p).instant == {}
    ensures Run(s, moves) == s.(c := Finish(Find(s.c, s.p), s.p), pc := Resting(Completed))
  {
    FindAgain(s.c, s.p);
    P.Run2(s, Tick, RoundDone(false));
    var q := s.(c := Find(s.c, s.p), pc := Peeking);
    Run1(q, Tick);
    RunAppend(s, [Tick, RoundDone(false)], [Tick]);
    moves := [Tick, RoundDone(false)] + [Tick];
  }

  lemma {:induction false} ApplyAllConserved(c: Clock, ms: seq<Move>)
    requires C.Conserved(c)
    ensures C.Conserved(ApplyAll(c, ms))
    decreases |ms|
  {
    if ms != [] {
      C.ClientConserved(c, ms[0]);
      ApplyAllConserved(Client(c, ms[0]), ms[1..]);
    }
  }

  lemma CycleConserved(c: Clock, p: Params, react: seq<Serve> -> seq<Move>)
    requires C.Conserved(c) && Find(c, p).instant != {}
    ensures C.Conserved(Cycle(c, p, react))
  {
    hide C.Conserved, Find;
    C.FindConserved(c, p);
    C.PopConserved(Find(c, p));
    ApplyAllConserved(Pop(Find(c, p)), react(Pop(Find(c, p)).trace));
  }

  /** Every drive that returns is a completed advance of a run without a settle hook. */
  lemma {:induction false} DriveIsRun(s: Config, react: seq<Serve> -> seq<Move>, n: nat) returns (moves: seq<Move>)
    requires s.pc.Popping? && !s.p.hooked && C.Conserved(s.c)
    requires Drive(s.c, s.p, react, n).1
    requires forall h: seq<Serve> :: ClientsOnly(react(h))
    ensures Run(s, moves) == s.(c := Drive(s.c, s.p, react, n).0, pc := Resting(Completed))
    decreases n
  {
    hide C.Conserved, Find, Cycle, Finish;
    if Find(s.c, s.p).instant == {} {
      moves := LastTurnIsRun(s);
    } else {
      CycleConserved(s.c, s.p, react);
      var turn := TurnIsRun(s, react);
      var rest := DriveIsRun(s.(c := Cycle(s.c, s.p, react)), react, n - 1);
      RunAppend(s, turn, rest);
      moves := turn + rest;
    }
  }
}
