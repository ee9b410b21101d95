/** Over every run: no entry wakes early, time never runs back, nothing due is left behind exactly when
    closeness to the target is downward closed, and a hooked advance never moves while host work is pending. */
module Promptness {
  import opened Times
  import opened Entries
  import opened ClockModel
  import opened Instants
  import opened Runs
  import opened Conservation

  /** Every member of the open instant is due at `now()`, or will be once time moves to the instant's end. */
  ghost predicate Members(c: Clock, p: Params) {
    && (forall x :: x in c.instant ==> Le(x.deadline, At(c.now)) || (Due(p, x) && !Blocked(p, x) && Le(x.deadline, c.end)))
    && (forall x :: x in c.deferred ==> Blocked(p, x))
  }

  lemma CollectMembers(c: Clock, p: Params, a: Time)
    requires Members(c, p)
    ensures Members(Collect(c, p, a), p)
  {
    var joining := Joining(c, p, a);
    LatestBounds(joining);
    forall x | x in Collect(c, p, a).instant && x !in c.instant ensures Due(p, x) && !Blocked(p, x) {
      assert x in Reach(c, p, a) && !Less(ByDeadline, x, x);
    }
  }

  /** Every member of an instant that has arrived may wake now. */
  ghost predicate AllTimely(f: Clock, p: Params) {
    && (forall x :: x in f.instant ==> Timely(p, x, f.now))
    && (forall x :: x in f.deferred ==> Blocked(p, x))
  }

  lemma ArriveTimely(c: Clock, p: Params)
    requires Members(c, p) && c.now <= p.t
    ensures Members(Arrive(c, p), p) && AllTimely(Arrive(c, p), p)
  {
    ArrivalForward(p, c.now, c.end);
    forall x | x in c.instant && !Le(x.deadline, At(c.now)) ensures Timely(p, x, Arrival(p, c.now, c.end)) {
      ArrivalTimely(p, x, c.now, c.end);
    }
  }

  lemma FindTimely(c: Clock, p: Params)
    requires Members(c, p) && c.now <= p.t && (c.anchor.None? ==> c.instant == {})
    ensures var f := Find(c, p); Members(f, p) && AllTimely(f, p)
  {
    if c.anchor.Some? {
      CollectMembers(c, p, c.anchor.value);
      ArriveTimely(Collect(c, p, c.anchor.value), p);
    }
    if c.anchor.None? || Collect(c, p, c.anchor.value).instant == {} {
      var d := if c.anchor.None? then c else Collect(c, p, c.anchor.value);
      var s := Skim(d, p);
      if Top(d, p).Some? {
        var a := Top(d, p).value.deadline;
        CollectMembers(Open(s, a), p, a);
        ArriveTimely(Collect(Open(s, a), p, a), p);
      }
    }
  }

  // ----- never early, never backward -----

  /** Wakes of the advance from `start` on are timely; times never decrease, up to `now`. */
  ghost predicate InTime(trace: seq<Serve>, start: nat, p: Params, now: real) {
    && start <= |trace|
    && (forall i :: start <= i < |trace| ==> Timely(p, trace[i].entry, trace[i].at))
    && (forall i, j :: 0 <= i < j < |trace| ==> trace[i].at <= trace[j].at)
    && (forall i :: 0 <= i < |trace| ==> trace[i].at <= now)
  }

  ghost predicate TraceOk(s: Config) {
    InTime(s.c.trace, s.start, s.p, s.c.now) && (!s.pc.Resting? ==> Members(s.c, s.p))
  }

  lemma InTimeSnoc(trace: seq<Serve>, start: nat, p: Params, now: real, v: Serve)
    requires InTime(trace, start, p, now) && Timely(p, v.entry, v.at) && now <= v.at
    ensures InTime(trace + [v], start, p, v.at)
  {}

  lemma InTimeLater(trace: seq<Serve>, start: nat, p: Params, now: real, later: real)
    requires InTime(trace, start, p, now) && now <= later
    ensures InTime(trace, start, p, later)
  {}

  lemma InTimeEnter(trace: seq<Serve>, start: nat, p: Params, q: Params, now: real)
    requires InTime(trace, start, p, now)
    ensures InTime(trace, |trace|, q, now)
  {}

  lemma ClientMembers(c: Clock, p: Params, m: Move)
    requires Members(c, p)
    ensures Members(Client(c, m), p) && Client(c, m).trace == c.trace && Client(c, m).now == c.now
  {}

  lemma PopMembers(f: Clock, p: Params)
    requires Members(f, p) && f.instant != {}
    ensures Members(Pop(f), p)
  {}

  lemma TickTraceOk(s: Config)
    requires Inv(s) && TraceOk(s) && (s.pc.Popping? || s.pc.Peeking?)
    ensures TraceOk(Step(s, Tick))
  {
    FindTimely(s.c, s.p);
    FindConserved(s.c, s.p);
    hide Find, Conserved, Timely, Members, InTime;
    var f := Find(s.c, s.p);
    InTimeLater(s.c.trace, s.start, s.p, s.c.now, f.now);
    InTimeLater(s.c.trace, s.start, s.p, s.c.now, s.p.t);
    if f.instant != {} {
      var w := Least(ByPriority, f.instant);
      assert w in f.instant;
      InTimeSnoc(s.c.trace, s.start, s.p, f.now, Serve(w, f.now, f.instantSeq, f.nextSeq));
      PopMembers(f, s.p);
    }
  }

  lemma StepTraceOk(s: Config, m: Move)
    requires Inv(s) && TraceOk(s)
    ensures TraceOk(Step(s, m))
  {
    if s.pc.Popping? || s.pc.Peeking? {
      if m.Tick? { TickTraceOk(s); }
    } else {
      if s.pc.Settling? { ClientMembers(s.c, s.p, m); }
      ClientNow(s.c, m);
      hide InTime, Members, Client, Conserved;
      if m.AdvanceTo? {
        InTimeEnter(s.c.trace, s.start, s.p, m.params, s.c.now);
        NoMembers(s.c, m.params);
      }
    }
  }

  lemma ClientNow(c: Clock, m: Move)
    ensures Client(c, m).trace == c.trace && Client(c, m).now == c.now
  {}

  lemma NoMembers(c: Clock, p: Params)
    ensures c.instant == {} && c.deferred == {} ==> Members(Begin(c), p)
  {}

  /** Every run: wakes happen at nondecreasing times, each not before its deadline unless the advance's
      target has been reached and the deadline lies within its tolerance. */
  lemma {:induction false} NeverEarly(s: Config, moves: seq<Move>)
    requires Inv(s) && TraceOk(s)
    ensures Inv(Run(s, moves)) && TraceOk(Run(s, moves))
    decreases |moves|
  {
    if moves != [] {
      StepInv(s, moves[0]);
      StepTraceOk(s, moves[0]);
      NeverEarly(Step(s, moves[0]), moves[1..]);
    }
  }

  lemma EveryRunTimely(t0: real, work: nat, moves: seq<Move>)
    ensures Inv(Run(Initial(t0, work), moves)) && TraceOk(Run(Initial(t0, work), moves))
  {
    EveryRunConserves(t0, work, []);
    NeverEarly(Initial(t0, work), moves);
  }

  // ----- completeness -----

  /** Nothing due by `t` is pending, except re-sleeps registered when time had reached `t`. */
  ghost predicate NoneLeft(c: Clock, p: Params) {
    c.now == p.t &&
    forall x :: x in c.heap && Live(c, x) ==>
      Lt(At(p.t), x.deadline) && (Near(x.deadline, p.t, p.tol) ==> p.t <= x.registeredAt)
  }

  /** A pass that finds no entry found none in the whole heap. */
  lemma EmptyFind(c: Clock, p: Params)
    requires Conserved(c) && ClosedAt(p.t, p.tol) && Find(c, p).instant == {}
    ensures forall x :: x in Find(c, p).heap && Live(c, x) ==> !Due(p, x) || Blocked(p, x)
  {
    var d := if c.anchor.None? then c else Collect(c, p, c.anchor.value);
    if c.anchor.Some? { CollectConserved(c, p, c.anchor.value); }
    assert Top(d, p).Some? ==> Find(c, p).instant != {} by { ReopenFinds(d, p); }
    TopForm(d, p);
    var f := Find(c, p);
    assert f == Skim(d, p).(anchor := None);
    hide Find, Conserved;
    forall x | x in f.heap && Live(c, x) ensures !Due(p, x) || Blocked(p, x) {
      assert x !in ReadyOf(d, p);
    }
  }

  /** An advance that returns normally has served everything due. */
  lemma CompletionLeavesNothing(s: Config)
    requires Inv(s) && TraceOk(s) && s.pc.Peeking? && Step(s, Tick).pc == Resting(Completed)
    requires ClosedAt(s.p.t, s.p.tol)
    ensures NoneLeft(Step(s, Tick).c, s.p)
  {
    hide Find, Conserved, InTime;
    var f := Find(s.c, s.p);
    EmptyFind(s.c, s.p);
    FindHistory(s.c, s.p);
    InstantNone(s.c);
    FindTimely(s.c, s.p);
  }

  lemma InstantNone(c: Clock)
    requires Conserved(c)
    ensures c.anchor.None? ==> c.instant == {}
  {}

  /** The second pass of `_pop_due` always finds something: the entry it opened the instant with. */
  lemma ReopenFinds(d: Clock, p: Params)
    requires Conserved(d) && d.instant == {}
    ensures Top(d, p).Some? ==> Reopen(d, p).instant != {}
  {
    if Top(d, p).Some? {
      var s, w := Skim(d, p), Top(d, p).value;
      var o := Open(s, w.deadline);
      TopEligible(d, p);
      forall y | y in o.heap && Eligible(o, p, y) && !Less(ByDeadline, w, y) ensures y == w {
        assert !Less(ByDeadline, y, w);
      }
      assert w in Joining(o, p, w.deadline);
      assert w in Collect(o, p, w.deadline).instant;
    }
  }

  lemma TopEligible(d: Clock, p: Params)
    requires Distinct(d.heap) && Top(d, p).Some?
    ensures Eligible(d, p, Top(d, p).value)
  {
    var s, w := Skim(d, p), Top(d, p).value;
    if !Eligible(d, p, w) {
      forall y | y in d.heap && Eligible(d, p, y) ensures Less(ByDeadline, w, y) {
        assert y in s.heap && !Less(ByDeadline, y, w);
      }
      assert false;
    }
  }

  /** A run whose target has a gap in its tolerance completes with a due sleeper left behind. */
  lemma GapLeavesOneBehind(p: Params) returns (moves: seq<Move>)
    requires p.tol.Valid() && 1 <= p.maxSettles && !ClosedCondition(p.t, p.tol)
    ensures var s := Run(Initial(p.t - 1.0, 0), moves);
      s.pc.Peeking? && s.p == p && Step(s, Tick).pc == Resting(Completed) && !NoneLeft(Step(s, Tick).c, p)
  {
    var a, b := NearHole(p.t, p.tol);
    var s0 := Initial(p.t - 1.0, 0);
    var ea := Entry(At(a), 0, 0, p.t - 1.0, false);
    var eb := Entry(At(b), 0, 1, p.t - 1.0, false);
    var s1 := Step(s0, Sleep(At(a), 0));
    var s2 := Step(s1, Sleep(At(b), 0));
    assert s2.c.heap == {ea, eb};
    var s3 := Step(Step(s2, AdvanceTo(p)), RoundDone(false));
    assert s3.pc.Popping?;
    assert Junk(s3.c, p, {}) == {};
    assert Skim(s3.c, p).heap == {ea, eb};
    assert IsLeast(ByDeadline, {ea, eb}, ea);
    LeastUnique(ByDeadline, {ea, eb}, ea);
    assert Top(s3.c, p) == None;
    var s5 := Step(Step(s3, Tick), RoundDone(false));
    assert s5.c == s3.c;
    assert eb in Step(s5, Tick).c.heap;
    moves := [Sleep(At(a), 0), Sleep(At(b), 0)] + [AdvanceTo(p), RoundDone(false)] + [Tick, RoundDone(false)];
    Run2(s0, Sleep(At(a), 0), Sleep(At(b), 0));
    Run2(s2, AdvanceTo(p), RoundDone(false));
    Run2(s3, Tick, RoundDone(false));
    RunAppend(s0, [Sleep(At(a), 0), Sleep(At(b), 0)] + [AdvanceTo(p), RoundDone(false)], [Tick, RoundDone(false)]);
    RunAppend(s0, [Sleep(At(a), 0), Sleep(At(b), 0)], [AdvanceTo(p), RoundDone(false)]);
  }

  lemma Run2(s: Config, m: Move, n: Move)
    ensures Run(s, [m, n]) == Step(Step(s, m), n)
  {
    assert [m, n][1..] == [n] && [n][1..] == [];
    assert Run(s, [m, n]) == Run(Step(s, m), [n]);
    assert Run(Step(s, m), [n]) == Run(Step(Step(s, m), n), []);
  }

  /** Completeness holds in every run with these arguments if and only if the target's tolerance has no gap. */
  lemma CompletenessIff(p: Params)
    requires p.tol.Valid() && 1 <= p.maxSettles
    ensures ClosedCondition(p.t, p.tol) <==>
      forall t0: real, work: nat, moves: seq<Move> ::
        var s := Run(Initial(t0, work), moves);
        s.p == p && s.pc.Peeking? && Step(s, Tick).pc == Resting(Completed) ==> NoneLeft(Step(s, Tick).c, p)
  {
    if ClosedCondition(p.t, p.tol) {
      ClosedAtIff(p.t, p.tol);
      forall t0: real, work: nat, moves: seq<Move>
        ensures var s := Run(Initial(t0, work), moves);
          s.p == p && s.pc.Peeking? && Step(s, Tick).pc == Resting(Completed) ==> NoneLeft(Step(s, Tick).c, p)
      {
        EveryRunTimely(t0, work, moves);
        var s := Run(Initial(t0, work), moves);
        if s.p == p && s.pc.Peeking? && Step(s, Tick).pc == Resting(Completed) {
          CompletionLeavesNothing(s);
        }
      }
    } else {
      var moves := GapLeavesOneBehind(p);
      var s := Run(Initial(p.t - 1.0, 0), moves);
    }
  }

  // ----- host work -----

  /** settle() answers False only when no host-tracked work is pending. */
  predicate Honest(s: Config, m: Move) {
    m == RoundDone(false) && s.p.hooked && s.pc.Settling? ==> s.work == 0
  }

  ghost predicate HonestRun(s: Config, moves: seq<Move>)
    decreases |moves|
  {
    moves == [] || (Honest(s, moves[0]) && HonestRun(Step(s, moves[0]), moves[1..]))
  }

  ghost predicate HostSafe(s: Config) {
    (s.pc.Popping? || s.pc.Peeking?) && s.p.hooked ==> s.work == 0
  }

  /** A step that wakes an entry or moves time, the final jump included, never happens over pending work. */
  lemma StepHostSafe(s: Config, m: Move)
    requires HostSafe(s) && Honest(s, m)
    ensures HostSafe(Step(s, m))
    ensures Step(s, m).c.now != s.c.now || Step(s, m).c.trace != s.c.trace ==> !s.pc.Resting? && (s.p.hooked ==> s.work == 0)
  {}

  /** In every run of an honest hook, whatever fails or times out in between. */
  lemma {:induction false} NoMoveOverHostWork(s: Config, moves: seq<Move>, m: Move)
    requires HostSafe(s) && HonestRun(s, moves + [m])
    ensures var e := Run(s, moves);
      HostSafe(e) && (e.p.hooked && 0 < e.work ==> Step(e, m).c.now == e.c.now && Step(e, m).c.trace == e.c.trace)
    decreases |moves|
  {
    if moves == [] {
      assert (moves + [m])[0] == m;
      StepHostSafe(s, m);
    } else {
      assert (moves + [m])[0] == moves[0] && (moves + [m])[1..] == moves[1..] + [m];
      StepHostSafe(s, moves[0]);
      NoMoveOverHostWork(Step(s, moves[0]), moves[1..], m);
    }
  }
}
