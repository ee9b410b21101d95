/** The tolerances for which instants are what they are meant to be: between 1 and 2 a relative tolerance lets a
    later deadline be close to an anchor while an earlier one is not, and then the heap hides a member. */
module Gaps {
  import opened Times
  import opened Entries
  import opened ClockModel
  import opened Instants
  import opened Runs
  import opened Drives
  import C = Conservation
  import F = FrozenInstants
  import R = Refinement
  import T = Termination

  predicate Sane(tol: Tolerance) {
    tol.rtol <= 1.0 || 2.0 <= tol.rtol
  }

  /** Three deadlines: the last is close to the first, the one in between is not. */
  datatype Hole = Hole(first: real, missed: real, last: real)

  predicate IsHole(h: Hole, tol: Tolerance) {
    && h.first < h.missed < h.last
    && IsClose(At(h.last), At(h.first), tol) && !IsClose(At(h.missed), At(h.first), tol)
  }

  lemma HoleExists(tol: Tolerance) returns (h: Hole)
    requires tol.Valid() && !Sane(tol)
    ensures IsHole(h, tol)
  {
    var c := -(tol.atol * (tol.rtol - 1.0) + 1.0);
    MulLe(tol.atol, 0.0, tol.rtol - 1.0);
    MulLe(-c, 1.0, tol.rtol);
    assert !ClosedCondition(c, tol) by {
      assert tol.atol * (tol.rtol - 1.0) < -c <= tol.rtol * -c;
    }
    var a, b := NearHole(c, tol);
    SlackNotNegative(a, c, tol);
    SlackNotNegative(b, c, tol);
    h := Hole(c, a, b);
  }

  lemma SlackNotNegative(a: real, b: real, tol: Tolerance)
    requires tol.Valid()
    ensures 0.0 <= Slack(a, b, tol) == Slack(b, a, tol)
  {}

  // ----- three sleepers -----

  function Sleeper(h: Hole, d: real, n: nat): Entry {
    Entry(At(d), 0, n, h.first - 1.0, false)
  }

  function First(h: Hole): Entry {
    Sleeper(h, h.first, 0)
  }

  function Missed(h: Hole): Entry {
    Sleeper(h, h.missed, 1)
  }

  function Last(h: Hole): Entry {
    Sleeper(h, h.last, 2)
  }

  function Target(h: Hole, tol: Tolerance): Params {
    Params(h.last, tol, false, 1)
  }

  /** The clock in which all three sleep, as the advance starts. */
  function Asleep(h: Hole): Clock {
    var all := {First(h), Missed(h), Last(h)};
    Clock(h.first - 1.0, all, 3, true, {}, None, NegInf, 0, {}, {}, all, [])
  }

  /** After the first pop, which found the first sleeper alone. */
  function FirstFound(h: Hole): Clock {
    Asleep(h).(now := h.first, heap := {Missed(h), Last(h)}, nextSeq := 4, anchor := Some(At(h.first)),
               end := At(h.first), instantSeq := 3, instant := {First(h)})
  }

  function FirstWoken(h: Hole): Clock {
    FirstFound(h).(instant := {}, trace := [Serve(First(h), h.first, 3, 4)])
  }

  lemma AllDue(h: Hole, tol: Tolerance, c: Clock)
    requires tol.Valid() && IsHole(h, tol) && c.cancelled == {}
    ensures Ready(c, Target(h, tol), First(h)) && Ready(c, Target(h, tol), Missed(h)) && Ready(c, Target(h, tol), Last(h))
  {}

  lemma AsleepFacts(h: Hole, tol: Tolerance)
    requires tol.Valid() && IsHole(h, tol)
    ensures var c, p := Asleep(h), Target(h, tol);
      && C.Conserved(c) && ReadyOf(c, p) == c.heap && Least(ByDeadline, c.heap) == First(h)
      && Reach(c, p, At(h.first)) == {First(h)} && Junk(c, p, {}) == {} && Junk(c, p, {First(h)}) == {}
  {
    var c, p := Asleep(h), Target(h, tol);
    AllDue(h, tol, c);
    assert C.ServedSet(c) == {};
    assert Less(ByDeadline, First(h), Missed(h)) && Less(ByDeadline, Missed(h), Last(h));
    LeastUnique(ByDeadline, c.heap, First(h));
    assert IsClose(At(h.first), At(h.first), tol);
  }

  lemma SkimsNothing(h: Hole, tol: Tolerance)
    requires tol.Valid() && IsHole(h, tol)
    ensures Skim(Asleep(h), Target(h, tol)) == Asleep(h) && Top(Asleep(h), Target(h, tol)) == Some(First(h))
  {
    var c, p := Asleep(h), Target(h, tol);
    AsleepFacts(h, tol);
    hide Junk, Least;
    assert c.heap - {} == c.heap && LiveOf(c, {}) == {} && c.deferred + {} == {};
    assert First(h) in ReadyOf(c, p);
  }

  /** A pass that takes one entry and drops none. */
  lemma TakesOne(o: Clock, p: Params, a: Time, x: Entry)
    requires Live(o, x) && o.instant == {} && x in o.heap && x.seqno < o.instantSeq
    requires Reach(o, p, a) == {x} && Junk(o, p, {x}) == {}
    ensures Collect(o, p, a) == o.(heap := o.heap - {x}, instant := {x}, end := MaxTime(o.end, x.deadline))
  {
    hide Reach, Junk, Latest, DeadTops;
    OneMember(o, x);
    assert Joining(o, p, a) == {x};
    assert o.heap - {} - {x} == o.heap - {x} && o.instant + {x} == {x} && {x} - {} == {x} && o.deferred + {} == o.deferred;
  }

  lemma FindsFirst(h: Hole, tol: Tolerance)
    requires tol.Valid() && IsHole(h, tol)
    ensures Find(Asleep(h), Target(h, tol)) == FirstFound(h)
  {
    var c, p := Asleep(h), Target(h, tol);
    SkimsNothing(h, tol);
    AsleepFacts(h, tol);
    var o := Open(c, At(h.first));
    SameReach(c, o, p, At(h.first));
    TakesOne(o, p, At(h.first), First(h));
    hide Skim, Top, Collect;
    assert o.heap - {First(h)} == {Missed(h), Last(h)};
  }

  lemma SameReach(c: Clock, o: Clock, p: Params, a: Time)
    requires o.heap == c.heap && o.cancelled == c.cancelled
    ensures Reach(o, p, a) == Reach(c, p, a) && Junk(o, p, Reach(c, p, a)) == Junk(c, p, Reach(c, p, a))
  {}

  lemma PopsFirst(h: Hole)
    ensures Pop(FirstFound(h)) == FirstWoken(h)
  {
    LeastUnique(ByPriority, {First(h)}, First(h));
  }

  lemma OneMember(c: Clock, x: Entry)
    requires Live(c, x)
    ensures Latest({x}) == x.deadline && DeadTops(c, ByPriority, {x}) == {} && LiveOf(c, {}) == {}
  {}

  // ----- the gathering loop and the pop -----

  /** The gathering loop reaches every due entry close to the anchor, at exactly the sane tolerances. */
  lemma ReachIff(tol: Tolerance)
    requires tol.Valid()
    ensures Sane(tol) <==>
      forall c: Clock, p: Params, a: Time | p.tol == tol && forall x :: x in c.heap && Ready(c, p, x) ==> Le(a, x.deadline) ::
        Reach(c, p, a) == CloseTo(ReadyOf(c, p), a, tol)
  {
    if Sane(tol) {
      RegularIff(tol);
      forall c: Clock, p: Params, a: Time | p.tol == tol && forall x :: x in c.heap && Ready(c, p, x) ==> Le(a, x.deadline)
        ensures Reach(c, p, a) == CloseTo(ReadyOf(c, p), a, tol)
      {
        ReachForm(c, p, a);
      }
    } else {
      var h := HoleExists(tol);
      var c, p, a := Asleep(h), Target(h, tol), At(h.first);
      AsleepFacts(h, tol);
      hide Reach, Ready;
      assert Last(h) in CloseTo(ReadyOf(c, p), a, tol);
      assert forall x :: x in c.heap ==> Le(a, x.deadline);
      assert Reach(c, p, a) != CloseTo(ReadyOf(c, p), a, tol);
    }
  }

  /** An advance about to look for its first instant. */
  ghost predicate Starting(c: Clock, p: Params) {
    C.Conserved(c) && c.anchor == None && c.deferred == {} && c.now <= p.t
  }

  /** The next instant is the due entries close to the earliest, at exactly the sane tolerances. */
  lemma FormIff(tol: Tolerance)
    requires tol.Valid()
    ensures Sane(tol) <==>
      forall c: Clock, p: Params | p.tol == tol && Starting(c, p) && ReadyOf(c, p) != {} :: Opened(c, Find(c, p), p)
  {
    if Sane(tol) {
      RegularIff(tol);
      forall c: Clock, p: Params | p.tol == tol && Starting(c, p) && ReadyOf(c, p) != {} ensures Opened(c, Find(c, p), p) {
        assert c.instant == {};
        FindForm(c, p);
      }
    } else {
      var h := HoleExists(tol);
      var c, p := Asleep(h), Target(h, tol);
      AsleepFacts(h, tol);
      FindsFirst(h, tol);
      assert Last(h) in CloseTo(ReadyOf(c, p), At(h.first), tol);
      assert !Opened(c, Find(c, p), p);
    }
  }

  /** Due deadlines within the absolute tolerance of the earliest one, or within the relative one, wake in one instant,
      at the latest of its deadlines or at the target. */
  lemma CloseTogether(c: Clock, p: Params, x: Entry, y: Entry)
    requires p.tol.Valid() && Sane(p.tol) && Starting(c, p) && x in ReadyOf(c, p) && y in ReadyOf(c, p)
    requires x.deadline.At? && y.deadline.At? && forall z :: z in ReadyOf(c, p) ==> Le(x.deadline, z.deadline)
    requires y.deadline.r - x.deadline.r <= p.tol.atol || y.deadline.r - x.deadline.r <= p.tol.rtol * Abs(y.deadline.r)
    ensures var f := Find(c, p);
      && x in f.instant && y in f.instant && c.now <= f.now
      && (c.now < f.now ==> f.now == p.t || exists z :: z in f.instant && z.deadline == At(f.now))
      && forall z :: z in f.instant ==> Le(z.deadline, At(f.now)) || f.now == p.t
  {
    hide Find, C.Conserved, IsClose, Opened, ReadyOf, Starting;
    StartsOpened(c, p);
    Closes(x.deadline, y.deadline, p.tol);
    OpensWith(c, Find(c, p), p, x, x);
    OpensWith(c, Find(c, p), p, x, y);
    OpensAt(c, Find(c, p), p);
  }

  lemma Closes(a: Time, b: Time, tol: Tolerance)
    requires tol.Valid() && a.At? && b.At? && a.r <= b.r
    requires b.r - a.r <= tol.atol || b.r - a.r <= tol.rtol * Abs(b.r)
    ensures IsClose(a, a, tol) && IsClose(b, a, tol)
  {
    IsCloseIff(b, a, tol);
    hide IsClose;
    IsCloseIff(a, a, tol);
  }

  lemma StartsOpened(c: Clock, p: Params)
    requires p.tol.Valid() && Sane(p.tol) && Starting(c, p) && ReadyOf(c, p) != {}
    ensures Opened(c, Find(c, p), p) && c.now <= Find(c, p).now && c.now <= p.t
  {
    RegularIff(p.tol);
    assert c.instant == {};
    FindForm(c, p);
    FindPhase(c, p);
  }

  lemma OpensWith(c: Clock, f: Clock, p: Params, x: Entry, y: Entry)
    requires Opened(c, f, p) && x in ReadyOf(c, p) && y in ReadyOf(c, p) && IsClose(y.deadline, x.deadline, p.tol)
    requires forall z :: z in ReadyOf(c, p) ==> Le(x.deadline, z.deadline)
    ensures y in f.instant
  {
    hide IsClose, ReadyOf;
    var w := Least(ByDeadline, ReadyOf(c, p));
    assert w.deadline == x.deadline by { assert !Less(ByDeadline, x, w) && Le(x.deadline, w.deadline); }
  }

  lemma OpensAt(c: Clock, f: Clock, p: Params)
    requires Opened(c, f, p)
    ensures c.now < f.now ==> f.now == p.t || exists z :: z in f.instant && z.deadline == At(f.now)
    ensures forall z :: z in f.instant ==> Le(z.deadline, At(f.now)) || f.now == p.t || p.t < c.now
  {
    hide ReadyOf, CloseTo;
    LatestBounds(f.instant);
  }

  // ----- the plan -----

  lemma {:induction false} ApplyAllTrace(c: Clock, ms: seq<Move>)
    ensures ApplyAll(c, ms).trace == c.trace
    decreases |ms|
  {
    if ms != [] {
      F.ClientExtends(c, ms[0]);
      ApplyAllTrace(Client(c, ms[0]), ms[1..]);
    }
  }

  lemma CycleTrace(c: Clock, p: Params, react: seq<Serve> -> seq<Move>)
    requires Find(c, p).instant != {}
    ensures c.trace <= Cycle(c, p, react).trace
  {
    T.SameTrace(c, p);
    ApplyAllTrace(Pop(Find(c, p)), react(Pop(Find(c, p)).trace));
    hide Find, Least;
  }

  /** What has been served stays served. */
  lemma {:induction false} DriveGrows(c: Clock, p: Params, react: seq<Serve> -> seq<Move>, n: nat)
    ensures c.trace <= Drive(c, p, react, n).0.trace
    decreases n
  {
    hide Find, Cycle, Finish;
    T.SameTrace(c, p);
    if n != 0 && Find(c, p).instant != {} {
      CycleTrace(c, p, react);
      DriveGrows(Cycle(c, p, react), p, react, n - 1);
    }
  }

  lemma FirstCycle(h: Hole, tol: Tolerance)
    requires tol.Valid() && IsHole(h, tol)
    ensures Find(Asleep(h), Target(h, tol)).instant != {} && Cycle(Asleep(h), Target(h, tol), R.Quiet) == FirstWoken(h)
  {
    FindsFirst(h, tol);
    PopsFirst(h);
  }

  lemma QuietIsSpaced()
    ensures T.SpacedReact(R.Quiet, 1.0)
  {}

  lemma AsleepOngoing(h: Hole, tol: Tolerance)
    requires tol.Valid() && IsHole(h, tol)
    ensures T.Ongoing(Asleep(h), Target(h, tol))
  {
    AsleepFacts(h, tol);
  }

  lemma QuietEnds(h: Hole, tol: Tolerance) returns (n: nat)
    requires tol.Valid() && IsHole(h, tol)
    ensures Drive(Asleep(h), Target(h, tol), R.Quiet, n).1
    ensures var trace := Drive(Asleep(h), Target(h, tol), R.Quiet, n).0.trace;
      trace != [] && trace[0] == Serve(First(h), h.first, 3, 4)
  {
    hide Find, Cycle, T.Ongoing, T.SpacedReact, T.Total, T.Owed, Finish;
    var c, p := Asleep(h), Target(h, tol);
    AsleepOngoing(h, tol);
    QuietIsSpaced();
    n := T.Total(p, 1.0, c.now, T.Owed(c, p)) + 1;
    T.AdvanceTerminates(c, p, R.Quiet, 1.0, n);
    FirstCycle(h, tol);
    DriveGrows(FirstWoken(h), p, R.Quiet, n - 1);
    assert Drive(c, p, R.Quiet, n) == Drive(FirstWoken(h), p, R.Quiet, n - 1);
    hide Drive;
    assert FirstWoken(h).trace[0] == Serve(First(h), h.first, 3, 4);
  }

  /** The plan serves the first sleeper with the last one. */
  lemma PlansTogether(h: Hole, tol: Tolerance)
    requires tol.Valid() && IsHole(h, tol)
    ensures var plan := R.Pending(Asleep(h), Target(h, tol)); plan != [] && plan[0].at == h.last
  {
    var c, p := Asleep(h), Target(h, tol);
    AsleepFacts(h, tol);
    var due := ReadyOf(c, p);
    var members := R.FirstInstant(due, tol);
    assert Last(h) in members && forall x :: x in members ==> Le(x.deadline, At(h.last));
    LatestBounds(members);
    assert Latest(members) == At(h.last);
    assert R.ByPrio(members) != [];
    assert LiveOf(c, c.instant) == {} && R.StampAll(R.ByPrio({}), c.now) == [];
  }

  /** Quiet clients are served by the plan, at exactly the sane tolerances. */
  lemma PlanIff(tol: Tolerance)
    requires tol.Valid()
    ensures Sane(tol) <==>
      forall c: Clock, p: Params, n: nat | p.tol == tol && Starting(c, p) && Drive(c, p, R.Quiet, n).1 ::
        R.Stamps(Drive(c, p, R.Quiet, n).0.trace) == R.Stamps(c.trace) + R.Pending(c, p)
  {
    if Sane(tol) {
      RegularIff(tol);
      forall c: Clock, p: Params, n: nat | p.tol == tol && Starting(c, p) && Drive(c, p, R.Quiet, n).1
        ensures R.Stamps(Drive(c, p, R.Quiet, n).0.trace) == R.Stamps(c.trace) + R.Pending(c, p)
      {
        R.QuietAdvanceIsPlan(c, p, n);
      }
    } else {
      var h := HoleExists(tol);
      AsleepFacts(h, tol);
      var n := QuietEnds(h, tol);
      PlansTogether(h, tol);
      var c, p := Asleep(h), Target(h, tol);
      hide Drive, R.Pending, ReadyOf;
      assert R.Stamps(Drive(c, p, R.Quiet, n).0.trace)[0].at == h.first;
      assert R.Stamps(c.trace) + R.Pending(c, p) == R.Pending(c, p);
    }
  }

  // ----- whole runs -----

  predicate AllWith(moves: seq<Move>, tol: Tolerance) {
    forall m :: m in moves && m.AdvanceTo? ==> m.params.tol == tol
  }

  /** The second sleeper is cancelled by the first: the third, registered with them, joins the open instant late. */
  function Cancelled(h: Hole): Clock {
    FirstWoken(h).(heap := {Last(h)}, cancelled := {1})
  }

  function LastFound(h: Hole): Clock {
    Cancelled(h).(now := h.last, heap := {}, end := At(h.last), instant := {Last(h)})
  }

  lemma CancelsMissed(h: Hole, tol: Tolerance)
    requires IsHole(h, tol)
    ensures CancelSleep(FirstWoken(h), 1) == Cancelled(h)
  {
    var c := FirstWoken(h);
    assert Missed(h) in c.known && !Served(c, Missed(h));
    assert Less(ByDeadline, Missed(h), Last(h));
    assert DeadTops(c.(cancelled := {1}), ByDeadline, c.heap) == {Missed(h)};
    assert c.cancelled + {1} == {1} && c.heap - {Missed(h)} == {Last(h)};
  }

  lemma FindsLast(h: Hole, tol: Tolerance)
    requires tol.Valid() && IsHole(h, tol)
    ensures Find(Cancelled(h), Target(h, tol)) == LastFound(h)
  {
    var c, p, a := Cancelled(h), Target(h, tol), At(h.first);
    assert Due(p, Last(h)) && !Blocked(p, Last(h));
    assert Reach(c, p, a) == {Last(h)};
    assert Junk(c, p, {Last(h)}) == {};
    TakesOne(c, p, a, Last(h));
    hide Collect;
    assert c.heap - {Last(h)} == {};
  }

  lemma PopsLast(h: Hole)
    ensures Pop(LastFound(h)).trace == [Serve(First(h), h.first, 3, 4), Serve(Last(h), h.last, 3, 4)]
  {
    LeastUnique(ByPriority, {Last(h)}, Last(h));
  }

  function Slept(h: Hole): Config {
    Config(Asleep(h).(advancing := false), Resting(Outcome.Fresh), Params(h.first - 1.0, ZERO_TOLERANCE, false, 1), 0, 0)
  }

  lemma Sleeps(h: Hole) returns (moves: seq<Move>)
    requires h.first < h.missed < h.last
    ensures Run(Initial(h.first - 1.0, 0), moves) == Slept(h) && forall m :: m in moves ==> !m.AdvanceTo?
  {
    var s := Initial(h.first - 1.0, 0);
    moves := [Sleep(At(h.first), 0)] + [Sleep(At(h.missed), 0)] + [Sleep(At(h.last), 0)];
    Run1(s, Sleep(At(h.first), 0));
    RunSnoc(s, [Sleep(At(h.first), 0)], Sleep(At(h.missed), 0));
    RunSnoc(s, [Sleep(At(h.first), 0)] + [Sleep(At(h.missed), 0)], Sleep(At(h.last), 0));
    assert {} + {First(h)} + {Missed(h)} + {Last(h)} == Asleep(h).heap;
  }

  function Woken(h: Hole, tol: Tolerance): Config {
    Config(FirstWoken(h), Settling(Wake, 0), Target(h, tol), 0, 0)
  }

  lemma StepEnters(h: Hole, tol: Tolerance)
    requires tol.Valid() && IsHole(h, tol)
    ensures Step(Slept(h), AdvanceTo(Target(h, tol))) == Config(Asleep(h), Popping, Target(h, tol), 0, 0)
  {}

  lemma StepPops(h: Hole, tol: Tolerance)
    requires tol.Valid() && IsHole(h, tol)
    ensures Step(Config(Asleep(h), Popping, Target(h, tol), 0, 0), Tick) == Woken(h, tol)
  {
    FindsFirst(h, tol);
    PopsFirst(h);
  }

  lemma StepCancels(h: Hole, tol: Tolerance)
    requires tol.Valid() && IsHole(h, tol)
    ensures var s := Woken(h, tol).(c := Cancelled(h));
      Step(Woken(h, tol), DropSleep(1)) == s && Step(s, RoundDone(false)) == s.(pc := Popping)
  {
    CancelsMissed(h, tol);
  }

  lemma StepJoins(h: Hole, tol: Tolerance)
    requires tol.Valid() && IsHole(h, tol)
    ensures Step(Woken(h, tol).(c := Cancelled(h), pc := Popping), Tick).c.trace
         == [Serve(First(h), h.first, 3, 4), Serve(Last(h), h.last, 3, 4)]
  {
    FindsLast(h, tol);
    PopsLast(h);
  }

  /** The last sleeper wakes in the first one's instant, at another time. */
  lemma WakesApart(h: Hole, tol: Tolerance) returns (moves: seq<Move>)
    requires tol.Valid() && IsHole(h, tol)
    ensures AllWith(moves, tol)
    ensures Run(Slept(h), moves).c.trace == [Serve(First(h), h.first, 3, 4), Serve(Last(h), h.last, 3, 4)]
  {
    hide Step, Run, Slept, Woken, Asleep, Cancelled;
    var p, s := Target(h, tol), Slept(h);
    StepEnters(h, tol);
    StepPops(h, tol);
    StepCancels(h, tol);
    StepJoins(h, tol);
    var one, two := [AdvanceTo(p)], [AdvanceTo(p)] + [Tick];
    var three, four := two + [DropSleep(1)], two + [DropSleep(1)] + [RoundDone(false)];
    Run1(s, AdvanceTo(p));
    RunSnoc(s, one, Tick);
    RunSnoc(s, two, DropSleep(1));
    RunSnoc(s, three, RoundDone(false));
    RunSnoc(s, four, Tick);
    moves := four + [Tick];
  }

  /** The instants of a run are what they promise: one time each, in order, and nothing in them is for later. */
  ghost predicate Promised(trace: seq<Serve>) {
    && (forall i, j :: 0 <= i < j < |trace| ==> F.Ordered(trace[i], trace[j]))
    && (forall i :: 0 <= i < |trace| ==> F.OnlyDue(trace[i]))
  }

  /** In all runs with a tolerance instants are so, at exactly the sane tolerances. */
  lemma FrozenIff(tol: Tolerance)
    requires tol.Valid()
    ensures Sane(tol) <==>
      forall t0: real, work: nat, moves: seq<Move> | AllWith(moves, tol) :: Promised(Run(Initial(t0, work), moves).c.trace)
  {
    if Sane(tol) {
      forall t0: real, work: nat, moves: seq<Move> | AllWith(moves, tol) ensures Promised(Run(Initial(t0, work), moves).c.trace) {
        var trace := Run(Initial(t0, work), moves).c.trace;
        forall i, j | 0 <= i < j < |trace| ensures F.Ordered(trace[i], trace[j]) {
          F.InstantsAreFrozen(t0, work, moves, i, j);
        }
        forall i | 0 <= i < |trace| ensures F.OnlyDue(trace[i]) { F.LaterInstants(t0, work, moves, i); }
      }
    } else {
      var h := HoleExists(tol);
      var first := Sleeps(h);
      var later := WakesApart(h, tol);
      RunAppend(Initial(h.first - 1.0, 0), first, later);
      var trace := Run(Initial(h.first - 1.0, 0), first + later).c.trace;
      assert AllWith(first + later, tol);
      assert !F.Ordered(trace[0], trace[1]);
    }
  }
}
