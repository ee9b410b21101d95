/** When a retry keeps the order: exactly if what is left of the open instant is in the order of the queue. */
module Retries {
  import opened Times
  import opened Entries
  import opened ClockModel
  import opened Instants
  import opened Runs
  import opened Drives
  import opened Refinement
  import opened Burst
  import opened ZeroTolerance
  import opened Resumption
  import C = Conservation
  import P = Promptness

  /** The live part of the open instant comes in the order of (deadline, priority, registration), before the heap. */
  ghost predicate InOrder(c: Clock) {
    forall x, y :: x in LiveOf(c, c.instant) && y in Queue(c) && x != y ==>
      if y in c.instant then Prior(x, y) ==> Less(ByDeadline, x, y) else Less(ByDeadline, x, y)
  }

  /** The clock with which a failed advance is retried. */
  function Retry(c: Clock): Clock {
    Begin(Restore(c))
  }

  /** An instant that nobody joined late is in order. */
  lemma JoinlessInOrder(c: Clock, p: Params)
    requires Driving(c, p) && NoJoins(c)
    ensures InOrder(c)
  {
    hide C.Conserved;
    ZeroCloseness(p);
    InstantOfQueue(c, p);
    forall x, y | x in LiveOf(c, c.instant) && y in Queue(c) && y !in c.instant ensures Less(ByDeadline, x, y) {
      assert c.anchor == Some(x.deadline) && y in c.heap && Live(c, y);
      if Due(p, y) { assert Ready(c, p, y); }
    }
  }

  /** Everything in the open instant is due by `now()`. */
  lemma InstantReached(c: Clock, p: Params, x: Entry)
    requires Driving(c, p) && x in c.instant
    ensures Le(x.deadline, At(c.now)) && Arrival(p, c.now, x.deadline) == c.now
  {
    hide C.Conserved;
    ZeroCloseness(p);
  }

  /** What is left after the instant's next wake. */
  lemma FrozenNext(c: Clock, f: Clock, p: Params)
    requires Driving(c, p) && LiveOf(c, c.instant) != {} && c.anchor.Some? && Frozen(c, f, p)
    ensures var w, g := Least(ByPriority, f.instant), Pop(f);
      && w == Least(ByPriority, LiveOf(c, c.instant)) && w in LiveOf(c, c.instant) && g.now == c.now
      && LiveOf(g, g.heap) == LiveOf(c, c.heap) && LiveOf(g, g.instant) == LiveOf(c, c.instant) - {w}
      && Queue(g) == Queue(c) - {w} && g.heap <= c.heap && g.instant <= c.instant
  {
    hide C.Conserved;
    ZeroCloseness(p);
    var g := Pop(f);
    assert LiveOf(g, g.heap) == LiveOf(c, c.heap);
    assert LiveOf(g, g.instant) == LiveOf(c, c.instant) - {Least(ByPriority, f.instant)};
  }

  /** A clock whose next wake and what remains are those of the queue. */
  ghost predicate Serves(c: Clock, f: Clock, p: Params) {
    var q := Queue(c);
    if f.instant == {} then forall x :: x in q ==> Lt(At(p.t), x.deadline)
    else
      var w := Least(ByPriority, f.instant);
      && q != {} && w == Least(ByDeadline, q) && Le(w.deadline, At(p.t))
      && f.now == Arrival(p, c.now, w.deadline) && Queue(Pop(f)) == q - {w} && InOrder(Pop(f))
  }

  lemma FrozenInOrder(c: Clock, f: Clock, p: Params)
    requires Driving(c, p) && InOrder(c) && LiveOf(c, c.instant) != {} && c.anchor.Some? && Frozen(c, f, p)
    ensures Serves(c, f, p)
  {
    FrozenNext(c, f, p);
    var w, g := Least(ByPriority, f.instant), Pop(f);
    InstantReached(c, p, w);
    assert Distinct(c.known) && Queue(c) <= c.known;
    forall y | y in Queue(c) ensures !Less(ByDeadline, y, w) {
      if y in c.instant && y != w { assert !Prior(y, w) && Prior(w, y); }
    }
    LeastUnique(ByDeadline, Queue(c), w);
    forall x, y | x in LiveOf(g, g.instant) && y in Queue(g) && x != y
      ensures if y in g.instant then Prior(x, y) ==> Less(ByDeadline, x, y) else Less(ByDeadline, x, y)
    {
      assert x in LiveOf(c, c.instant) && y in Queue(c);
      assert y in c.instant ==> y in LiveOf(g, g.instant);
    }
  }

  lemma OpenedInOrder(c: Clock, f: Clock, p: Params)
    requires Driving(c, p) && LiveOf(c, c.instant) == {} && Opened(c, f, p) && Equal(f) && Driving(Pop(f), p)
    ensures Serves(c, f, p)
  {
    OpenedLeast(c, f, p);
    JoinlessInOrder(Pop(f), p);
  }

  lemma FindInOrder(c: Clock, p: Params)
    requires Driving(c, p) && InOrder(c)
    ensures Serves(c, Find(c, p), p) && (Find(c, p).instant != {} ==> Driving(Pop(Find(c, p)), p))
  {
    var f := Find(c, p);
    FindForm(c, p);
    FindEqual(c, p);
    if f.instant != {} { PopDrives(c, p); }
    if LiveOf(c, c.instant) != {} {
      FrozenInOrder(c, f, p);
    } else if ReadyOf(c, p) != {} {
      OpenedInOrder(c, f, p);
    } else {
      ZeroCloseness(p);
      forall x | x in Queue(c) ensures Lt(At(p.t), x.deadline) {
        assert x !in ReadyOf(c, p);
      }
    }
  }

  lemma PopDrives(c: Clock, p: Params)
    requires Driving(c, p) && Find(c, p).instant != {}
    ensures Driving(Pop(Find(c, p)), p)
  {
    CycleDriving(c, p, Quiet);
    assert Cycle(c, p, Quiet) == Pop(Find(c, p));
  }

  lemma RetryInOrder(c: Clock, p: Params)
    requires Driving(c, p)
    ensures var d := Retry(c);
      Driving(d, p) && InOrder(d) && Queue(d) == Queue(c) && d.now == c.now && d.instant == {} && d.anchor == None
  {
    C.RestoreConserved(c);
    assert C.ServedSet(Retry(c)) == C.ServedSet(c);
  }

  // ----- the first wake -----

  lemma AdvanceNext(c: Clock, p: Params)
    requires Driving(c, p) && LiveOf(c, c.instant) != {}
    ensures var f, x := Find(c, p), Least(ByPriority, LiveOf(c, c.instant));
      && f.instant != {} && f.now == c.now && Least(ByPriority, f.instant) == x
      && LiveOf(Pop(f), Pop(f).instant) == LiveOf(c, c.instant) - {x} && Queue(Pop(f)) == Queue(c) - {x}
      && Pop(f).instant <= c.instant && Pop(f).heap <= c.heap && Pop(f).now == c.now
    ensures var x := Least(ByPriority, LiveOf(c, c.instant));
      x in Queue(c) && Le(x.deadline, At(c.now)) && c.now <= p.t
  {
    FindForm(c, p);
    FrozenNext(c, Find(c, p), p);
    InstantReached(c, p, Least(ByPriority, LiveOf(c, c.instant)));
  }

  lemma RetryNext(c: Clock, p: Params)
    requires Driving(c, p) && exists x :: x in Queue(c) && Le(x.deadline, At(c.now))
    ensures var g := Find(Retry(c), p);
      && g.instant != {} && g.now == c.now && Queue(c) != {} && Least(ByPriority, g.instant) == Least(ByDeadline, Queue(c))
      && Driving(Pop(g), p) && InOrder(Pop(g)) && Queue(Pop(g)) == Queue(c) - {Least(ByDeadline, Queue(c))}
  {
    hide Find, C.Conserved, InOrder, Queue, Pop, Retry;
    RetryInOrder(c, p);
    FindInOrder(Retry(c), p);
    var x :| x in Queue(c) && Le(x.deadline, At(c.now));
    EarlyLeast(c, p, x);
  }

  /** With any late joins, the retry's first wake is the wake the advance would have gone on with, exactly if the
      instant's next entry is the least of the queue. */
  lemma FirstWakeIff(c: Clock, p: Params)
    requires Driving(c, p) && LiveOf(c, c.instant) != {}
    ensures var f, g := Find(c, p), Find(Retry(c), p);
      && f.instant != {} && g.instant != {} && Queue(c) != {} && g.now == f.now == c.now
      && (Least(ByPriority, f.instant) == Least(ByPriority, g.instant)
          <==> Least(ByPriority, LiveOf(c, c.instant)) == Least(ByDeadline, Queue(c)))
  {
    hide Find, Driving, InOrder, Queue, Pop, Retry, LiveOf;
    AdvanceNext(c, p);
    RetryNext(c, p);
  }

  lemma EarlyLeast(c: Clock, p: Params, x: Entry)
    requires x in Queue(c) && Le(x.deadline, At(c.now)) && c.now <= p.t
    ensures var w := Least(ByDeadline, Queue(c)); Le(w.deadline, At(c.now)) && Arrival(p, c.now, w.deadline) == c.now
  {
    assert !Less(ByDeadline, x, Least(ByDeadline, Queue(c)));
  }

  // ----- all the wakes -----

  /** Clients that do nothing for `n` wakes. */
  function Silence(n: nat): seq<seq<Move>> {
    if n == 0 then [] else [[]] + Silence(n - 1)
  }

  lemma WakesSilent(c: Clock, p: Params, n: nat)
    ensures Wakes(c, p, Silence(n)) ==
      if n == 0 || Find(c, p).instant == {} then []
      else [Stamp(Least(ByPriority, Find(c, p).instant), Find(c, p).now)] + Wakes(Pop(Find(c, p)), p, Silence(n - 1))
  {
    hide Find;
    if n != 0 && Find(c, p).instant != {} {
      assert Silence(n)[0] == [] && Silence(n)[1..] == Silence(n - 1);
      assert ApplyAll(Pop(Find(c, p)), []) == Pop(Find(c, p));
    }
  }

  /** Clocks in order with one queue and one time make the same wakes. */
  lemma {:induction false} SameSilence(c: Clock, d: Clock, p: Params, n: nat)
    requires Driving(c, p) && Driving(d, p) && InOrder(c) && InOrder(d) && Queue(d) == Queue(c) && d.now == c.now
    ensures Wakes(c, p, Silence(n)) == Wakes(d, p, Silence(n))
    decreases n
  {
    hide Driving, InOrder, Find, Queue, Wakes, Serves, Pop;
    WakesSilent(c, p, n);
    WakesSilent(d, p, n);
    FindInOrder(c, p);
    FindInOrder(d, p);
    ServesBoth(c, d, Find(c, p), Find(d, p), p);
    if n != 0 && Find(c, p).instant != {} {
      PopTime(Find(c, p));
      PopTime(Find(d, p));
      SameSilence(Pop(Find(c, p)), Pop(Find(d, p)), p, n - 1);
    }
  }

  lemma ServesBoth(c: Clock, d: Clock, f: Clock, g: Clock, p: Params)
    requires Serves(c, f, p) && Serves(d, g, p) && Queue(d) == Queue(c) && d.now == c.now
    ensures f.instant == {} <==> g.instant == {}
    ensures f.instant != {} ==>
      && Least(ByPriority, f.instant) == Least(ByPriority, g.instant) && f.now == g.now
      && Queue(Pop(f)) == Queue(Pop(g)) && InOrder(Pop(f)) && InOrder(Pop(g))
  {
    hide InOrder, Queue, Pop;
    assert Queue(c) != {} ==> Least(ByDeadline, Queue(c)) in Queue(c);
  }

  ghost predicate SameWakes(c: Clock, d: Clock, p: Params) {
    forall n: nat :: Wakes(c, p, Silence(n)) == Wakes(d, p, Silence(n))
  }

  /** Equal wakes begin with one wake, and go on equal. */
  lemma SameOn(c: Clock, d: Clock, p: Params)
    requires SameWakes(c, d, p) && Find(c, p).instant != {} && Find(d, p).instant != {}
    ensures Least(ByPriority, Find(c, p).instant) == Least(ByPriority, Find(d, p).instant)
    ensures SameWakes(Pop(Find(c, p)), Pop(Find(d, p)), p)
  {
    hide Find, Pop, Wakes, Silence;
    WakesSilent(c, p, 1);
    WakesSilent(d, p, 1);
    assert Wakes(c, p, Silence(1))[0] == Wakes(d, p, Silence(1))[0];
    forall n: nat ensures Wakes(Pop(Find(c, p)), p, Silence(n)) == Wakes(Pop(Find(d, p)), p, Silence(n)) {
      WakesSilent(c, p, n + 1);
      WakesSilent(d, p, n + 1);
      assert Wakes(c, p, Silence(n + 1)) == Wakes(d, p, Silence(n + 1));
      assert Wakes(c, p, Silence(n + 1))[1..] == Wakes(d, p, Silence(n + 1))[1..];
    }
  }

  /** What is left in order, after the queue's least, was in order. */
  lemma InOrderBefore(c: Clock, g: Clock, p: Params)
    requires Driving(c, p) && InOrder(g) && LiveOf(c, c.instant) != {}
    requires var w := Least(ByPriority, LiveOf(c, c.instant));
      && w == Least(ByDeadline, Queue(c)) && LiveOf(g, g.instant) == LiveOf(c, c.instant) - {w} && Queue(g) == Queue(c) - {w}
    requires g.instant <= c.instant
    ensures InOrder(c)
  {
    var w := Least(ByPriority, LiveOf(c, c.instant));
    assert Distinct(c.known) && Queue(c) <= c.known;
    forall x, y | x in LiveOf(c, c.instant) && y in Queue(c) && x != y
      ensures if y in c.instant then Prior(x, y) ==> Less(ByDeadline, x, y) else Less(ByDeadline, x, y)
    {
      if x == w {
        assert !Less(ByDeadline, y, w);
      } else if y != w {
        assert x in LiveOf(g, g.instant) && y in Queue(g);
      } else {
        assert !Prior(x, w);
      }
    }
  }

  lemma {:induction false} OrderNeeded(c: Clock, p: Params)
    requires Driving(c, p) && SameWakes(c, Retry(c), p)
    ensures InOrder(c)
    decreases LiveOf(c, c.instant)
  {
    hide Driving, InOrder, Find, Queue, Pop, Retry, SameWakes, Wakes;
    if LiveOf(c, c.instant) == {} {
      NothingOpen(c);
    } else {
      var x := Least(ByPriority, LiveOf(c, c.instant));
      AdvanceNext(c, p);
      RetryNext(c, p);
      SameOn(c, Retry(c), p);
      var g, h := Pop(Find(c, p)), Pop(Find(Retry(c), p));
      PopDrives(c, p);
      PopTime(Find(Retry(c), p));
      RetryInOrder(g, p);
      RetryLike(g, h, p);
      OrderNeeded(g, p);
      InOrderBefore(c, g, p);
    }
  }

  lemma PopTime(f: Clock)
    requires f.instant != {}
    ensures Pop(f).now == f.now
  {}

  lemma NothingOpen(c: Clock)
    requires LiveOf(c, c.instant) == {}
    ensures InOrder(c)
  {}

  lemma RetryLike(g: Clock, h: Clock, p: Params)
    requires Driving(g, p) && Driving(h, p) && InOrder(h) && Queue(h) == Queue(g) && h.now == g.now && SameWakes(g, h, p)
    ensures SameWakes(g, Retry(g), p)
  {
    hide Driving, InOrder, Queue, Retry, Wakes, Silence;
    RetryInOrder(g, p);
    forall n: nat ensures Wakes(g, p, Silence(n)) == Wakes(Retry(g), p, Silence(n)) {
      SameSilence(Retry(g), h, p, n);
    }
  }

  /** With zero tolerance and any late joins: a failed advance, retried while clients are silent, makes the wakes it
      would have gone on to make, exactly if what is left of the instant is in the order of the queue. */
  lemma ResumesIff(c: Clock, p: Params)
    requires Driving(c, p)
    ensures InOrder(c) <==> SameWakes(c, Retry(c), p)
  {
    if InOrder(c) {
      hide Driving, InOrder, Queue, Retry, Wakes, Silence;
      RetryInOrder(c, p);
      forall n: nat ensures Wakes(c, p, Silence(n)) == Wakes(Retry(c), p, Silence(n)) {
        SameSilence(c, Retry(c), p, n);
      }
    }
    if SameWakes(c, Retry(c), p) { OrderNeeded(c, p); }
  }

  // ----- a run whose retry changes the order -----

  const AT_ONE := Params(1.0, ZERO_TOLERANCE, false, 1)

  function SleeperAt(n: nat): Entry {
    Entry(At(1.0), 0, n, 0.0, false)
  }

  /** Registered at time 1 for time 0.5, behind the sleepers in priority. */
  const OVERDUE := Entry(At(0.5), 1, 3, 1.0, true)

  /** Two sleepers at time 1, and the advance that starts. */
  function TwoAsleep(): Clock {
    var all := {SleeperAt(0), SleeperAt(1)};
    Clock(0.0, all, 2, true, {}, None, NegInf, 0, {}, {}, all, [])
  }

  /** The first one has woken. */
  function OneWoken(): Clock {
    TwoAsleep().(now := 1.0, heap := {}, nextSeq := 3, anchor := Some(At(1.0)), end := At(1.0), instantSeq := 2,
                 instant := {SleeperAt(1)}, trace := [Serve(SleeperAt(0), 1.0, 2, 3)])
  }

  /** ... and has registered a callback for a time already past. */
  function JoinedLate(): Clock {
    OneWoken().(nextSeq := 4, instant := {SleeperAt(1), OVERDUE}, known := TwoAsleep().known + {OVERDUE})
  }

  lemma TwoAsleepDrives()
    ensures Driving(TwoAsleep(), AT_ONE) && ReadyOf(TwoAsleep(), AT_ONE) == TwoAsleep().heap
  {
    ZeroRegular();
    ZeroCloseness(AT_ONE);
    assert C.ServedSet(TwoAsleep()) == {};
  }

  lemma OpensBoth(f: Clock)
    requires Opened(TwoAsleep(), f, AT_ONE)
    ensures f.instant == {SleeperAt(0), SleeperAt(1)} && f.end == At(1.0) && f.anchor == Some(At(1.0)) && f.now == 1.0
    ensures f.heap == {} && f.deferred == {} && f.instantSeq == 2 && f.nextSeq == 3
    ensures f.known == TwoAsleep().known && f.cancelled == {} && f.trace == [] && f.advancing
  {
    var c, p := TwoAsleep(), AT_ONE;
    TwoAsleepDrives();
    ZeroCloseness(p);
    assert Least(ByDeadline, ReadyOf(c, p)).deadline == At(1.0);
    assert f.instant == c.heap;
    LatestBounds(f.instant);
    assert SleeperAt(0) in f.instant;
    assert LiveOf(c, {}) == {};
  }

  lemma PopsOne()
    ensures Find(TwoAsleep(), AT_ONE).instant != {} && Pop(Find(TwoAsleep(), AT_ONE)) == OneWoken()
  {
    hide Find, C.Conserved, Opened, ReadyOf;
    var f := Find(TwoAsleep(), AT_ONE);
    TwoAsleepDrives();
    FindForm(TwoAsleep(), AT_ONE);
    assert LiveOf(TwoAsleep(), {}) == {};
    assert SleeperAt(0) in ReadyOf(TwoAsleep(), AT_ONE);
    OpensBoth(f);
    var both := {SleeperAt(0), SleeperAt(1)};
    LeastUnique(ByPriority, both, SleeperAt(0));
    assert both - {SleeperAt(0)} == {SleeperAt(1)};
  }

  lemma JoinsLate()
    ensures CallAt(OneWoken(), At(0.5), 1) == JoinedLate()
  {
    assert {SleeperAt(1)} + {OVERDUE} == {SleeperAt(1), OVERDUE};
  }

  lemma LateDrives()
    ensures Driving(JoinedLate(), AT_ONE)
  {
    hide Find, C.Conserved, Phase;
    TwoAsleepDrives();
    PopsOne();
    PopDrives(TwoAsleep(), AT_ONE);
    JoinsLate();
    var ms := [Callback(At(0.5), 1)];
    ApplyAllPhase(OneWoken(), AT_ONE, ms);
    assert ApplyAll(OneWoken(), ms) == JoinedLate() by {
      assert ms[1..] == [] && ApplyAll(JoinedLate(), []) == JoinedLate();
    }
  }

  lemma LateQueue()
    ensures LiveOf(JoinedLate(), JoinedLate().instant) == {SleeperAt(1), OVERDUE} == Queue(JoinedLate())
  {
    assert LiveOf(JoinedLate(), {}) == {};
  }

  /** What is left is out of order: the instant goes on with the sleeper, the queue with the callback. */
  lemma LeftOutOfOrder()
    ensures Least(ByPriority, {SleeperAt(1), OVERDUE}) == SleeperAt(1) && Least(ByDeadline, {SleeperAt(1), OVERDUE}) == OVERDUE
    ensures !InOrder(JoinedLate())
  {
    var left := {SleeperAt(1), OVERDUE};
    LateQueue();
    LeastUnique(ByPriority, left, SleeperAt(1));
    LeastUnique(ByDeadline, left, OVERDUE);
    assert Prior(SleeperAt(1), OVERDUE) && !Less(ByDeadline, SleeperAt(1), OVERDUE);
    assert SleeperAt(1) in LiveOf(JoinedLate(), JoinedLate().instant);
  }

  function BothAsleep(): Config {
    Config(TwoAsleep().(advancing := false), Resting(Outcome.Fresh), Params(0.0, ZERO_TOLERANCE, false, 1), 0, 0)
  }

  function WokenLate(): Config {
    Config(JoinedLate(), Settling(Wake, 0), AT_ONE, 0, 0)
  }

  lemma RunsLate() returns (moves: seq<Move>)
    ensures Run(Initial(0.0, 0), moves) == WokenLate()
  {
    var s, nap := Initial(0.0, 0), Sleep(At(1.0), 0);
    assert Step(Step(s, nap), nap) == BothAsleep() by {
      assert {} + {SleeperAt(0)} + {SleeperAt(1)} == TwoAsleep().heap;
    }
    assert Step(BothAsleep(), AdvanceTo(AT_ONE)) == Config(TwoAsleep(), Popping, AT_ONE, 0, 0);
    assert Step(Config(TwoAsleep(), Popping, AT_ONE, 0, 0), Tick) == WokenLate().(c := OneWoken()) by { PopsOne(); }
    assert Step(WokenLate().(c := OneWoken()), Callback(At(0.5), 1)) == WokenLate() by { JoinsLate(); }
    hide Step, BothAsleep, WokenLate, Initial;
    Run1(s, nap);
    RunSnoc(s, [nap], nap);
    RunSnoc(s, [nap] + [nap], AdvanceTo(AT_ONE));
    RunSnoc(s, [nap] + [nap] + [AdvanceTo(AT_ONE)], Tick);
    moves := [nap] + [nap] + [AdvanceTo(AT_ONE)] + [Tick];
    RunSnoc(s, moves, Callback(At(0.5), 1));
    moves := moves + [Callback(At(0.5), 1)];
  }

  lemma GoesOn()
    ensures Run(WokenLate(), [RoundDone(false), Tick]).c.trace == JoinedLate().trace + [Serve(SleeperAt(1), 1.0, 2, 4)]
  {
    var s, c := WokenLate(), JoinedLate();
    LateDrives();
    LateQueue();
    LeftOutOfOrder();
    FoundFrozen(c);
    P.Run2(s, RoundDone(false), Tick);
  }

  lemma FoundFrozen(c: Clock)
    requires Driving(c, AT_ONE) && LiveOf(c, c.instant) != {}
    ensures var f := Find(c, AT_ONE);
      && f.instant != {} && f.now == c.now && f.instantSeq == c.instantSeq && f.nextSeq == c.nextSeq && f.trace == c.trace
      && Least(ByPriority, f.instant) == Least(ByPriority, LiveOf(c, c.instant))
  {
    FindForm(c, AT_ONE);
    FrozenNext(c, Find(c, AT_ONE), AT_ONE);
  }

  function Retrying(): Config {
    Config(Retry(JoinedLate()), Popping, AT_ONE, 0, 1)
  }

  lemma Fails()
    ensures Step(Step(WokenLate(), Raise), AdvanceTo(AT_ONE)) == Retrying()
  {
    assert Step(WokenLate(), Raise) == WokenLate().(c := Restore(JoinedLate()), pc := Resting(Failed));
  }

  lemma RetryPops()
    ensures Step(Retrying(), Tick).c.trace == JoinedLate().trace + [Serve(OVERDUE, 1.0, 4, 5)]
  {
    var c := JoinedLate();
    LateDrives();
    LateQueue();
    LeftOutOfOrder();
    assert OVERDUE in Queue(c);
    hide Find, Driving, InOrder, Retry, Queue;
    RetryNext(c, AT_ONE);
    RetryFresh(c);
  }

  lemma GoesBack()
    ensures Run(WokenLate(), [Raise, AdvanceTo(AT_ONE), Tick]).c.trace == JoinedLate().trace + [Serve(OVERDUE, 1.0, 4, 5)]
  {
    Fails();
    RetryPops();
    hide Step, WokenLate, Retrying, JoinedLate;
    P.Run2(WokenLate(), Raise, AdvanceTo(AT_ONE));
    RunSnoc(WokenLate(), [Raise, AdvanceTo(AT_ONE)], Tick);
    assert [Raise, AdvanceTo(AT_ONE)] + [Tick] == [Raise, AdvanceTo(AT_ONE), Tick];
  }

  /** A retry opens an instant under a new number. */
  lemma RetryFresh(c: Clock)
    requires Driving(c, AT_ONE) && Find(Retry(c), AT_ONE).instant != {}
    ensures var f := Find(Retry(c), AT_ONE); f.instantSeq == c.nextSeq && f.nextSeq == c.nextSeq + 1 && f.trace == c.trace
  {
    RetryInOrder(c, AT_ONE);
    FindForm(Retry(c), AT_ONE);
  }

  /** From here the advance would go on with the second sleeper; if it fails instead, its retry wakes the late
      callback first. */
  lemma LateJoinReorders() returns (moves: seq<Move>)
    ensures var s := Run(Initial(0.0, 0), moves);
      && s == WokenLate()
      && Run(s, [RoundDone(false), Tick]).c.trace == s.c.trace + [Serve(SleeperAt(1), 1.0, 2, 4)]
      && Run(s, [Raise, AdvanceTo(AT_ONE), Tick]).c.trace == s.c.trace + [Serve(OVERDUE, 1.0, 4, 5)]
  {
    moves := RunsLate();
    GoesOn();
    GoesBack();
  }
}
