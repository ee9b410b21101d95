/** `every`: ticks stay on the grid `t0 + n * period`, missed ones are skipped. */
module Every {
  import opened Times
  import opened Entries
  import opened ClockModel
  import opened Instants
  import opened Runs
  import opened Drives
  import opened Burst
  import C = Conservation

  function TickAt(t0: real, period: real, n: int): real {
    t0 + n as real * period
  }

  lemma TickStep(t0: real, period: real, n: int)
    ensures TickAt(t0, period, n + 1) == TickAt(t0, period, n) + period
  {}

  /** The grid starts at `t0` and has one period between ticks. */
  lemma TicksFromStart(t0: real, period: real, n: int)
    ensures TickAt(t0, period, 0) == t0 && TickAt(t0, period, n + 1) - TickAt(t0, period, n) == period
  {
    TickStep(t0, period, n);
  }

  lemma {:induction false} TickMonotone(t0: real, period: real, m: int, n: int)
    requires period > 0.0 && m < n
    ensures TickAt(t0, period, m) < TickAt(t0, period, n)
    decreases n - m
  {
    TickStep(t0, period, n - 1);
    if m < n - 1 { TickMonotone(t0, period, m, n - 1); }
  }

  /** `r` is the least index from `n` on whose tick lies after `now`. */
  ghost predicate FirstAfter(t0: real, period: real, n: int, now: real, r: int) {
    n <= r && now < TickAt(t0, period, r) && forall m :: n <= m < r ==> TickAt(t0, period, m) <= now
  }

  lemma FirstAfterUnique(t0: real, period: real, n: int, now: real, r: int, q: int)
    requires FirstAfter(t0, period, n, now, r) && FirstAfter(t0, period, n, now, q)
    ensures r == q
  {}

  /** A bound on the indices of past ticks. */
  function Ceiling(t0: real, period: real, now: real): int
    requires period > 0.0
  {
    ((now - t0) / period).Floor
  }

  lemma PastTicks(t0: real, period: real, now: real, n: int)
    requires period > 0.0 && TickAt(t0, period, n) <= now
    ensures n <= Ceiling(t0, period, now)
  {
    var q := (now - t0) / period;
    assert q * period == now - t0;
    if q < n as real { MulLess(period, q, n as real); }
  }

  /** The state of a `SimClock.every` generator. */
  class SimTicker {
    const t0: real
    const period: real
    var n: int

    constructor (now: real, period: real, firstNow: bool)
      requires period > 0.0
      ensures this.t0 == now && this.period == period && n == (if firstNow then 0 else 1)
    {
      this.t0 := now;
      this.period := period;
      n := if firstNow then 0 else 1;
    }

    /** From one `yield` to the next: resumed at `now`, to the least later index whose tick is after `now`. */
    method Resume(now: real) returns (next: real)
      requires period > 0.0
      modifies this
      ensures FirstAfter(t0, period, old(n) + 1, now, n) && next == TickAt(t0, period, n)
    {
      n := n + 1;
      while TickAt(t0, period, n) <= now
        invariant old(n) + 1 <= n
        invariant forall m :: old(n) + 1 <= m < n ==> TickAt(t0, period, m) <= now
        decreases Ceiling(t0, period, now) + 1 - n
      {
        PastTicks(t0, period, now, n);
        n := n + 1;
      }
      next := TickAt(t0, period, n);
    }
  }

  /** The state of a `WallClock.every` generator; `t0` and `n` are where its target lies on the grid. */
  class WallTicker {
    const period: real
    var next: real
    ghost const t0: real
    ghost var n: int

    ghost predicate OnGrid()
      reads this
    {
      next == TickAt(t0, period, n)
    }

    constructor (now: real, period: real, firstNow: bool)
      requires period > 0.0
      ensures this.period == period && t0 == now && n == (if firstNow then 0 else 1) && OnGrid()
    {
      this.period := period;
      next := if firstNow then now else now + period;
      t0 := now;
      n := if firstNow then 0 else 1;
    }

    /** Resumed at `now`, the incremental schedule moves to the least index, its own included, after `now`. */
    method Resume(now: real)
      requires period > 0.0 && OnGrid()
      modifies this
      ensures OnGrid() && FirstAfter(t0, period, old(n), now, n)
    {
      while next <= now
        invariant OnGrid() && old(n) <= n
        invariant forall m :: old(n) <= m < n ==> TickAt(t0, period, m) <= now
        decreases Ceiling(t0, period, now) + 1 - n
      {
        PastTicks(t0, period, now, n);
        TickStep(t0, period, n);
        next := next + period;
        n := n + 1;
      }
    }
  }

  /** One turn: the two generators go on alike exactly when the wake was not early. */
  lemma TurnsAgreeIff(t0: real, period: real, n: int, now: real, sim: int, wall: int)
    requires period > 0.0
    requires FirstAfter(t0, period, n + 1, now, sim) && FirstAfter(t0, period, n, now, wall)
    ensures sim == wall <==> TickAt(t0, period, n) <= now
  {
    if TickAt(t0, period, n) <= now {
      assert forall m :: n + 1 <= m < wall ==> TickAt(t0, period, m) <= now;
      FirstAfterUnique(t0, period, n + 1, now, sim, wall);
    }
  }

  /** A schedule: the index yielded before each resume, and the time of the resume. */
  ghost predicate Schedule(t0: real, period: real, ns: seq<int>, nows: seq<real>) {
    |ns| == |nows| + 1 &&
    forall i :: 0 <= i < |nows| ==> FirstAfter(t0, period, ns[i] + 1, nows[i], ns[i + 1])
  }

  ghost predicate WallSchedule(t0: real, period: real, ns: seq<int>, nows: seq<real>) {
    |ns| == |nows| + 1 &&
    forall i :: 0 <= i < |nows| ==> FirstAfter(t0, period, ns[i], nows[i], ns[i + 1])
  }

  /** Over whole schedules resumed at the same times: the first `j` yields after the common start are the same exactly
      if none of the first `j` resumes is early. */
  lemma {:induction false} SchedulesAgreeIff(t0: real, period: real, sim: seq<int>, wall: seq<int>, nows: seq<real>, j: nat)
    requires period > 0.0 && Schedule(t0, period, sim, nows) && WallSchedule(t0, period, wall, nows)
    requires sim[0] == wall[0] && j <= |nows|
    ensures sim[..j + 1] == wall[..j + 1] <==> forall i :: 0 <= i < j ==> TickAt(t0, period, sim[i]) <= nows[i]
    decreases j
  {
    hide FirstAfter, TickAt;
    if j == 0 {
      assert sim[..1] == [sim[0]] == wall[..1];
    } else {
      SchedulesAgreeIff(t0, period, sim, wall, nows, j - 1);
      assert sim[..j + 1] == sim[..j] + [sim[j]] && wall[..j + 1] == wall[..j] + [wall[j]];
      assert FirstAfter(t0, period, sim[j - 1] + 1, nows[j - 1], sim[j]);
      assert FirstAfter(t0, period, wall[j - 1], nows[j - 1], wall[j]);
      if sim[..j] == wall[..j] {
        assert sim[..j][j - 1] == sim[j - 1] && wall[..j][j - 1] == wall[j - 1];
        TurnsAgreeIff(t0, period, sim[j - 1], nows[j - 1], sim[j], wall[j]);
      }
    }
  }

  /** Ticks are strictly increasing points of the grid, each later than the time of the resume that chose it,
      and every grid point skipped in between was already past. */
  lemma {:induction false} ScheduleGrid(t0: real, period: real, ns: seq<int>, nows: seq<real>, i: nat, j: nat)
    requires period > 0.0 && Schedule(t0, period, ns, nows) && i < j < |ns|
    ensures ns[i] < ns[j] && TickAt(t0, period, ns[i]) < TickAt(t0, period, ns[j]) && nows[j - 1] < TickAt(t0, period, ns[j])
    ensures forall m :: ns[j - 1] < m < ns[j] ==> TickAt(t0, period, m) <= nows[j - 1]
    decreases j
  {
    assert FirstAfter(t0, period, ns[j - 1] + 1, nows[j - 1], ns[j]);
    if i < j - 1 { ScheduleGrid(t0, period, ns, nows, i, j - 1); }
    TickMonotone(t0, period, ns[i], ns[j]);
  }

  // ----- a consumer that only awaits the next tick -----

  datatype Grid = Grid(t0: real, period: real, priority: int)

  /** The live entry of the ticking task: its next tick, not yet passed. */
  ghost predicate Waiting(c: Clock, g: Grid, x: Entry, n: int) {
    && g.period > 0.0 && x in LiveOf(c, c.heap) + LiveOf(c, c.instant)
    && x.deadline == At(TickAt(g.t0, g.period, n)) && c.now <= TickAt(g.t0, g.period, n)
  }

  /** Other clients: they do not cancel the task. */
  predicate Foreign(x: Entry, ms: seq<Move>) {
    forall m :: m in ms ==> (m.DropSleep? || m.DropCallback? ==> m.seqno != x.seqno)
  }

  lemma {:induction false} ForeignKeeps(c: Clock, g: Grid, x: Entry, n: int, ms: seq<Move>)
    requires Waiting(c, g, x, n) && Foreign(x, ms)
    ensures Waiting(ApplyAll(c, ms), g, x, n)
    decreases |ms|
  {
    if ms != [] {
      assert ms[0] in ms;
      ForeignKeeps(Client(c, ms[0]), g, x, n, ms[1..]);
    }
  }

  lemma FrozenKeepsTick(c: Clock, f: Clock, p: Params, g: Grid, x: Entry, n: int)
    requires Driving(c, p) && Waiting(c, g, x, n) && Frozen(c, f, p)
    ensures var w := Least(ByPriority, f.instant);
      f.now <= TickAt(g.t0, g.period, n) && (w != x ==> Waiting(Pop(f), g, x, n))
  {
    assert Least(ByPriority, f.instant) in LiveOf(c, c.instant);
    ZeroCloseness(p);
  }

  lemma OpenedKeepsTick(c: Clock, f: Clock, p: Params, g: Grid, x: Entry, n: int)
    requires Driving(c, p) && Waiting(c, g, x, n) && LiveOf(c, c.instant) == {} && Opened(c, f, p) && Equal(f)
    ensures var w := Least(ByPriority, f.instant);
      f.now <= TickAt(g.t0, g.period, n) && (w != x ==> Waiting(Pop(f), g, x, n))
  {
    ZeroCloseness(p);
    if Due(p, x) {
      assert x in ReadyOf(c, p) && !Less(ByDeadline, x, Least(ByDeadline, ReadyOf(c, p)));
    }
  }

  /** A pop never passes the next tick, and pops it exactly at its time. */
  lemma PopKeepsTick(c: Clock, p: Params, g: Grid, x: Entry, n: int)
    requires Driving(c, p) && Waiting(c, g, x, n)
    ensures var f := Find(c, p);
      if f.instant == {} then p.t < TickAt(g.t0, g.period, n)
      else if Least(ByPriority, f.instant) == x then f.now == TickAt(g.t0, g.period, n)
      else Waiting(Pop(f), g, x, n)
  {
    FindForm(c, p);
    FindPhase(c, p);
    ZeroCloseness(p);
    var f := Find(c, p);
    FindEqual(c, p);
    hide C.Conserved, Find;
    if LiveOf(c, c.instant) != {} {
      FrozenKeepsTick(c, f, p, g, x, n);
    } else if ReadyOf(c, p) != {} {
      OpenedKeepsTick(c, f, p, g, x, n);
    } else {
      assert x !in ReadyOf(c, p);
    }
  }

  /** What the other clients do in the settle of one wake; if the task woke, before and after it waits again. */
  datatype Turn = Turn(before: seq<Move>, after: seq<Move>)

  /** After the wake and the first part of the other clients' actions. */
  ghost function Woken(c: Clock, p: Params, turn: Turn): Clock
    requires Find(c, p).instant != {}
  {
    ApplyAll(Pop(Find(c, p)), turn.before)
  }

  /** The task's entry for tick `k`, ... */
  function NextEntry(e: Clock, g: Grid, k: int): Entry {
    ClockModel.Fresh(e, At(TickAt(g.t0, g.period, k)), g.priority, false)
  }

  /** ... and the clock once it waits for it. */
  function Rearmed(e: Clock, g: Grid, k: int): Clock {
    WaitUntil(e, At(TickAt(g.t0, g.period, k)), g.priority)
  }

  /** The advance with a ticking task: `turns` are the other clients' actions after each wake, and a wake of the
      task makes it wait for the tick its generator yields next. Returns the times the task woke, the index it
      is left waiting for, and whether the advance has nothing more to serve. */
  ghost function TickTimes(c: Clock, p: Params, g: Grid, x: Entry, n: int, turns: seq<Turn>): (seq<real>, int, bool)
    requires g.period > 0.0
    decreases |turns|
  {
    var f := Find(c, p);
    if turns == [] || f.instant == {} then ([], n, f.instant == {})
    else
      var e := Woken(c, p, turns[0]);
      if Least(ByPriority, f.instant) == x then
        var k := NextIndex(g, n, e.now);
        var r := TickTimes(ApplyAll(Rearmed(e, g, k), turns[0].after), p, g, NextEntry(e, g, k), k, turns[1..]);
        ([f.now] + r.0, r.1, r.2)
      else TickTimes(ApplyAll(e, turns[0].after), p, g, x, n, turns[1..])
  }

  lemma {:induction false} FirstAfterExists(g: Grid, n: int, now: real)
    requires g.period > 0.0
    ensures exists r :: FirstAfter(g.t0, g.period, n, now, r)
    decreases Ceiling(g.t0, g.period, now) + 1 - n
  {
    if TickAt(g.t0, g.period, n) <= now {
      PastTicks(g.t0, g.period, now, n);
      FirstAfterExists(g, n + 1, now);
      var r :| FirstAfter(g.t0, g.period, n + 1, now, r);
      assert FirstAfter(g.t0, g.period, n, now, r);
    } else {
      assert FirstAfter(g.t0, g.period, n, now, n);
    }
  }

  ghost function NextIndex(g: Grid, n: int, now: real): (r: int)
    requires g.period > 0.0
    ensures FirstAfter(g.t0, g.period, n + 1, now, r)
  {
    FirstAfterExists(g, n + 1, now);
    var r :| FirstAfter(g.t0, g.period, n + 1, now, r);
    r
  }

  /** The other clients never cancel the task while it waits. */
  ghost predicate ForeignRun(c: Clock, p: Params, g: Grid, x: Entry, n: int, turns: seq<Turn>)
    requires g.period > 0.0
    decreases |turns|
  {
    var f := Find(c, p);
    if turns == [] || f.instant == {} then true
    else
      var e := Woken(c, p, turns[0]);
      if Least(ByPriority, f.instant) == x then
        var k := NextIndex(g, n, e.now);
        var y := NextEntry(e, g, k);
        Foreign(y, turns[0].after) && ForeignRun(ApplyAll(Rearmed(e, g, k), turns[0].after), p, g, y, k, turns[1..])
      else
        Foreign(x, turns[0].before) && Foreign(x, turns[0].after)
        && ForeignRun(ApplyAll(e, turns[0].after), p, g, x, n, turns[1..])
  }

  lemma Rearms(e: Clock, g: Grid, n: int)
    requires Sound(e) && g.period > 0.0 && e.now < TickAt(g.t0, g.period, n)
    ensures Waiting(Rearmed(e, g, n), g, NextEntry(e, g, n), n)
  {}

  lemma PopDriving(c: Clock, p: Params, ms: seq<Move>)
    requires Driving(c, p) && Find(c, p).instant != {}
    ensures var e := ApplyAll(Pop(Find(c, p)), ms); Driving(e, p) && Sound(e) && e.now == Find(c, p).now
  {
    var r := (h: seq<Serve>) => ms;
    CycleDriving(c, p, r);
    CyclePhase(c, p, r);
    assert Cycle(c, p, r) == ApplyAll(Pop(Find(c, p)), ms);
  }

  lemma Rearm(c: Clock, p: Params, g: Grid, x: Entry, n: int, turn: Turn)
    requires Driving(c, p) && Waiting(c, g, x, n) && Find(c, p).instant != {} && Least(ByPriority, Find(c, p).instant) == x
    ensures var e := Woken(c, p, turn);
      && e.now == Find(c, p).now == TickAt(g.t0, g.period, n)
      && NextIndex(g, n, e.now) == n + 1 && Waiting(Rearmed(e, g, n + 1), g, NextEntry(e, g, n + 1), n + 1)
  {
    assert g.period > 0.0;
    PopKeepsTick(c, p, g, x, n);
    PopDriving(c, p, turn.before);
    hide Driving, Waiting, Find, Sound;
    TickStep(g.t0, g.period, n);
    var e := Woken(c, p, turn);
    FirstAfterUnique(g.t0, g.period, n + 1, e.now, NextIndex(g, n, e.now), n + 1);
    Rearms(e, g, n + 1);
  }

  lemma {:induction false} ApplyAllAppend(c: Clock, a: seq<Move>, b: seq<Move>)
    ensures ApplyAll(c, a + b) == ApplyAll(ApplyAll(c, a), b)
    decreases |a|
  {
    hide Client;
    if a == [] {
      assert a + b == b;
    } else {
      assert (a + b)[0] == a[0] && (a + b)[1..] == a[1..] + b;
      ApplyAllAppend(Client(c, a[0]), a[1..], b);
    }
  }

  /** The turn of the loop that wakes the task: on time, and it waits for the very next tick. */
  lemma TickTurn(c: Clock, p: Params, g: Grid, x: Entry, n: int, turn: Turn)
    requires Driving(c, p) && Waiting(c, g, x, n) && Find(c, p).instant != {} && Least(ByPriority, Find(c, p).instant) == x
    requires Foreign(NextEntry(Woken(c, p, turn), g, n + 1), turn.after)
    ensures var e := Woken(c, p, turn); var d := ApplyAll(Rearmed(e, g, n + 1), turn.after);
      && NextIndex(g, n, e.now) == n + 1 && Find(c, p).now == TickAt(g.t0, g.period, n)
      && Driving(d, p) && Waiting(d, g, NextEntry(e, g, n + 1), n + 1)
  {
    Rearm(c, p, g, x, n, turn);
    hide Driving, Waiting, Find, Pop, Foreign, WaitUntil, NextEntry;
    var e, next := Woken(c, p, turn), [Sleep(At(TickAt(g.t0, g.period, n + 1)), g.priority)];
    ForeignKeeps(Rearmed(e, g, n + 1), g, NextEntry(e, g, n + 1), n + 1, turn.after);
    assert ApplyAll(e, next) == Rearmed(e, g, n + 1) by {
      assert next[1..] == [] && ApplyAll(Client(e, next[0]), []) == Client(e, next[0]);
    }
    ApplyAllAppend(Pop(Find(c, p)), turn.before, next);
    ApplyAllAppend(Pop(Find(c, p)), turn.before + next, turn.after);
    PopDriving(c, p, turn.before + next + turn.after);
  }

  /** A turn that wakes another entry: the task goes on waiting for the same tick. */
  lemma OtherTurn(c: Clock, p: Params, g: Grid, x: Entry, n: int, turn: Turn)
    requires Driving(c, p) && Waiting(c, g, x, n) && Find(c, p).instant != {} && Least(ByPriority, Find(c, p).instant) != x
    requires Foreign(x, turn.before) && Foreign(x, turn.after)
    ensures var d := ApplyAll(Woken(c, p, turn), turn.after); Driving(d, p) && Waiting(d, g, x, n)
  {
    PopKeepsTick(c, p, g, x, n);
    hide Driving, Waiting, Find, Pop, Foreign;
    ForeignKeeps(Pop(Find(c, p)), g, x, n, turn.before);
    ForeignKeeps(Woken(c, p, turn), g, x, n, turn.after);
    ApplyAllAppend(Pop(Find(c, p)), turn.before, turn.after);
    PopDriving(c, p, turn.before + turn.after);
  }

  /** The ticks from index `n` on, each at its own time. */
  ghost predicate OnTime(g: Grid, n: int, times: seq<real>) {
    forall i :: 0 <= i < |times| ==> times[i] == TickAt(g.t0, g.period, n + i)
  }

  lemma OnTimeCons(g: Grid, n: int, at: real, times: seq<real>)
    requires at == TickAt(g.t0, g.period, n) && OnTime(g, n + 1, times)
    ensures OnTime(g, n, [at] + times)
  {
    forall i | 0 <= i < |[at] + times| ensures ([at] + times)[i] == TickAt(g.t0, g.period, n + i) {
      if i != 0 { assert ([at] + times)[i] == times[i - 1]; }
    }
  }

  /** With zero tolerance, a task that only awaits its ticks gets the next ones in order, each exactly at its
      time, whatever other clients do; when the advance has nothing more to serve, every tick up to the target
      has been delivered. */
  lemma {:induction false} EveryTickOnTime(c: Clock, p: Params, g: Grid, x: Entry, n: int, turns: seq<Turn>)
    requires Driving(c, p) && Waiting(c, g, x, n) && ForeignRun(c, p, g, x, n, turns)
    ensures var r := TickTimes(c, p, g, x, n, turns);
      && r.1 == n + |r.0| && (r.2 ==> p.t < TickAt(g.t0, g.period, r.1))
      && OnTime(g, n, r.0)
    decreases |turns|
  {
    assert g.period > 0.0;
    PopKeepsTick(c, p, g, x, n);
    assert OnTime(g, n, []);
    hide Driving, Waiting, Find, Pop, Foreign, Rearmed, NextEntry, NextIndex, TickAt, OnTime, FirstAfter, IsLeast, Less;
    hide ApplyAll, Woken;
    if turns != [] && Find(c, p).instant != {} {
      var turn, e := turns[0], Woken(c, p, turns[0]);
      if Least(ByPriority, Find(c, p).instant) == x {
        Rearm(c, p, g, x, n, turn);
        TickTurn(c, p, g, x, n, turn);
        var d, y := ApplyAll(Rearmed(e, g, n + 1), turn.after), NextEntry(e, g, n + 1);
        EveryTickOnTime(d, p, g, y, n + 1, turns[1..]);
        OnTimeCons(g, n, Find(c, p).now, TickTimes(d, p, g, y, n + 1, turns[1..]).0);
      } else {
        OtherTurn(c, p, g, x, n, turn);
        EveryTickOnTime(ApplyAll(e, turn.after), p, g, x, n, turns[1..]);
      }
    }
  }

  // ----- an early wake -----

  /** A task that waits for its first tick. */
  function FirstTick(g: Grid): Entry {
    Entry(At(TickAt(g.t0, g.period, 1)), g.priority, 0, g.t0, false)
  }

  function AwaitsFirst(g: Grid): Clock {
    Clock(g.t0, {FirstTick(g)}, 1, true, {}, None, NegInf, 0, {}, {}, {FirstTick(g)}, [])
  }

  /** An advance to less than `e` before the first tick, with an absolute tolerance of `e`. */
  function ShortOf(g: Grid, e: real): Params {
    Params(TickAt(g.t0, g.period, 1) - e / 2.0, Tolerance(0.0, e), false, 1)
  }

  lemma PopsEarly(g: Grid, e: real)
    requires 0.0 < e <= g.period
    ensures var c, p := AwaitsFirst(g), ShortOf(g, e);
      Find(c, p).instant != {} && Pop(Find(c, p)).trace == [Serve(FirstTick(g), p.t, 1, 2)]
  {
    var c, p, x := AwaitsFirst(g), ShortOf(g, e), FirstTick(g);
    TickStep(g.t0, g.period, 0);
    RegularIff(p.tol);
    assert x in ReadyOf(c, p) && ReadyOf(c, p) == {x};
    FindForm(c, p);
    var f := Find(c, p);
    hide Find;
    LatestBounds({x});
    assert f.instant == {x};
  }

  /** A run in which a tick is served early, and the two generators then yield different ticks. */
  lemma EarlyTickParts(g: Grid, e: real) returns (moves: seq<Move>)
    requires 0.0 < e <= g.period
    ensures var now := ShortOf(g, e).t;
      && Run(Initial(g.t0, 0), moves).c.trace == [Serve(FirstTick(g), now, 1, 2)] && now < TickAt(g.t0, g.period, 1)
      && Schedule(g.t0, g.period, [1, 2], [now]) && WallSchedule(g.t0, g.period, [1, 1], [now])
  {
    var p, s, nap := ShortOf(g, e), Initial(g.t0, 0), Sleep(At(TickAt(g.t0, g.period, 1)), g.priority);
    TickStep(g.t0, g.period, 0);
    TickStep(g.t0, g.period, 1);
    PopsEarly(g, e);
    assert {} + {FirstTick(g)} == {FirstTick(g)};
    assert Step(Step(s, nap), AdvanceTo(p)) == Config(AwaitsFirst(g), Popping, p, 0, 0);
    Run1(s, nap);
    RunSnoc(s, [nap], AdvanceTo(p));
    RunSnoc(s, [nap] + [AdvanceTo(p)], Tick);
    moves := [nap] + [AdvanceTo(p)] + [Tick];
  }
}
