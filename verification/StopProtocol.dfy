/** `Supervisor`'s completion protocol: adds, daemon exits, `stop` calls and barriers in any interleaving. */
module StopProtocol {
  type Name = int

  /** The task group: none before entry, open inside, none again once `__aexit__` began. */
  datatype Group = Before | Open | After

  /** A `stop` call: waiting out its grace, or returned, with or without a request to cancel the group. */
  datatype StopCall = Waiting | Returned(cancelled: bool)

  datatype Sup = Sup(
    group: Group,
    seen: set<Name>,
    pending: set<Name>,
    hosts: set<Name>,        // launched, `_host` not finished
    started: set<Name>,      // started_event set
    stopEvent: bool,
    allDone: bool,
    activeCount: int,
    cancelRequested: bool,
    stops: seq<StopCall>,
    barriers: seq<set<Name>>,
    late: bool,              // a host was launched after the stop signal
    leaving: bool)           // a host finished after the stop signal

  const NEW := Sup(Before, {}, {}, {}, {}, false, false, 0, false, [], [], false, false)

  datatype Move =
    | Add(name: Name)
    | Enter
    | Exit
    | Signal
    | OnStarted(name: Name)
    | OnExit(name: Name)
    | Stop(grace: bool)
    | Wake(call: nat)
    | WaitAllStarted

  predicate Enabled(s: Sup, m: Move) {
    match m
    case Enter => s.group == Before
    case Exit => s.group == Open
    case OnStarted(n) => n in s.hosts
    case OnExit(n) => n in s.hosts
    case Wake(i) => i < |s.stops| && s.stops[i] == Waiting
    case _ => true
  }

  function SignalStop(s: Sup): Sup {
    if s.group == Before then s else s.(stopEvent := true)
  }

  /** The last check of a `stop` call: whether it asks the group to cancel. */
  predicate Cancels(s: Sup) {
    !s.allDone && s.group == Open
  }

  function AddStep(s: Sup, n: Name): Sup {
    if n in s.seen then s
    else if s.group != Open then s.(seen := s.seen + {n}, pending := s.pending + {n})
    else s.(seen := s.seen + {n}, hosts := s.hosts + {n}, activeCount := s.activeCount + 1, late := s.late || s.stopEvent)
  }

  function EnterStep(s: Sup): Sup {
    s.(group := Open, hosts := s.pending, pending := {}, activeCount := s.activeCount + |s.pending|)
  }

  function OnExitStep(s: Sup, n: Name): Sup {
    var count := s.activeCount - 1;
    s.(started := s.started + {n}, hosts := s.hosts - {n}, activeCount := count,
       allDone := s.allDone || (count == 0 && s.stopEvent), leaving := s.leaving || s.stopEvent)
  }

  /** `stop` up to its return or its wait. */
  function StopStep(s: Sup, grace: bool): Sup {
    var t := SignalStop(s);
    if t.group != Open || t.activeCount == 0 then t.(stops := t.stops + [Returned(false)])
    else if grace then t.(stops := t.stops + [Waiting])
    else t.(stops := t.stops + [Returned(Cancels(t))], cancelRequested := t.cancelRequested || Cancels(t))
  }

  /** A waiting `stop` goes on: the grace is over, or `_all_done` is set. */
  function WakeStep(s: Sup, i: nat): Sup
    requires i < |s.stops|
  {
    s.(stops := s.stops[i := Returned(Cancels(s))], cancelRequested := s.cancelRequested || Cancels(s))
  }

  /** `wait_all_started` takes its snapshot. */
  function BarrierStep(s: Sup): Sup {
    if s.group != Open then s else s.(barriers := s.barriers + [s.seen])
  }

  function Step(s: Sup, m: Move): Sup
    requires Enabled(s, m)
  {
    match m
    case Add(n) => AddStep(s, n)
    case Enter => EnterStep(s)
    case Exit => s.(group := After)
    case Signal => SignalStop(s)
    case OnStarted(n) => s.(started := s.started + {n})
    case OnExit(n) => OnExitStep(s, n)
    case Stop(grace) => StopStep(s, grace)
    case Wake(i) => WakeStep(s, i)
    case WaitAllStarted => BarrierStep(s)
  }

  // ----- what every interleaving keeps -----

  /** `_active_count` counts the launched unfinished hosts; every known daemon is waiting for entry, hosted, or was. */
  ghost predicate Counted(s: Sup) {
    && s.activeCount == |s.hosts|
    && s.pending !! s.hosts && s.pending !! s.started
    && s.seen == s.pending + s.hosts + s.started
    && (s.group == Before ==> s.hosts == {} && s.started == {})
    && (s.group == Open ==> s.pending == {})
  }

  /** Once a host has finished after the stop signal, `_all_done` tells whether any is left, unless a daemon was
      launched after the signal. */
  ghost predicate Signalled(s: Sup) {
    && (s.group == Before ==> !s.stopEvent)
    && (s.allDone ==> s.stopEvent && (s.late || s.hosts == {}))
    && (s.stopEvent && s.leaving && s.hosts == {} ==> s.allDone)
    && (s.leaving ==> s.stopEvent)
  }

  ghost predicate StopOk(s: Sup, i: nat)
    requires i < |s.stops|
  {
    && (s.stops[i] == Waiting ==> s.stopEvent && (s.hosts != {} || s.leaving))
    && (s.stops[i] == Returned(true) ==> s.cancelRequested)
  }

  ghost predicate StopsOk(s: Sup) {
    forall i :: 0 <= i < |s.stops| ==> StopOk(s, i)
  }

  ghost predicate BarriersOk(s: Sup) {
    forall i :: 0 <= i < |s.barriers| ==> s.barriers[i] <= s.hosts + s.started
  }

  ghost predicate Inv(s: Sup) {
    && Counted(s)
    && Signalled(s)
    && StopsOk(s)
    && BarriersOk(s)
  }

  lemma NewInv()
    ensures Inv(NEW)
  {}

  predicate Asks(m: Move) {
    m.Signal? || m.Stop? || m.Wake? || m.WaitAllStarted?
  }

  /** Stop calls and barriers leave the daemons alone. */
  ghost predicate SameDaemons(s: Sup, t: Sup) {
    && t.group == s.group && t.seen == s.seen && t.pending == s.pending && t.hosts == s.hosts && t.started == s.started
    && t.activeCount == s.activeCount && t.allDone == s.allDone && t.late == s.late && t.leaving == s.leaving
    && (s.stopEvent ==> t.stopEvent) && (t.group == Before ==> t.stopEvent == s.stopEvent)
  }

  lemma StopKeeps(s: Sup, grace: bool)
    ensures SameDaemons(s, StopStep(s, grace))
  {}

  lemma AskingKeeps(s: Sup, m: Move)
    requires Enabled(s, m) && Asks(m)
    ensures SameDaemons(s, Step(s, m))
  {
    if m.Stop? { StopKeeps(s, m.grace); }
    hide StopStep, AddStep, EnterStep, OnExitStep;
  }

  lemma CountAdded(hosts: set<Name>, n: Name)
    requires n !in hosts
    ensures |hosts + {n}| == |hosts| + 1
  {}

  lemma CountRemoved(hosts: set<Name>, n: Name)
    requires n in hosts
    ensures |hosts - {n}| == |hosts| - 1 && (hosts - {n} == {} <==> |hosts| == 1)
  {
    assert hosts == hosts - {n} + {n};
  }

  lemma OneMore(p: set<Name>, h: set<Name>, d: set<Name>, n: Name)
    requires n !in p + h + d && p !! h && p !! d
    ensures p + h + d + {n} == (p + {n}) + h + d == p + (h + {n}) + d
    ensures p + {n} !! h && p + {n} !! d
  {}

  lemma AddCounted(s: Sup, n: Name)
    requires Counted(s)
    ensures Counted(AddStep(s, n))
  {
    if n !in s.seen {
      CountAdded(s.hosts, n);
      OneMore(s.pending, s.hosts, s.started, n);
    }
  }

  lemma OnExitCounted(s: Sup, n: Name)
    requires Counted(s) && n in s.hosts
    ensures Counted(OnExitStep(s, n))
  {
    CountRemoved(s.hosts, n);
  }

  lemma StepCounted(s: Sup, m: Move)
    requires Counted(s) && Enabled(s, m)
    ensures Counted(Step(s, m))
  {
    if Asks(m) {
      AskingKeeps(s, m);
      hide Step, Enabled, Asks;
    } else {
      hide AddStep, OnExitStep, StopStep, WakeStep, BarrierStep, SignalStop;
      match m
      case Add(n) => AddCounted(s, n);
      case OnExit(n) => OnExitCounted(s, n);
      case _ =>
    }
  }

  lemma EmptyIffZero(hosts: set<Name>)
    ensures hosts == {} <==> |hosts| == 0
  {}

  lemma StepSignalled(s: Sup, m: Move)
    requires Counted(s) && Signalled(s) && Enabled(s, m)
    ensures Signalled(Step(s, m))
  {
    if Asks(m) {
      AskingKeeps(s, m);
      hide Step, Enabled, Asks, Counted;
    } else {
      hide StopStep, WakeStep, BarrierStep, SignalStop;
      match m
      case OnExit(n) => CountRemoved(s.hosts, n);
      case _ =>
    }
  }

  lemma StopStepOk(s: Sup, grace: bool)
    requires Counted(s) && StopsOk(s)
    ensures StopsOk(StopStep(s, grace))
  {
    var t := StopStep(s, grace);
    EmptyIffZero(s.hosts);
    forall i | 0 <= i < |t.stops| ensures StopOk(t, i) {
      if i < |s.stops| { assert StopOk(s, i); }
    }
  }

  lemma WakeStepOk(s: Sup, k: nat)
    requires StopsOk(s) && k < |s.stops|
    ensures StopsOk(WakeStep(s, k))
  {
    var t := WakeStep(s, k);
    forall i | 0 <= i < |t.stops| ensures StopOk(t, i) {
      assert StopOk(s, i);
    }
  }

  lemma OnExitOk(s: Sup, n: Name)
    requires StopsOk(s)
    ensures StopsOk(OnExitStep(s, n))
  {
    var t := OnExitStep(s, n);
    forall i | 0 <= i < |t.stops| ensures StopOk(t, i) {
      assert StopOk(s, i);
    }
  }

  lemma OthersOk(s: Sup, m: Move)
    requires Counted(s) && StopsOk(s) && Enabled(s, m) && !m.Stop? && !m.Wake? && !m.OnExit?
    ensures StopsOk(Step(s, m))
  {
    hide StopStep, WakeStep, OnExitStep, Counted;
    var t := Step(s, m);
    if m == Enter { NoneBeforeEntry(s); }
    assert t.stops == s.stops && t.cancelRequested == s.cancelRequested && t.leaving == s.leaving;
    assert (s.stopEvent ==> t.stopEvent) && (s.hosts != {} ==> t.hosts != {});
    forall i | 0 <= i < |t.stops| ensures StopOk(t, i) {
      assert StopOk(s, i);
    }
  }

  lemma StepStops(s: Sup, m: Move)
    requires Counted(s) && StopsOk(s) && Enabled(s, m)
    ensures StopsOk(Step(s, m))
  {
    match m {
      case Stop(grace) => StopStepOk(s, grace);
      case Wake(i) => WakeStepOk(s, i);
      case OnExit(n) => OnExitOk(s, n);
      case _ => OthersOk(s, m);
    }
    hide StopStep, WakeStep, OnExitStep, AddStep, EnterStep, BarrierStep, SignalStop, StopsOk;
  }

  lemma BarrierStepOk(s: Sup)
    requires Counted(s) && BarriersOk(s)
    ensures BarriersOk(BarrierStep(s))
  {}

  lemma StepBarriers(s: Sup, m: Move)
    requires Counted(s) && BarriersOk(s) && Enabled(s, m)
    ensures BarriersOk(Step(s, m))
  {
    if m.WaitAllStarted? {
      BarrierStepOk(s);
    } else {
      KeptLaunched(s, m);
      hide Step, Enabled, Counted;
    }
  }

  /** Whoever was launched stays launched or has resolved. */
  lemma KeptLaunched(s: Sup, m: Move)
    requires Counted(s) && Enabled(s, m) && !m.WaitAllStarted?
    ensures Step(s, m).barriers == s.barriers && s.hosts + s.started <= Step(s, m).hosts + Step(s, m).started
  {
    hide Counted;
    if m == Enter { NoneBeforeEntry(s); }
  }

  lemma NoneBeforeEntry(s: Sup)
    requires Counted(s) && s.group == Before
    ensures s.hosts == {} && s.started == {}
  {}

  lemma StepInv(s: Sup, m: Move)
    requires Inv(s) && Enabled(s, m)
    ensures Inv(Step(s, m))
  {
    hide Counted, Signalled, StopsOk, BarriersOk, Step, Enabled;
    StepCounted(s, m);
    StepSignalled(s, m);
    StepStops(s, m);
    StepBarriers(s, m);
  }

  // ----- whole runs -----

  ghost predicate IsRun(s: Sup, moves: seq<Move>, t: Sup)
    decreases |moves|
  {
    if moves == [] then s == t else Enabled(s, moves[0]) && IsRun(Step(s, moves[0]), moves[1..], t)
  }

  lemma {:induction false} RunInv(s: Sup, moves: seq<Move>, t: Sup)
    requires Inv(s) && IsRun(s, moves, t)
    ensures Inv(t)
    decreases |moves|
  {
    if moves != [] {
      StepInv(s, moves[0]);
      hide Inv, Step, Enabled;
      RunInv(Step(s, moves[0]), moves[1..], t);
    }
  }

  /** Under every interleaving: the count is right; with no launch after the signal, the last exit after it sets
      `_all_done`, which then means that no host is left, and a `stop` that still waits is not alone with its grace. */
  lemma EveryRunCounts(moves: seq<Move>, t: Sup)
    requires IsRun(NEW, moves, t)
    ensures t.activeCount == |t.hosts|
    ensures !t.late && t.leaving ==> (t.allDone <==> t.hosts == {})
    ensures !t.late && t.allDone ==> t.hosts == {}
    ensures Waiting in t.stops && !t.late ==> (t.allDone <==> t.hosts == {})
  {
    NewInv();
    RunInv(NEW, moves, t);
    if Waiting in t.stops {
      var i :| 0 <= i < |t.stops| && t.stops[i] == Waiting;
      assert StopOk(t, i);
    }
  }

  /** The move in which call `i` of `stop` returns. */
  predicate Returns(s: Sup, m: Move, i: nat) {
    Enabled(s, m) && (m == Wake(i) || (m.Stop? && i == |s.stops|)) && Step(s, m).stops[i].Returned?
  }

  /** With no launch after the signal, a `stop` that returns without asking to cancel leaves no daemon active, exactly
      if `__aexit__` had not begun or none was active; and one that asks to cancel has a laggard to cancel. */
  lemma StopLeavesNoneIff(moves: seq<Move>, s: Sup, m: Move, i: nat)
    requires IsRun(NEW, moves, s) && !s.late && Returns(s, m, i)
    ensures var t := Step(s, m);
      t.stops[i] == Returned(false) ==> (t.hosts == {} <==> s.group != After || s.activeCount == 0)
    ensures var t := Step(s, m);
      t.stops[i] == Returned(true) ==> t.cancelRequested && s.group == Open && t.hosts != {}
  {
    NewInv();
    RunInv(NEW, moves, s);
    EmptyIffZero(s.hosts);
    var t := Step(s, m);
    if m == Wake(i) {
      assert StopOk(s, i);
      assert t == WakeStep(s, i);
    } else {
      assert t == StopStep(s, m.grace);
    }
    hide IsRun, Step, StopsOk;
  }

  /** In every run, launches after the signal included: a `stop` returns without a request while daemons are active,
      exactly if some are active and `__aexit__` has begun or `_all_done` is set; inside an open group the latter
      takes a launch after the signal. */
  lemma StopLeavesSomeIff(moves: seq<Move>, s: Sup, m: Move, i: nat)
    requires IsRun(NEW, moves, s) && Returns(s, m, i)
    ensures var t := Step(s, m);
      t.stops[i] == Returned(false) && t.hosts != {} <==> s.activeCount != 0 && (s.group == After || s.allDone)
    ensures s.group == Open && s.activeCount != 0 && s.allDone ==> s.late
  {
    NewInv();
    RunInv(NEW, moves, s);
    EmptyIffZero(s.hosts);
    var t := Step(s, m);
    if m == Wake(i) {
      assert StopOk(s, i);
      assert t == WakeStep(s, i);
    } else {
      assert t == StopStep(s, m.grace);
    }
    hide IsRun, Step, StopsOk;
  }

  /** What a `stop` does at once, in every run. It signals a supervisor that was entered. Without an open group or
      without an active daemon it returns; with a grace it waits, asking for nothing; without one it returns and asks to
      cancel, exactly if `_all_done` is not set. */
  lemma StopAtOnce(moves: seq<Move>, s: Sup, grace: bool)
    requires IsRun(NEW, moves, s)
    ensures var t := Step(s, Stop(grace));
      && t.stops[..|s.stops|] == s.stops && |t.stops| == |s.stops| + 1
      && t.stopEvent == (s.stopEvent || s.group != Before) && t.hosts == s.hosts && t.allDone == s.allDone
    ensures var outcome := Step(s, Stop(grace)).stops[|s.stops|];
      && (outcome == Waiting <==> s.group == Open && s.hosts != {} && grace)
      && (outcome == Returned(true) <==> s.group == Open && s.hosts != {} && !grace && !s.allDone)
    ensures Step(s, Stop(grace)).cancelRequested
       == (s.cancelRequested || (s.group == Open && s.hosts != {} && !grace && !s.allDone))
  {
    NewInv();
    RunInv(NEW, moves, s);
    EmptyIffZero(s.hosts);
    hide IsRun, StopsOk, BarriersOk;
  }

  /** What it does when its wait is over: it asks to cancel exactly if `_all_done` is not set and the group is open. */
  lemma StopAfterWait(s: Sup, i: nat)
    requires Enabled(s, Wake(i))
    ensures var t, asks := Step(s, Wake(i)), !s.allDone && s.group == Open;
      && t.stops == s.stops[i := Returned(asks)] && t.cancelRequested == (s.cancelRequested || asks)
      && t.hosts == s.hosts && t.stopEvent == s.stopEvent
  {}

  /** The stop event is set only by a signal or a `stop` inside an entered supervisor. */
  lemma SignalIff(s: Sup, m: Move)
    requires Enabled(s, m)
    ensures Step(s, m).stopEvent <==> s.stopEvent || (s.group != Before && (m.Signal? || m.Stop?))
  {
    if m.Stop? { assert Step(s, m) == StopStep(s, m.grace); }
    hide WakeStep, BarrierStep, AddStep, EnterStep, OnExitStep;
  }

  lemma {:induction false} RunSnoc(s: Sup, moves: seq<Move>, t: Sup, m: Move)
    requires IsRun(s, moves, t) && Enabled(t, m)
    ensures IsRun(s, moves + [m], Step(t, m))
    decreases |moves|
  {
    if moves == [] {
      assert IsRun(t, [m], Step(t, m)) by { assert [m][1..] == []; }
    } else {
      RunSnoc(Step(s, moves[0]), moves[1..], t, m);
      assert (moves + [m])[1..] == moves[1..] + [m];
    }
  }

  /** The failing family is reachable: once `__aexit__` began, `stop` returns at once and leaves the daemon active. */
  lemma StopInsideExit(n: Name) returns (moves: seq<Move>, s: Sup)
    ensures IsRun(NEW, moves, s) && !s.late && Returns(s, Stop(true), 0)
    ensures Step(s, Stop(true)).stops[0] == Returned(false) && Step(s, Stop(true)).hosts == {n}
  {
    var a, b := Step(NEW, Add(n)), Step(Step(NEW, Add(n)), Enter);
    assert IsRun(NEW, [], NEW);
    RunSnoc(NEW, [], NEW, Add(n));
    RunSnoc(NEW, [Add(n)], a, Enter);
    RunSnoc(NEW, [Add(n), Enter], b, Exit);
    moves, s := [Add(n), Enter, Exit], Step(b, Exit);
  }

  /** And a launch after the signal defeats `_all_done`: `stop` returns without a request while the newcomer runs. */
  lemma LateAddSlipsThrough(n: Name, k: Name) returns (moves: seq<Move>, s: Sup)
    requires n != k
    ensures IsRun(NEW, moves, s) && s.late && s.group == Open && Returns(s, Wake(0), 0)
    ensures Step(s, Wake(0)).stops[0] == Returned(false) && Step(s, Wake(0)).hosts == {k}
  {
    var a := Step(NEW, Add(n));
    var b := Step(a, Enter);
    var c := Step(b, Stop(true));
    assert c.stops == [Waiting];
    var d := Step(c, OnExit(n));
    assert IsRun(NEW, [], NEW);
    RunSnoc(NEW, [], NEW, Add(n));
    RunSnoc(NEW, [Add(n)], a, Enter);
    RunSnoc(NEW, [Add(n), Enter], b, Stop(true));
    RunSnoc(NEW, [Add(n), Enter, Stop(true)], c, OnExit(n));
    assert [Add(n), Enter, Stop(true)] + [OnExit(n)] == [Add(n), Enter, Stop(true), OnExit(n)];
    RunSnoc(NEW, [Add(n), Enter, Stop(true), OnExit(n)], d, Add(k));
    moves, s := [Add(n), Enter, Stop(true), OnExit(n)] + [Add(k)], Step(d, Add(k));
  }

  /** `wait_all_started` waits for hosts only: what its snapshot still lacks is a running host, whose `finally` sets
      the event; when no host is left, every barrier is open. */
  lemma BarriersOpen(moves: seq<Move>, t: Sup, i: nat)
    requires IsRun(NEW, moves, t) && i < |t.barriers|
    ensures t.barriers[i] - t.started <= t.hosts
    ensures t.hosts == {} ==> t.barriers[i] <= t.started
  {
    NewInv();
    RunInv(NEW, moves, t);
  }

  lemma StepSeen(s: Sup, m: Move, n: Name)
    requires Enabled(s, m)
    ensures n in Step(s, m).seen <==> n in s.seen || m == Add(n)
  {
    hide StopStep, WakeStep;
    if Asks(m) { AskingKeeps(s, m); }
  }

  lemma {:induction false} AddedIsSeen(s: Sup, moves: seq<Move>, t: Sup, n: Name)
    requires IsRun(s, moves, t)
    ensures n in t.seen <==> n in s.seen || Add(n) in moves
    decreases |moves|
  {
    hide Step, Enabled;
    if moves != [] {
      StepSeen(s, moves[0], n);
      AddedIsSeen(Step(s, moves[0]), moves[1..], t, n);
      assert moves == [moves[0]] + moves[1..];
    }
  }

  /** A host is launched by entry, if it was queued, or by an `add` of a new name inside the open group; only its exit
      ends it. */
  lemma LaunchIff(s: Sup, m: Move, n: Name)
    requires Enabled(s, m) && (s.group == Before ==> s.hosts == {})
    ensures n in Step(s, m).hosts <==>
      (n in s.hosts && m != OnExit(n)) || (m == Enter && n in s.pending) || (m == Add(n) && n !in s.seen && s.group == Open)
  {
    hide StopStep, WakeStep;
    if Asks(m) { AskingKeeps(s, m); }
  }

  /** `_all_done` is set only by the exit of the last host, once stop was signalled. */
  lemma AllDoneIff(s: Sup, m: Move)
    requires Counted(s) && Enabled(s, m)
    ensures Step(s, m).allDone <==> s.allDone || (m.OnExit? && s.hosts == {m.name} && s.stopEvent)
  {
    hide StopStep, WakeStep;
    if Asks(m) {
      AskingKeeps(s, m);
    } else if m.OnExit? {
      CountRemoved(s.hosts, m.name);
      assert |s.hosts| == 1 <==> s.hosts == {m.name} by { OnlyOne(s.hosts, m.name); }
    }
  }

  lemma OnlyOne(hosts: set<Name>, n: Name)
    requires n in hosts
    ensures |hosts| == 1 <==> hosts == {n}
  {
    CountRemoved(hosts, n);
    assert hosts - {n} == {} <==> hosts == {n};
  }

  /** A daemon resolves when its `on_start` returned, or at the latest when its host exits. */
  lemma ResolvedIff(s: Sup, m: Move, n: Name)
    requires Enabled(s, m)
    ensures n in Step(s, m).started <==> n in s.started || m == OnStarted(n) || m == OnExit(n)
  {
    hide StopStep, WakeStep;
    if Asks(m) { AskingKeeps(s, m); }
  }

  lemma StepKeepsBarriers(s: Sup, m: Move)
    requires Enabled(s, m)
    ensures s.barriers <= Step(s, m).barriers && s.started <= Step(s, m).started
  {
    hide StopStep, WakeStep;
    if m.Stop? || m.Wake? { BarriersApart(s, m); }
  }

  lemma BarriersApart(s: Sup, m: Move)
    requires Enabled(s, m) && (m.Stop? || m.Wake?)
    ensures Step(s, m).barriers == s.barriers && Step(s, m).started == s.started
  {}

  lemma {:induction false} BarriersStay(s: Sup, moves: seq<Move>, t: Sup)
    requires IsRun(s, moves, t)
    ensures s.barriers <= t.barriers && s.started <= t.started
    decreases |moves|
  {
    hide Step, Enabled;
    if moves != [] {
      StepKeepsBarriers(s, moves[0]);
      BarriersStay(Step(s, moves[0]), moves[1..], t);
    }
  }

  /** A barrier waits for exactly the daemons added before the call: it is open once they have all resolved, whatever is
      added later. */
  lemma BarrierCovers(before: seq<Move>, s: Sup, after: seq<Move>, t: Sup, n: Name)
    requires IsRun(NEW, before, s) && s.group == Open && IsRun(Step(s, WaitAllStarted), after, t)
    ensures |s.barriers| < |t.barriers| && (n in t.barriers[|s.barriers|] <==> Add(n) in before)
  {
    hide Step, IsRun;
    AddedIsSeen(NEW, before, s, n);
    var u := Step(s, WaitAllStarted);
    assert u.barriers == s.barriers + [s.seen] by { TakesBarrier(s); }
    BarriersStay(u, after, t);
    assert t.barriers[|s.barriers|] == u.barriers[|s.barriers|];
  }

  lemma TakesBarrier(s: Sup)
    requires s.group == Open
    ensures Step(s, WaitAllStarted).barriers == s.barriers + [s.seen]
  {}
}
