/** What `_host` makes of one daemon: its attempts, clean-ups, back-offs and end, for every script of outcomes. */
module Lifecycle {
  import opened Times

  /** Kinds of exception: the event loop's cancellation, another `BaseException`, or an `Exception`. */
  datatype Kind = Cancelled | Base | Exception

  /** How a call ends; `Absorbed` is a cancellation that the scope around the call absorbs. */
  datatype Call = Returns | Absorbed | Raises(kind: Kind)

  /** A back-off: the stop event may be set during it, and then, or without that, the sleep may be cancelled. */
  datatype Pause = Pause(signalled: bool, cancelled: bool)

  /** When the stop event gets set during an attempt, if the attempt gets there. */
  datatype Moment = Never | InStart | InRun | InCleanup

  /** The outcomes of one attempt: `stop` is the exception of a normal `on_stop`, `cleanup` the shielded one;
      `now` is the clock once `on_start` returned. */
  datatype Attempt = Attempt(
    start: Call, run: Call, stop: Option<Kind>, cleanup: Call, signal: Moment, pause: Pause, now: real)

  datatype OnError = Shutdown | Ignore | Restart

  datatype Policy = Policy(onError: OnError, base: real, factor: real, cap: real, maxRetries: Option<int>)

  datatype State = Starting | Running | Restarting | Stopped | Failed
  datatype Phase = OnStart | Run | OnStop

  datatype Record = Record(
    state: State, restarts: nat, lastError: Option<Kind>, lastPhase: Option<Phase>, startedAt: Option<real>, started: bool)

  datatype Event =
    | StartCalled | StartReturned | StartAbsorbed | StartRaised | StopCalled | Signalled
    | BackOff(delay: real) | SleepCancelled

  datatype End = Returned | Reraised(kind: Kind) | DaemonError

  datatype Life = Life(trace: seq<Event>, record: Record, end: End)

  const NEW_RECORD := Record(Starting, 0, None, None, None, false)

  /** When the script is over, the supervisor's scope is cancelled. */
  const CANCELLED := Attempt(Raises(Cancelled), Returns, None, Returns, Never, Pause(false, false), 0.0)

  function Min(x: real, y: real): real {
    if x < y then x else y
  }

  /** A product with a name, so that proofs can use it without multiplying. */
  function Scale(x: real, f: real): real {
    x * f
  }

  function Delay(c: Policy, k: nat): real {
    if k == 0 then c.base else Min(Scale(Delay(c, k - 1), c.factor), c.cap)
  }

  /** The exception of an attempt and the phase it is charged to. */
  function Thrown(a: Attempt): Option<(Kind, Phase)> {
    if a.start.Raises? then Some((a.start.kind, OnStart))
    else if a.start.Returns? && a.run.Raises? then Some((a.run.kind, Phase.Run))
    else if a.stop.Some? then Some((a.stop.value, OnStop))
    else None
  }

  /** An exception of the shielded clean-up that is not an `Exception` replaces the first one. */
  function Escaped(a: Attempt): Option<Kind> {
    if a.start.Returns? && a.run.Raises? && a.cleanup.Raises? && a.cleanup.kind != Exception then Some(a.cleanup.kind)
    else None
  }

  /** The attempt gets to the moment in which it is signalled. */
  predicate Signals(a: Attempt) {
    match a.signal
    case Never => false
    case InStart => true
    case InRun => a.start.Returns?
    case InCleanup => !a.start.Raises?
  }

  function SignalAt(a: Attempt, m: Moment, stop: bool): seq<Event> {
    if a.signal == m && !stop then [Signalled] else []
  }

  function StartEvent(a: Attempt): Event {
    match a.start
    case Returns => StartReturned
    case Absorbed => StartAbsorbed
    case Raises(_) => StartRaised
  }

  /** What happens inside the attempt's scope, as far as clean-up is concerned. */
  function ScopeEvents(a: Attempt, stop: bool): seq<Event> {
    [StartCalled] + SignalAt(a, InStart, stop) + [StartEvent(a)]
    + if a.start.Returns? then SignalAt(a, InRun, stop) else []
  }

  function CleanupEvents(a: Attempt, stop: bool): seq<Event> {
    [StopCalled] + SignalAt(a, InCleanup, stop)
  }

  function Events(a: Attempt, stop: bool): seq<Event> {
    ScopeEvents(a, stop) + if a.start.Raises? then [] else CleanupEvents(a, stop)
  }

  function AtStart(r: Record, a: Attempt): Record {
    if a.start.Returns? then r.(state := Running, startedAt := Some(a.now), started := true)
    else r.(state := Starting, startedAt := None)
  }

  /** What is decided on an exception that leaves the attempt. */
  function Judge(c: Policy, kind: Kind, phase: Phase, r: Record, stop: bool): (Record, Option<End>) {
    match kind
    case Cancelled => (r.(state := Stopped), Some(Reraised(Cancelled)))
    case Base => (r.(state := Failed, lastError := Some(Base), lastPhase := Some(phase)), Some(Reraised(Base)))
    case Exception =>
      var e := r.(lastError := Some(Exception), lastPhase := Some(phase));
      if (phase == OnStop && c.onError != Ignore) || c.onError == Shutdown then (e.(state := Failed), Some(DaemonError))
      else if c.onError == Ignore || stop then (e.(state := Stopped), Some(Returned))
      else if c.maxRetries.Some? && e.restarts + 1 > c.maxRetries.value then
        (e.(state := Failed, restarts := e.restarts + 1), Some(DaemonError))
      else (e.(state := Restarting, restarts := e.restarts + 1), None)
  }

  /** What is decided on an attempt: the end of the host, or `None` for another attempt. */
  function Verdict(c: Policy, a: Attempt, r: Record, stop: bool): (Record, Option<End>) {
    if Escaped(a).Some? then (r, Some(Reraised(Escaped(a).value)))
    else
      match Thrown(a)
      case None => (r.(state := Stopped), Some(Returned))
      case Some(e) => Judge(c, e.0, e.1, r, stop)
  }

  /** The back-off, with the stop signal if it first arrives there, and its cancellation. */
  function Pausing(c: Policy, a: Attempt, retries: nat, stop: bool): seq<Event> {
    [BackOff(Delay(c, retries))] + (if a.pause.signalled && !stop then [Signalled] else [])
    + if a.pause.cancelled then [SleepCancelled] else []
  }

  function Head(script: seq<Attempt>): Attempt {
    if script == [] then CANCELLED else script[0]
  }

  /** The life of a daemon from a record on; `r.restarts` failures went before. */
  function Lives(c: Policy, script: seq<Attempt>, r: Record, stop: bool): Life
    decreases |script|
  {
    var a := Head(script);
    var events, now := Events(a, stop), stop || Signals(a);
    var v := Verdict(c, a, AtStart(r, a), now);
    if v.1.Some? then Life(events, v.0.(started := true), v.1.value)
    else
      var turn := events + Pausing(c, a, r.restarts, now);
      if a.pause.cancelled then Life(turn, v.0.(started := true), Reraised(Cancelled))
      else
        assert script != [];
        var rest := Lives(c, script[1..], v.0, now || a.pause.signalled);
        rest.(trace := turn + rest.trace)
  }

  /** One turn of a life whose trace so far is `done`. */
  lemma LivesTurn(c: Policy, script: seq<Attempt>, r: Record, stop: bool, done: seq<Event>)
    ensures var a, now, life := Head(script), stop || Signals(Head(script)), Lives(c, script, r, stop);
      var v, trace := Verdict(c, a, AtStart(r, a), now), done + Events(a, stop);
      && (v.1.Some? ==> Life(done + life.trace, life.record, life.end) == Life(trace, v.0.(started := true), v.1.value))
      && (v.1.None? ==> script != [] && v.0.restarts == r.restarts + 1)
      && (v.1.None? && a.pause.cancelled ==>
            Life(done + life.trace, life.record, life.end)
            == Life(trace + Pausing(c, a, r.restarts, now), v.0.(started := true), Reraised(Cancelled)))
      && (v.1.None? && !a.pause.cancelled ==>
            var rest := Lives(c, script[1..], v.0, now || a.pause.signalled);
            Life(done + life.trace, life.record, life.end)
            == Life(trace + Pausing(c, a, r.restarts, now) + rest.trace, rest.record, rest.end))
  {
    var a, now := Head(script), stop || Signals(Head(script));
    VerdictRestarts(c, a, AtStart(r, a), now);
    hide Events, Pausing;
    assert script == [] ==> Verdict(c, a, AtStart(r, a), now).1.Some?;
    var events, life := Events(a, stop), Lives(c, script, r, stop);
    var v := Verdict(c, a, AtStart(r, a), now);
    hide Verdict, AtStart;
    if v.1.None? {
      assert done + (events + Pausing(c, a, r.restarts, now)) == done + events + Pausing(c, a, r.restarts, now);
      if !a.pause.cancelled {
        var rest := Lives(c, script[1..], v.0, now || a.pause.signalled);
        assert done + (events + Pausing(c, a, r.restarts, now) + rest.trace)
            == done + events + Pausing(c, a, r.restarts, now) + rest.trace;
      }
    }
  }

  lemma TurnSignals(c: Policy, a: Attempt, retries: nat, stop: bool)
    ensures Signalled in Events(a, stop) <==> Signals(a) && !stop
    ensures Signalled in Pausing(c, a, retries, stop) <==> a.pause.signalled && !stop
  {}

  // ----- clean-up is owed exactly once -----

  /** What is owed after a trace; `Broken` for one that skips or repeats a clean-up. */
  datatype Debt = Clear | Waiting | Owed | Broken

  function Next(q: Debt, e: Event): Debt {
    match (q, e)
    case (_, Signalled) => q
    case (Clear, StartCalled) => Waiting
    case (Waiting, StartReturned) => Owed
    case (Waiting, StartAbsorbed) => Owed
    case (Waiting, StartRaised) => Clear
    case (Owed, StopCalled) => Clear
    case (Clear, BackOff(_)) => Clear
    case (Clear, SleepCancelled) => Clear
    case _ => Broken
  }

  function After(q: Debt, trace: seq<Event>): Debt
    decreases |trace|
  {
    if trace == [] then q else After(Next(q, trace[0]), trace[1..])
  }

  lemma {:induction false} AfterAppend(q: Debt, a: seq<Event>, b: seq<Event>)
    ensures After(q, a + b) == After(After(q, a), b)
    decreases |a|
  {
    if a == [] {
      assert a + b == b;
    } else {
      AfterAppend(Next(q, a[0]), a[1..], b);
      assert (a + b)[1..] == a[1..] + b;
    }
  }

  lemma AfterOne(q: Debt, e: Event)
    ensures After(q, [e]) == Next(q, e)
  {
    assert [e][1..] == [];
  }

  lemma {:induction false} AfterSignals(q: Debt, trace: seq<Event>)
    requires forall i :: 0 <= i < |trace| ==> trace[i] == Signalled
    ensures After(q, trace) == q
    decreases |trace|
  {
    if trace != [] { AfterSignals(q, trace[1..]); }
  }

  lemma ScopeClear(a: Attempt, stop: bool)
    ensures After(Clear, ScopeEvents(a, stop)) == if a.start.Raises? then Clear else Owed
  {
    var early, e, late := SignalAt(a, InStart, stop), StartEvent(a), if a.start.Returns? then SignalAt(a, InRun, stop) else [];
    AfterOne(Clear, StartCalled);
    AfterSignals(Waiting, early);
    AfterOne(Waiting, e);
    AfterSignals(Next(Waiting, e), late);
    AfterAppend(Clear, [StartCalled], early);
    AfterAppend(Clear, [StartCalled] + early, [e]);
    AfterAppend(Clear, [StartCalled] + early + [e], late);
  }

  lemma EventsClear(a: Attempt, stop: bool)
    ensures After(Clear, Events(a, stop)) == Clear
  {
    ScopeClear(a, stop);
    AfterOne(Owed, StopCalled);
    AfterSignals(Clear, SignalAt(a, InCleanup, stop));
    AfterAppend(Owed, [StopCalled], SignalAt(a, InCleanup, stop));
    AfterAppend(Clear, ScopeEvents(a, stop), CleanupEvents(a, stop));
    assert ScopeEvents(a, stop) + [] == ScopeEvents(a, stop);
  }

  lemma PausingClear(c: Policy, a: Attempt, retries: nat, stop: bool)
    ensures After(Clear, Pausing(c, a, retries, stop)) == Clear
  {
    var wait, signal := [BackOff(Delay(c, retries))], if a.pause.signalled && !stop then [Signalled] else [];
    AfterOne(Clear, wait[0]);
    AfterSignals(Clear, signal);
    AfterOne(Clear, SleepCancelled);
    AfterAppend(Clear, wait, signal);
    AfterAppend(Clear, wait + signal, if a.pause.cancelled then [SleepCancelled] else []);
  }

  /** Every life pays what it owes. */
  lemma {:induction false} LivesClear(c: Policy, script: seq<Attempt>, r: Record, stop: bool)
    ensures After(Clear, Lives(c, script, r, stop).trace) == Clear
    decreases |script|
  {
    var a := Head(script);
    var events, now := Events(a, stop), stop || Signals(a);
    var v := Verdict(c, a, AtStart(r, a), now);
    EventsClear(a, stop);
    if v.1 == None {
      var pause := Pausing(c, a, r.restarts, now);
      PausingClear(c, a, r.restarts, now);
      AfterAppend(Clear, events, pause);
      if !a.pause.cancelled {
        LivesClear(c, script[1..], v.0, now || a.pause.signalled);
        AfterAppend(Clear, events + pause, Lives(c, script[1..], v.0, now || a.pause.signalled).trace);
      }
    }
  }

  predicate Returning(e: Event) {
    e.StartReturned? || e.StartAbsorbed?
  }

  function Count(trace: seq<Event>, e: Event): nat {
    multiset(trace)[e]
  }

  /** What a cleared trace means: each return of `on_start` is followed by one clean-up, with nothing but the stop
      signal in between, ... */
  lemma {:induction false} PaidAfterReturn(trace: seq<Event>, i: nat)
    requires After(Clear, trace) == Clear && i < |trace| && Returning(trace[i])
    ensures exists j :: i < j < |trace| && trace[j] == StopCalled && forall k :: i < k < j ==> trace[k] == Signalled
  {
    AtPoint(Clear, trace, i);
    assert Next(After(Clear, trace[..i]), trace[i]) == Owed by { NeverBroken(Clear, trace, i); }
    var j := Paid(trace[i + 1..]);
    assert trace[i + 1 + j] == StopCalled;
    forall k | i < k < i + 1 + j ensures trace[k] == Signalled {
      assert trace[i + 1..][k - i - 1] == Signalled;
    }
  }

  /** ... and each clean-up comes after such a return, with nothing but the stop signal in between. */
  lemma {:induction false} PaidOnlyAfterReturn(trace: seq<Event>, j: nat)
    requires After(Clear, trace) == Clear && j < |trace| && trace[j] == StopCalled
    ensures exists i :: 0 <= i < j && Returning(trace[i]) && forall k :: i < k < j ==> trace[k] == Signalled
  {
    AtPoint(Clear, trace, j);
    NeverBroken(Clear, trace, j);
    var i := Incurred(trace[..j]);
    assert forall k :: i < k < j ==> trace[k] == trace[..j][k];
  }

  lemma {:induction false} BrokenStays(trace: seq<Event>)
    ensures After(Broken, trace) == Broken
    decreases |trace|
  {
    if trace != [] { BrokenStays(trace[1..]); }
  }

  lemma {:induction false} AtPoint(q: Debt, trace: seq<Event>, i: nat)
    requires i < |trace|
    ensures After(q, trace) == After(Next(After(q, trace[..i]), trace[i]), trace[i + 1..])
  {
    assert trace == trace[..i] + trace[i..];
    AfterAppend(q, trace[..i], trace[i..]);
    assert trace[i..][1..] == trace[i + 1..];
  }

  lemma NeverBroken(q: Debt, trace: seq<Event>, i: nat)
    requires i < |trace| && After(q, trace) == Clear
    ensures After(q, trace[..i]) != Broken && Next(After(q, trace[..i]), trace[i]) != Broken
  {
    AtPoint(q, trace, i);
    if Next(After(q, trace[..i]), trace[i]) == Broken { BrokenStays(trace[i + 1..]); }
  }

  lemma {:induction false} Paid(trace: seq<Event>) returns (j: nat)
    requires After(Owed, trace) == Clear
    ensures j < |trace| && trace[j] == StopCalled && forall k :: 0 <= k < j ==> trace[k] == Signalled
    decreases |trace|
  {
    if trace[0] == StopCalled {
      j := 0;
    } else {
      if Next(Owed, trace[0]) == Broken { BrokenStays(trace[1..]); }
      j := Paid(trace[1..]);
      j := j + 1;
      assert forall k :: 1 <= k < j ==> trace[k] == trace[1..][k - 1];
    }
  }

  lemma {:induction false} Incurred(trace: seq<Event>) returns (i: nat)
    requires After(Clear, trace) == Owed
    ensures i < |trace| && Returning(trace[i]) && forall k :: i < k < |trace| ==> trace[k] == Signalled
    decreases |trace|
  {
    var n := |trace| - 1;
    AtPoint(Clear, trace, n);
    assert trace[n + 1..] == [];
    if trace[n] == Signalled {
      i := Incurred(trace[..n]);
    } else {
      i := n;
    }
  }

  // ----- how many attempts -----

  lemma CountAppend(a: seq<Event>, b: seq<Event>, e: Event)
    ensures Count(a + b, e) == Count(a, e) + Count(b, e)
  {}

  lemma TurnCounts(c: Policy, a: Attempt, retries: nat, stop: bool)
    ensures Count(Events(a, stop), StartCalled) == 1
    ensures Count(Pausing(c, a, retries, stop), StartCalled) == 0
  {
    EventsInner(a, stop);
    hide Events;
    var events, pause := Events(a, stop), Pausing(c, a, retries, stop);
    assert StartCalled !in events[1..] && StartCalled !in pause;
    CountAppend([StartCalled], events[1..], StartCalled);
    assert events == [StartCalled] + events[1..];
  }

  /** The most attempts a policy allows. */
  function Allowed(c: Policy): nat
    requires c.maxRetries.Some?
  {
    if c.maxRetries.value < 0 then 1 else c.maxRetries.value + 1
  }

  lemma VerdictRestarts(c: Policy, a: Attempt, r: Record, stop: bool)
    ensures var v := Verdict(c, a, r, stop);
      && r.restarts <= v.0.restarts <= r.restarts + 1
      && (v.1 == None ==> v.0.restarts == r.restarts + 1 && !stop && c.onError == Restart && v.0.state == Restarting
                          && (c.maxRetries.Some? ==> v.0.restarts <= c.maxRetries.value))
  {}

  /** `restarts` counts the failures that asked for a restart, granted or not. */
  lemma {:induction false} AttemptsBounded(c: Policy, script: seq<Attempt>, r: Record, stop: bool)
    ensures var life := Lives(c, script, r, stop);
      var attempts := Count(life.trace, StartCalled);
      && 1 <= attempts && attempts - 1 <= life.record.restarts - r.restarts <= attempts
      && (c.maxRetries.Some? && r.restarts < Allowed(c) ==> r.restarts + attempts <= Allowed(c))
    decreases |script|
  {
    var a := Head(script);
    var events, now := Events(a, stop), stop || Signals(a);
    var v := Verdict(c, a, AtStart(r, a), now);
    TurnCounts(c, a, r.restarts, stop);
    TurnCounts(c, a, r.restarts, now);
    VerdictRestarts(c, a, AtStart(r, a), now);
    assert AtStart(r, a).restarts == r.restarts && (v.1 == None ==> script != []);
    hide Verdict, Events, Pausing, Count, AtStart;
    if v.1 == None {
      var pause := Pausing(c, a, r.restarts, now);
      CountAppend(events, pause, StartCalled);
      if !a.pause.cancelled {
        AttemptsBounded(c, script[1..], v.0, now || a.pause.signalled);
        CountAppend(events + pause, Lives(c, script[1..], v.0, now || a.pause.signalled).trace, StartCalled);
      }
    }
  }

  // ----- stop wins over retry, from the next failure on -----

  /** Once stop is set, the attempt that starts is the last, and nothing is slept. */
  lemma StopEndsRetries(c: Policy, script: seq<Attempt>, r: Record)
    ensures Lives(c, script, r, true).trace == Events(Head(script), true)
    ensures Count(Lives(c, script, r, true).trace, StartCalled) == 1
  {
    VerdictRestarts(c, Head(script), AtStart(r, Head(script)), true);
    TurnCounts(c, Head(script), 0, true);
  }

  /** After the stop signal no attempt starts if it came during one; if it came in a back-off, exactly one starts
      unless that back-off is then cancelled. */
  ghost predicate FewStarts(trace: seq<Event>, i: nat)
    requires i < |trace|
  {
    1 <= i && Count(trace[i..], StartCalled) ==
      if trace[i - 1].BackOff? && !(i + 1 < |trace| && trace[i + 1] == SleepCancelled) then 1 else 0
  }

  lemma {:induction false} StartsAfterSignal(c: Policy, script: seq<Attempt>, r: Record, stop: bool, i: nat)
    requires var trace := Lives(c, script, r, stop).trace; i < |trace| && trace[i] == Signalled
    ensures !stop && FewStarts(Lives(c, script, r, stop).trace, i)
    decreases |script|
  {
    hide Lives, Verdict, Events, AtStart, Count, Pausing, FewStarts, Signals;
    var a := Head(script);
    var events, now := Events(a, stop), stop || Signals(a);
    var v := Verdict(c, a, AtStart(r, a), now);
    VerdictRestarts(c, a, AtStart(r, a), now);
    LivesTurn(c, script, r, stop, []);
    var trace := Lives(c, script, r, stop).trace;
    assert [] + trace == trace && [] + events == events;
    if i < |events| {
      EventsFirst(c, script, r, stop);
      SignalInAttempt(a, stop, i);
    } else {
      var pause := Pausing(c, a, r.restarts, now);
      var rest := if a.pause.cancelled then [] else Lives(c, script[1..], v.0, now || a.pause.signalled).trace;
      assert trace == events + pause + rest;
      if i < |events| + |pause| {
        SignalInPause(c, a, r.restarts, now, i - |events|);
        StopEndsRetries(c, script[1..], v.0);
        EventsStart(script[1..]);
        AfterPause(events, pause, rest, i);
      } else {
        StartsAfterSignal(c, script[1..], v.0, now || a.pause.signalled, i - |events| - |pause|);
        Shifted(events + pause, rest, i);
      }
    }
  }

  lemma Shifted(turn: seq<Event>, rest: seq<Event>, i: nat)
    requires |turn| <= i < |turn| + |rest| && FewStarts(rest, i - |turn|)
    ensures FewStarts(turn + rest, i)
  {
    var trace, j := turn + rest, i - |turn|;
    assert trace[i..] == rest[j..] && trace[i - 1] == rest[j - 1];
    assert i + 1 < |trace| ==> trace[i + 1] == rest[j + 1];
  }

  /** Signalled in a back-off: what follows is its cancellation, or the next attempt. */
  lemma AfterPause(events: seq<Event>, pause: seq<Event>, rest: seq<Event>, i: nat)
    requires 2 <= |pause| <= 3 && pause[0].BackOff? && pause[1] == Signalled && i == |events| + 1
    requires if |pause| == 3 then pause[2] == SleepCancelled && rest == []
             else rest != [] && rest[0] == StartCalled && Count(rest, StartCalled) == 1
    ensures FewStarts(events + pause + rest, i)
  {
    var trace := events + pause + rest;
    assert trace[i..] == pause[1..] + rest && trace[i - 1] == pause[0];
    if |pause| == 3 {
      assert pause[1..] == [Signalled, SleepCancelled] && trace[i + 1] == pause[2];
      assert Count([Signalled, SleepCancelled], StartCalled) == 0;
    } else {
      assert pause[1..] == [Signalled] && trace[i + 1] == rest[0];
      assert Count([Signalled], StartCalled) == 0;
    }
    CountAppend(pause[1..], rest, StartCalled);
  }

  lemma EventsStart(script: seq<Attempt>)
    ensures Events(Head(script), true) != [] && Events(Head(script), true)[0] == StartCalled
  {}

  lemma EventsFirst(c: Policy, script: seq<Attempt>, r: Record, stop: bool)
    ensures var events, trace := Events(Head(script), stop), Lives(c, script, r, stop).trace;
      |events| <= |trace| && events == trace[..|events|]
  {
    hide Events, Verdict, AtStart, Pausing;
  }

  lemma SignalInPause(c: Policy, a: Attempt, retries: nat, stop: bool, i: nat)
    requires i < |Pausing(c, a, retries, stop)| && Pausing(c, a, retries, stop)[i] == Signalled
    ensures var pause := Pausing(c, a, retries, stop);
      && a.pause.signalled && !stop && i == 1 && pause[0].BackOff?
      && |pause| == (if a.pause.cancelled then 3 else 2) && (a.pause.cancelled ==> pause[2] == SleepCancelled)
  {}

  lemma SignalInAttempt(a: Attempt, stop: bool, i: nat)
    requires i < |Events(a, stop)| && Events(a, stop)[i] == Signalled
    ensures Signals(a) && !stop && FewStarts(Events(a, stop), i)
  {
    EventsInner(a, stop);
    hide ScopeEvents, CleanupEvents, Events;
    assert StartCalled !in Events(a, stop)[i..];
  }

  lemma EventsInner(a: Attempt, stop: bool)
    ensures Signalled in Events(a, stop) ==> Signals(a) && !stop
    ensures var events := Events(a, stop);
      && events != [] && events[0] == StartCalled
      && forall j :: 0 <= j < |events| ==> (1 <= j ==> events[j] != StartCalled) && !events[j].BackOff?
  {}

  // ----- how it ends -----

  predicate Settles(r: Record, end: End) {
    match r.state
    case Starting => false
    case Restarting => end == Reraised(Cancelled)
    case Running => end == Reraised(Cancelled) || end == Reraised(Base)
    case Stopped => end == Returned || end == Reraised(Cancelled)
    case Failed => (end == DaemonError && r.lastError == Some(Exception)) || (end == Reraised(Base) && r.lastError == Some(Base))
  }

  lemma VerdictSettles(c: Policy, a: Attempt, r: Record, stop: bool)
    ensures var v := Verdict(c, a, AtStart(r, a), stop);
      if v.1.Some? then v.0.state != Restarting && Settles(v.0, v.1.value) else v.0.state == Restarting
  {}

  predicate EndsCancelled(trace: seq<Event>) {
    trace != [] && trace[|trace| - 1] == SleepCancelled
  }

  lemma LastOf(a: seq<Event>, b: seq<Event>)
    ensures b != [] ==> (EndsCancelled(a + b) <==> EndsCancelled(b))
    ensures a + [] == a
  {}

  lemma TurnLast(c: Policy, a: Attempt, retries: nat, stop: bool)
    ensures Events(a, stop) != [] && !EndsCancelled(Events(a, stop))
    ensures Pausing(c, a, retries, stop) != [] && (EndsCancelled(Pausing(c, a, retries, stop)) <==> a.pause.cancelled)
  {}

  /** Which record states go with which ends: a cancelled back-off leaves "restarting", and a clean-up whose
      exception escapes the shield leaves "running"; every other end is "stopped" or "failed". */
  lemma {:induction false} EndStates(c: Policy, script: seq<Attempt>, r: Record, stop: bool)
    ensures var life := Lives(c, script, r, stop);
      && life.record.started && life.trace != [] && Settles(life.record, life.end)
      && (life.record.state == Restarting <==> EndsCancelled(life.trace))
    decreases |script|
  {
    hide Lives, Verdict, Events, Pausing, AtStart, EndsCancelled, Signals;
    var a := Head(script);
    var now := stop || Signals(a);
    var v := Verdict(c, a, AtStart(r, a), now);
    LivesTurn(c, script, r, stop, []);
    VerdictSettles(c, a, r, now);
    TurnLast(c, a, r.restarts, stop);
    TurnLast(c, a, r.restarts, now);
    var events, pause, trace := Events(a, stop), Pausing(c, a, r.restarts, now), Lives(c, script, r, stop).trace;
    assert [] + trace == trace && [] + events == events;
    LivesStarted(c, script, r, stop);
    if v.1 == None {
      if a.pause.cancelled {
        LastOf(events, pause);
      } else {
        EndStates(c, script[1..], v.0, now || a.pause.signalled);
        LastOf(events + pause, Lives(c, script[1..], v.0, now || a.pause.signalled).trace);
      }
    }
  }

  lemma {:induction false} LivesStarted(c: Policy, script: seq<Attempt>, r: Record, stop: bool)
    ensures Lives(c, script, r, stop).record.started
    decreases |script|
  {
    hide Verdict, Events, Pausing, AtStart;
    LivesTurn(c, script, r, stop, []);
    var a := Head(script);
    var now := stop || Signals(a);
    var v := Verdict(c, a, AtStart(r, a), now);
    if v.1 == None && !a.pause.cancelled {
      LivesStarted(c, script[1..], v.0, now || a.pause.signalled);
    }
  }

  // ----- which attempts start, and which scripts leave a record unsettled -----

  /** The attempt fails in a way for which the policy provides a retry. */
  predicate Asks(c: Policy, a: Attempt) {
    c.onError == Restart && Escaped(a).None? &&
    (a.start == Raises(Exception) || (a.start.Returns? && a.run == Raises(Exception)))
  }

  predicate Budget(c: Policy, retries: nat) {
    c.maxRetries.Some? ==> retries < c.maxRetries.value
  }

  /** Attempt `a` is retried after `retries` retries, unless stop was set before it. */
  predicate Passes(c: Policy, a: Attempt, retries: nat) {
    Asks(c, a) && !Signals(a) && Budget(c, retries)
  }

  /** The first `n` attempts are retried: each asks for it within the budget, stop is not set by then, and no
      back-off but the last is cancelled. */
  ghost predicate Retried(c: Policy, script: seq<Attempt>, retries: nat, stop: bool, n: nat) {
    && n <= |script| && (0 < n ==> !stop)
    && (forall i :: 0 <= i < n ==> Passes(c, script[i], retries + i))
    && (forall i :: 0 <= i < n - 1 ==> script[i].pause == Pause(false, false))
  }

  /** The n-th back-off starts, and is cancelled. */
  ghost predicate LeavesRestarting(c: Policy, script: seq<Attempt>, retries: nat, stop: bool, n: nat) {
    1 <= n && Retried(c, script, retries, stop, n) && script[n - 1].pause.cancelled
  }

  /** Attempt `n`, counted from 0, starts. */
  ghost predicate Starts(c: Policy, script: seq<Attempt>, retries: nat, stop: bool, n: nat) {
    Retried(c, script, retries, stop, n) && (1 <= n ==> !script[n - 1].pause.cancelled)
  }

  /** Attempt `n` starts, and an exception escapes its shielded clean-up. */
  ghost predicate LeavesRunning(c: Policy, script: seq<Attempt>, retries: nat, stop: bool, n: nat) {
    Starts(c, script, retries, stop, n) && n < |script| && Escaped(script[n]).Some?
  }

  lemma VerdictIff(c: Policy, a: Attempt, r: Record, stop: bool)
    ensures var v := Verdict(c, a, AtStart(r, a), stop);
      && (v.1 == None <==> Asks(c, a) && !stop && Budget(c, r.restarts))
      && (v.1.Some? ==> (v.0.state == Running <==> Escaped(a).Some?) && v.0.state != Restarting)
      && (Escaped(a).Some? ==> v.1 == Some(Reraised(Escaped(a).value)))
  {}

  lemma RetriedDown(c: Policy, script: seq<Attempt>, retries: nat, stop: bool, n: nat)
    requires 2 <= n && Retried(c, script, retries, stop, n)
    ensures script != [] && !stop && script[0].pause == Pause(false, false) && Retried(c, script[1..], retries + 1, false, n - 1)
  {
    hide Passes;
    var tail, more := script[1..], retries + 1;
    forall i | 0 <= i < n - 1 ensures Passes(c, tail[i], more + i) {
      assert tail[i] == script[i + 1] && more + i == retries + (i + 1);
    }
    forall i | 0 <= i < n - 2 ensures tail[i].pause == Pause(false, false) {
      assert tail[i] == script[i + 1];
    }
  }

  lemma RetriedUp(c: Policy, script: seq<Attempt>, retries: nat, n: nat)
    requires 2 <= n && script != [] && script[0].pause == Pause(false, false)
    requires Passes(c, script[0], retries) && Retried(c, script[1..], retries + 1, false, n - 1)
    ensures Retried(c, script, retries, false, n)
  {
    hide Passes;
    var tail, more := script[1..], retries + 1;
    forall i | 0 <= i < n ensures Passes(c, script[i], retries + i) {
      if i == 0 {
        assert retries + i == retries;
      } else {
        assert script[i] == tail[i - 1] && retries + i == more + (i - 1);
      }
    }
    forall i | 0 <= i < n - 1 ensures script[i].pause == Pause(false, false) {
      if 0 < i { assert script[i] == tail[i - 1]; }
    }
  }

  /** After a first attempt that is retried, and a back-off that is not cancelled. */
  lemma LeavesTail(c: Policy, script: seq<Attempt>, retries: nat, n: nat)
    requires script != [] && 1 <= n && !script[0].pause.cancelled
    requires Asks(c, script[0]) && !Signals(script[0]) && Budget(c, retries)
    ensures var tail, late := script[1..], script[0].pause.signalled;
      && (Starts(c, script, retries, false, n) <==> Starts(c, tail, retries + 1, late, n - 1))
      && (LeavesRunning(c, script, retries, false, n) <==> LeavesRunning(c, tail, retries + 1, late, n - 1))
      && (LeavesRestarting(c, script, retries, false, n) <==> LeavesRestarting(c, tail, retries + 1, late, n - 1))
  {
    if 2 <= n {
      if Retried(c, script, retries, false, n) { RetriedDown(c, script, retries, false, n); }
      if script[0].pause == Pause(false, false) && Retried(c, script[1..], retries + 1, false, n - 1) {
        RetriedUp(c, script, retries, n);
      }
    }
    assert n <= |script| ==> script[n - 1] == if n == 1 then script[0] else script[1..][n - 2];
    assert n < |script| ==> script[n] == script[1..][n - 1];
  }

  /** Exactly which attempts start: a failure is retried under the restart policy only, within the budget, not after a
      failed normal clean-up, not once stop is set, and not if the back-off is cancelled. */
  lemma {:induction false} AttemptIff(c: Policy, script: seq<Attempt>, r: Record, stop: bool, n: nat)
    ensures n < Count(Lives(c, script, r, stop).trace, StartCalled) <==> Starts(c, script, r.restarts, stop, n)
    decreases |script|
  {
    hide Verdict, Events, Pausing, AtStart, Asks, Budget, Escaped, Signals, Count, Lives;
    var a := Head(script);
    var events, now := Events(a, stop), stop || Signals(a);
    var v := Verdict(c, a, AtStart(r, a), now);
    LivesTurn(c, script, r, stop, []);
    VerdictIff(c, a, r, now);
    TurnCounts(c, a, r.restarts, stop);
    TurnCounts(c, a, r.restarts, now);
    RestartsAtStart(r, a);
    var trace := Lives(c, script, r, stop).trace;
    assert [] + trace == trace && [] + events == events;
    if v.1.Some? {
      if 1 <= n && Retried(c, script, r.restarts, stop, n) { FirstOfRetried(c, script, r.restarts, stop, n); }
    } else {
      var pause := Pausing(c, a, r.restarts, now);
      CountAppend(events, pause, StartCalled);
      if !a.pause.cancelled {
        CountAppend(events + pause, Lives(c, script[1..], v.0, now || a.pause.signalled).trace, StartCalled);
        if 1 <= n {
          LeavesTail(c, script, r.restarts, n);
          AttemptIff(c, script[1..], v.0, a.pause.signalled, n - 1);
        }
      }
    }
  }

  lemma RestartsAtStart(r: Record, a: Attempt)
    ensures AtStart(r, a).restarts == r.restarts
  {}

  ghost predicate EndsRestarting(c: Policy, script: seq<Attempt>, retries: nat, stop: bool) {
    exists n: nat :: LeavesRestarting(c, script, retries, stop, n)
  }

  ghost predicate EndsRunning(c: Policy, script: seq<Attempt>, retries: nat, stop: bool) {
    exists n: nat :: LeavesRunning(c, script, retries, stop, n)
  }

  lemma FirstOfRetried(c: Policy, script: seq<Attempt>, retries: nat, stop: bool, n: nat)
    requires Retried(c, script, retries, stop, n) && 1 <= n
    ensures script != [] && !stop && Passes(c, script[0], retries)
  {
    assert Passes(c, script[0], retries + 0);
  }

  lemma EndsAtOnce(c: Policy, script: seq<Attempt>, retries: nat, stop: bool)
    requires var a := Head(script); !(Asks(c, a) && !(stop || Signals(a)) && Budget(c, retries))
    ensures !EndsRestarting(c, script, retries, stop)
    ensures EndsRunning(c, script, retries, stop) <==> Escaped(Head(script)).Some?
    ensures forall n: nat :: LeavesRunning(c, script, retries, stop, n) ==> n == 0
  {
    assert Escaped(CANCELLED) == None;
    forall n: nat | 1 <= n ensures !Retried(c, script, retries, stop, n) {
      if Retried(c, script, retries, stop, n) { FirstOfRetried(c, script, retries, stop, n); }
    }
    if Escaped(Head(script)).Some? { assert LeavesRunning(c, script, retries, stop, 0); }
  }

  lemma FirstRetried(c: Policy, script: seq<Attempt>, retries: nat)
    requires Asks(c, Head(script)) && !Signals(Head(script)) && Budget(c, retries)
    ensures script != [] && Retried(c, script, retries, false, 1) && Escaped(script[0]) == None
  {}

  lemma CancelledAtOnce(c: Policy, script: seq<Attempt>, retries: nat)
    requires Asks(c, Head(script)) && !Signals(Head(script)) && Budget(c, retries) && Head(script).pause.cancelled
    ensures EndsRestarting(c, script, retries, false) && !EndsRunning(c, script, retries, false)
  {
    FirstRetried(c, script, retries);
    assert LeavesRestarting(c, script, retries, false, 1);
  }

  lemma UnsettledTail(c: Policy, script: seq<Attempt>, retries: nat)
    requires script != [] && !script[0].pause.cancelled
    requires Asks(c, script[0]) && !Signals(script[0]) && Budget(c, retries)
    ensures var tail, late := script[1..], script[0].pause.signalled;
      && (EndsRestarting(c, script, retries, false) <==> EndsRestarting(c, tail, retries + 1, late))
      && (EndsRunning(c, script, retries, false) <==> EndsRunning(c, tail, retries + 1, late))
      && (forall n: nat :: LeavesRunning(c, script, retries, false, n) ==>
            1 <= n && LeavesRunning(c, tail, retries + 1, late, n - 1) && script[n] == tail[n - 1])
  {
    var tail, late := script[1..], script[0].pause.signalled;
    FirstRetried(c, script, retries);
    assert forall n: nat ::
      LeavesRunning(c, script, retries, false, n) || LeavesRestarting(c, script, retries, false, n) ==> 1 <= n;
    forall n: nat | 1 <= n ensures
      (LeavesRunning(c, script, retries, false, n) <==> LeavesRunning(c, tail, retries + 1, late, n - 1))
      && (LeavesRestarting(c, script, retries, false, n) <==> LeavesRestarting(c, tail, retries + 1, late, n - 1)) {
      LeavesTail(c, script, retries, n);
    }
    var more := retries + 1;
    if n: nat :| LeavesRunning(c, tail, more, late, n) { LeavesTail(c, script, retries, n + 1); }
    if n: nat :| LeavesRestarting(c, tail, more, late, n) { LeavesTail(c, script, retries, n + 1); }
  }

  /** Exactly when a record ends neither "stopped" nor "failed": a back-off was cancelled, or an exception escaped
      the shielded clean-up of the attempt after the last retried one, which is then how the host ends. */
  lemma {:induction false} UnsettledIff(c: Policy, script: seq<Attempt>, r: Record, stop: bool)
    ensures var life := Lives(c, script, r, stop);
      && (life.record.state == Restarting <==> EndsRestarting(c, script, r.restarts, stop))
      && (life.record.state == Running <==> EndsRunning(c, script, r.restarts, stop))
      && (forall n: nat :: LeavesRunning(c, script, r.restarts, stop, n) ==> life.end == Reraised(Escaped(script[n]).value))
    decreases |script|
  {
    var a := Head(script);
    var now := stop || Signals(a);
    var v := Verdict(c, a, AtStart(r, a), now);
    VerdictIff(c, a, r, now);
    VerdictRestarts(c, a, AtStart(r, a), now);
    assert AtStart(r, a).restarts == r.restarts;
    hide Verdict, Events, Pausing, AtStart, Asks, Budget, Escaped, Signals, Retried, EndsRestarting, EndsRunning;
    if v.1.Some? {
      EndsAtOnce(c, script, r.restarts, stop);
    } else {
      FirstRetried(c, script, r.restarts);
      if a.pause.cancelled {
        CancelledAtOnce(c, script, r.restarts);
        NoRunning(c, script, r.restarts);
      } else {
        UnsettledTail(c, script, r.restarts);
        UnsettledIff(c, script[1..], v.0, a.pause.signalled);
      }
    }
  }

  lemma NoRunning(c: Policy, script: seq<Attempt>, retries: nat)
    requires !EndsRunning(c, script, retries, false)
    ensures forall n: nat :: !LeavesRunning(c, script, retries, false, n)
  {}

  /** The record is settled unless one of the two happens, ... */
  lemma SettledIff(c: Policy, script: seq<Attempt>, stop: bool)
    ensures var state := Lives(c, script, NEW_RECORD, stop).record.state;
      state == Stopped || state == Failed <==> !EndsRestarting(c, script, 0, stop) && !EndsRunning(c, script, 0, stop)
  {
    UnsettledIff(c, script, NEW_RECORD, stop);
    EndStates(c, script, NEW_RECORD, stop);
  }

  /** ... and both do: a force-cancelled back-off, ... */
  lemma CancelledBackOff(c: Policy)
    requires c.onError == Restart && Budget(c, 0)
    ensures var a := Attempt(Raises(Exception), Returns, None, Returns, Never, Pause(true, true), 0.0);
      Lives(c, [a], NEW_RECORD, false).record.state == Restarting
  {
    var a := Attempt(Raises(Exception), Returns, None, Returns, Never, Pause(true, true), 0.0);
    CancelledAtOnce(c, [a], 0);
    UnsettledIff(c, [a], NEW_RECORD, false);
  }

  /** ... and an interrupt in the shielded clean-up, under any policy. */
  lemma EscapedCleanup(c: Policy, stop: bool)
    ensures var a := Attempt(Returns, Raises(Exception), None, Raises(Base), Never, Pause(false, false), 0.0);
      Lives(c, [a], NEW_RECORD, stop).record.state == Running
  {
    var a := Attempt(Returns, Raises(Exception), None, Raises(Base), Never, Pause(false, false), 0.0);
    EndsAtOnce(c, [a], 0, stop);
    UnsettledIff(c, [a], NEW_RECORD, stop);
  }

  // ----- back-off -----

  function BackOffs(trace: seq<Event>): seq<real> {
    if trace == [] then []
    else (if trace[0].BackOff? then [trace[0].delay] else []) + BackOffs(trace[1..])
  }

  lemma {:induction false} BackOffsAppend(a: seq<Event>, b: seq<Event>)
    ensures BackOffs(a + b) == BackOffs(a) + BackOffs(b)
    decreases |a|
  {
    if a == [] {
      assert a + b == b;
    } else {
      BackOffsAppend(a[1..], b);
      assert (a + b)[1..] == a[1..] + b && (a + b)[0] == a[0];
      var head := if a[0].BackOff? then [a[0].delay] else [];
      assert BackOffs(a + b) == head + BackOffs(a[1..] + b);
    }
  }

  lemma {:induction false} NoBackOffs(trace: seq<Event>)
    requires forall i :: 0 <= i < |trace| ==> !trace[i].BackOff?
    ensures BackOffs(trace) == []
    decreases |trace|
  {
    if trace != [] { NoBackOffs(trace[1..]); }
  }

  ghost predicate AreDelays(c: Policy, waits: seq<real>, first: nat) {
    forall k :: 0 <= k < |waits| ==> waits[k] == Delay(c, first + k)
  }

  lemma OneMoreDelay(c: Policy, waits: seq<real>, first: nat)
    requires AreDelays(c, waits, first + 1)
    ensures AreDelays(c, [Delay(c, first)] + waits, first)
  {
    var all := [Delay(c, first)] + waits;
    forall k | 0 <= k < |all| ensures all[k] == Delay(c, first + k) {
      assert k > 0 ==> all[k] == waits[k - 1] == Delay(c, first + 1 + (k - 1));
    }
  }

  lemma TurnWaits(c: Policy, a: Attempt, retries: nat, stop: bool)
    ensures BackOffs(Events(a, stop)) == []
    ensures BackOffs(Pausing(c, a, retries, stop)) == [Delay(c, retries)]
  {
    NoBackOffs(Events(a, stop));
    NoBackOffs(Pausing(c, a, retries, stop)[1..]);
  }

  /** The k-th failure that is retried waits the k-th delay. */
  lemma {:induction false} WaitsAreDelays(c: Policy, script: seq<Attempt>, r: Record, stop: bool)
    ensures AreDelays(c, BackOffs(Lives(c, script, r, stop).trace), r.restarts)
    decreases |script|
  {
    var a := Head(script);
    var events, now := Events(a, stop), stop || Signals(a);
    var v := Verdict(c, a, AtStart(r, a), now);
    TurnWaits(c, a, r.restarts, stop);
    TurnWaits(c, a, r.restarts, now);
    VerdictRestarts(c, a, AtStart(r, a), now);
    hide BackOffs, Delay, AreDelays;
    if v.1 == None {
      var pause, late := Pausing(c, a, r.restarts, now), now || a.pause.signalled;
      assert v.0.restarts == r.restarts + 1 && script != [];
      hide Verdict, Events, Pausing, AtStart;
      var trace := Lives(c, script, r, stop).trace;
      assert a.pause.cancelled ==> trace == events + pause;
      assert !a.pause.cancelled ==> trace == events + pause + Lives(c, script[1..], v.0, late).trace;
      hide Lives;
      BackOffsAppend(events, pause);
      if a.pause.cancelled {
        NoDelays(c, r.restarts + 1);
        OneMoreDelay(c, [], r.restarts);
        assert [] + [Delay(c, r.restarts)] == [Delay(c, r.restarts)] + [];
      } else {
        var rest := Lives(c, script[1..], v.0, late).trace;
        WaitsAreDelays(c, script[1..], v.0, late);
        BackOffsAppend(events + pause, rest);
        OneMoreDelay(c, BackOffs(rest), r.restarts);
        assert [] + [Delay(c, r.restarts)] + BackOffs(rest) == [Delay(c, r.restarts)] + BackOffs(rest);
      }
    } else {
      NoDelays(c, r.restarts);
    }
  }

  lemma NoDelays(c: Policy, first: nat)
    ensures AreDelays(c, [], first)
  {}

  function Power(x: real, k: nat): real {
    if k == 0 then 1.0 else Scale(Power(x, k - 1), x)
  }

  /** Exponential back-off with a cap. */
  function Capped(c: Policy, k: nat): real {
    Min(Scale(c.base, Power(c.factor, k)), c.cap)
  }

  lemma ScaleTwice(x: real, p: real, f: real)
    ensures Scale(x, Scale(p, f)) == Scale(Scale(x, p), f) == Scale(Scale(x, f), p)
  {
    assert x * (p * f) == x * p * f == x * f * p;
  }

  lemma ScaleUnits(x: real)
    ensures Scale(x, 1.0) == x && Scale(1.0, x) == x && Scale(x, 0.0) == 0.0 && Scale(0.0, x) == 0.0
  {}

  lemma ScaleGrows(x: real, f: real)
    requires 0.0 <= x && 1.0 <= f
    ensures x <= Scale(x, f)
  {}

  lemma ScaleShrinks(x: real, f: real)
    requires 0.0 <= x && 0.0 <= f <= 1.0
    ensures 0.0 <= Scale(x, f) <= x
  {}

  lemma ScaleMonotone(x: real, y: real, f: real)
    requires x <= y && 0.0 <= f
    ensures Scale(x, f) <= Scale(y, f)
  {}

  lemma ScaleStrict(x: real, y: real, f: real)
    requires x < y && 0.0 < f
    ensures Scale(x, f) < Scale(y, f)
  {
    assert (y - x) * f > 0.0;
  }

  lemma {:induction false} GrowingDelay(c: Policy, k: nat)
    requires 1 <= k && 1.0 <= c.factor && 0.0 <= c.cap
    ensures Delay(c, k) == Capped(c, k)
    decreases k
  {
    hide Scale;
    var f, p := c.factor, Power(c.factor, k - 1);
    ScaleTwice(c.base, p, f);
    if k == 1 {
      ScaleUnits(c.base);
    } else {
      GrowingDelay(c, k - 1);
      ScaleGrows(c.cap, f);
      if c.cap < Scale(c.base, p) { ScaleMonotone(c.cap, Scale(c.base, p), f); }
    }
  }

  /** With a factor of at most 1 the first wait is capped, and the others shrink from there. */
  lemma {:induction false} ShrinkingDelay(c: Policy, k: nat)
    requires 1 <= k && 0.0 <= c.factor <= 1.0 && 0.0 <= c.base && 0.0 <= c.cap
    ensures Delay(c, k) == Scale(Min(Scale(c.base, c.factor), c.cap), Power(c.factor, k - 1))
    ensures 0.0 <= Delay(c, k) <= c.cap
    decreases k
  {
    hide Scale;
    var f, first := c.factor, Min(Scale(c.base, c.factor), c.cap);
    if k == 1 {
      ScaleUnits(first);
      ScaleShrinks(c.base, f);
    } else {
      ShrinkingDelay(c, k - 1);
      ScaleTwice(first, Power(f, k - 2), f);
      ScaleShrinks(Delay(c, k - 1), f);
    }
  }

  lemma {:induction false} PowerShrinks(x: real, k: nat)
    requires 0.0 <= x <= 1.0
    ensures 0.0 <= Power(x, k) <= 1.0
  {
    hide Scale;
    if k != 0 {
      PowerShrinks(x, k - 1);
      ScaleShrinks(Power(x, k - 1), x);
    }
  }

  lemma UncutDelay(c: Policy, k: nat)
    requires 1 <= k && 0.0 <= c.factor < 1.0 && 0.0 <= c.base && 0.0 <= c.cap
    requires Scale(c.base, c.factor) <= c.cap || c.cap == 0.0
    ensures Delay(c, k) == Capped(c, k)
  {
    hide Scale;
    var p, f := Power(c.factor, k - 1), c.factor;
    ShrinkingDelay(c, k);
    PowerShrinks(f, k - 1);
    ScaleTwice(c.base, p, f);
    ScaleShrinks(c.base, f);
    ScaleShrinks(Scale(c.base, f), p);
    ScaleUnits(p);
  }

  lemma PowerStep(x: real, k: nat, last: real)
    requires last == Power(x, k)
    ensures Power(x, k + 1) == Scale(last, x)
  {}

  lemma DelayStep(c: Policy, k: nat, last: real)
    requires last == Delay(c, k)
    ensures Delay(c, k + 1) == Min(Scale(last, c.factor), c.cap)
  {}

  /** A shrinking policy that the cap has cut: the cut wait shrinks on, the capped exponential is longer. */
  lemma CutOnce(c: Policy)
    requires 0.0 <= c.factor < 1.0 && 0.0 <= c.base && 0.0 < c.cap < Scale(c.base, c.factor)
    ensures Delay(c, 2) < Capped(c, 2)
  {
    ScaleUnits(c.base);
    assert c.factor > 0.0;
    hide Scale;
    var f, b := c.factor, c.base;
    ScaleUnits(f);
    PowerStep(f, 0, 1.0);
    PowerStep(f, 1, f);
    DelayStep(c, 0, b);
    DelayStep(c, 1, c.cap);
    ScaleTwice(b, f, f);
    ScaleStrict(c.cap, Scale(b, f), f);
    ScaleStrictlyShrinks(c.cap, f);
  }

  lemma ScaleStrictlyShrinks(x: real, f: real)
    requires 0.0 < x && 0.0 <= f < 1.0
    ensures Scale(x, f) < x
  {
    assert x * (1.0 - f) > 0.0;
  }

  /** For a policy without negative numbers, the waits after the first are capped exponentials exactly if the factor
      does not shrink them after the cap cut them. */
  lemma CappedIff(c: Policy)
    requires 0.0 <= c.factor && 0.0 <= c.base && 0.0 <= c.cap
    ensures (forall k :: 1 <= k ==> Delay(c, k) == Capped(c, k))
       <==> 1.0 <= c.factor || c.base * c.factor <= c.cap || c.cap == 0.0
  {
    if 1.0 <= c.factor {
      forall k | 1 <= k ensures Delay(c, k) == Capped(c, k) { GrowingDelay(c, k); }
    } else if c.base * c.factor <= c.cap || c.cap == 0.0 {
      forall k | 1 <= k ensures Delay(c, k) == Capped(c, k) { UncutDelay(c, k); }
    } else {
      CutOnce(c);
    }
  }
}
