/** How a daemon's host ends, and what its record then says, in terms of the script and the policy alone. */
module Outcomes {
  import opened Times
  import opened Lifecycle

  // ----- one attempt -----

  predicate FailsRunning(a: Attempt) {
    a.start.Returns? && a.run.Raises?
  }

  /** What leaves the attempt: what `on_start` raised, what `run` raised, or what the normal `on_stop` raised. */
  predicate Throws(a: Attempt, kind: Kind) {
    if a.start.Raises? then a.start.kind == kind
    else if FailsRunning(a) then a.run.kind == kind
    else a.stop == Some(kind)
  }

  function Phased(a: Attempt): Phase {
    if a.start.Raises? then OnStart else if FailsRunning(a) then Phase.Run else OnStop
  }

  /** Something other than an `Exception` gets out of the shielded clean-up after a failed `run`. */
  predicate Leaks(a: Attempt) {
    FailsRunning(a) && a.cleanup.Raises? && a.cleanup.kind != Exception
  }

  /** An `Exception` of `on_start` or `run` for which the policy wants another attempt, and stop is not set. */
  predicate Wants(c: Policy, a: Attempt, stop: bool) {
    c.onError == Restart && !stop && !Leaks(a) && Throws(a, Exception) && Phased(a) != OnStop
  }

  /** An `Exception` that brings the supervisor down. */
  predicate GivesUp(c: Policy, a: Attempt, retries: nat, stop: bool) {
    !Leaks(a) && Throws(a, Exception) &&
    (c.onError == Shutdown || (Phased(a) == OnStop && c.onError != Ignore)
     || (Wants(c, a, stop) && c.maxRetries.Some? && c.maxRetries.value <= retries))
  }

  /** What the last attempt, after `retries` others, makes of the host; `error` and `phase` are those of the attempt
      before. */
  ghost predicate Decides(
    c: Policy, a: Attempt, retries: nat, stop: bool, error: Option<Kind>, phase: Option<Phase>, record: Record, end: End)
  {
    && record.startedAt == (if a.start.Returns? then Some(a.now) else None) && record.started
    && record.restarts == retries + (if Wants(c, a, stop) then 1 else 0)
    && (if Leaks(a) then record.state == Running && end == Reraised(a.cleanup.kind)
        else if Throws(a, Cancelled) then record.state == Stopped && end == Reraised(Cancelled)
        else if Throws(a, Base) then record.state == Failed && end == Reraised(Base)
        else if GivesUp(c, a, retries, stop) then record.state == Failed && end == DaemonError
        else if Wants(c, a, stop) then record.state == Restarting && end == Reraised(Cancelled)
        else record.state == Stopped && end == Returned)
    && (if !Leaks(a) && Throws(a, Base) then record.lastError == Some(Base) && record.lastPhase == Some(Phased(a))
        else if !Leaks(a) && Throws(a, Exception) then record.lastError == Some(Exception) && record.lastPhase == Some(Phased(a))
        else record.lastError == error && record.lastPhase == phase)
  }

  // ----- the last attempt of a script -----

  /** Attempt `n` is the last that starts. */
  ghost predicate Ends(c: Policy, script: seq<Attempt>, retries: nat, stop: bool, n: nat) {
    Starts(c, script, retries, stop, n) && !Starts(c, script, retries, stop, n + 1)
  }

  /** After the script the supervisor's scope is cancelled. */
  function AttemptAt(script: seq<Attempt>, n: nat): Attempt {
    if n < |script| then script[n] else CANCELLED
  }

  /** Stop is set by the end of attempt `n`: before the host, in the back-off before the attempt, or during it. */
  predicate StopBy(script: seq<Attempt>, stop: bool, n: nat) {
    stop || Signals(AttemptAt(script, n)) || (1 <= n <= |script| && script[n - 1].pause.signalled)
  }

  function ErrorBefore(script: seq<Attempt>, error: Option<Kind>, n: nat): Option<Kind> {
    if n == 0 then error else Some(Exception)
  }

  function PhaseBefore(script: seq<Attempt>, phase: Option<Phase>, n: nat): Option<Phase> {
    if n == 0 then phase else Some(Phased(AttemptAt(script, n - 1)))
  }

  lemma VerdictDecides(c: Policy, a: Attempt, r: Record, stop: bool)
    ensures var v := Verdict(c, a, AtStart(r, a), stop);
      && (v.1 == None <==> Wants(c, a, stop) && !GivesUp(c, a, r.restarts, stop))
      && Decides(c, a, r.restarts, stop, r.lastError, r.lastPhase, v.0.(started := true),
                 if v.1 == None then Reraised(Cancelled) else v.1.value)
      && (v.1 == None ==> v.0.lastError == Some(Exception) && v.0.lastPhase == Some(Phased(a)))
      && (v.1 == None <==> Asks(c, a) && !stop && Budget(c, r.restarts))
  {}

  lemma EndsFirst(c: Policy, script: seq<Attempt>, retries: nat, stop: bool, n: nat)
    requires Ends(c, script, retries, stop, n)
    requires var a := Head(script); !(Asks(c, a) && !(stop || Signals(a)) && Budget(c, retries)) || a.pause.cancelled
    ensures n == 0
  {
    if 1 <= n { FirstOfRetried(c, script, retries, stop, n); }
  }

  /** After a retried first attempt, what ends the script ends its tail. */
  lemma EndsTail(c: Policy, script: seq<Attempt>, retries: nat, n: nat)
    requires script != [] && !script[0].pause.cancelled && Passes(c, script[0], retries) && Ends(c, script, retries, false, n)
    ensures var tail, late := script[1..], script[0].pause.signalled;
      && 1 <= n && Ends(c, tail, retries + 1, late, n - 1) && AttemptAt(tail, n - 1) == AttemptAt(script, n)
      && StopBy(tail, late, n - 1) == StopBy(script, false, n)
      && (2 <= n ==> AttemptAt(tail, n - 2) == AttemptAt(script, n - 1))
  {
    FirstRetried(c, script, retries);
    assert Starts(c, script, retries, false, 1);
    LeavesTail(c, script, retries, n);
    LeavesTail(c, script, retries, n + 1);
    assert n <= |script|;
  }

  /** How a host ends is decided by the last attempt that starts. */
  lemma {:induction false} LastAttemptDecides(c: Policy, script: seq<Attempt>, r: Record, stop: bool, n: nat)
    requires Ends(c, script, r.restarts, stop, n)
    ensures var life := Lives(c, script, r, stop);
      Decides(c, AttemptAt(script, n), r.restarts + n, StopBy(script, stop, n),
              ErrorBefore(script, r.lastError, n), PhaseBefore(script, r.lastPhase, n), life.record, life.end)
    decreases |script|
  {
    hide Verdict, Events, Pausing, AtStart, Lives, Decides, Asks, Budget, Signals, Wants, GivesUp, Ends, Passes;
    var a := Head(script);
    var now := stop || Signals(a);
    var v := Verdict(c, a, AtStart(r, a), now);
    VerdictDecides(c, a, r, now);
    RestartsAtStart(r, a);
    LivesTurn(c, script, r, stop, []);
    if v.1.Some? || a.pause.cancelled {
      EndsFirst(c, script, r.restarts, stop, n);
    } else {
      var tail, late := script[1..], script[0].pause.signalled;
      Passing(c, a, r.restarts);
      EndsTail(c, script, r.restarts, n);
      LastAttemptDecides(c, tail, v.0, late, n - 1);
      assert ErrorBefore(tail, v.0.lastError, n - 1) == ErrorBefore(script, r.lastError, n);
      assert PhaseBefore(tail, v.0.lastPhase, n - 1) == PhaseBefore(script, r.lastPhase, n);
    }
  }

  lemma Passing(c: Policy, a: Attempt, retries: nat)
    requires Asks(c, a) && !Signals(a) && Budget(c, retries)
    ensures Passes(c, a, retries)
  {}

  /** There is one. */
  lemma LastAttempt(c: Policy, script: seq<Attempt>, r: Record, stop: bool) returns (n: nat)
    ensures Ends(c, script, r.restarts, stop, n)
  {
    AttemptIff(c, script, r, stop, 0);
    assert Starts(c, script, r.restarts, stop, 0);
    var count := Count(Lives(c, script, r, stop).trace, StartCalled);
    n := count - 1;
    AttemptIff(c, script, r, stop, n);
    AttemptIff(c, script, r, stop, n + 1);
  }

  ghost predicate GivesUpAt(c: Policy, script: seq<Attempt>, stop: bool, n: nat) {
    Ends(c, script, 0, stop, n) && GivesUp(c, AttemptAt(script, n), n, StopBy(script, stop, n))
  }

  /** The host brings the supervisor down exactly if its last attempt fails with an `Exception` and the policy is to shut
      down, or a normal clean-up failed and the policy is not to ignore it, or the budget of restarts is used up. */
  lemma DaemonErrorIff(c: Policy, script: seq<Attempt>, stop: bool)
    ensures Lives(c, script, NEW_RECORD, stop).end == DaemonError <==> exists n: nat :: GivesUpAt(c, script, stop, n)
  {
    var n := LastAttempt(c, script, NEW_RECORD, stop);
    LastAttemptDecides(c, script, NEW_RECORD, stop, n);
    hide Lives, GivesUp, Wants, Ends, StopBy;
    if Lives(c, script, NEW_RECORD, stop).end == DaemonError { assert GivesUpAt(c, script, stop, n); }
    if m: nat :| GivesUpAt(c, script, stop, m) {
      LastAttemptDecides(c, script, NEW_RECORD, stop, m);
      Excludes(c, AttemptAt(script, m), m, StopBy(script, stop, m));
    }
  }

  lemma Excludes(c: Policy, a: Attempt, retries: nat, stop: bool)
    requires GivesUp(c, a, retries, stop)
    ensures !Leaks(a) && Throws(a, Exception) && !Throws(a, Cancelled) && !Throws(a, Base)
  {}

  /** Neither thrown nor leaked, or an `Exception` that the policy neither retries nor lets bring the supervisor down. */
  predicate EndsQuietly(c: Policy, a: Attempt, retries: nat, stop: bool) {
    && !Leaks(a) && !Throws(a, Cancelled) && !Throws(a, Base)
    && !GivesUp(c, a, retries, stop) && !Wants(c, a, stop)
  }

  ghost predicate QuietAt(c: Policy, script: seq<Attempt>, stop: bool, n: nat) {
    Ends(c, script, 0, stop, n) && EndsQuietly(c, AttemptAt(script, n), n, StopBy(script, stop, n))
  }

  /** The host returns, with its record "stopped", exactly in the other cases. */
  lemma ReturnsIff(c: Policy, script: seq<Attempt>, stop: bool)
    ensures Lives(c, script, NEW_RECORD, stop).end == Returned <==> exists n: nat :: QuietAt(c, script, stop, n)
    ensures Lives(c, script, NEW_RECORD, stop).end == Returned ==> Lives(c, script, NEW_RECORD, stop).record.state == Stopped
  {
    var n := LastAttempt(c, script, NEW_RECORD, stop);
    LastAttemptDecides(c, script, NEW_RECORD, stop, n);
    hide Lives, GivesUp, Wants, Ends, StopBy, Leaks, Throws;
    if Lives(c, script, NEW_RECORD, stop).end == Returned { assert QuietAt(c, script, stop, n); }
    if m: nat :| QuietAt(c, script, stop, m) { LastAttemptDecides(c, script, NEW_RECORD, stop, m); }
  }

  // ----- what was called -----

  /** The calls of one attempt: `on_start` once, and `on_stop` once unless `on_start` raised out of its scope. */
  function Calls(a: Attempt, e: Event): nat {
    match e
    case StartCalled => 1
    case StartReturned => if a.start.Returns? then 1 else 0
    case StartAbsorbed => if a.start.Absorbed? then 1 else 0
    case StartRaised => if a.start.Raises? then 1 else 0
    case StopCalled => if a.start.Raises? then 0 else 1
    case _ => 0
  }

  predicate IsCall(e: Event) {
    !e.Signalled? && !e.BackOff? && !e.SleepCancelled?
  }

  /** The calls of the first `n` attempts. */
  function CallsOf(script: seq<Attempt>, n: nat, e: Event): nat
    decreases n
  {
    if n == 0 then 0 else Calls(Head(script), e) + CallsOf(if script == [] then [] else script[1..], n - 1, e)
  }

  lemma TurnCalls(c: Policy, a: Attempt, retries: nat, stop: bool, now: bool, e: Event)
    requires IsCall(e)
    ensures Count(Events(a, stop), e) == Calls(a, e)
    ensures Count(Pausing(c, a, retries, now), e) == 0
  {
    hide ScopeEvents, CleanupEvents, Count, Calls, StartEvent, Pausing;
    ScopeCalls(a, stop, e);
    CleanupCalls(a, stop, e);
    PausingCalls(c, a, retries, now, e);
    NoCall([], e);
    CountAppend(ScopeEvents(a, stop), if a.start.Raises? then [] else CleanupEvents(a, stop), e);
    CallsAdd(a, e);
  }

  lemma CallsAdd(a: Attempt, e: Event)
    requires IsCall(e)
    ensures Calls(a, e) ==
      (if e == StartCalled then 1 else 0) + (if e == StartEvent(a) then 1 else 0)
      + (if e == StopCalled && !a.start.Raises? then 1 else 0)
  {}

  lemma CleanupCalls(a: Attempt, stop: bool, e: Event)
    requires IsCall(e)
    ensures Count(CleanupEvents(a, stop), e) == if e == StopCalled then 1 else 0
  {
    hide Count;
    CountAppend([StopCalled], SignalAt(a, InCleanup, stop), e);
    CountOne(StopCalled, e);
    NoCall(SignalAt(a, InCleanup, stop), e);
  }

  lemma ScopeCalls(a: Attempt, stop: bool, e: Event)
    requires IsCall(e)
    ensures Count(ScopeEvents(a, stop), e) == (if e == StartCalled then 1 else 0) + (if e == StartEvent(a) then 1 else 0)
  {
    hide Count;
    var first, early, late := [StartCalled], SignalAt(a, InStart, stop), if a.start.Returns? then SignalAt(a, InRun, stop) else [];
    CountAppend(first, early, e);
    CountAppend(first + early, [StartEvent(a)], e);
    CountAppend(first + early + [StartEvent(a)], late, e);
    CountOne(StartCalled, e);
    CountOne(StartEvent(a), e);
    NoCall(early, e);
    NoCall(late, e);
  }

  lemma PausingCalls(c: Policy, a: Attempt, retries: nat, now: bool, e: Event)
    requires IsCall(e)
    ensures Count(Pausing(c, a, retries, now), e) == 0
  {
    assert e !in Pausing(c, a, retries, now);
  }

  lemma CountOne(x: Event, e: Event)
    ensures Count([x], e) == if x == e then 1 else 0
  {}

  lemma NoCall(q: seq<Event>, e: Event)
    requires IsCall(e) && forall i :: 0 <= i < |q| ==> q[i] == Signalled
    ensures Count(q, e) == 0
  {}

  /** The calls of a life are those of the attempts that start, and it waits after each that is retried. */
  lemma {:induction false} CallsIff(c: Policy, script: seq<Attempt>, r: Record, stop: bool, n: nat, e: Event)
    requires Ends(c, script, r.restarts, stop, n) && IsCall(e)
    ensures var life := Lives(c, script, r, stop);
      && Count(life.trace, e) == CallsOf(script, n + 1, e)
      && |BackOffs(life.trace)| == n + (if life.record.state == Restarting then 1 else 0)
    decreases |script|
  {
    hide Verdict, Events, Pausing, AtStart, Lives, Asks, Budget, Signals, Ends, Passes, Count, BackOffs, Calls, IsCall;
    var a := Head(script);
    var now := stop || Signals(a);
    var v := Verdict(c, a, AtStart(r, a), now);
    VerdictIff(c, a, r, now);
    VerdictRestarts(c, a, AtStart(r, a), now);
    RestartsAtStart(r, a);
    LivesTurn(c, script, r, stop, []);
    var events, pause, trace := Events(a, stop), Pausing(c, a, r.restarts, now), Lives(c, script, r, stop).trace;
    assert [] + trace == trace && [] + events == events;
    TurnCalls(c, a, r.restarts, stop, now, e);
    TurnWaits(c, a, r.restarts, stop);
    TurnWaits(c, a, r.restarts, now);
    if v.1.Some? || a.pause.cancelled {
      EndsFirst(c, script, r.restarts, stop, n);
      FirstCalls(script, e);
      CountAppend(events, pause, e);
      BackOffsAppend(events, pause);
    } else {
      var late := script[0].pause.signalled;
      var rest := Lives(c, script[1..], v.0, late).trace;
      Passing(c, a, r.restarts);
      EndsTail(c, script, r.restarts, n);
      CallsIff(c, script[1..], v.0, late, n - 1, e);
      CountAppend(events, pause, e);
      CountAppend(events + pause, rest, e);
      BackOffsAppend(events, pause);
      BackOffsAppend(events + pause, rest);
    }
  }

  lemma FirstCalls(script: seq<Attempt>, e: Event)
    ensures CallsOf(script, 1, e) == Calls(Head(script), e)
  {}

  // ----- the waits -----

  lemma DelayFrom(c: Policy, k: nat, last: real)
    requires last == Delay(c, k)
    ensures Delay(c, 0) == c.base && Delay(c, k + 1) == if last * c.factor < c.cap then last * c.factor else c.cap
  {}

  /** The first wait is the base, uncapped; each further one is the one before times the factor, or the cap if less. */
  lemma WaitsFollow(c: Policy, script: seq<Attempt>, stop: bool)
    ensures var w := BackOffs(Lives(c, script, NEW_RECORD, stop).trace);
      && (w != [] ==> w[0] == c.base)
      && forall k :: 0 <= k < |w| - 1 ==> w[k + 1] == if w[k] * c.factor < c.cap then w[k] * c.factor else c.cap
  {
    hide Lives, BackOffs, Delay;
    var w := BackOffs(Lives(c, script, NEW_RECORD, stop).trace);
    WaitsAreDelays(c, script, NEW_RECORD, stop);
    DelayFrom(c, 0, Delay(c, 0));
    assert w != [] ==> w[0] == Delay(c, 0 + 0);
    forall k | 0 <= k < |w| - 1 ensures w[k + 1] == if w[k] * c.factor < c.cap then w[k] * c.factor else c.cap {
      assert w[k] == Delay(c, 0 + k) && w[k + 1] == Delay(c, 0 + (k + 1));
      DelayFrom(c, k, w[k]);
    }
  }
}
