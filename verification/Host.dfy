/** `_host`: one daemon's lifecycle, run over a script of outcomes, with the record it keeps. */
module Host {
  import opened Times
  import opened Lifecycle

  class DaemonHost {
    const policy: Policy
    var stopEvent: bool
    var allDone: bool
    var activeCount: int
    // the daemon's record
    var state: State
    var restartCount: nat
    var lastError: Option<Kind>
    var lastErrorPhase: Option<Phase>
    var startedAt: Option<real>
    var startedEvent: bool
    // what was called, in order
    var trace: seq<Event>

    constructor (policy: Policy, stopEvent: bool, allDone: bool, activeCount: int)
      ensures this.policy == policy && this.stopEvent == stopEvent && this.allDone == allDone
      ensures this.activeCount == activeCount && Health() == NEW_RECORD && trace == []
    {
      this.policy, this.stopEvent, this.allDone, this.activeCount := policy, stopEvent, allDone, activeCount;
      state, restartCount, lastError, lastErrorPhase := Starting, 0, None, None;
      startedAt, startedEvent, trace := None, false, [];
    }

    function Health(): Record
      reads this
    {
      Record(state, restartCount, lastError, lastErrorPhase, startedAt, startedEvent)
    }

    method SignalStop()
      modifies this`stopEvent, this`trace
      ensures stopEvent
      ensures trace == old(trace) + if old(stopEvent) then [] else [Signalled]
    {
      if !stopEvent { trace := trace + [Signalled]; }
      stopEvent := true;
    }

    /** The stop event gets set now, if this is the moment. */
    method Reach(a: Attempt, m: Moment)
      modifies this`stopEvent, this`trace
      ensures trace == old(trace) + SignalAt(a, m, old(stopEvent))
      ensures stopEvent == (old(stopEvent) || a.signal == m)
    {
      if a.signal == m { SignalStop(); }
    }

    method OnDaemonExit()
      modifies this`activeCount, this`allDone
      ensures activeCount == old(activeCount) - 1
      ensures allDone == (old(allDone) || (activeCount == 0 && stopEvent))
    {
      activeCount := activeCount - 1;
      if activeCount == 0 && stopEvent { allDone := true; }
    }

    /** `_run_on_stop_shielded`: an `Exception` is logged, a used-up budget absorbed; anything else gets out. */
    method RunOnStopShielded(a: Attempt) returns (escaped: Option<Kind>)
      modifies this`trace, this`stopEvent
      ensures trace == old(trace) + CleanupEvents(a, old(stopEvent))
      ensures stopEvent == (old(stopEvent) || a.signal == InCleanup)
      ensures escaped == if a.cleanup.Raises? && a.cleanup.kind != Exception then Some(a.cleanup.kind) else None
    {
      trace := trace + [StopCalled];
      Reach(a, InCleanup);
      match a.cleanup
      case Raises(kind) => escaped := if kind == Exception then None else Some(kind);
      case _ => escaped := None;
    }

    /** `on_start` and `run` inside the attempt's scope. */
    method InScope(a: Attempt) returns (exc: Option<Kind>, phase: Phase, onStartDone: bool)
      modifies this`state, this`startedAt, this`startedEvent, this`trace, this`stopEvent
      ensures exc == if a.start.Raises? then Some(a.start.kind)
                     else if a.start.Returns? && a.run.Raises? then Some(a.run.kind) else None
      ensures exc.Some? ==> phase == if a.start.Raises? then OnStart else Phase.Run
      ensures onStartDone == a.start.Returns?
      ensures if onStartDone then startedEvent && startedAt == Some(a.now) else startedEvent == old(startedEvent) && startedAt == None
      ensures stopEvent == (old(stopEvent) || a.signal == InStart || (a.start.Returns? && a.signal == InRun))
      ensures trace == old(trace) + ScopeEvents(a, old(stopEvent))
      ensures Health() == AtStart(old(Health()), a)
    {
      onStartDone, phase, exc := false, OnStart, None;
      state, startedAt := Starting, None;
      trace := trace + [StartCalled];
      Reach(a, InStart);
      match a.start
      case Raises(kind) =>
        trace := trace + [StartRaised];
        exc := Some(kind);
      case Absorbed =>
        trace := trace + [StartAbsorbed];
      case Returns =>
        trace := trace + [StartReturned];
        onStartDone, state, startedAt, startedEvent, phase := true, Running, Some(a.now), true, Phase.Run;
        Reach(a, InRun);
        match a.run
        case Raises(kind) => exc := Some(kind);
        case _ =>
    }

    /** The `try` block: what it raises and where, and whether clean-up began. */
    method Try(a: Attempt) returns (exc: Option<Kind>, phase: Phase, onStartDone: bool, onStopStarted: bool)
      modifies this`state, this`startedAt, this`startedEvent, this`trace, this`stopEvent
      ensures exc == (if Thrown(a).Some? then Some(Thrown(a).value.0) else None)
      ensures Thrown(a).Some? ==> phase == Thrown(a).value.1
      ensures onStartDone == a.start.Returns?
      ensures onStopStarted == !(a.start.Raises? || (a.start.Returns? && a.run.Raises?))
      ensures (stopEvent || (!a.start.Raises? && a.signal == InCleanup)) == (old(stopEvent) || Signals(a))
      ensures trace + (if onStartDone && !onStopStarted then CleanupEvents(a, stopEvent) else [])
           == old(trace) + Events(a, old(stopEvent))
      ensures !(onStartDone && !onStopStarted) ==> stopEvent == (old(stopEvent) || Signals(a))
      ensures Health() == AtStart(old(Health()), a).(state := if exc == None then Stopped else AtStart(old(Health()), a).state)
    {
      hide AtStart, ScopeEvents;
      exc, phase, onStartDone := InScope(a);
      onStopStarted := false;
      if exc == None {
        onStopStarted, phase := true, OnStop;
        trace := trace + [StopCalled];
        Reach(a, InCleanup);
        match a.stop
        case Some(kind) => exc := Some(kind);
        case None => state := Stopped;
      }
    }

    /** The `except` block once clean-up is done. */
    method Except(exc: Kind, phase: Phase) returns (end: Option<End>)
      modifies this`state, this`lastError, this`lastErrorPhase, this`restartCount
      ensures (Health(), end) == Judge(policy, exc, phase, old(Health()), stopEvent)
    {
      if exc == Cancelled {
        state := Stopped;
        return Some(Reraised(Cancelled));
      }
      lastError, lastErrorPhase := Some(exc), Some(phase);
      if exc == Base {
        state := Failed;
        return Some(Reraised(Base));
      }
      if phase == OnStop && policy.onError != Ignore {
        state := Failed;
        return Some(DaemonError);
      }
      if policy.onError == Shutdown {
        state := Failed;
        return Some(DaemonError);
      }
      if policy.onError == Ignore {
        state := Stopped;
        return Some(Returned);
      }
      if stopEvent {
        state := Stopped;
        return Some(Returned);
      }
      restartCount := restartCount + 1;
      if policy.maxRetries.Some? && restartCount > policy.maxRetries.value {
        state := Failed;
        return Some(DaemonError);
      }
      state := Restarting;
      end := None;
    }

    /** One turn of the loop: the host's end, or `None` to go on. */
    method Attempts(a: Attempt) returns (end: Option<End>)
      modifies this
      ensures var r, now := AtStart(old(Health()), a), old(stopEvent) || Signals(a);
        && (Health(), end) == Verdict(policy, a, r, now)
        && trace == old(trace) + Events(a, old(stopEvent))
        && stopEvent == now
      ensures activeCount == old(activeCount) && allDone == old(allDone)
    {
      hide Events, AtStart, Judge;
      var exc, phase, onStartDone, onStopStarted := Try(a);
      if exc == None { return Some(Returned); }
      if onStartDone && !onStopStarted {
        var escaped := RunOnStopShielded(a);
        if escaped.Some? { return Some(Reraised(escaped.value)); }
      }
      end := Except(exc.value, phase);
    }

    /** The back-off; `true` if it was cancelled. */
    method BackOffFor(a: Attempt, delay: real) returns (cancelled: bool)
      requires restartCount >= 1
      modifies this`trace, this`stopEvent
      ensures cancelled == a.pause.cancelled
      ensures stopEvent == (old(stopEvent) || a.pause.signalled)
      ensures delay == Delay(policy, restartCount - 1) ==>
        trace == old(trace) + Pausing(policy, a, restartCount - 1, old(stopEvent))
    {
      trace := trace + [BackOff(delay)];
      if a.pause.signalled { SignalStop(); }
      cancelled := a.pause.cancelled;
      if cancelled { trace := trace + [SleepCancelled]; }
    }

    /** The whole of `_host`, its `finally` included. */
    method Run(script: seq<Attempt>) returns (end: End)
      requires Health() == NEW_RECORD && trace == []
      modifies this
      ensures Life(trace, Health(), end) == Lives(policy, script, NEW_RECORD, old(stopEvent))
      ensures activeCount == old(activeCount) - 1
      ensures allDone == (old(allDone) || (activeCount == 0 && stopEvent))
      ensures stopEvent <==> old(stopEvent) || Signalled in trace
    {
      hide Lives, Verdict, Events, Pausing, AtStart;
      var delay, retries, left := policy.base, 0, script;
      ghost var whole := Lives(policy, script, NEW_RECORD, stopEvent);
      ghost var rest := whole;
      while true
        invariant retries == restartCount && delay == Delay(policy, retries)
        invariant rest == Lives(policy, left, Health(), stopEvent)
        invariant whole == rest.(trace := trace + rest.trace)
        invariant activeCount == old(activeCount) && allDone == old(allDone)
        invariant stopEvent <==> old(stopEvent) || Signalled in trace
        decreases |left|
      {
        LivesTurn(policy, left, Health(), stopEvent, trace);
        var a := Head(left);
        TurnSignals(policy, a, retries, stopEvent);
        var over := Attempts(a);
        TurnSignals(policy, a, retries, stopEvent);
        if over.Some? {
          end := over.value;
          break;
        }
        retries := retries + 1;
        var cancelled := BackOffFor(a, delay);
        if cancelled {
          end := Reraised(Cancelled);
          break;
        }
        delay := Min(Scale(delay, policy.factor), policy.cap);
        left := left[1..];
        rest := Lives(policy, left, Health(), stopEvent);
      }
      startedEvent := true;
      OnDaemonExit();
    }
  }
}
