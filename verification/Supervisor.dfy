/** `Supervisor`'s registration and stop methods, on the fields they update. */
module Supervisors {
  import opened Times
  import opened StopProtocol

  function Members(names: seq<Name>): set<Name> {
    set n | n in names
  }

  ghost predicate Distinct(names: seq<Name>) {
    forall j, k :: 0 <= j < k < |names| ==> names[j] != names[k]
  }

  lemma NothingYet(s: Sup)
    requires Inv(s) && s.group == Before
    ensures s.hosts == {} && s.activeCount == 0
  {}

  lemma PendingSeen(s: Sup)
    requires Inv(s)
    ensures s.pending <= s.seen
  {}

  lemma WaitingEntered(s: Sup, i: nat)
    requires Inv(s) && i < |s.stops| && s.stops[i] == Waiting
    ensures s.group != Before
  {
    assert StopOk(s, i);
  }

  lemma OpenForHosts(s: Sup)
    requires Inv(s) && s.hosts != {}
    ensures s.group != Before
  {}

  class Supervisor {
    var tg: bool                  // `_tg` is a task group
    var stopEvent: Option<bool>   // `None` until entry
    var allDone: Option<bool>
    var seenNames: set<Name>
    var pending: seq<Name>
    var activeCount: int
    // the group's hosts and scope, the daemons' events, and the calls in progress
    var hosts: set<Name>
    var cancelRequested: bool
    var started: set<Name>
    var stops: seq<StopCall>
    var barriers: seq<set<Name>>
    ghost var late: bool
    ghost var leaving: bool

    ghost function View(): Sup
      reads this
    {
      Sup(if tg then Open else if stopEvent.Some? then After else Before, seenNames, Members(pending), hosts, started,
          stopEvent == Some(true), allDone == Some(true), activeCount, cancelRequested, stops, barriers, late, leaving)
    }

    ghost predicate Valid()
      reads this
    {
      Inv(View()) && Distinct(pending) && (tg ==> stopEvent.Some? && pending == []) && (stopEvent.Some? <==> allDone.Some?)
    }

    constructor ()
      ensures Valid() && View() == NEW
    {
      tg, stopEvent, allDone, seenNames, pending, activeCount := false, None, None, {}, [], 0;
      hosts, cancelRequested, started, stops, barriers, late, leaving := {}, false, {}, [], [], false, false;
      new;
      NewInv();
    }

    /** Drains what was queued before entry. */
    method Launch(queued: seq<Name>)
      requires hosts == {} && activeCount == 0 && Distinct(queued)
      modifies this`hosts, this`activeCount
      ensures hosts == Members(queued) && activeCount == |hosts|
    {
      for k := 0 to |queued|
        invariant hosts == Members(queued[..k]) && activeCount == |hosts|
      {
        assert queued[..k + 1] == queued[..k] + [queued[k]];
        CountAdded(hosts, queued[k]);
        activeCount := activeCount + 1;
        hosts := hosts + {queued[k]};
      }
      assert queued[..|queued|] == queued;
    }

    method Enter()
      requires Valid() && !tg && stopEvent == None
      modifies this
      ensures Valid() && View() == Step(old(View()), Move.Enter)
    {
      hide Inv;
      NothingYet(View());
      StepInv(View(), Move.Enter);
      tg, stopEvent, allDone := true, Some(false), Some(false);
      var queued := pending;
      pending := [];
      Launch(queued);
      assert Members([]) == {};
    }

    /** `False` stands for the `ValueError` on a duplicate name. */
    method Add(name: Name) returns (ok: bool)
      requires Valid()
      modifies this
      ensures Valid() && View() == Step(old(View()), Move.Add(name))
      ensures ok <==> name !in old(seenNames)
    {
      ghost var s := View();
      hide Inv;
      StepInv(s, Move.Add(name));
      PendingSeen(s);
      if name in seenNames { return false; }
      seenNames := seenNames + {name};
      if !tg {
        pending := pending + [name];
        assert Members(pending) == s.pending + {name};
      } else {
        activeCount := activeCount + 1;
        hosts := hosts + {name};
        late := late || stopEvent == Some(true);
      }
      ok := true;
    }

    method SignalStop()
      requires Valid()
      modifies this`stopEvent
      ensures Valid() && View() == Step(old(View()), Signal)
    {
      StepInv(View(), Signal);
      if stopEvent.Some? { stopEvent := Some(true); }
    }

    method CancelLaggards() returns (cancelled: bool)
      requires allDone.Some?
      modifies this`cancelRequested
      ensures cancelled == Cancels(View())
      ensures cancelRequested == (old(cancelRequested) || cancelled)
    {
      cancelled := !allDone.value && tg;
      if cancelled { cancelRequested := true; }
    }

    /** `stop` until it returns or waits. */
    method StopBegins(grace: bool)
      requires Valid()
      modifies this
      ensures Valid() && View() == Step(old(View()), Stop(grace))
    {
      hide Inv, Distinct, Members;
      StepInv(View(), Stop(grace));
      SignalStop();
      if !tg || allDone == None || activeCount == 0 {
        stops := stops + [Returned(false)];
        return;
      }
      if grace {
        stops := stops + [Waiting];
        return;
      }
      var cancelled := CancelLaggards();
      stops := stops + [Returned(cancelled)];
    }

    method StopWakes(call: nat)
      requires Valid() && call < |stops| && stops[call] == Waiting
      modifies this
      ensures Valid() && View() == Step(old(View()), Wake(call))
    {
      hide Inv, Distinct, Members;
      StepInv(View(), Wake(call));
      WaitingEntered(View(), call);
      var cancelled := CancelLaggards();
      stops := stops[call := Returned(cancelled)];
    }

    method HostStarted(name: Name)
      requires Valid() && name in hosts
      modifies this
      ensures Valid() && View() == Step(old(View()), OnStarted(name))
    {
      StepInv(View(), OnStarted(name));
      started := started + {name};
    }

    method OnDaemonExit()
      modifies this`activeCount, this`allDone, this`leaving
      ensures activeCount == old(activeCount) - 1
      ensures allDone == if activeCount == 0 && stopEvent == Some(true) then Some(true) else old(allDone)
      ensures leaving == (old(leaving) || stopEvent == Some(true))
    {
      activeCount := activeCount - 1;
      if activeCount == 0 && stopEvent == Some(true) { allDone := Some(true); }
      leaving := leaving || stopEvent == Some(true);
    }

    /** The `finally` of `_host`. */
    method HostExits(name: Name)
      requires Valid() && name in hosts
      modifies this
      ensures Valid() && View() == Step(old(View()), OnExit(name))
    {
      hide Inv, Distinct, Members;
      StepInv(View(), OnExit(name));
      OpenForHosts(View());
      started, hosts := started + {name}, hosts - {name};
      OnDaemonExit();
    }

    method WaitAllStarted()
      requires Valid()
      modifies this
      ensures Valid() && View() == Step(old(View()), Move.WaitAllStarted)
    {
      StepInv(View(), Move.WaitAllStarted);
      if !tg { return; }
      barriers := barriers + [seenNames];
    }

    method Exit()
      requires Valid() && tg
      modifies this
      ensures Valid() && View() == Step(old(View()), Move.Exit)
    {
      StepInv(View(), Move.Exit);
      tg := false;
    }

    /** Any interleaving, move by move; one that is not possible where it stands is skipped. */
    method Perform(m: Move)
      requires Valid()
      modifies this
      ensures Valid() && View() == if Enabled(old(View()), m) then Step(old(View()), m) else old(View())
    {
      hide Inv, Step;
      match m
      case Add(n) => var ok := Add(n);
      case Enter => if !tg && stopEvent == None { Enter(); }
      case Exit => if tg { Exit(); }
      case Signal => SignalStop();
      case OnStarted(n) => if n in hosts { HostStarted(n); }
      case OnExit(n) => if n in hosts { HostExits(n); }
      case Stop(grace) => StopBegins(grace);
      case Wake(i) => if i < |stops| && stops[i] == Waiting { StopWakes(i); }
      case WaitAllStarted => WaitAllStarted();
    }
  }

  /** A supervisor's whole life. */
  method Life(script: seq<Move>) returns (sup: Supervisor, ghost moves: seq<Move>)
    ensures fresh(sup) && sup.Valid() && IsRun(NEW, moves, sup.View())
    ensures sup.activeCount == |sup.hosts|
    ensures !sup.late && sup.allDone == Some(true) ==> sup.hosts == {}
  {
    sup := new Supervisor();
    moves := [];
    for k := 0 to |script|
      invariant fresh(sup) && sup.Valid() && IsRun(NEW, moves, sup.View())
    {
      ghost var s := sup.View();
      sup.Perform(script[k]);
      if Enabled(s, script[k]) {
        RunSnoc(NEW, moves, s, script[k]);
        moves := moves + [script[k]];
      }
    }
    EveryRunCounts(moves, sup.View());
  }
}
