/** The pool's tasks over shared channels that change in place, resumed in any order. */
module WorkerTasks {
  import opened Times
  import opened WorkerPool

  /** The tasks of `worker_pool`: the dispatcher, the closers of its `finally`, and the workers. */
  datatype Task = Dispatch | CloseInput(channel: nat) | Work(worker: nat)

  function TaskOf(m: Move): Task {
    match m
    case Receive => Dispatch
    case EndInput => Dispatch
    case TakeToken => Dispatch
    case Deliver => Dispatch
    case DispatchDone => Dispatch
    case Close(i) => CloseInput(i)
    case LockReady(i) => Work(i)
    case Announce(i) => Work(i)
    case TakeJob(i) => Work(i)
    case EndJobs(i) => Work(i)
    case Handle(i, _) => Work(i)
    case LockResults(i) => Work(i)
    case SendResult(i) => Work(i)
  }

  ghost predicate Blocked(s: Pool, task: Task) {
    forall m :: TaskOf(m) == task ==> !Enabled(s, m)
  }

  /** One resumption of a task took the pool from `s` to `t`: one of its moves, or none because none is possible. */
  ghost predicate Resumed(s: Pool, task: Task, moved: bool, t: Pool) {
    if moved then exists m :: TaskOf(m) == task && Enabled(s, m) && t == Step(s, m) else t == s && Blocked(s, task)
  }

  lemma Moved(s: Pool, m: Move, t: Pool)
    requires Inv(s) && Enabled(s, m) && t == Step(s, m)
    ensures Inv(t) && |t.stages| == |s.stages| && Resumed(s, TaskOf(m), true, t)
  {
    StepInv(s, m);
  }

  ghost predicate Reaches(s: Pool, t: Pool) {
    exists moves :: IsRun(s, moves, t)
  }

  lemma {:induction false} RunSnoc(s: Pool, moves: seq<Move>, t: Pool, m: Move)
    requires IsRun(s, moves, t) && Enabled(t, m)
    ensures IsRun(s, moves + [m], Step(t, m))
    decreases |moves|
  {
    if moves == [] {
      assert IsRun(t, [m], Step(t, m)) by { assert [m][1..] == []; }
    } else {
      RunSnoc(Step(s, moves[0]), moves[1..], t, m);
      assert (moves + [m])[1..] == moves[1..] + [m];
    }
  }

  /** A resumption prolongs a run, and brings its end nearer if the task moved. */
  lemma ResumptionReaches(s: Pool, t: Pool, task: Task, moved: bool, u: Pool)
    requires Inv(t) && Reaches(s, t) && Resumed(t, task, moved, u)
    ensures Inv(u) && Reaches(s, u) && Rank(u) <= Rank(t) && (moved ==> Rank(u) < Rank(t))
  {
    if moved {
      var moves :| IsRun(s, moves, t);
      var m :| TaskOf(m) == task && Enabled(t, m) && u == Step(t, m);
      RunSnoc(s, moves, t, m);
      StepRanks(t, m);
    }
  }

  lemma AllBlocked(s: Pool)
    requires Inv(s) && Blocked(s, Dispatch)
    requires forall i :: 0 <= i < |s.stages| ==> Blocked(s, CloseInput(i)) && Blocked(s, Work(i))
    ensures Final(s)
  {
    if !Final(s) {
      var m := Progress(s);
    }
  }

  class PoolTasks {
    const workers: nat
    const buffer: nat
    const raises: int -> bool
    var incoming: seq<int>
    var dispatcher: Dispatcher
    var ready: seq<nat>
    var jobs: seq<seq<int>>
    var closed: seq<bool>
    var stages: seq<Stage>
    var readyGate: Option<nat>
    var resultsGate: Option<nat>
    var results: seq<Output>

    ghost function View(): Pool
      reads this
    {
      Pool(buffer, incoming, dispatcher, ready, jobs, closed, stages, readyGate, resultsGate, results)
    }

    ghost predicate Valid()
      reads this
    {
      Inv(View()) && |stages| == workers && Honest()
    }

    /** Every output says whether the handler raised on its item. */
    ghost predicate Honest()
      reads this
    {
      && (forall j :: 0 <= j < |results| ==> results[j].failed == raises(results[j].item))
      && (forall i :: 0 <= i < |stages| && (stages[i].Delivering? || stages[i].DeliverLocked?) ==>
            stages[i].out.failed == raises(stages[i].out.item))
    }

    constructor (incoming: seq<int>, workers: nat, buffer: nat, raises: int -> bool)
      requires 1 <= workers
      ensures View() == Start(incoming, workers, buffer) && Valid()
      ensures this.workers == workers && this.raises == raises
    {
      this.workers, this.buffer, this.raises := workers, buffer, raises;
      this.incoming, dispatcher, ready, results := incoming, Receiving, [], [];
      jobs, closed, stages := seq(workers, i => []), seq(workers, i => false), seq(workers, i => Announcing);
      readyGate, resultsGate := None, None;
      new;
      StartInv(incoming, workers, buffer);
    }

    method ResumeDispatcher() returns (moved: bool)
      requires Valid()
      modifies this
      ensures Valid() && Resumed(old(View()), Dispatch, moved, View())
    {
      ghost var s, m := View(), Receive;
      moved := true;
      match dispatcher {
      case Receiving =>
        if incoming == [] {
          dispatcher, m := Closing, EndInput;
        } else {
          dispatcher, incoming := AwaitingToken(incoming[0]), incoming[1..];
        }
      case AwaitingToken(item) =>
        if ready == [] {
          moved := false;
        } else {
          dispatcher, ready, m := Sending(item, ready[0]), ready[1..], TakeToken;
        }
      case Sending(item, worker) =>
        JobsGoToIdleWorkers(s);
        if buffer == 0 {
          stages := stages[worker := Handling(item)];
        } else {
          jobs := jobs[worker := jobs[worker] + [item]];
        }
        dispatcher, m := Receiving, Deliver;
      case Closing =>
        if i :| 0 <= i < |closed| && !closed[i] {
          moved := false;
        } else {
          dispatcher, m := Gone, DispatchDone;
        }
      case Gone =>
        moved := false;
      }
      if moved { Moved(s, m, View()); }
    }

    method ResumeCloser(i: nat) returns (moved: bool)
      requires Valid()
      modifies this`closed
      ensures Valid() && Resumed(old(View()), CloseInput(i), moved, View())
    {
      ghost var s := View();
      moved := dispatcher.Closing? && i < |closed| && !closed[i];
      if moved {
        closed := closed[i := true];
        StepInv(s, Close(i));
      }
    }

    /** `ready_out.send(idx)`: the gate, then the channel. */
    method AnnounceReady(i: nat) returns (moved: bool)
      requires Valid() && i < |stages| && (stages[i] == Announcing || stages[i] == AnnounceLocked)
      modifies this
      ensures Valid() && Resumed(old(View()), Work(i), moved, View())
    {
      hide Inv;
      Lengths(View());
      ghost var s, m := View(), LockReady(i);
      moved := true;
      if stages[i] == AnnounceLocked {
        ReadyNeverFull(s, i);
        stages, ready, readyGate, m := stages[i := Idle], ready + [i], None, Announce(i);
      } else if readyGate == None {
        stages, readyGate := stages[i := AnnounceLocked], Some(i);
      } else {
        moved := false;
      }
      if moved { Moved(s, m, View()); }
    }

    /** `async for item in recv`. */
    method NextJob(i: nat) returns (moved: bool)
      requires Valid() && i < |stages| && stages[i] == Idle
      modifies this
      ensures Valid() && Resumed(old(View()), Work(i), moved, View())
    {
      hide Inv;
      Lengths(View());
      ghost var s, m := View(), LockReady(i);
      moved := true;
      if jobs[i] != [] {
        stages, jobs, m := stages[i := Handling(jobs[i][0])], jobs[i := jobs[i][1..]], TakeJob(i);
      } else if closed[i] {
        stages, m := stages[i := Exited], EndJobs(i);
      } else {
        moved := false;
      }
      if moved { Moved(s, m, View()); }
    }

    /** `results_out.send(...)`: the gate, then the channel. */
    method SendOutput(i: nat, out: Output) returns (moved: bool)
      requires Valid() && i < |stages| && (stages[i] == Delivering(out) || stages[i] == DeliverLocked(out))
      modifies this
      ensures Valid() && Resumed(old(View()), Work(i), moved, View())
    {
      hide Inv;
      Lengths(View());
      ghost var s, m := View(), LockReady(i);
      moved := true;
      if stages[i] == DeliverLocked(out) {
        stages, results, resultsGate, m := stages[i := Announcing], results + [out], None, SendResult(i);
      } else if resultsGate == None {
        stages, resultsGate, m := stages[i := DeliverLocked(out)], Some(i), LockResults(i);
      } else {
        moved := false;
      }
      if moved { Moved(s, m, View()); }
    }

    /** `handle(item)`. */
    method Handle(i: nat, item: int)
      requires Valid() && i < |stages| && stages[i] == Handling(item)
      modifies this`stages
      ensures Valid() && Resumed(old(View()), Work(i), true, View())
    {
      hide Inv;
      Lengths(View());
      ghost var s := View();
      stages := stages[i := Delivering(Output(item, raises(item)))];
      Moved(s, Move.Handle(i, raises(item)), View());
    }

    method ResumeWorker(i: nat) returns (moved: bool)
      requires Valid()
      modifies this
      ensures Valid() && Resumed(old(View()), Work(i), moved, View())
    {
      hide Inv;
      if |stages| <= i { return false; }
      match stages[i]
      case Idle => moved := NextJob(i);
      case Handling(item) => Handle(i, item); moved := true;
      case Delivering(out) => moved := SendOutput(i, out);
      case DeliverLocked(out) => moved := SendOutput(i, out);
      case Exited => moved := false;
      case _ => moved := AnnounceReady(i);
    }

    method Resume(task: Task) returns (moved: bool)
      requires Valid()
      modifies this
      ensures Valid() && Resumed(old(View()), task, moved, View())
    {
      match task
      case Dispatch => moved := ResumeDispatcher();
      case CloseInput(i) => moved := ResumeCloser(i);
      case Work(i) => moved := ResumeWorker(i);
    }

    /** One resumption of every task; nothing moved only if nothing can. */
    method Sweep() returns (moved: bool)
      requires Valid()
      modifies this
      ensures Valid() && Reaches(old(View()), View())
      ensures if moved then Rank(View()) < old(Rank(View())) else View() == old(View()) && Final(View())
    {
      hide Inv, Rank, Final, Resumed, Honest;
      ghost var s := View();
      assert IsRun(s, [], s);
      moved := Resume(Dispatch);
      ResumptionReaches(s, s, Dispatch, moved, View());
      for i := 0 to workers
        invariant Valid() && Reaches(s, View())
        invariant if moved then Rank(View()) < Rank(s) else View() == s && Blocked(s, Dispatch)
        invariant !moved ==> forall j :: 0 <= j < i ==> Blocked(s, CloseInput(j)) && Blocked(s, Work(j))
      {
        ghost var t := View();
        var closes := Resume(CloseInput(i));
        ResumptionReaches(s, t, CloseInput(i), closes, View());
        ghost var u := View();
        var works := Resume(Work(i));
        ResumptionReaches(s, u, Work(i), works, View());
        moved := moved || closes || works;
      }
      if !moved { AllBlocked(s); }
    }

    method Follow(schedule: seq<Task>)
      requires Valid()
      modifies this
      ensures Valid() && Reaches(old(View()), View())
    {
      ghost var s := View();
      assert IsRun(s, [], s);
      for k := 0 to |schedule|
        invariant Valid() && Reaches(s, View())
      {
        ghost var t := View();
        var moved := Resume(schedule[k]);
        ResumptionReaches(s, t, schedule[k], moved, View());
      }
    }

    /** The tasks in any order for as long as one likes, then round after round until none can go on. */
    method RunToEnd(schedule: seq<Task>)
      requires Valid()
      modifies this
      ensures Valid() && Reaches(old(View()), View()) && Final(View())
    {
      hide Resumed, Blocked, IsRun, Reaches, Honest, Final, Rank;
      ghost var s := View();
      Follow(schedule);
      var moved := true;
      while moved
        invariant Valid() && Reaches(s, View())
        invariant !moved ==> Final(View())
        decreases Rank(View()), moved
      {
        ghost var t := View();
        moved := Sweep();
        ReachesOn(s, t, View());
      }
    }
  }

  lemma ReachesOn(s: Pool, t: Pool, u: Pool)
    requires Reaches(s, t) && Reaches(t, u)
    ensures Reaches(s, u)
  {
    var ms :| IsRun(s, ms, t);
    var ns :| IsRun(t, ns, u);
    RunAppend(s, ms, t, ns, u);
  }

  lemma {:induction false} RunAppend(s: Pool, ms: seq<Move>, t: Pool, ns: seq<Move>, u: Pool)
    requires IsRun(s, ms, t) && IsRun(t, ns, u)
    ensures IsRun(s, ms + ns, u)
    decreases |ms|
  {
    if ms == [] {
      assert ms + ns == ns;
    } else {
      RunAppend(Step(s, ms[0]), ms[1..], t, ns, u);
      assert (ms + ns)[1..] == ms[1..] + ns;
    }
  }

  datatype PoolResult = ValueError | Finished(results: seq<Output>)

  /** `worker_pool` on a closed input, under any schedule: one output for each item, and it says what the handler did. */
  method RunPool(incoming: seq<int>, workers: int, buffer: int, raises: int -> bool, schedule: seq<Task>)
    returns (r: PoolResult)
    ensures r.ValueError? <==> workers < 1 || buffer < 0
    ensures r.Finished? ==> multiset(ItemsOf(r.results)) == multiset(incoming)
    ensures r.Finished? ==> forall j :: 0 <= j < |r.results| ==> r.results[j].failed == raises(r.results[j].item)
  {
    if workers < 1 || buffer < 0 { return ValueError; }
    var pool := new PoolTasks(incoming, workers, buffer, raises);
    pool.RunToEnd(schedule);
    ghost var moves :| IsRun(Start(incoming, workers, buffer), moves, pool.View());
    EveryRunDelivers(incoming, workers, buffer, moves, pool.View());
    r := Finished(pool.results);
  }
}
