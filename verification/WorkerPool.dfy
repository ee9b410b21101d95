/** `worker_pool`: a dispatcher, workers and bounded channels, stepping in any interleaving. */
module WorkerPool {
  import opened Times

  /** What a worker sends to `results`: the handler's return value or the exception it raised. */
  datatype Output = Output(item: int, failed: bool)

  /** Where the dispatcher is; `Closing` is its `finally`. */
  datatype Dispatcher = Receiving | AwaitingToken(item: int) | Sending(item: int, worker: nat) | Closing | Gone

  /** Where a worker is; a `Locked` stage holds the send gate of its channel. */
  datatype Stage =
    | Announcing | AnnounceLocked | Idle | Handling(item: int)
    | Delivering(out: Output) | DeliverLocked(out: Output) | Exited

  datatype Pool = Pool(
    buffer: nat,
    input: seq<int>,
    disp: Dispatcher,
    ready: seq<nat>,
    jobs: seq<seq<int>>,
    closed: seq<bool>,
    stages: seq<Stage>,
    readyGate: Option<nat>,
    resultsGate: Option<nat>,
    results: seq<Output>)

  function Start(input: seq<int>, workers: nat, buffer: nat): Pool {
    Pool(buffer, input, Receiving, [], seq(workers, i => []), seq(workers, i => false), seq(workers, i => Announcing),
         None, None, [])
  }

  datatype Move =
    | Receive | EndInput | TakeToken | Deliver | Close(worker: nat) | DispatchDone
    | LockReady(worker: nat) | Announce(worker: nat) | TakeJob(worker: nat) | EndJobs(worker: nat)
    | Handle(worker: nat, fails: bool) | LockResults(worker: nat) | SendResult(worker: nat)

  /** A send on a rendezvous channel completes when its worker is receiving, on a buffered one when it has room. */
  predicate CanDeliver(s: Pool) {
    s.disp.Sending? && s.disp.worker < |s.stages| && s.disp.worker < |s.jobs| &&
    if s.buffer == 0 then s.stages[s.disp.worker] == Idle else |s.jobs[s.disp.worker]| < s.buffer
  }

  predicate Enabled(s: Pool, m: Move) {
    match m
    case Receive => s.disp.Receiving? && s.input != []
    case EndInput => s.disp.Receiving? && s.input == []
    case TakeToken => s.disp.AwaitingToken? && s.ready != []
    case Deliver => CanDeliver(s)
    case Close(i) => s.disp.Closing? && i < |s.closed| && !s.closed[i]
    case DispatchDone => s.disp.Closing? && forall i :: 0 <= i < |s.closed| ==> s.closed[i]
    case LockReady(i) => i < |s.stages| && s.stages[i] == Announcing && s.readyGate == None
    case Announce(i) => i < |s.stages| && s.stages[i] == AnnounceLocked && |s.ready| < |s.stages|
    case TakeJob(i) => i < |s.stages| && i < |s.jobs| && s.stages[i] == Idle && s.jobs[i] != []
    case EndJobs(i) =>
      i < |s.stages| && i < |s.jobs| && i < |s.closed| && s.stages[i] == Idle && s.jobs[i] == [] && s.closed[i]
    case Handle(i, _) => i < |s.stages| && s.stages[i].Handling?
    case LockResults(i) => i < |s.stages| && s.stages[i].Delivering? && s.resultsGate == None
    case SendResult(i) => i < |s.stages| && s.stages[i].DeliverLocked?
  }

  function To(s: Pool, i: nat, stage: Stage): Pool
    requires i < |s.stages|
  {
    s.(stages := s.stages[i := stage])
  }

  function Step(s: Pool, m: Move): Pool
    requires Enabled(s, m)
  {
    match m
    case Receive => s.(disp := AwaitingToken(s.input[0]), input := s.input[1..])
    case EndInput => s.(disp := Closing)
    case TakeToken => s.(disp := Sending(s.disp.item, s.ready[0]), ready := s.ready[1..])
    case Deliver =>
      var i := s.disp.worker;
      if s.buffer == 0 then To(s, i, Handling(s.disp.item)).(disp := Receiving)
      else s.(jobs := s.jobs[i := s.jobs[i] + [s.disp.item]], disp := Receiving)
    case Close(i) => s.(closed := s.closed[i := true])
    case DispatchDone => s.(disp := Gone)
    case LockReady(i) => To(s, i, AnnounceLocked).(readyGate := Some(i))
    case Announce(i) => To(s, i, Idle).(ready := s.ready + [i], readyGate := None)
    case TakeJob(i) => To(s, i, Handling(s.jobs[i][0])).(jobs := s.jobs[i := s.jobs[i][1..]])
    case EndJobs(i) => To(s, i, Exited)
    case Handle(i, fails) => To(s, i, Delivering(Output(s.stages[i].item, fails)))
    case LockResults(i) => To(s, i, DeliverLocked(s.stages[i].out)).(resultsGate := Some(i))
    case SendResult(i) => To(s, i, Announcing).(results := s.results + [s.stages[i].out], resultsGate := None)
  }

  // ----- tokens -----

  /** Where a worker's readiness token is: nowhere while it is busy, in exactly one place while it is idle. */
  ghost predicate TokenOk(s: Pool, i: nat)
    requires i < |s.stages| && i < |s.jobs| && i < |s.closed|
  {
    var queued, held, job := i in s.ready, s.disp.Sending? && s.disp.worker == i, s.jobs[i] != [];
    && |s.jobs[i]| <= 1
    && (match s.stages[i]
        case Idle => (queued && !held && !job) || (!queued && held && !job) || (!queued && !held && job)
        case Exited => queued && !held && !job && s.closed[i]
        case _ => !queued && !held && !job)
  }

  ghost predicate Gates(s: Pool) {
    && (forall i :: 0 <= i < |s.stages| ==> (s.stages[i] == AnnounceLocked <==> s.readyGate == Some(i)))
    && (forall i :: 0 <= i < |s.stages| ==> (s.stages[i].DeliverLocked? <==> s.resultsGate == Some(i)))
    && (s.readyGate.Some? ==> s.readyGate.value < |s.stages|)
    && (s.resultsGate.Some? ==> s.resultsGate.value < |s.stages|)
  }

  ghost predicate Once(q: seq<nat>) {
    forall j, k :: 0 <= j < k < |q| ==> q[j] != q[k]
  }

  ghost predicate Inv(s: Pool) {
    && 1 <= |s.stages| == |s.jobs| == |s.closed|
    && Once(s.ready) && (forall j :: 0 <= j < |s.ready| ==> s.ready[j] < |s.stages|)
    && (s.disp.Sending? ==> s.disp.worker < |s.stages|)
    && (forall i :: 0 <= i < |s.stages| ==> TokenOk(s, i))
    && (forall i :: 0 <= i < |s.closed| && s.closed[i] ==> s.disp.Closing? || s.disp.Gone?)
    && (s.disp.Gone? ==> forall i :: 0 <= i < |s.closed| ==> s.closed[i])
    && Gates(s)
  }

  lemma StartInv(input: seq<int>, workers: nat, buffer: nat)
    requires 1 <= workers
    ensures Inv(Start(input, workers, buffer))
  {}

  lemma Lengths(s: Pool)
    requires Inv(s)
    ensures 1 <= |s.stages| == |s.jobs| == |s.closed|
    ensures s.disp.Sending? ==>
      s.disp.worker < |s.stages| && s.stages[s.disp.worker] == Idle && s.jobs[s.disp.worker] == []
  {
    if s.disp.Sending? { assert TokenOk(s, s.disp.worker); }
  }

  predicate Dispatching(m: Move) {
    m.Receive? || m.EndInput? || m.TakeToken? || m.Deliver? || m.DispatchDone?
  }

  lemma DispatcherToken(s: Pool, m: Move, i: nat)
    requires Inv(s) && Enabled(s, m) && i < |s.stages| && Dispatching(m)
    ensures var n := Step(s, m); |n.stages| == |n.jobs| == |n.closed| == |s.stages| && TokenOk(n, i)
  {
    hide Inv, Gates;
    Lengths(s);
    TokensOf(s, i);
    if m.TakeToken? { assert s.ready == [s.ready[0]] + s.ready[1..]; }
  }

  lemma WorkerToken(s: Pool, m: Move, i: nat)
    requires Inv(s) && Enabled(s, m) && i < |s.stages| && !Dispatching(m)
    ensures var n := Step(s, m); |n.stages| == |n.jobs| == |n.closed| == |s.stages| && TokenOk(n, i)
  {
    hide Inv, Gates, Once, CanDeliver;
    Lengths(s);
    TokensOf(s, i);
    if m.Announce? { assert i in s.ready + [m.worker] <==> i in s.ready || i == m.worker; }
  }

  lemma TokensOf(s: Pool, i: nat)
    requires Inv(s) && i < |s.stages|
    ensures |s.stages| == |s.jobs| == |s.closed| && Once(s.ready) && TokenOk(s, i)
    ensures s.disp.Closing? || s.disp.Gone? || !s.closed[i]
  {}

  lemma StepTokens(s: Pool, m: Move)
    requires Inv(s) && Enabled(s, m)
    ensures var n := Step(s, m);
      |n.stages| == |n.jobs| == |n.closed| == |s.stages| && forall i :: 0 <= i < |n.stages| ==> TokenOk(n, i)
  {
    hide Inv, TokenOk, Enabled, Step;
    Lengths(s);
    if Dispatching(m) {
      DispatcherToken(s, m, 0);
      forall i | 0 <= i < |s.stages| ensures TokenOk(Step(s, m), i) { DispatcherToken(s, m, i); }
    } else {
      WorkerToken(s, m, 0);
      forall i | 0 <= i < |s.stages| ensures TokenOk(Step(s, m), i) { WorkerToken(s, m, i); }
    }
  }

  lemma StepReady(s: Pool, m: Move)
    requires Inv(s) && Enabled(s, m)
    ensures var n := Step(s, m);
      Once(n.ready) && (forall j :: 0 <= j < |n.ready| ==> n.ready[j] < |n.stages|)
      && (n.disp.Sending? ==> n.disp.worker < |n.stages|)
  {
    var n := Step(s, m);
    if m.Announce? {
      assert TokenOk(s, m.worker);
      assert forall j :: 0 <= j < |n.ready| ==> n.ready[j] == (if j < |s.ready| then s.ready[j] else m.worker);
    } else if m.TakeToken? {
      assert forall j :: 0 <= j < |n.ready| ==> n.ready[j] == s.ready[j + 1];
    }
  }

  lemma StepGates(s: Pool, m: Move)
    requires Inv(s) && Enabled(s, m)
    ensures Gates(Step(s, m))
  {
    hide Once, TokenOk, Inv, Gates, Enabled, Step, CanDeliver;
    GatesOf(s);
    if Dispatching(m) {
      DispatcherGates(s, m);
    } else {
      WorkerGates(s, m);
    }
  }

  lemma DispatcherGates(s: Pool, m: Move)
    requires Gates(s) && Enabled(s, m) && Dispatching(m)
    requires s.disp.Sending? ==> s.disp.worker < |s.stages| && s.stages[s.disp.worker] == Idle
    ensures Gates(Step(s, m))
  {}

  lemma WorkerGates(s: Pool, m: Move)
    requires Gates(s) && Enabled(s, m) && !Dispatching(m)
    ensures Gates(Step(s, m))
  {}

  lemma GatesOf(s: Pool)
    requires Inv(s)
    ensures Gates(s) && 1 <= |s.stages| == |s.jobs| == |s.closed|
    ensures s.disp.Sending? ==> s.disp.worker < |s.stages| && s.stages[s.disp.worker] == Idle
  {
    if s.disp.Sending? { assert TokenOk(s, s.disp.worker); }
  }

  lemma StepInv(s: Pool, m: Move)
    requires Inv(s) && Enabled(s, m)
    ensures Inv(Step(s, m))
  {
    StepTokens(s, m);
    StepReady(s, m);
    StepGates(s, m);
    hide Once, TokenOk, Gates;
  }

  /** A sequence without repetition over fewer numbers than its length does not exist. */
  lemma {:induction false} Pigeonhole(q: seq<nat>, n: nat)
    requires Once(q) && forall j :: 0 <= j < |q| ==> q[j] < n
    ensures |q| <= n
    decreases n
  {
    if q != [] {
      assert q[0] < n;
      if n - 1 in q {
        var k :| 0 <= k < |q| && q[k] == n - 1;
        Pigeonhole(q[..k] + q[k + 1..], n - 1);
      } else {
        Pigeonhole(q, n - 1);
      }
    }
  }

  /** The readiness channel always has room for a worker that announces. */
  lemma ReadyNeverFull(s: Pool, i: nat)
    requires Inv(s) && i < |s.stages| && s.stages[i] == AnnounceLocked
    ensures |s.ready| < |s.stages|
  {
    assert TokenOk(s, i);
    Pigeonhole(s.ready + [i], |s.stages|);
  }

  /** A job on its way goes to a worker that is idle and has no other. */
  lemma JobsGoToIdleWorkers(s: Pool)
    requires Inv(s) && s.disp.Sending?
    ensures s.stages[s.disp.worker] == Idle && s.jobs[s.disp.worker] == [] && s.disp.worker !in s.ready
    ensures CanDeliver(s)
  {
    assert TokenOk(s, s.disp.worker);
  }

  // ----- progress -----

  predicate Final(s: Pool) {
    s.disp.Gone? && forall i :: 0 <= i < |s.stages| ==> s.stages[i] == Exited
  }

  /** A worker that is not idle or gone can move, or the holder of the gate it waits for can. */
  lemma BusyMoves(s: Pool, i: nat) returns (m: Move)
    requires Inv(s) && i < |s.stages| && s.stages[i] != Idle && s.stages[i] != Exited
    ensures Enabled(s, m)
  {
    match s.stages[i]
    case Announcing =>
      if s.readyGate == None { return LockReady(i); }
      ReadyNeverFull(s, s.readyGate.value);
      return Announce(s.readyGate.value);
    case AnnounceLocked => ReadyNeverFull(s, i); return Announce(i);
    case Handling(_) => return Handle(i, false);
    case Delivering(_) => return if s.resultsGate == None then LockResults(i) else SendResult(s.resultsGate.value);
    case DeliverLocked(_) => return SendResult(i);
  }

  lemma WaitingMoves(s: Pool) returns (m: Move)
    requires Inv(s) && s.disp.AwaitingToken?
    ensures Enabled(s, m)
  {
    if s.ready != [] { return TakeToken; }
    assert TokenOk(s, 0);
    if s.stages[0] == Idle {
      m := TakeJob(0);
    } else {
      m := BusyMoves(s, 0);
    }
  }

  lemma DrainingMoves(s: Pool) returns (m: Move)
    requires Inv(s) && !Final(s) && (s.disp.Closing? || s.disp.Gone?)
    ensures Enabled(s, m)
  {
    if j :| 0 <= j < |s.closed| && !s.closed[j] {
      return Close(j);
    }
    if s.disp.Closing? { return DispatchDone; }
    var i :| 0 <= i < |s.stages| && s.stages[i] != Exited;
    assert TokenOk(s, i);
    if s.stages[i] != Idle {
      m := BusyMoves(s, i);
    } else if s.jobs[i] != [] {
      m := TakeJob(i);
    } else {
      m := EndJobs(i);
    }
  }

  /** No reachable state short of the end is stuck. */
  lemma Progress(s: Pool) returns (m: Move)
    requires Inv(s) && !Final(s)
    ensures Enabled(s, m)
  {
    match s.disp
    case Receiving => m := if s.input != [] then Receive else EndInput;
    case AwaitingToken(_) => m := WaitingMoves(s);
    case Sending(_, _) => JobsGoToIdleWorkers(s); m := Deliver;
    case _ => m := DrainingMoves(s);
  }

  // ----- ranking and conservation: both are sums over the workers -----

  function StageRank(g: Stage): nat {
    match g
    case Announcing => 4
    case AnnounceLocked => 3
    case Idle => 1
    case Handling(_) => 7
    case Delivering(_) => 6
    case DeliverLocked(_) => 5
    case Exited => 0
  }

  function WorkerRank(s: Pool, n: nat): nat
    requires n <= |s.stages| && n <= |s.jobs| && n <= |s.closed|
  {
    if n == 0 then 0
    else WorkerRank(s, n - 1) + RankAt(s, n - 1)
  }

  function DispatcherRank(d: Dispatcher): nat {
    match d
    case Receiving => 2
    case AwaitingToken(_) => 11
    case Sending(_, _) => 10
    case Closing => 1
    case Gone => 0
  }

  /** An item costs 10 in the input, then less at every stage. */
  function Rank(s: Pool): nat
    requires Inv(s)
  {
    10 * |s.input| + DispatcherRank(s.disp) + WorkerRank(s, |s.stages|)
  }

  function Count(q: seq<int>, x: int): nat {
    multiset(q)[x]
  }

  /** How often `x` occurs with a stage; the other counts are alike. */
  function StageItems(g: Stage, x: int): nat {
    match g
    case Handling(y) => if y == x then 1 else 0
    case Delivering(out) => if out.item == x then 1 else 0
    case DeliverLocked(out) => if out.item == x then 1 else 0
    case _ => 0
  }

  function ItemsAt(s: Pool, i: nat, x: int): nat
    requires i < |s.stages| && i < |s.jobs|
  {
    StageItems(s.stages[i], x) + Count(s.jobs[i], x)
  }

  function WorkerItems(s: Pool, n: nat, x: int): nat
    requires n <= |s.stages| && n <= |s.jobs|
  {
    if n == 0 then 0 else WorkerItems(s, n - 1, x) + ItemsAt(s, n - 1, x)
  }

  function DispatcherItems(d: Dispatcher, x: int): nat {
    match d
    case AwaitingToken(y) => if y == x then 1 else 0
    case Sending(y, _) => if y == x then 1 else 0
    case _ => 0
  }

  function ItemsOf(results: seq<Output>): seq<int> {
    seq(|results|, i requires 0 <= i < |results| => results[i].item)
  }

  /** The items no worker has. */
  function ItemsOutside(s: Pool, x: int): nat {
    Count(s.input, x) + DispatcherItems(s.disp, x) + Count(ItemsOf(s.results), x)
  }

  /** Every item of the run: still to come, at the dispatcher, with a worker, or delivered. */
  function AllItems(s: Pool, x: int): nat
    requires Inv(s)
  {
    ItemsOutside(s, x) + WorkerItems(s, |s.stages|, x)
  }

  ghost predicate SameElsewhere(s: Pool, t: Pool, i: nat) {
    && |s.stages| == |t.stages| == |s.jobs| == |t.jobs| == |s.closed| == |t.closed|
    && (forall k :: 0 <= k < |s.stages| && k != i ==> s.stages[k] == t.stages[k])
    && (forall k :: 0 <= k < |s.jobs| && k != i ==> s.jobs[k] == t.jobs[k])
    && (forall k :: 0 <= k < |s.closed| && k != i ==> s.closed[k] == t.closed[k])
  }

  /** One worker's share of the sums. */
  function RankAt(s: Pool, i: nat): nat
    requires i < |s.stages| && i < |s.jobs| && i < |s.closed|
  {
    StageRank(s.stages[i]) + 7 * |s.jobs[i]| + (if s.closed[i] then 0 else 1)
  }

  /** Changing one worker changes the sums by that worker's share. */
  lemma {:induction false} OneWorkerRank(s: Pool, t: Pool, i: nat, n: nat)
    requires SameElsewhere(s, t, i) && n <= |s.stages|
    ensures i < n ==> WorkerRank(t, n) + RankAt(s, i) == WorkerRank(s, n) + RankAt(t, i)
    ensures n <= i ==> WorkerRank(t, n) == WorkerRank(s, n)
    decreases n
  {
    if n != 0 { OneWorkerRank(s, t, i, n - 1); }
  }

  lemma {:induction false} OneWorkerItems(s: Pool, t: Pool, i: nat, n: nat, x: int)
    requires SameElsewhere(s, t, i) && n <= |s.stages|
    ensures i < n ==> WorkerItems(t, n, x) + ItemsAt(s, i, x) == WorkerItems(s, n, x) + ItemsAt(t, i, x)
    ensures n <= i ==> WorkerItems(t, n, x) == WorkerItems(s, n, x)
    decreases n
  {
    if n != 0 { OneWorkerItems(s, t, i, n - 1, x); }
  }

  /** The worker a move touches; any, when it touches none. */
  function Touched(s: Pool, m: Move): nat {
    match m
    case Close(i) => i
    case LockReady(i) => i
    case Announce(i) => i
    case TakeJob(i) => i
    case EndJobs(i) => i
    case Handle(i, _) => i
    case LockResults(i) => i
    case SendResult(i) => i
    case Deliver => if s.disp.Sending? then s.disp.worker else 0
    case _ => 0
  }

  lemma TouchesOne(s: Pool, m: Move)
    requires Inv(s) && Enabled(s, m)
    ensures Touched(s, m) < |s.stages| && SameElsewhere(s, Step(s, m), Touched(s, m))
  {
    hide Once, TokenOk, Gates;
  }

  /** Every step brings the end nearer. */
  lemma StepRanks(s: Pool, m: Move)
    requires Inv(s) && Enabled(s, m)
    ensures Inv(Step(s, m)) && Rank(Step(s, m)) < Rank(s)
  {
    hide Inv, WorkerRank, SameElsewhere, TokenOk;
    StepInv(s, m);
    TouchesOne(s, m);
    var t, i := Step(s, m), Touched(s, m);
    Lengths(s);
    OneWorkerRank(s, t, i, |s.stages|);
    assert Rank(t) - Rank(s) == 10 * |t.input| - 10 * |s.input| + DispatcherRank(t.disp) - DispatcherRank(s.disp)
                                + RankAt(t, i) - RankAt(s, i);
  }

  lemma CountHead(q: seq<int>, x: int)
    requires q != []
    ensures Count(q, x) == Count(q[1..], x) + (if q[0] == x then 1 else 0)
  {
    assert q == [q[0]] + q[1..];
  }

  lemma CountLast(q: seq<int>, y: int, x: int)
    ensures Count(q + [y], x) == Count(q, x) + (if y == x then 1 else 0)
  {}

  lemma CountOutput(q: seq<Output>, out: Output, x: int)
    ensures Count(ItemsOf(q + [out]), x) == Count(ItemsOf(q), x) + (if out.item == x then 1 else 0)
  {
    assert ItemsOf(q + [out]) == ItemsOf(q) + [out.item];
  }

  /** What a worker gets in a step the rest loses, and the other way round. */
  lemma StepTransfers(s: Pool, m: Move, x: int)
    requires Inv(s) && Enabled(s, m) && Touched(s, m) < |s.stages|
    ensures var t, i := Step(s, m), Touched(s, m);
      |t.stages| == |s.stages| == |t.jobs| && ItemsOutside(t, x) + ItemsAt(t, i, x) == ItemsOutside(s, x) + ItemsAt(s, i, x)
  {
    hide Inv, TokenOk, Count, ItemsOf;
    var t, i := Step(s, m), Touched(s, m);
    Lengths(s);
    match m
    case Receive => CountHead(s.input, x);
    case Deliver => CountLast(s.jobs[i], s.disp.item, x);
    case TakeJob(_) => CountHead(s.jobs[i], x);
    case SendResult(_) => CountOutput(s.results, s.stages[i].out, x);
    case _ => assert t.jobs == s.jobs && t.results == s.results && t.input == s.input;
  }

  /** Every step keeps the items. */
  lemma StepItems(s: Pool, m: Move, x: int)
    requires Inv(s) && Enabled(s, m)
    ensures Inv(Step(s, m)) && AllItems(Step(s, m), x) == AllItems(s, x)
  {
    StepInv(s, m);
    TouchesOne(s, m);
    StepTransfers(s, m, x);
    OneWorkerItems(s, Step(s, m), Touched(s, m), |s.stages|, x);
    hide Inv, Step, Enabled, WorkerItems, SameElsewhere, ItemsOutside, ItemsAt;
  }

  // ----- whole runs -----

  ghost predicate IsRun(s: Pool, moves: seq<Move>, t: Pool)
    decreases |moves|
  {
    if moves == [] then s == t else Enabled(s, moves[0]) && IsRun(Step(s, moves[0]), moves[1..], t)
  }

  lemma {:induction false} RunInv(s: Pool, moves: seq<Move>, t: Pool, x: int)
    requires Inv(s) && IsRun(s, moves, t)
    ensures Inv(t) && AllItems(t, x) == AllItems(s, x) && |moves| + Rank(t) <= Rank(s)
    decreases |moves|
  {
    if moves != [] {
      StepRanks(s, moves[0]);
      StepItems(s, moves[0], x);
      hide Inv, Enabled, Step, Rank, AllItems;
      RunInv(Step(s, moves[0]), moves[1..], t, x);
    }
  }

  lemma {:induction false} NothingWithWorkers(s: Pool, n: nat, x: int)
    requires Inv(s) && Final(s) && n <= |s.stages|
    ensures WorkerItems(s, n, x) == 0
    decreases n
  {
    if n != 0 {
      NothingWithWorkers(s, n - 1, x);
      assert TokenOk(s, n - 1);
    }
  }

  ghost predicate InputDone(s: Pool) {
    s.disp.Closing? || s.disp.Gone? ==> s.input == []
  }

  lemma {:induction false} RunDone(s: Pool, moves: seq<Move>, t: Pool)
    requires InputDone(s) && IsRun(s, moves, t)
    ensures InputDone(t)
    decreases |moves|
  {
    if moves != [] { RunDone(Step(s, moves[0]), moves[1..], t); }
  }

  lemma {:induction false} NoItems(s: Pool, n: nat, x: int)
    requires n <= |s.stages| && n <= |s.jobs| && forall k :: 0 <= k < n ==> s.stages[k] == Announcing && s.jobs[k] == []
    ensures WorkerItems(s, n, x) == 0
    decreases n
  {
    if n != 0 { NoItems(s, n - 1, x); }
  }

  lemma StartItems(input: seq<int>, workers: nat, buffer: nat, x: int)
    requires 1 <= workers
    ensures var s := Start(input, workers, buffer); Inv(s) && AllItems(s, x) == multiset(input)[x] && InputDone(s)
  {
    StartInv(input, workers, buffer);
    NoItems(Start(input, workers, buffer), workers, x);
  }

  lemma FinalItems(t: Pool, x: int)
    requires Inv(t) && Final(t) && InputDone(t)
    ensures AllItems(t, x) == multiset(ItemsOf(t.results))[x]
  {
    NothingWithWorkers(t, |t.stages|, x);
    hide Inv;
  }

  /** Every run is finite, with a bound known at its start; and one that cannot go on has ended well. */
  lemma EveryRunEnds(input: seq<int>, workers: nat, buffer: nat, moves: seq<Move>, t: Pool)
    requires 1 <= workers && IsRun(Start(input, workers, buffer), moves, t)
    ensures |moves| <= 10 * |input| + 5 * workers + 2
    ensures (forall m :: !Enabled(t, m)) <==> Final(t)
  {
    var s := Start(input, workers, buffer);
    StartItems(input, workers, buffer, 0);
    StartRank(s, workers);
    hide Start, Inv, WorkerRank, IsRun, AllItems;
    assert Rank(s) <= 10 * |input| + 5 * workers + 2;
    RunInv(s, moves, t, 0);
    hide Rank;
    if !Final(t) {
      var m := Progress(t);
    } else {
      FinalStuck(t);
    }
  }

  lemma FinalStuck(s: Pool)
    requires Inv(s) && Final(s)
    ensures forall m :: !Enabled(s, m)
  {}

  lemma {:induction false} StartRank(s: Pool, n: nat)
    requires n <= |s.stages| && n <= |s.jobs| && n <= |s.closed|
    requires forall k :: 0 <= k < n ==> s.stages[k] == Announcing && s.jobs[k] == [] && !s.closed[k]
    ensures WorkerRank(s, n) == 5 * n
    decreases n
  {
    if n != 0 { StartRank(s, n - 1); }
  }

  /** In every reachable state: announcing never blocks on room, jobs go to idle workers, and no private queue
      holds more than one item. */
  lemma EveryRunKeepsTokens(input: seq<int>, workers: nat, buffer: nat, moves: seq<Move>, t: Pool)
    requires 1 <= workers && IsRun(Start(input, workers, buffer), moves, t)
    ensures |t.stages| == |t.jobs| == |t.closed| && forall i :: 0 <= i < |t.stages| ==> TokenOk(t, i)
    ensures |t.ready| <= |t.stages|
    ensures forall i :: 0 <= i < |t.stages| && t.stages[i] == AnnounceLocked ==> |t.ready| < |t.stages|
    ensures t.disp.Sending? ==> CanDeliver(t) && t.stages[t.disp.worker] == Idle
  {
    StartInv(input, workers, buffer);
    RunInv(Start(input, workers, buffer), moves, t, 0);
    Pigeonhole(t.ready, |t.stages|);
    if t.disp.Sending? { JobsGoToIdleWorkers(t); }
    forall i | 0 <= i < |t.stages| && t.stages[i] == AnnounceLocked ensures |t.ready| < |t.stages| {
      ReadyNeverFull(t, i);
    }
  }

  /** When a run has ended, `results` holds one output for each input item, as a multiset. */
  lemma EveryRunDelivers(input: seq<int>, workers: nat, buffer: nat, moves: seq<Move>, t: Pool)
    requires 1 <= workers && IsRun(Start(input, workers, buffer), moves, t) && Final(t)
    ensures multiset(ItemsOf(t.results)) == multiset(input)
  {
    var s := Start(input, workers, buffer);
    forall x ensures multiset(ItemsOf(t.results))[x] == multiset(input)[x] {
      StartItems(input, workers, buffer, x);
      RunInv(s, moves, t, x);
      RunDone(s, moves, t);
      FinalItems(t, x);
    }
  }

  // ----- order -----

  /** The dispatcher takes the items from the front. */
  lemma {:induction false} TakesInOrder(s: Pool, moves: seq<Move>, t: Pool)
    requires IsRun(s, moves, t)
    ensures |t.input| <= |s.input| && t.input == s.input[|s.input| - |t.input|..]
    decreases |moves|
  {
    hide Step, Enabled;
    if moves != [] {
      StepTakes(s, moves[0]);
      TakesInOrder(Step(s, moves[0]), moves[1..], t);
    }
  }

  lemma StepTakes(s: Pool, m: Move)
    requires Enabled(s, m)
    ensures Step(s, m).input == s.input || (s.input != [] && Step(s, m).input == s.input[1..])
  {}

  function StageLine(g: Stage): seq<int> {
    match g
    case Handling(x) => [x]
    case Delivering(out) => [out.item]
    case DeliverLocked(out) => [out.item]
    case _ => []
  }

  function DispatcherLine(d: Dispatcher): seq<int> {
    match d
    case AwaitingToken(x) => [x]
    case Sending(x, _) => [x]
    case _ => []
  }

  /** With one worker: everything delivered, in work, queued, taken and still to come, in this order. */
  function Line(s: Pool): seq<int>
    requires |s.stages| == |s.jobs| == 1
  {
    ItemsOf(s.results) + StageLine(s.stages[0]) + s.jobs[0] + DispatcherLine(s.disp) + s.input
  }

  ghost predicate OneWorker(s: Pool) {
    && |s.stages| == |s.jobs| == |s.closed| == 1
    && (s.disp.Sending? ==> s.disp.worker == 0 && s.stages[0] == Idle && s.jobs[0] == [])
    && (StageLine(s.stages[0]) != [] ==> s.jobs[0] == [])
  }

  lemma DispatcherLines(s: Pool, m: Move)
    requires OneWorker(s) && Enabled(s, m) && Dispatching(m)
    ensures var t := Step(s, m); |t.stages| == |t.jobs| == 1 && Line(t) == Line(s)
  {
    hide ItemsOf;
    if m.Receive? { assert s.input == [s.input[0]] + s.input[1..]; }
  }

  lemma WorkerLines(s: Pool, m: Move)
    requires OneWorker(s) && Enabled(s, m) && !Dispatching(m)
    ensures var t := Step(s, m); |t.stages| == |t.jobs| == 1 && Line(t) == Line(s)
  {
    hide ItemsOf, CanDeliver;
    match m
    case SendResult(_) => Delivers(s.results, s.stages[0].out);
    case TakeJob(_) => assert s.jobs[0] == [s.jobs[0][0]] + s.jobs[0][1..];
    case _ =>
  }

  lemma IsOneWorker(s: Pool)
    requires Inv(s) && |s.stages| == 1
    ensures OneWorker(s)
  {
    Lengths(s);
    BusyQueue(s);
  }

  lemma StepLine(s: Pool, m: Move)
    requires Inv(s) && |s.stages| == 1 && Enabled(s, m)
    ensures Inv(Step(s, m)) && |Step(s, m).stages| == 1 && |s.jobs| == |Step(s, m).jobs| == 1 && Line(Step(s, m)) == Line(s)
  {
    hide Inv, Enabled, Step, Line;
    StepInv(s, m);
    IsOneWorker(s);
    if Dispatching(m) { DispatcherLines(s, m); } else { WorkerLines(s, m); }
  }

  lemma Delivers(q: seq<Output>, out: Output)
    ensures ItemsOf(q + [out]) == ItemsOf(q) + [out.item]
  {}

  /** A worker that has an item has no other queued. */
  lemma BusyQueue(s: Pool)
    requires Inv(s)
    ensures forall i :: 0 <= i < |s.stages| && StageLine(s.stages[i]) != [] ==> s.jobs[i] == []
  {
    forall i | 0 <= i < |s.stages| && StageLine(s.stages[i]) != [] ensures s.jobs[i] == [] {
      assert TokenOk(s, i);
    }
  }

  lemma {:induction false} RunLine(s: Pool, moves: seq<Move>, t: Pool)
    requires Inv(s) && |s.stages| == |s.jobs| == 1 && IsRun(s, moves, t)
    ensures Inv(t) && |t.stages| == |t.jobs| == 1 && Line(t) == Line(s)
    decreases |moves|
  {
    hide Inv, Step, Enabled, Line;
    if moves != [] {
      StepLine(s, moves[0]);
      RunLine(Step(s, moves[0]), moves[1..], t);
    }
  }

  lemma StartLine(input: seq<int>, buffer: nat)
    ensures Line(Start(input, 1, buffer)) == input
  {}

  lemma FinalLine(t: Pool)
    requires Inv(t) && Final(t) && InputDone(t) && |t.stages| == |t.jobs| == 1
    ensures Line(t) == ItemsOf(t.results)
  {
    assert TokenOk(t, 0);
    hide ItemsOf, Gates;
  }

  lemma ResultsFirst(t: Pool)
    requires |t.stages| == |t.jobs| == 1
    ensures ItemsOf(t.results) <= Line(t)
  {
    hide ItemsOf;
    assert Line(t) == ItemsOf(t.results) + (StageLine(t.stages[0]) + t.jobs[0] + DispatcherLine(t.disp) + t.input);
  }

  /** One worker delivers in the order of the input: always a prefix of it, and all of it at the end. */
  lemma OneWorkerInOrder(input: seq<int>, buffer: nat, moves: seq<Move>, t: Pool)
    requires IsRun(Start(input, 1, buffer), moves, t)
    ensures ItemsOf(t.results) <= input
    ensures Final(t) ==> ItemsOf(t.results) == input
  {
    StartInv(input, 1, buffer);
    StartLine(input, buffer);
    hide Line, Inv, IsRun, Final, ItemsOf;
    RunLine(Start(input, 1, buffer), moves, t);
    RunDone(Start(input, 1, buffer), moves, t);
    ResultsFirst(t);
    if Final(t) { FinalLine(t); }
  }
}
