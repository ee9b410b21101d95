# chrono_daemon in Dafny

A model of four parts of `chrono_daemon`, with proofs of what they promise. Nothing was executed.

**`SimClock`** (`clock.py`), the virtual clock. `ClockModel` is the clock as a value: its heap, open instant, set-aside
list, anchor and history, with one pop stated by what it takes out of which container. `Runs` puts the clock under
arbitrary clients: at every settle point any sequence of registrations, `call_at`s, cancellations, failures and nested
advance attempts may happen. The theorems are about every such run:

- `Times`, `Instants`: the tolerance, exactly when scanning a heap by its top is sound, and the closed form of a pop;
- `Conservation`, `Promptness`, `FrozenInstants`, `Joins`, `Settles`: what every run keeps;
- `Registrations`: runs in terms of the tasks' own moves, their deadlines, priorities and cancellations;
- `Gaps`: the exact tolerances for which instants are the sets of close deadlines they are meant to be;
- `Drives`, `Refinement`, `Burst`, `Termination`, `ZeroTolerance`, `Resumption`, `Retries`, `LazyDeletion`, `Every`: advances whose
  clients react to wakes, compared with a sorted plan, with each other, and with a bound on their length;
- `MinHeap`, `ClockLoops`, `SimClock.dfy`: the class itself, with `heapq` as a binary heap over a list and the nested
  loops of the source, updating its fields in place; every call is proved to be moves of `Runs`.

**`worker_pool`**. `WorkerPool` is the dispatcher, the workers, the readiness channel, the job channels and the send
gates as a transition system under any interleaving; `WorkerTasks` is the same pool as an object whose tasks are resumed
in any order, proved against it.

**`Supervisor`**. `Lifecycle` gives the life of one daemon for every script of outcomes (what its calls return or raise,
when stop is signalled, whether a back-off is cancelled); `Host` is the `_host` loop on the daemon's record, proved to
live that life; `Outcomes` says how lives end in terms of script and policy alone. `StopProtocol` interleaves `add`, entry, exit, `stop`, `signal_stop`, daemon exits and
`wait_all_started`; `Supervisor.dfy` is the class with those methods.

**`batcher_loop`**. `Batches` says what batches and replies are owed; `Batcher` is the loop over a script of arrivals,
clock readings and outcomes of `forward`.

Times are exact reals with infinities. Randomness, other tasks, hooks, clocks and handlers are parameters or scripts over
which every theorem quantifies.

## Properties that are false of the code, with their exact conditions

- With `1 < rtol < 2`, closeness to a negative target or anchor is not downward closed, so the heap's top does not decide
  the heap. The code accepts every `rtol >= 0` (clock.py:214).
  - `advance_to` can return with a due sleeper left behind: `Promptness.CompletenessIff` gives the exact condition on
    `t`, `rtol` and `atol`, `Promptness.GapLeavesOneBehind` the run.
  - An instant need not hold every close due deadline, and need not keep one `now()`. At `rtol = 1.5`, with sleepers at
    -1, 1 and 2 and a clock at -2, the sleeper at -1 wakes alone; if its task cancels the one at 1, the sleeper at 2
    joins the open instant and wakes in it at another time. For every such tolerance `Gaps.HoleExists` finds three
    deadlines and `Gaps.WakesApart` the run; `Gaps.FrozenIff`, `Gaps.PlanIff`, `Gaps.FormIff` and `Gaps.ReachIff` show
    that one `now()` per instant, the sorted plan, the closed form of a pop and the reach of the gathering loop each hold
    if and only if `rtol <= 1` or `rtol >= 2`.
- A failed advance does not always resume in the order in which it would have gone on: a `call_at` for a time already
  past joins the open instant by priority, but the retry serves it by deadline. `Retries.ResumesIff` is the exact
  condition on what is left of the instant, `Retries.LateJoinReorders` a run in which the retry wakes the late callback
  before a sleeper that the advance would have woken first.
- `stop()` called once `__aexit__` has begun finds no task group and returns at once with daemons still active
  (supervisor.py:221), and one called inside an open group can return while a daemon launched after the signal runs.
  `StopProtocol.StopLeavesSomeIff` is the exact condition over all runs, `StopProtocol.StopInsideExit` and
  `StopProtocol.LateAddSlipsThrough` are the runs.
- A record does not always end "stopped" or "failed" (`Lifecycle.CancelledBackOff`, `Lifecycle.EscapedCleanup`);
  `Lifecycle.SettledIff` says for which scripts and policies it does.
- The waits between attempts are capped exponentials exactly if the factor does not shrink them after a cut
  (`Lifecycle.CappedIff`); the first wait is `base`, never capped.
- `batcher_loop` answers every request exactly if `forward` raises nothing but `Exception`s and no caller has closed its
  reply channel (`Batcher.BatcherLoop.Run`).
- The two `every` schedules yield the same ticks exactly as long as no wake is early (`Every.SchedulesAgreeIff`);
  `Every.EarlyTickParts` is a run that wakes a tick early, for every grid and every absolute tolerance up to the period.

## Model

| member | source | states |
|---|---|---|
| Times.ClosedAtIff | src/chrono_daemon/clock.py:284-301 | For a target `t`, every deadline up to a close one is close, if and only if `rtol <= 1`, `rtol >= 2`, `t >= 0`, or `atol` alone bridges the gap: what lets `_heap_due` judge the heap by its top |
| Times.RegularIff | src/chrono_daemon/clock.py:262-267 | Closeness is downward closed around every target and every anchor if and only if `rtol <= 1` or `rtol >= 2` |
| Times.IsCloseIff | src/chrono_daemon/clock.py:266-268 | `math.isclose`: two finite times are close if and only if their distance is within the relative tolerance of either magnitude or within the absolute one; infinities only to themselves |
| Times.NearIff | src/chrono_daemon/clock.py:208-209 | The due test of `_heap_due` is that closeness: a finite deadline passes it if and only if it is not past the target or is close to it |
| Times.NearHole | src/chrono_daemon/clock.py:284-301 | Outside that condition, two deadlines with the earlier one not close and the later one close |
| Instants.TopForm | src/chrono_daemon/clock.py:284-301 | `_heap_due` returns `None` exactly when no live, unblocked entry of the whole heap is due, and otherwise the least of all such entries |
| Instants.ReachForm | src/chrono_daemon/clock.py:265-276 | At the tolerances of `Times.RegularIff`, the gathering loop reaches exactly the due entries close to the anchor, wherever they lie in the heap |
| Gaps.ReachIff | src/chrono_daemon/clock.py:265-276 | It does so for every heap if and only if `rtol <= 1` or `rtol >= 2` |
| Instants.FindForm | src/chrono_daemon/clock.py:252-282 | At those tolerances, the closed form of `_pop_due` inside any advance: an instant with a live member goes on unchanged in `now()`, anchor and end; otherwise the due entries close to the earliest one form the next; otherwise none is due |
| Gaps.FormIff | src/chrono_daemon/clock.py:252-282 | A first pop opens the instant of all due entries close to the earliest, for every clock, if and only if `rtol <= 1` or `rtol >= 2` |
| Gaps.CloseTogether | src/chrono_daemon/clock.py:255-257 | Due deadlines within the absolute or the relative tolerance of the earliest one are found in one instant, whose time is the target or the latest of their deadlines, unless time is already past that |
| Termination.PopOngoing | src/chrono_daemon/clock.py:252-282 | At any tolerance a pop never moves time back nor past the target, its entry is not early, and what the advance relies on survives the pop |
| Conservation.FindConserved | src/chrono_daemon/clock.py:252-301 | Under any tolerance a pop loses and doubles no live entry, serves only a live one, keeps the history, and moves time forward up to the target |
| Conservation.StepInv | src/chrono_daemon/clock.py:148-301 | Every step of clients and drivers keeps "each live registration is in exactly one of heap, instant, set-aside list and served", with the last three containers empty outside an advance; time and history only grow |
| Conservation.EveryRunConserves | src/chrono_daemon/clock.py:148-301 | So in every run of a new clock, with nested and failing advances: each live registration is held or was served, once |
| Registrations.KnownIff | src/chrono_daemon/clock.py:148-174 | The entries of any run are exactly those its `wait_until` and `call_at` moves registered, each with the deadline and priority of its move, the next number and the present time |
| Registrations.CancelledIff | src/chrono_daemon/clock.py:105-106 | An entry is cancelled in a run if and only if a move cancelled that very entry, and a woken sleeper is not |
| Registrations.CancelledStaysOut | src/chrono_daemon/clock.py:293-296 | Whatever happens after its cancellation, it is not served any more |
| Registrations.ServedInOrder | src/chrono_daemon/clock.py:199-202 | Of two registrations before the instant in which the second wakes, the one with no later deadline and a lower `priority` argument, or the same and made earlier, has been served before, unless cancelled |
| Promptness.EveryRunTimely | src/chrono_daemon/clock.py:199-282 | In every run, wakes happen at nondecreasing times within their advance's target, each at or after its deadline, or at the target when the tolerance covers its deadline |
| Promptness.NeverEarly | src/chrono_daemon/clock.py:252-282 | The same from any state between or inside advances |
| Promptness.CompletionLeavesNothing | src/chrono_daemon/clock.py:232-250 | An advance that returns leaves `now()` at `t` and nothing live that is due by `t`, save re-sleeps within `t`'s tolerance registered when time had reached `t` |
| Promptness.GapLeavesOneBehind | src/chrono_daemon/clock.py:284-301 | For every target and tolerance outside the condition, a run that completes and leaves a due sleeper |
| Promptness.CompletenessIff | src/chrono_daemon/clock.py:190-250 | Every completed advance with these arguments leaves nothing due, if and only if the condition on target and tolerance holds |
| Promptness.NoMoveOverHostWork | src/chrono_daemon/clock.py:234-250 | If `settle()` answers truthfully, then in every run, past failed advances and used-up settle budgets, no entry wakes and `now()` does not change, the final jump included, while host work is pending in an advance with the hook |
| Settles.SettleBudget | src/chrono_daemon/clock.py:303-310 | Whatever tasks do in between: with fewer True answers than `max_settles` the settle goes on with the clock as it is, the next False answer ends it, and the `max_settles`-th True answer in a row fails the advance |
| Settles.SettlesOnce | src/chrono_daemon/clock.py:305-309 | Without a hook one round is the whole settle |
| Settles.RaiseFails | src/chrono_daemon/clock.py:221-231 | What is raised in a settle fails the advance: time and history stay, and all that the advance held is in the heap |
| FrozenInstants.InstantsAreFrozen | src/chrono_daemon/clock.py:252-282 | Any two wakes of any run whose tolerances have `rtol <= 1` or `rtol >= 2`: one instant has one `now()`, instants and times do not go back, and wakes in one instant follow (priority, registration) among what was registered before the earlier wake |
| FrozenInstants.LaterInstants | src/chrono_daemon/clock.py:257-276 | Any wake of any such run: an entry registered in the instant in which it wakes was due in it, and one registered for a later time, be it after the instant's last wake, wakes in a strictly later instant and strictly later than it was registered |
| Gaps.FrozenIff | src/chrono_daemon/clock.py:252-301 | All wakes of all runs with a tolerance have both properties, if and only if `rtol <= 1` or `rtol >= 2` |
| Gaps.WakesApart | src/chrono_daemon/clock.py:252-301 | For every other tolerance, a run in which one instant sees two times |
| Joins.CallJoinsItsInstant | src/chrono_daemon/clock.py:166-174 | In any run at any tolerance, a `call_at` made during an instant and due by `now()` is served in that very instant and in no other while its advance does not fail, and is served or cancelled when it completes |
| Drives.DriveIsRun | src/chrono_daemon/clock.py:234-250 | An advance given by clients' reactions, when it returns, is a completed advance of a run, at any tolerance |
| Drives.FindAgain | src/chrono_daemon/clock.py:240-244 | After a pop that found nothing, the peek finds nothing and changes nothing unless clients acted in between |
| Refinement.PopServesPlan | src/chrono_daemon/clock.py:252-282 | At those tolerances, at any point of an advance, a pop serves the head of the plan: sort the due entries, cut greedily by closeness to the earliest, order each cut by (priority, registration) at its arrival time |
| Refinement.QuietAdvanceIsPlan | src/chrono_daemon/clock.py:234-282 | At those tolerances, with quiet clients, an advance returns after exactly the planned wakes, each at its planned time |
| Gaps.PlanIff | src/chrono_daemon/clock.py:234-282 | Every quiet advance from its start serves the plan, if and only if `rtol <= 1` or `rtol >= 2` |
| Refinement.PlanServesEachOnce | src/chrono_daemon/clock.py:199-210 | The plan lists each due entry once, none early, at nondecreasing times up to the target |
| Refinement.ByPrioSorted | src/chrono_daemon/clock.py:201-202 | Within an instant the plan is strictly sorted by (priority, registration) |
| Burst.BurstInvariance | src/chrono_daemon/clock.py:190-301 | With zero tolerance, `advance_to(a)` then `advance_to(b)` and `advance_to(b)` finish together, with the same trace, times and clock, for every state and every reaction of the clients |
| Burst.BurstSplit | src/chrono_daemon/clock.py:221-250 | Whenever the two advances finish, so does the single one, in the same state |
| Burst.BurstJoin | src/chrono_daemon/clock.py:221-250 | Whenever the single advance finishes, so do the two, in the same state |
| Termination.AdvanceTerminates | src/chrono_daemon/clock.py:239-250 | At any tolerance, if each wake registers at most one entry, at least `delta` ahead, an advance returns after at most the summed cost of the entries due at its start |
| Termination.EveryAdvanceTerminates | src/chrono_daemon/clock.py:190-250 | So does every advance begun from rest in every run, with any target that is not past |
| Termination.CostBound | src/chrono_daemon/clock.py:284-301 | An entry's cost is at most `floor(max(0, t - d) / delta) + 2` |
| Termination.CycleOwes | src/chrono_daemon/clock.py:287-294 | At any tolerance each turn lowers the owed total: what a wake registers costs less than the wake, and nothing once time reached the target |
| LazyDeletion.LazyDeletionInvisible | src/chrono_daemon/clock.py:156-164 | From any state and from that state without its cancelled entries, every run has the same wakes, times and positions |
| LazyDeletion.FindPurge | src/chrono_daemon/clock.py:252-301 | Removing cancelled entries commutes with `_pop_due`, and both find the same entry |
| LazyDeletion.PeekThenPop | src/chrono_daemon/clock.py:252-282 | At any tolerance a peek that found an entry is repeatable: the next pop finds the same entry at the same time in the same clock |
| ZeroTolerance.PopIsLeast | src/chrono_daemon/clock.py:199-202 | With zero tolerance and no late callback, the two heaps act as one queue: a pop takes the least of (deadline, priority, registration), overdue ones at once and others exactly on time |
| Resumption.RetryResumes | src/chrono_daemon/clock.py:221-250 | With zero tolerance, an advance that failed after a wake and is retried to the same target makes, wake by wake and action by action, the wakes the uninterrupted one would have made, up to sequence numbers, if no callback is registered that is overdue in its instant |
| Resumption.TwinWakes | src/chrono_daemon/clock.py:252-282 | Clocks equal up to an order-keeping renumbering make equal wakes under equal actions, callbacks for the open instant's own deadline included |
| Retries.ResumesIff | src/chrono_daemon/clock.py:221-250 | With zero tolerance and any late callbacks, the retry makes all the wakes the advance would have gone on to make for silent clients, if and only if what is left of the instant is in (deadline, priority, registration) order and before the heap |
| Retries.FirstWakeIff | src/chrono_daemon/clock.py:221-250 | Its first wake is the advance's next one if and only if the instant's next entry is the least of everything pending |
| Retries.LateJoinReorders | src/chrono_daemon/clock.py:170-171 | A run whose retry wakes a late callback before the sleeper the advance would have gone on with |
| Every.SimTicker.Resume | src/chrono_daemon/clock.py:329-332 | Resumed at any time, the generator goes to the least later index whose tick is after `now()` |
| Every.WallTicker.Resume | src/chrono_daemon/clock.py:84-87 | The incremental schedule stays on the grid and goes to the least index, its own included, after `now()` |
| Every.SchedulesAgreeIff | src/chrono_daemon/clock.py:84-87 | Resumed at the same times from the same tick, the two schedules yield the same first ticks if and only if none of the wakes so far was early |
| Every.TicksFromStart | src/chrono_daemon/clock.py:322-325 | The grid starts at `t0`, with one period between ticks |
| Every.ScheduleGrid | src/chrono_daemon/clock.py:317-332 | Yields are a strictly increasing subsequence of the grid, and every index skipped between two yields was already past |
| Every.EveryTickOnTime | src/chrono_daemon/clock.py:317-332 | With zero tolerance, a task that only awaits its ticks gets each one in order, at its own time, none missed up to the target, whatever other clients register at whatever priority before or after it waits again, if they do not cancel it |
| Every.EarlyTickParts | src/chrono_daemon/clock.py:329-332 | For every grid and absolute tolerance up to the period, a run that wakes the first tick early, after which the two schedules yield different ticks |
| MinHeap.HeapPush | src/chrono_daemon/clock.py:155 | A push keeps the heap order and adds exactly that waiter |
| MinHeap.HeapPop | src/chrono_daemon/clock.py:269-277 | A pop keeps the heap order and removes exactly the top |
| MinHeap.HeapTop | src/chrono_daemon/clock.py:284-291 | The top of a heap is before every other waiter in it |
| ClockLoops.GatherJoin | src/chrono_daemon/clock.py:266-272 | A turn of the gathering loop that takes an entry into the instant does not change what the loop achieves |
| ClockLoops.GatherLater | src/chrono_daemon/clock.py:273-276 | Nor one that sets an entry of the instant's own making aside |
| SimClocks.SimClock.constructor | src/chrono_daemon/clock.py:119-136 | A new clock is empty, at `t0` |
| SimClocks.SimClock.HeapDue | src/chrono_daemon/clock.py:284-301 | The loop over the heap's top removes and sets aside exactly the junk, and returns the top that decides the heap |
| SimClocks.SimClock.Gather | src/chrono_daemon/clock.py:265-276 | The two gathering loops leave exactly the declared instant, end, heap and set-aside list |
| SimClocks.SimClock.PopDue | src/chrono_daemon/clock.py:252-282 | `_pop_due` in at most two passes is the declared pop, and with `peek` the same without the removal |
| SimClocks.SimClock.WaitUntil | src/chrono_daemon/clock.py:148-155 | Past deadlines register nothing; others enter the heap in a new waiter with the caller's deadline and priority, the next number and the present time |
| SimClocks.SimClock.CallAt | src/chrono_daemon/clock.py:166-174 | Registers the caller's deadline and priority under the next number, in the open instant if due in it, else in the heap |
| SimClocks.SimClock.CancelCall | src/chrono_daemon/clock.py:105-106 | Sets the flag, and removes nothing |
| SimClocks.SimClock.CancelSleep | src/chrono_daemon/clock.py:157-164 | Does nothing once woken; else flags the waiter and prunes cancelled tops |
| SimClocks.SimClock.PopAndWake | src/chrono_daemon/clock.py:245-249 | The popped waiter, and no other, is woken and recorded with the time and instant it saw |
| SimClocks.SimClock.Settle | src/chrono_daemon/clock.py:303-310 | Rounds and hook repeat while other tasks act; the settle ends with a False answer, or without a hook after one round, before its budget is used up; it fails only with something raised or with exactly the `max_settles`-th True answer |
| SimClocks.SimClock.Drive | src/chrono_daemon/clock.py:234-250 | The loop is a run, and returns only after a settle and a peek that found nothing |
| SimClocks.SimClock.GiveBack | src/chrono_daemon/clock.py:223-231 | The set-aside list and the open instant return to the heap |
| SimClocks.SimClock.AdvanceTo | src/chrono_daemon/clock.py:190-232 | Which calls raise for bad arguments, raise for a second driver, or do nothing for a past target, exactly, and that these change nothing; any other call is a completed advance ending at `t` or a failed one, and all that happens meanwhile is a run of the model |
| WorkerPool.StepInv | src/chrono_daemon/recipes/routing/worker_pool.py:52-79 | Each worker's token is in exactly one place or the worker is busy, and every step of any task keeps that |
| WorkerPool.EveryRunKeepsTokens | src/chrono_daemon/recipes/routing/worker_pool.py:52-79 | In every reachable state the readiness buffer has room for a worker that announces, a dispatched job goes to an idle worker and can be delivered, and no job queue holds two items |
| WorkerPool.ReadyNeverFull | src/chrono_daemon/recipes/routing/worker_pool.py:52-54 | A buffer of `workers` tokens is never full when a worker announces |
| WorkerPool.JobsGoToIdleWorkers | src/chrono_daemon/recipes/routing/worker_pool.py:64-66 | The dispatcher's send finds its worker idle with an empty queue, so the send can complete with any buffer size |
| WorkerPool.Progress | src/chrono_daemon/recipes/routing/worker_pool.py:62-79 | No state that every step's invariant allows is stuck before the end |
| WorkerPool.StepRanks | src/chrono_daemon/recipes/routing/worker_pool.py:62-79 | Every step lowers a rank over item stages |
| WorkerPool.StepItems | src/chrono_daemon/recipes/routing/worker_pool.py:62-79 | Every step keeps, for each item, its number of occurrences over input, dispatcher, queues, workers and results |
| WorkerPool.EveryRunEnds | src/chrono_daemon/recipes/routing/worker_pool.py:81-89 | Every run has at most `10 * items + 5 * workers + 2` steps, and is stuck if and only if every task has finished |
| WorkerPool.EveryRunDelivers | src/chrono_daemon/recipes/routing/worker_pool.py:62-89 | A finished run has put exactly one output per input item into `results`, as a multiset |
| WorkerPool.TakesInOrder | src/chrono_daemon/recipes/routing/worker_pool.py:64 | With any number of workers, items are taken from the input in its order |
| WorkerPool.OneWorkerInOrder | src/chrono_daemon/recipes/routing/worker_pool.py:62-79 | With one worker the outputs are, at any time, those of a prefix of the input in its order, and of all of it at the end |
| WorkerTasks.PoolTasks.constructor | src/chrono_daemon/recipes/routing/worker_pool.py:52-55 | The channels start empty and open, one token slot per worker |
| WorkerTasks.PoolTasks.ResumeDispatcher | src/chrono_daemon/recipes/routing/worker_pool.py:62-68 | A resumption of the dispatcher is one of its moves, or none because it is blocked |
| WorkerTasks.PoolTasks.ResumeCloser | src/chrono_daemon/recipes/routing/worker_pool.py:57-60 | So is one of a task that closes a job channel |
| WorkerTasks.PoolTasks.ResumeWorker | src/chrono_daemon/recipes/routing/worker_pool.py:70-79 | So is one of a worker, and its output tells whether the handler raised |
| WorkerTasks.PoolTasks.RunToEnd | src/chrono_daemon/recipes/routing/worker_pool.py:81-85 | After any schedule, resuming the tasks in turn ends with all of them finished |
| WorkerTasks.RunPool | src/chrono_daemon/recipes/routing/worker_pool.py:27-89 | Bad arguments raise; otherwise, under any schedule, one output per item, each telling whether the handler raised on that item |
| Lifecycle.LivesClear | src/chrono_daemon/supervisor.py:312-327 | Every life of a daemon is accepted by the automaton that owes one clean-up after each `on_start` that returned or was absorbed by its own scope, before any new attempt, back-off or exit |
| Lifecycle.PaidAfterReturn | src/chrono_daemon/supervisor.py:312-327 | In an accepted trace each such return is followed by `on_stop`, with at most the stop signal in between |
| Lifecycle.PaidOnlyAfterReturn | src/chrono_daemon/supervisor.py:325-327 | And each `on_stop` follows such a return directly: none for an attempt whose `on_start` raised, none twice |
| Lifecycle.AttemptsBounded | src/chrono_daemon/supervisor.py:355-360 | At least one and at most `max_retries + 1` attempts, and `restart_count` is one less than the attempts, or equal to them if the last one asked for a restart too |
| Lifecycle.AttemptIff | src/chrono_daemon/supervisor.py:295-363 | Exactly which attempts of a script start: the earlier ones each failed in `on_start` or `run` under "restart" within the budget, with stop not set by then and no back-off cancelled |
| Lifecycle.StartsAfterSignal | src/chrono_daemon/supervisor.py:351-363 | After the stop signal no attempt starts if it came during one; if it came during a back-off, exactly one starts unless that back-off is then cancelled |
| Lifecycle.EndStates | src/chrono_daemon/supervisor.py:324-366 | Which record state goes with which end: "restarting" exactly when the last event is a cancelled back-off, "running" only with a re-raised exception, "failed" with the recorded error, "stopped" otherwise; the started event is always set |
| Lifecycle.UnsettledIff | src/chrono_daemon/supervisor.py:324-376 | On the script and policy, both directions: the record ends "restarting" if and only if a back-off that starts is cancelled, and "running" if and only if an exception escapes the shielded clean-up of an attempt that starts, which is then how the host ends |
| Lifecycle.SettledIff | src/chrono_daemon/supervisor.py:324-376 | The record ends "stopped" or "failed" if and only if neither happens |
| Lifecycle.CancelledBackOff | src/chrono_daemon/supervisor.py:361-362 | A stop that signals and then cancels during a back-off leaves "restarting" under any policy with a retry left |
| Lifecycle.EscapedCleanup | src/chrono_daemon/supervisor.py:325-327 | An interrupt in the shielded clean-up leaves "running" under any policy |
| Outcomes.LastAttemptDecides | src/chrono_daemon/supervisor.py:312-366 | End, state, recorded error and phase, start time and restart count follow from the last attempt that starts, the policy, the attempts before it and whether stop is set by then, for every kind of exception in every phase |
| Outcomes.DaemonErrorIff | src/chrono_daemon/supervisor.py:341-360 | The host raises `DaemonError` if and only if its last attempt fails with an `Exception` that no clean-up replaces, and the policy is "shutdown", or a normal `on_stop` failed and the policy is not "ignore", or a restart was wanted with stop not set and the budget used up |
| Outcomes.ReturnsIff | src/chrono_daemon/supervisor.py:322-354 | It returns, "stopped", if and only if nothing is thrown or an `Exception` gets neither a retry nor a `DaemonError` |
| Outcomes.CallsIff | src/chrono_daemon/supervisor.py:312-327 | Each attempt that starts calls `on_start` once, and `on_stop` once unless its `on_start` raised out of its scope; there is one wait per retried attempt |
| Outcomes.WaitsFollow | src/chrono_daemon/supervisor.py:289-363 | The first wait is `base`, uncapped, and each further one is the one before times `factor`, or `cap` if that is less |
| Lifecycle.WaitsAreDelays | src/chrono_daemon/supervisor.py:361-363 | The k-th retried failure waits the k-th delay |
| Lifecycle.CappedIff | src/chrono_daemon/supervisor.py:39-46 | For a policy without negative numbers, every wait after the first is `min(base * factor^k, cap)`, if and only if `factor >= 1`, `base * factor <= cap`, or `cap` is 0 |
| Lifecycle.ShrinkingDelay | src/chrono_daemon/supervisor.py:363 | For a factor up to 1 the k-th wait is `min(base * factor, cap) * factor^(k-1)` |
| Host.DaemonHost.InScope | src/chrono_daemon/supervisor.py:313-320 | What `on_start` and `run` raise, in which phase; the started event and the start time are set exactly when `on_start` returned |
| Host.DaemonHost.Try | src/chrono_daemon/supervisor.py:312-323 | What the `try` block raises, in which phase, with which calls made and record fields set; a daemon that cancels its own scope falls through to the normal `on_stop` |
| Host.DaemonHost.RunOnStopShielded | src/chrono_daemon/supervisor.py:369-376 | An `Exception` and a used-up budget stay inside, any other exception gets out |
| Host.DaemonHost.Run | src/chrono_daemon/supervisor.py:287-367 | `_host` lives exactly the specified life: its calls in order, its record, its end; its `finally` counts it out once |
| StopProtocol.StepInv | src/chrono_daemon/supervisor.py:134-285 | Every interleaving keeps the active count, the partition of known daemons, and what `_all_done`, waiting stops and barriers rely on |
| StopProtocol.EveryRunCounts | src/chrono_daemon/supervisor.py:280-285 | `_active_count` is the number of launched unfinished hosts; with no launch after the signal, the last exit after it sets `_all_done`, which then means that none is left, and no `stop` waits on when all have ended |
| StopProtocol.StopAtOnce | src/chrono_daemon/supervisor.py:210-228 | In every run, what a `stop` does at once: it signals an entered supervisor; it waits if and only if the group is open, a daemon is active and there is a grace; it asks to cancel if and only if the group is open, a daemon is active, there is no grace and `_all_done` is not set |
| StopProtocol.StopAfterWait | src/chrono_daemon/supervisor.py:227-228 | After its wait it asks to cancel if and only if `_all_done` is not set and the group is still open |
| StopProtocol.SignalIff | src/chrono_daemon/supervisor.py:201-208 | The stop event is set by `signal_stop` or `stop` inside an entered supervisor, and by nothing else |
| StopProtocol.AllDoneIff | src/chrono_daemon/supervisor.py:280-285 | Only the exit of the last active host after the signal sets `_all_done` |
| StopProtocol.LaunchIff | src/chrono_daemon/supervisor.py:134-185 | Hosts are launched by entry, if queued, or by adding a new name inside, and end by their exit only |
| StopProtocol.StopLeavesNoneIff | src/chrono_daemon/supervisor.py:210-228 | With no launch after the signal, a `stop` that returns without asking to cancel leaves no daemon active if and only if `__aexit__` had not begun or none was active; one that asks to cancel has a laggard |
| StopProtocol.StopLeavesSomeIff | src/chrono_daemon/supervisor.py:210-228 | In every run, late launches included: a `stop` returns without asking to cancel while daemons are active, if and only if some are active and `__aexit__` has begun or `_all_done` is set, and the latter in an open group takes a launch after the signal |
| StopProtocol.StopInsideExit | src/chrono_daemon/supervisor.py:146-155 | The failing case is reachable: `stop` inside `__aexit__` leaves the daemon active |
| StopProtocol.LateAddSlipsThrough | src/chrono_daemon/supervisor.py:181-185 | A daemon added after the signal can outlive a `stop` that returns without asking to cancel |
| StopProtocol.BarriersOpen | src/chrono_daemon/supervisor.py:232-244 | What `wait_all_started` still waits for is always a running host; when none is left every barrier is open |
| StopProtocol.BarrierCovers | src/chrono_daemon/supervisor.py:241-244 | Whatever is added later, a barrier waits for exactly the daemons added before the call |
| StopProtocol.ResolvedIff | src/chrono_daemon/supervisor.py:364-367 | A daemon resolves when its `on_start` returned or its host exits, and not otherwise |
| Supervisors.Supervisor.Enter | src/chrono_daemon/supervisor.py:134-144 | Entry launches everything queued, each once, and counts it |
| Supervisors.Supervisor.Add | src/chrono_daemon/supervisor.py:159-185 | A duplicate name is refused without effect; otherwise the daemon is queued or launched and counted |
| Supervisors.Supervisor.StopBegins | src/chrono_daemon/supervisor.py:210-228 | `stop` up to its return or its wait is the protocol's move, of which `StopProtocol.StopAtOnce` speaks |
| Supervisors.Supervisor.StopWakes | src/chrono_daemon/supervisor.py:224-228 | After its wait it asks to cancel exactly if `_all_done` is not set and the group is still there |
| Supervisors.Supervisor.HostExits | src/chrono_daemon/supervisor.py:280-285 | An exit resolves the daemon's event, counts it out, and sets `_all_done` if it was the last after the signal |
| Supervisors.Life | src/chrono_daemon/supervisor.py:85-285 | Any script of calls is a run of the protocol, and keeps its promises |
| Batches.OwedTargets | src/chrono_daemon/recipes/coordination/batcher.py:135-152 | Unless `forward` aborts, the replies go to exactly the batched requests, once each, in their order |
| Batches.OwedAt | src/chrono_daemon/recipes/coordination/batcher.py:135-152 | The k-th call of `forward` gets the k-th batch's requests in order; the j-th of them gets the j-th response, or, on failure, the exception, or, on a wrong count, the mismatch that its whole batch gets |
| Batches.DeliveredAll | src/chrono_daemon/recipes/coordination/batcher.py:145-152 | The replies that get out are those before the first closed reply channel, and all of them if and only if there is none |
| Batches.CutHead | src/chrono_daemon/recipes/coordination/batcher.py:65-71 | The next batch of the cut is the longest run of requests at hand, up to `max_batch` |
| Batcher.BatcherLoop.Drain | src/chrono_daemon/recipes/coordination/batcher.py:65-71 | Phase 1 takes everything at hand up to the size, and nothing else |
| Batcher.BatcherLoop.Await | src/chrono_daemon/recipes/coordination/batcher.py:73-88 | Phase 2 adds exactly as many of the requests at hand, in order, as there is room for and as readings lie strictly within `max_queue_delay` of the first; a reading at or past that ends it, and the timer of each receive is the rest of the window |
| Batcher.BatcherLoop.Gather | src/chrono_daemon/recipes/coordination/batcher.py:59-88 | A batch is what is at hand, up to the size, and then what its window adds; it is short only if the channel closed, a timer fired or the window is over |
| Batcher.BatcherLoop.DispatchBatch | src/chrono_daemon/recipes/coordination/batcher.py:135-152 | The replies owed are sent in order up to the first that cannot be, and none if `forward` aborts |
| Batcher.BatcherLoop.Run | src/chrono_daemon/recipes/coordination/batcher.py:39-91 | Batches concatenated are the received requests in order, each of 1 to `max_batch`; without a delay they are the bursts cut into full batches and a rest; with one, every request that a batch adds after its first reading follows a reading strictly within the delay; the loop ends normally, with exactly one reply per request, if and only if `forward` never aborts and no reply channel was closed |

## Left out

- Floating-point rounding, NaN, and with them the drift that `SimClock.every` avoids; `advance_to(inf)`, since targets are reals (deadlines may be infinite).
- Burst.BurstInvariance: clients act only in reaction to wakes, inside the wake's settle, and without a settle hook; so do those of `Refinement`, `Termination`, `Resumption` and `Every`. ADR 0002 and ADR 0012 make that the round budget's job.
- Resumption.RetryResumes: excludes callbacks that are overdue in the instant they join; `Retries.ResumesIff` covers those that have joined by the time of the failure, for clients that are silent afterwards.
- `every` with `period <= 0` raises; the tickers are constructed past that check.
- SimClocks.SimClock.AdvanceTo: the other tasks' actions are a finite list, so a settle always ends; without it an advance need not end, which is why `Termination` has a condition. `settle_rounds` only separates checkpoints and is not counted.
- The class keeps the waiters it handed out in `issued`, standing for the handles tasks hold; in the value model a cancelled flag is a set of numbers.
- `advance`, `sleep` and the initial checkpoints of `sleep` and `wait_until`; `_drop_cancelled_tops`, which nothing calls; `WallClock` other than `every`.
- `worker_pool`: `results` is always drained, as the source asks of its callers; a `BaseException` from a handler, and cancellation, tear the pool down and are not modelled; closing `ready` and `results` at the end is not shown.
- Host.DaemonHost.Run: the shielded clean-up's time budget is an outcome of the script, not a duration, so `finalize_timeout` has no field; after its finite script the daemon is cancelled, so the loop always ends; the other tasks between its awaits are the stop signals of the script, and their effect on `_active_count` is in `StopProtocol`.
- The `TypeError`s of `add`, `spawn`, `snapshot` and uptime, `Context`, logging, and who receives the exceptions of the task group.
- StopProtocol.StopLeavesNoneIff: a grace is waited out or not, whatever its length; does not model the cancellation that the request starts, nor entering a supervisor twice.
- Batcher.BatcherLoop.RecvOrTimeout: the race is one result, the request, the timeout or the end, that loses nothing; the cancellation of the losing side is inside the event loop. Requests come from one script whose lulls stand for moments without a request.
- `submit` and the clients of the batcher; `transports/zmq.py`, `SupervisorHost`, `sync_bridge`, `select`, `Latest`, `tee`, `merge`, `load_balance`, the lossy wrappers and `cooperative_every`: plumbing, or easy members.
