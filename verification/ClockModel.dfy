/** The state of a `SimClock` as a value, its operations, and one advance's pop of the next due
    entry, stated declaratively: what is taken out of which container, not how a loop gets there. */
module ClockModel {
  import opened Times
  import opened Entries

  /** One wake: the entry, the `now()` it saw, its instant, and the first number not yet handed out. */
  datatype Serve = Serve(entry: Entry, at: real, instant: nat, next: nat)

  /** `known` and `trace` are history; the cancelled flags are kept as a set of sequence numbers. */
  datatype Clock = Clock(
    now: real,
    heap: set<Entry>,
    nextSeq: nat,
    advancing: bool,
    deferred: set<Entry>,
    anchor: Option<Time>,
    end: Time,
    instantSeq: nat,
    instant: set<Entry>,
    cancelled: set<nat>,
    known: set<Entry>,
    trace: seq<Serve>)

  function NewClock(t0: real): Clock {
    Clock(t0, {}, 0, false, {}, None, NegInf, 0, {}, {}, {}, [])
  }

  /** The arguments of `advance_to`; `hooked` says that a settle hook was passed. */
  datatype Params = Params(t: real, tol: Tolerance, hooked: bool, maxSettles: int)

  // ----- classification of entries -----

  predicate Live(c: Clock, x: Entry) {
    x.seqno !in c.cancelled
  }

  predicate Due(p: Params, x: Entry) {
    Le(x.deadline, At(p.t)) || Near(x.deadline, p.t, p.tol)
  }

  /** A re-sleep registered when time had reached the target gets no tolerance. */
  predicate Blocked(p: Params, x: Entry) {
    Near(x.deadline, p.t, p.tol) && Lt(At(p.t), x.deadline) && p.t <= x.registeredAt
  }

  predicate Eligible(c: Clock, p: Params, x: Entry) {
    Live(c, x) && !Blocked(p, x)
  }

  predicate Ready(c: Clock, p: Params, x: Entry) {
    Eligible(c, p, x) && Due(p, x)
  }

  function LiveOf(c: Clock, s: set<Entry>): set<Entry> {
    set x | x in s && Live(c, x)
  }

  // ----- operations of clients -----

  function Fresh(c: Clock, d: Time, priority: int, isCall: bool): Entry {
    Entry(d, priority, c.nextSeq, c.now, isCall)
  }

  /** The tail of `wait_until`, after its checkpoint. */
  function WaitUntil(c: Clock, d: Time, priority: int): Clock {
    if Le(d, At(c.now)) then c
    else
      var w := Fresh(c, d, priority, false);
      c.(heap := c.heap + {w}, nextSeq := c.nextSeq + 1, known := c.known + {w})
  }

  function CallAt(c: Clock, d: Time, priority: int): Clock {
    var w := Fresh(c, d, priority, true);
    var c1 := c.(nextSeq := c.nextSeq + 1, known := c.known + {w});
    if c.anchor.Some? && Le(d, At(c.now)) then c1.(instant := c.instant + {w}) else c1.(heap := c.heap + {w})
  }

  /** The cancel function `call_at` returns. */
  function CancelCall(c: Clock, n: nat): Clock {
    if exists x :: x in c.known && x.seqno == n && x.isCall then c.(cancelled := c.cancelled + {n}) else c
  }

  ghost predicate Served(c: Clock, x: Entry) {
    exists i :: 0 <= i < |c.trace| && c.trace[i].entry == x
  }

  /** Cancelled tops of the heap. */
  ghost function DeadTops(c: Clock, o: Order, s: set<Entry>): set<Entry> {
    set x | x in s && !Live(c, x) && forall y :: y in s && Live(c, y) ==> Less(o, x, y)
  }

  /** The `finally` of a cancelled `wait_until`: nothing once woken, else flag it and prune the heap's top. */
  ghost function CancelSleep(c: Clock, n: nat): Clock {
    if exists x :: x in c.known && x.seqno == n && !x.isCall && !Served(c, x) then
      var c1 := c.(cancelled := c.cancelled + {n});
      c1.(heap := c1.heap - DeadTops(c1, ByDeadline, c1.heap))
    else c
  }

  // ----- the driver -----

  /** Cancelled and blocked entries ahead of every eligible entry outside `keep`. */
  ghost function Junk(c: Clock, p: Params, keep: set<Entry>): set<Entry> {
    set x | x in c.heap && !Eligible(c, p, x) &&
            forall y :: y in c.heap && Eligible(c, p, y) && y !in keep ==> Less(ByDeadline, x, y)
  }

  /** `_heap_due`, its effect: junk leaves the heap, its live part is set aside. */
  ghost function Skim(c: Clock, p: Params): Clock {
    var junk := Junk(c, p, {});
    c.(heap := c.heap - junk, deferred := c.deferred + LiveOf(c, junk))
  }

  /** `_heap_due`, its result. */
  ghost function Top(c: Clock, p: Params): Option<Entry> {
    var h := Skim(c, p).heap;
    if h == {} then None
    else
      var w := Least(ByDeadline, h);
      if Due(p, w) then Some(w) else None
  }

  /** The longest run of eligible entries, in heap order, that are all due and close to `a`. */
  ghost function Reach(c: Clock, p: Params, a: Time): set<Entry> {
    set x | x in c.heap && Eligible(c, p, x) &&
            forall y :: y in c.heap && Eligible(c, p, y) && !Less(ByDeadline, x, y) ==>
              Due(p, y) && IsClose(y.deadline, a, p.tol)
  }

  /** Entries of the run that were registered before the instant opened. */
  ghost function Joining(c: Clock, p: Params, a: Time): set<Entry> {
    set x | x in Reach(c, p, a) && x.seqno < c.instantSeq
  }

  /** One pass of `_pop_due` with an open instant: gather its members, drop cancelled tops. */
  ghost function Collect(c: Clock, p: Params, a: Time): Clock {
    var junk := Junk(c, p, Reach(c, p, a));
    var joining := Joining(c, p, a);
    var members := c.instant + joining;
    c.(heap := c.heap - junk - joining,
       deferred := c.deferred + LiveOf(c, junk),
       end := MaxTime(c.end, Latest(joining)),
       instant := members - DeadTops(c, ByPriority, members))
  }

  function Open(c: Clock, a: Time): Clock {
    c.(anchor := Some(a), end := NegInf, instantSeq := c.nextSeq, nextSeq := c.nextSeq + 1)
  }

  function MinReal(t: real, e: Time): real
    requires !e.NegInf?
  {
    if e.At? && e.r < t then e.r else t
  }

  /** `max(now, min(t, end))`. */
  function Arrival(p: Params, now: real, end: Time): real {
    if end.NegInf? then now else Max(now, MinReal(p.t, end))
  }

  ghost function Arrive(c: Clock, p: Params): Clock {
    c.(now := Arrival(p, c.now, c.end))
  }

  /** Open the next instant, if any entry is due. */
  ghost function Reopen(c: Clock, p: Params): Clock {
    match Top(c, p)
    case None => Skim(c, p).(anchor := None)
    case Some(w) => Arrive(Collect(Open(Skim(c, p), w.deadline), p, w.deadline), p)
  }

  /** The clock after `_pop_due(peek=True)`: `instant` is empty exactly when it found nothing. */
  ghost function Find(c: Clock, p: Params): Clock {
    match c.anchor
    case None => Reopen(c, p)
    case Some(a) =>
      var c1 := Collect(c, p, a);
      if c1.instant != {} then Arrive(c1, p) else Reopen(c1, p)
  }

  /** The removal of the found entry, and its wake. */
  ghost function Pop(f: Clock): Clock
    requires f.instant != {}
  {
    var w := Least(ByPriority, f.instant);
    f.(instant := f.instant - {w}, trace := f.trace + [Serve(w, f.now, f.instantSeq, f.nextSeq)])
  }

  function Begin(c: Clock): Clock {
    c.(advancing := true)
  }

  /** The `finally` of `advance_to`: everything left returns to the heap. */
  function Restore(c: Clock): Clock {
    c.(advancing := false, heap := c.heap + c.deferred + c.instant, deferred := {}, instant := {}, anchor := None)
  }

  function Finish(c: Clock, p: Params): Clock {
    Restore(c).(now := p.t)
  }
}
