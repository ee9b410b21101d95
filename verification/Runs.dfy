/** Whole runs of a `SimClock`: clients act whenever a driver is not inside `_pop_due`, and advances
    succeed, fail or are refused. Every interleaving is a sequence of moves. */
module Runs {
  import opened Times
  import opened ClockModel

  datatype Move =
    | Sleep(deadline: Time, priority: int)       // a task registers in wait_until
    | Callback(deadline: Time, priority: int)    // call_at
    | DropCallback(seqno: nat)                   // the cancel function of a call_at
    | DropSleep(seqno: nat)                      // a task is cancelled inside wait_until
    | AdvanceTo(params: Params)                  // some task calls advance_to
    | HostWork(pending: nat)                     // host-tracked work starts or ends
    | RoundDone(more: bool)                      // the rounds ran and settle() returned `more`
    | Raise                                      // a callback or settle() raises, or the driver is cancelled
    | Tick                                       // the driver's own next action

  datatype Outcome = Fresh | Completed | Failed

  datatype Point = Start | Wake | End

  /** Where the driver is: outside an advance, in a settle, or about to pop or to peek. */
  datatype Pc = Resting(last: Outcome) | Settling(point: Point, rounds: nat) | Popping | Peeking

  /** `start` is the length of the trace when the advance began. */
  datatype Config = Config(c: Clock, pc: Pc, p: Params, work: nat, start: nat)

  ghost function Client(c: Clock, m: Move): Clock {
    match m
    case Sleep(d, priority) => WaitUntil(c, d, priority)
    case Callback(d, priority) => CallAt(c, d, priority)
    case DropCallback(n) => CancelCall(c, n)
    case DropSleep(n) => CancelSleep(c, n)
    case _ => c
  }

  /** The guards of `advance_to`: bad arguments and a second driver raise, a past target does nothing. */
  predicate Refused(c: Clock, p: Params) {
    p.maxSettles < 1 || !p.tol.Valid() || c.advancing || p.t < c.now
  }

  function Enter(s: Config, p: Params): Config {
    if Refused(s.c, p) then s
    else Config(Begin(s.c), if p.hooked then Settling(Start, 0) else Popping, p, s.work, |s.c.trace|)
  }

  function Fail(s: Config): Config {
    s.(c := Restore(s.c), pc := Resting(Failed))
  }

  function AfterSettle(point: Point): Pc {
    if point == End then Peeking else Popping
  }

  /** One round of `_settle`. */
  function EndRound(s: Config, more: bool): Config
    requires s.pc.Settling?
  {
    if !(s.p.hooked && more) then s.(pc := AfterSettle(s.pc.point))
    else if s.p.maxSettles <= s.pc.rounds + 1 then Fail(s)
    else s.(pc := Settling(s.pc.point, s.pc.rounds + 1))
  }

  /** A move that the driver's position does not allow leaves the configuration as it is. */
  ghost function Step(s: Config, m: Move): Config {
    match s.pc
    case Resting(_) =>
      (match m
       case AdvanceTo(p) => Enter(s, p)
       case HostWork(n) => s.(work := n)
       case _ => s.(c := Client(s.c, m)))
    case Settling(_, _) =>
      (match m
       case AdvanceTo(p) => if Refused(s.c, p) then s else Enter(s, p)
       case HostWork(n) => s.(work := n)
       case RoundDone(more) => EndRound(s, more)
       case Raise => Fail(s)
       case _ => s.(c := Client(s.c, m)))
    case Popping =>
      if !m.Tick? then s
      else
        var f := Find(s.c, s.p);
        if f.instant == {} then s.(c := f, pc := Settling(End, 0)) else s.(c := Pop(f), pc := Settling(Wake, 0))
    case Peeking =>
      if !m.Tick? then s
      else
        var f := Find(s.c, s.p);
        if f.instant == {} then s.(c := Finish(f, s.p), pc := Resting(Completed)) else s.(c := f, pc := Popping)
  }

  ghost function Run(s: Config, moves: seq<Move>): Config
    decreases |moves|
  {
    if moves == [] then s else Run(Step(s, moves[0]), moves[1..])
  }

  /** A new clock; the parameters mean nothing before the first advance. */
  function Initial(t0: real, work: nat): Config {
    Config(NewClock(t0), Resting(Fresh), Params(t0, ZERO_TOLERANCE, false, 1), work, 0)
  }

  lemma {:induction false} RunAppend(s: Config, a: seq<Move>, b: seq<Move>)
    ensures Run(s, a + b) == Run(Run(s, a), b)
    decreases |a|
  {
    if a == [] {
      assert a + b == b;
    } else {
      assert (a + b)[0] == a[0] && (a + b)[1..] == a[1..] + b;
      RunAppend(Step(s, a[0]), a[1..], b);
    }
  }

  lemma RunSnoc(s: Config, a: seq<Move>, m: Move)
    ensures Run(s, a + [m]) == Step(Run(s, a), m)
  {
    RunAppend(s, a, [m]);
    assert [m][1..] == [];
    assert Run(Step(Run(s, a), m), []) == Step(Run(s, a), m);
  }
}
