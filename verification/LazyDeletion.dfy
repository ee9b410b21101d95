/** Cancelled entries left in the containers are invisible: every run from a state is the run from the
    same state with all of them removed. */
module LazyDeletion {
  import opened Times
  import opened Entries
  import opened ClockModel
  import opened ClockLoops
  import opened Runs
  import C = Conservation

  function Purge(c: Clock): Clock {
    c.(heap := LiveOf(c, c.heap), instant := LiveOf(c, c.instant), deferred := LiveOf(c, c.deferred))
  }

  lemma SkimPurge(c: Clock, p: Params)
    ensures Purge(Skim(c, p)) == Skim(Purge(c), p)
  {
    var q := Purge(c);
    assert LiveOf(q, Junk(q, p, {})) == LiveOf(c, Junk(c, p, {}));
    assert q.heap - Junk(q, p, {}) == LiveOf(c, c.heap - Junk(c, p, {}));
    assert LiveOf(c, c.deferred + LiveOf(c, Junk(c, p, {}))) == q.deferred + LiveOf(q, Junk(q, p, {}));
  }

  lemma TopPurge(c: Clock, p: Params)
    requires Distinct(c.heap)
    ensures Top(Purge(c), p) == Top(c, p)
  {
    SkimPurge(c, p);
    var h, k := Skim(c, p).heap, Skim(Purge(c), p).heap;
    if h != {} {
      SkimLeast(c, p);
      var w := Least(ByDeadline, h);
      assert w in k;
      LeastUnique(ByDeadline, k, w);
    }
  }

  lemma ReachPurge(c: Clock, p: Params, a: Time)
    ensures Reach(Purge(c), p, a) == Reach(c, p, a) && Joining(Purge(c), p, a) == Joining(c, p, a)
    ensures forall x :: x in Joining(c, p, a) ==> x in c.heap && Live(c, x)
  {
    assert Reach(Purge(c), p, a) == Reach(c, p, a);
  }

  lemma JunkPurge(c: Clock, p: Params, r: set<Entry>, joining: set<Entry>)
    ensures var q := Purge(c);
      && LiveOf(q, Junk(q, p, r)) == LiveOf(c, Junk(c, p, r))
      && q.heap - Junk(q, p, r) - joining == LiveOf(c, c.heap - Junk(c, p, r) - joining)
  {}

  lemma CollectPurge(c: Clock, p: Params, a: Time)
    ensures Purge(Collect(c, p, a)) == Collect(Purge(c), p, a)
  {
    ReachPurge(c, p, a);
    var q, r, joining := Purge(c), Reach(c, p, a), Joining(c, p, a);
    JunkPurge(c, p, r, joining);
    hide Reach, Joining, Junk;
    var junk := Junk(c, p, r);
    assert LiveOf(c, c.deferred + LiveOf(c, junk)) == q.deferred + LiveOf(c, junk);
    var members := c.instant + joining;
    assert q.instant + joining == LiveOf(c, members);
    assert DeadTops(q, ByPriority, q.instant + joining) == {};
    assert LiveOf(c, members - DeadTops(c, ByPriority, members)) == LiveOf(c, members);
  }

  lemma FieldsPurge(c: Clock, p: Params, a: Time)
    ensures Purge(Open(c, a)) == Open(Purge(c), a)
    ensures Purge(Arrive(c, p)) == Arrive(Purge(c), p)
    ensures Purge(c.(anchor := None)) == Purge(c).(anchor := None)
  {}

  lemma ReopenPurge(c: Clock, p: Params)
    requires Distinct(c.heap)
    ensures Purge(Reopen(c, p)) == Reopen(Purge(c), p)
  {
    TopPurge(c, p);
    SkimPurge(c, p);
    var s := Skim(c, p);
    hide Skim, Collect, Purge, Open, Arrive, Top;
    match Top(c, p)
    case None => FieldsPurge(s, p, NegInf);
    case Some(w) =>
      var o := Open(s, w.deadline);
      FieldsPurge(s, p, w.deadline);
      CollectPurge(o, p, w.deadline);
      FieldsPurge(Collect(o, p, w.deadline), p, w.deadline);
  }

  /** The pop finds the same entry at the same time. */
  lemma FindPurge(c: Clock, p: Params)
    requires C.Conserved(c)
    ensures Purge(Find(c, p)) == Find(Purge(c), p)
    ensures var f, g := Find(c, p), Find(Purge(c), p);
      (f.instant == {} <==> g.instant == {}) &&
      (f.instant != {} ==> Least(ByPriority, f.instant) == Least(ByPriority, g.instant) && Purge(Pop(f)) == Pop(g))
  {
    match c.anchor {
      case None => ReopenPurge(c, p);
      case Some(a) =>
        var d := Collect(c, p, a);
        CollectPurge(c, p, a);
        C.CollectLive(c, p, a);
        C.CollectConserved(c, p, a);
        ReopenPurge(d, p);
    }
    C.FindConserved(c, p);
    FoundPurge(Find(c, p));
  }

  lemma FoundPurge(f: Clock)
    requires C.Conserved(f) && (f.instant != {} ==> Live(f, Least(ByPriority, f.instant)))
    ensures var g := Purge(f);
      (f.instant == {} <==> g.instant == {}) &&
      (f.instant != {} ==> Least(ByPriority, f.instant) == Least(ByPriority, g.instant) && Purge(Pop(f)) == Pop(g))
  {
    if f.instant != {} {
      var w, g := Least(ByPriority, f.instant), Purge(f);
      assert w in g.instant;
      LeastUnique(ByPriority, g.instant, w);
      assert LiveOf(f, f.instant - {w}) == g.instant - {w};
    }
  }

  lemma DropSleepPurge(c: Clock, n: nat)
    ensures Purge(CancelSleep(c, n)) == Purge(CancelSleep(Purge(c), n))
  {
    var d, e := CancelSleep(c, n), CancelSleep(Purge(c), n);
    assert d.cancelled == e.cancelled;
    assert LiveOf(d, d.heap) == LiveOf(e, e.heap);
    assert LiveOf(d, d.instant) == LiveOf(e, e.instant);
    assert LiveOf(d, d.deferred) == LiveOf(e, e.deferred);
  }

  lemma DropCallPurge(c: Clock, n: nat)
    ensures Purge(CancelCall(c, n)) == Purge(CancelCall(Purge(c), n))
  {
    var d, e := CancelCall(c, n), CancelCall(Purge(c), n);
    assert d.cancelled == e.cancelled;
    assert LiveOf(d, d.heap) == LiveOf(e, e.heap);
    assert LiveOf(d, d.instant) == LiveOf(e, e.instant);
    assert LiveOf(d, d.deferred) == LiveOf(e, e.deferred);
  }

  lemma SleepPurge(c: Clock, t: Time, priority: int)
    ensures Purge(WaitUntil(c, t, priority)) == Purge(WaitUntil(Purge(c), t, priority))
  {
    var d, e := WaitUntil(c, t, priority), WaitUntil(Purge(c), t, priority);
    assert d.cancelled == e.cancelled;
    assert LiveOf(d, d.heap) == LiveOf(e, e.heap);
    assert LiveOf(d, d.instant) == LiveOf(e, e.instant);
    assert LiveOf(d, d.deferred) == LiveOf(e, e.deferred);
  }

  lemma CallPurge(c: Clock, t: Time, priority: int)
    ensures Purge(CallAt(c, t, priority)) == Purge(CallAt(Purge(c), t, priority))
  {
    var d, e := CallAt(c, t, priority), CallAt(Purge(c), t, priority);
    assert d.cancelled == e.cancelled;
    assert LiveOf(d, d.heap) == LiveOf(e, e.heap);
    assert LiveOf(d, d.instant) == LiveOf(e, e.instant);
    assert LiveOf(d, d.deferred) == LiveOf(e, e.deferred);
  }

  lemma ClientPurge(c: Clock, m: Move)
    ensures Purge(Client(c, m)) == Purge(Client(Purge(c), m))
  {
    hide Purge, WaitUntil, CallAt, CancelCall, CancelSleep;
    match m
    case Sleep(d, priority) => SleepPurge(c, d, priority);
    case Callback(d, priority) => CallPurge(c, d, priority);
    case DropCallback(n) => DropCallPurge(c, n);
    case DropSleep(n) => DropSleepPurge(c, n);
    case _ => PurgeTwice(c);
  }

  lemma RestorePurge(c: Clock)
    ensures Purge(Restore(c)) == Restore(Purge(c))
  {
    assert LiveOf(c, c.heap + c.deferred + c.instant) == Restore(Purge(c)).heap;
    assert LiveOf(c, {}) == {};
  }

  function Purged(s: Config): Config {
    s.(c := Purge(s.c))
  }

  lemma PurgeTwice(c: Clock)
    ensures Purge(Purge(c)) == Purge(c)
  {}

  lemma PurgeInv(s: Config)
    requires C.Inv(s)
    ensures C.Inv(Purged(s))
  {
    assert C.ServedSet(Purge(s.c)) == C.ServedSet(s.c);
  }

  lemma StepPurge(s: Config, m: Move)
    requires C.Inv(s)
    ensures Purged(Step(s, m)) == Purged(Step(Purged(s), m))
  {
    hide Find;
    var c := s.c;
    ClientPurge(c, m);
    RestorePurge(c);
    RestorePurge(Purge(c));
    PurgeTwice(c);
    if s.pc.Popping? || s.pc.Peeking? {
      FindPurge(c, s.p);
      var f, g := Find(c, s.p), Find(Purge(c), s.p);
      RestorePurge(f);
      RestorePurge(g);
      PurgeTwice(f);
      if f.instant != {} { PurgeTwice(Pop(f)); }
    }
  }

  /** Any run, from any state and from the state with the cancelled entries removed: the same wakes at the
      same times, the same failures and completions. */
  lemma {:induction false} LazyDeletionInvisible(s: Config, moves: seq<Move>)
    requires C.Inv(s)
    ensures var a, b := Run(s, moves), Run(Purged(s), moves);
      a.c.trace == b.c.trace && a.c.now == b.c.now && a.pc == b.pc && Purged(a) == Purged(b)
    decreases |moves|
  {
    hide C.Inv, Step, Purge;
    if moves == [] {
      PurgedSame(s);
    } else {
      var s1, t1 := Step(s, moves[0]), Step(Purged(s), moves[0]);
      StepPurge(s, moves[0]);
      PurgeInv(s);
      C.StepInv(s, moves[0]);
      C.StepInv(Purged(s), moves[0]);
      LazyDeletionInvisible(s1, moves[1..]);
      LazyDeletionInvisible(t1, moves[1..]);
    }
  }

  lemma PurgedSame(s: Config)
    ensures Purge(s.c).trace == s.c.trace && Purge(s.c).now == s.c.now && Purged(Purged(s)) == Purged(s)
  {
    PurgeTwice(s.c);
  }

  // ----- a peek and the pop after it -----

  lemma ReachAgain(c: Clock, d: Clock, p: Params, a: Time)
    requires d.cancelled == c.cancelled && d.heap == c.heap - Junk(c, p, Reach(c, p, a)) - Joining(c, p, a)
    ensures Reach(d, p, a) == Reach(c, p, a) - Joining(c, p, a)
  {}

  lemma JunkAgain(c: Clock, d: Clock, p: Params, a: Time)
    requires d.cancelled == c.cancelled && d.heap == c.heap - Junk(c, p, Reach(c, p, a)) - Joining(c, p, a)
    ensures Junk(d, p, Reach(d, p, a)) == {}
  {
    ReachAgain(c, d, p, a);
  }

  /** A second pass over the same instant takes and drops nothing. */
  lemma CollectAgain(c: Clock, f: Clock, p: Params, a: Time)
    requires f.heap == Collect(c, p, a).heap && f.instant == Collect(c, p, a).instant && f.end == Collect(c, p, a).end
    requires f.cancelled == c.cancelled && f.instantSeq == c.instantSeq
    requires Distinct(f.instant) && f.instant != {} && Live(f, Least(ByPriority, f.instant))
    ensures Collect(f, p, a) == f
  {
    ReachAgain(c, f, p, a);
    JunkAgain(c, f, p, a);
    hide Reach, Junk;
    assert Joining(f, p, a) == {};
    assert f.heap - {} - {} == f.heap && f.deferred + LiveOf(f, {}) == f.deferred && f.instant + {} == f.instant;
    assert DeadTops(f, ByPriority, f.instant) == {};
    assert f.instant - {} == f.instant;
  }

  lemma ArriveAgain(d: Clock, p: Params)
    ensures Arrive(Arrive(d, p), p) == Arrive(d, p)
  {}

  /** A peek is repeatable: the next pop finds the same entry at the same time, and the same clock. */
  lemma PeekThenPop(c: Clock, p: Params)
    requires C.Conserved(c) && Find(c, p).instant != {}
    ensures Find(Find(c, p), p) == Find(c, p)
  {
    var f := Find(c, p);
    C.FindConserved(c, p);
    FoundBy(c, p);
    var d, a := FindFrom(c, p), f.anchor.value;
    CollectAgain(d, f, p, a);
    ArriveAgain(Collect(d, p, a), p);
  }

  /** The state whose last pass found the entry. */
  ghost function FindFrom(c: Clock, p: Params): Clock {
    if c.anchor.Some? && Collect(c, p, c.anchor.value).instant != {} then c
    else
      var d := if c.anchor.Some? then Collect(c, p, c.anchor.value) else c;
      if Top(d, p).Some? then Open(Skim(d, p), Top(d, p).value.deadline) else d
  }

  lemma FoundBy(c: Clock, p: Params)
    requires C.Conserved(c) && Find(c, p).instant != {}
    ensures var f, d := Find(c, p), FindFrom(c, p); d.anchor.Some? && f == Arrive(Collect(d, p, d.anchor.value), p)
  {
    hide Collect, Skim, Top;
    SkimInstant(if c.anchor.Some? then Collect(c, p, c.anchor.value) else c, p);
  }

  lemma SkimInstant(c: Clock, p: Params)
    ensures Skim(c, p).instant == c.instant
  {}
}
