/** A failed advance loses no order: with zero tolerance, the retry wakes exactly what the advance would have
    gone on to wake, in the same order and at the same times. Opening the instant anew takes one sequence
    number, so later registrations carry a number one higher; `Moved` is that renaming. */
module Resumption {
  import opened Times
  import opened Entries
  import opened ClockModel
  import opened Instants
  import opened Runs
  import opened Drives
  import opened Burst
  import opened ZeroTolerance
  import opened Refinement
  import C = Conservation

  function Renumber(n: nat, k: nat, s: nat): nat {
    if n < k then n else n + s
  }

  function Moved(x: Entry, k: nat, s: nat): Entry {
    x.(seqno := Renumber(x.seqno, k, s))
  }

  function MovedSet(xs: set<Entry>, k: nat, s: nat): set<Entry> {
    set x | x in xs :: Moved(x, k, s)
  }

  /** The same client action, on renumbered handles. */
  function MovedMove(m: Move, k: nat, s: nat): Move {
    match m
    case DropCallback(n) => DropCallback(Renumber(n, k, s))
    case DropSleep(n) => DropSleep(Renumber(n, k, s))
    case _ => m
  }

  function MovedMoves(ms: seq<Move>, k: nat, s: nat): seq<Move> {
    seq(|ms|, i requires 0 <= i < |ms| => MovedMove(ms[i], k, s))
  }

  function MovedActs(acts: seq<seq<Move>>, k: nat, s: nat): seq<seq<Move>> {
    seq(|acts|, i requires 0 <= i < |acts| => MovedMoves(acts[i], k, s))
  }

  function MovedStamps(w: seq<Stamp>, k: nat, s: nat): seq<Stamp> {
    seq(|w|, i requires 0 <= i < |w| => Stamp(Moved(w[i].entry, k, s), w[i].at))
  }

  lemma LeastMoved(xs: set<Entry>, k: nat, s: nat)
    requires Distinct(xs) && xs != {}
    ensures MovedSet(xs, k, s) != {} && Least(ByDeadline, MovedSet(xs, k, s)) == Moved(Least(ByDeadline, xs), k, s)
  {
    var w, ys := Least(ByDeadline, xs), MovedSet(xs, k, s);
    assert Moved(w, k, s) in ys;
    forall y | y in ys ensures !Less(ByDeadline, y, Moved(w, k, s)) {
      var x :| x in xs && y == Moved(x, k, s);
      assert !Less(ByDeadline, x, w);
    }
    DistinctMoved(xs, k, s);
    LeastUnique(ByDeadline, ys, Moved(w, k, s));
  }

  lemma DistinctMoved(xs: set<Entry>, k: nat, s: nat)
    requires Distinct(xs)
    ensures Distinct(MovedSet(xs, k, s))
  {}

  lemma MovedWithout(xs: set<Entry>, w: Entry, k: nat, s: nat)
    requires Distinct(xs) && w in xs
    ensures MovedSet(xs - {w}, k, s) == MovedSet(xs, k, s) - {Moved(w, k, s)}
  {
    forall y | y in MovedSet(xs, k, s) - {Moved(w, k, s)} ensures y in MovedSet(xs - {w}, k, s) {
      var x :| x in xs && y == Moved(x, k, s);
      assert x in xs - {w};
    }
  }

  lemma MovedWith(xs: set<Entry>, w: Entry, k: nat, s: nat)
    ensures MovedSet(xs + {w}, k, s) == MovedSet(xs, k, s) + {Moved(w, k, s)}
  {
    forall y | y in MovedSet(xs, k, s) + {Moved(w, k, s)} ensures y in MovedSet(xs + {w}, k, s) {
      var x :| x in xs + {w} && y == Moved(x, k, s);
    }
  }

  /** Two clocks in the same position up to renumbering. */
  ghost predicate Twin(c: Clock, d: Clock, k: nat, s: nat) {
    && k <= c.nextSeq && d.nextSeq == c.nextSeq + s
    && d.now == c.now && d.anchor == c.anchor
    && d.known == MovedSet(c.known, k, s)
    && C.ServedSet(d) == MovedSet(C.ServedSet(c), k, s)
    && Queue(d) == MovedSet(Queue(c), k, s)
    && d.cancelled == set n | n in c.cancelled :: Renumber(n, k, s)
  }

  /** Callbacks are registered for later, or for the open instant's own deadline. */
  predicate NotOverdue(c: Clock, m: Move) {
    m.Callback? ==> Lt(At(c.now), m.deadline) || c.anchor == Some(m.deadline)
  }

  predicate NoPast(c: Clock, ms: seq<Move>) {
    forall m :: m in ms ==> NotOverdue(c, m)
  }

  lemma RegisterQueue(c: Clock, m: Move)
    requires Sound(c) && ((m.Sleep? && Lt(At(c.now), m.deadline)) || m.Callback?)
    ensures var w := ClockModel.Fresh(c, m.deadline, m.priority, m.Callback?); var c1 := Client(c, m);
      && Queue(c1) == Queue(c) + {w} && c1.known == c.known + {w} && C.ServedSet(c1) == C.ServedSet(c)
      && c1.cancelled == c.cancelled && c1.nextSeq == c.nextSeq + 1 && c1.now == c.now && c1.anchor == c.anchor
  {
    var w := ClockModel.Fresh(c, m.deadline, m.priority, m.Callback?);
    assert LiveOf(c, c.heap + {w}) == LiveOf(c, c.heap) + {w} && LiveOf(c, c.instant + {w}) == LiveOf(c, c.instant) + {w};
  }

  lemma RegisterTwin(c: Clock, d: Clock, m: Move, k: nat, s: nat)
    requires Sound(c) && Sound(d) && Twin(c, d, k, s)
    requires (m.Sleep? && Lt(At(c.now), m.deadline)) || m.Callback?
    ensures Twin(Client(c, m), Client(d, m), k, s)
  {
    var w := ClockModel.Fresh(c, m.deadline, m.priority, m.Callback?);
    assert Moved(w, k, s) == ClockModel.Fresh(d, m.deadline, m.priority, m.Callback?);
    RegisterQueue(c, m);
    RegisterQueue(d, m);
    MovedWith(Queue(c), w, k, s);
    MovedWith(c.known, w, k, s);
    hide MovedSet, Queue, Client, Sound, ClockModel.Fresh, Moved;
  }

  /** A cancellation removes one number from the queue, or does nothing. */
  ghost predicate Dropped(c: Clock, c1: Clock, n: nat) {
    && (c1.cancelled == c.cancelled || c1.cancelled == c.cancelled + {n})
    && c1.nextSeq == c.nextSeq && c1.now == c.now && c1.anchor == c.anchor && c1.known == c.known
    && C.ServedSet(c1) == C.ServedSet(c)
    && Queue(c1) == set x | x in Queue(c) && x.seqno !in c1.cancelled
  }

  lemma DropDrops(c: Clock, m: Move)
    requires m.DropCallback? || m.DropSleep?
    ensures Dropped(c, Client(c, m), m.seqno)
    ensures Client(c, m).cancelled == c.cancelled + {m.seqno} || Client(c, m) == c
    ensures m.DropCallback? ==>
      (m.seqno in Client(c, m).cancelled <==> m.seqno in c.cancelled || exists x :: x in c.known && x.seqno == m.seqno && x.isCall)
    ensures m.DropSleep? ==>
      (m.seqno in Client(c, m).cancelled <==>
        m.seqno in c.cancelled || exists x :: x in c.known && x.seqno == m.seqno && !x.isCall && x !in C.ServedSet(c))
  {
    assert C.ServedSet(Client(c, m)) == C.ServedSet(c);
    forall x ensures Served(c, x) <==> x in C.ServedSet(c) {}
  }

  lemma KnownMoved(xs: set<Entry>, x: Entry, k: nat, s: nat)
    ensures Moved(x, k, s) in MovedSet(xs, k, s) <==> x in xs
  {
    if Moved(x, k, s) in MovedSet(xs, k, s) {
      var y :| y in xs && Moved(y, k, s) == Moved(x, k, s);
      assert y.seqno == x.seqno;
      assert y == x;
    }
  }

  lemma DropTwin(c: Clock, d: Clock, m: Move, k: nat, s: nat)
    requires Twin(c, d, k, s) && (m.DropCallback? || m.DropSleep?)
    ensures Twin(Client(c, m), Client(d, MovedMove(m, k, s)), k, s)
  {
    hide Client, C.ServedSet, Queue;
    var q := MovedMove(m, k, s);
    DropDrops(c, m);
    DropDrops(d, q);
    SameEffect(c, d, m, k, s);
    SameNumbers(c.cancelled, Client(c, m).cancelled, d.cancelled, Client(d, q).cancelled, m.seqno, k, s);
    DropMoved(Queue(c), Client(c, m).cancelled, k, s);
  }

  lemma SameNumbers(ns: set<nat>, ms: set<nat>, ps: set<nat>, qs: set<nat>, n: nat, k: nat, s: nat)
    requires ps == (set i | i in ns :: Renumber(i, k, s)) && (ms == ns || ms == ns + {n}) && (n in ms <==> Renumber(n, k, s) in qs)
    requires qs == ps || qs == ps + {Renumber(n, k, s)}
    ensures qs == set i | i in ms :: Renumber(i, k, s)
  {}

  lemma DropMoved(xs: set<Entry>, ns: set<nat>, k: nat, s: nat)
    ensures MovedSet((set x | x in xs && x.seqno !in ns), k, s)
         == set y | y in MovedSet(xs, k, s) && y.seqno !in (set i | i in ns :: Renumber(i, k, s))
  {
    var kept := set x | x in xs && x.seqno !in ns;
    forall y | y in MovedSet(xs, k, s) && y.seqno !in (set i | i in ns :: Renumber(i, k, s)) ensures y in MovedSet(kept, k, s) {
      var x :| x in xs && y == Moved(x, k, s);
      assert x in kept;
    }
  }

  lemma SameEffect(c: Clock, d: Clock, m: Move, k: nat, s: nat)
    requires Twin(c, d, k, s) && (m.DropCallback? || m.DropSleep?)
    ensures var q := MovedMove(m, k, s);
      m.seqno in Client(c, m).cancelled <==> q.seqno in Client(d, q).cancelled
  {
    var q := MovedMove(m, k, s);
    DropDrops(c, m);
    DropDrops(d, q);
    hide Client;
    forall x ensures Moved(x, k, s) in d.known <==> x in c.known { KnownMoved(c.known, x, k, s); }
    forall x ensures Moved(x, k, s) in C.ServedSet(d) <==> x in C.ServedSet(c) { KnownMoved(C.ServedSet(c), x, k, s); }
  }

  lemma ClientTwin(c: Clock, d: Clock, m: Move, k: nat, s: nat)
    requires Sound(c) && Sound(d) && Twin(c, d, k, s)
    ensures Twin(Client(c, m), Client(d, MovedMove(m, k, s)), k, s)
  {
    match m
    case Sleep(t, _) =>
      if Lt(At(c.now), t) {
        RegisterTwin(c, d, m, k, s);
      } else {
        assert Client(c, m) == c && Client(d, m) == d;
      }
    case Callback(_, _) => RegisterTwin(c, d, m, k, s);
    case DropCallback(_) => DropTwin(c, d, m, k, s);
    case DropSleep(_) => DropTwin(c, d, m, k, s);
    case _ =>
  }

  /** What both sides keep: a drive with zero tolerance whose open instant nobody joined late. */
  ghost predicate Plain(c: Clock, p: Params) {
    Driving(c, p) && NoJoins(c)
  }

  lemma ClientPlain(c: Clock, p: Params, m: Move)
    requires Plain(c, p) && NotOverdue(c, m)
    ensures Plain(Client(c, m), p) && Client(c, m).now == c.now && Client(c, m).anchor == c.anchor && Sound(c)
  {
    ApplyAllPhase(c, p, [m]);
    ApplyAllFlags(c, [m]);
    assert ApplyAll(c, [m]) == Client(c, m) by { assert [m][1..] == []; assert ApplyAll(Client(c, m), []) == Client(c, m); }
    ClientInstant(c, m);
  }

  lemma ClientInstant(c: Clock, m: Move)
    requires NotOverdue(c, m) && NoJoins(c)
    ensures NoJoins(Client(c, m)) && Client(c, m).anchor == c.anchor
  {}

  lemma {:induction false} ApplyAllTwin(c: Clock, d: Clock, p: Params, ms: seq<Move>, k: nat, s: nat)
    requires Plain(c, p) && Plain(d, p) && Twin(c, d, k, s) && NoPast(c, ms)
    ensures var c1, d1 := ApplyAll(c, ms), ApplyAll(d, MovedMoves(ms, k, s));
      Plain(c1, p) && Plain(d1, p) && Twin(c1, d1, k, s)
    decreases |ms|
  {
    hide Plain, Client, NoPast, NotOverdue;
    if ms != [] {
      var m, rest := ms[0], MovedMoves(ms[1..], k, s);
      NoPastParts(c, d, c, ms, k, s);
      assert MovedMoves(ms, k, s)[1..] == rest;
      ClientPlain(c, p, m);
      NoPastParts(c, d, Client(c, m), ms, k, s);
      ClientPlain(d, p, MovedMove(m, k, s));
      ClientTwin(c, d, m, k, s);
      ApplyAllTwin(Client(c, m), Client(d, MovedMove(m, k, s)), p, ms[1..], k, s);
    }
  }

  lemma NoPastParts(c: Clock, d: Clock, e: Clock, ms: seq<Move>, k: nat, s: nat)
    requires ms != [] && NoPast(c, ms) && d.now == c.now && d.anchor == c.anchor
    ensures NotOverdue(c, ms[0]) && NotOverdue(d, MovedMove(ms[0], k, s))
    ensures e.now == c.now && e.anchor == c.anchor ==> NoPast(e, ms[1..])
  {
    assert ms[0] in ms;
    forall m | m in ms[1..] && e.now == c.now && e.anchor == c.anchor ensures NotOverdue(e, m) {
      assert m in ms && NotOverdue(c, m);
    }
  }

  /** Both sides pop the same entry at the same time, up to renumbering. */
  lemma PopTwin(c: Clock, d: Clock, p: Params, k: nat, s: nat)
    requires Plain(c, p) && Plain(d, p) && Twin(c, d, k, s)
    ensures var f, g := Find(c, p), Find(d, p);
      && (f.instant == {} <==> g.instant == {})
      && (f.instant != {} ==>
            && Least(ByPriority, g.instant) == Moved(Least(ByPriority, f.instant), k, s) && g.now == f.now
            && Twin(Pop(f), Pop(g), k, s))
  {
    PopIsLeast(c, p);
    PopIsLeast(d, p);
    assert Distinct(Queue(c)) by { QueueDistinct(c, p); }
    hide Plain, Driving, NoJoins, Distinct;
    var f, g := Find(c, p), Find(d, p);
    QueueEmptyTwin(c, d, p, k, s);
    if f.instant != {} {
      var w := Least(ByPriority, f.instant);
      LeastMoved(Queue(c), k, s);
      MovedWithout(Queue(c), w, k, s);
      assert f.known == c.known && g.known == d.known && f.trace == c.trace && g.trace == d.trace &&
             f.cancelled == c.cancelled && g.cancelled == d.cancelled by {
        C.FindHistory(c, p);
        C.FindHistory(d, p);
      }
      C.PopServed(f);
      C.PopServed(g);
      MovedWith(C.ServedSet(c), w, k, s);
      assert C.ServedSet(f) == C.ServedSet(c) && C.ServedSet(g) == C.ServedSet(d);
    }
  }

  lemma QueueDistinct(c: Clock, p: Params)
    requires Plain(c, p)
    ensures Distinct(Queue(c))
  {}

  lemma QueueEmptyTwin(c: Clock, d: Clock, p: Params, k: nat, s: nat)
    requires Queue(d) == MovedSet(Queue(c), k, s)
    ensures (forall x :: x in Queue(c) ==> Lt(At(p.t), x.deadline)) <==> (forall y :: y in Queue(d) ==> Lt(At(p.t), y.deadline))
  {
    forall x | x in Queue(c) ensures Moved(x, k, s) in Queue(d) {}
  }

  // ----- resumption -----

  /** The wakes of an advance while clients act by the given script, one list of actions after each wake. */
  ghost function Wakes(c: Clock, p: Params, acts: seq<seq<Move>>): seq<Stamp>
    decreases |acts|
  {
    var f := Find(c, p);
    if acts == [] || f.instant == {} then []
    else [Stamp(Least(ByPriority, f.instant), f.now)] + Wakes(ApplyAll(Pop(f), acts[0]), p, acts[1..])
  }

  /** No action of the script registers a callback that is overdue in the instant of the wake it reacts to. */
  ghost predicate NoLateJoins(c: Clock, p: Params, acts: seq<seq<Move>>)
    decreases |acts|
  {
    var f := Find(c, p);
    acts == [] || f.instant == {} ||
    (NoPast(Pop(f), acts[0]) && NoLateJoins(ApplyAll(Pop(f), acts[0]), p, acts[1..]))
  }

  lemma PopPlain(c: Clock, p: Params)
    requires Plain(c, p) && Find(c, p).instant != {}
    ensures Plain(Pop(Find(c, p)), p) && Pop(Find(c, p)).now == Find(c, p).now
  {
    PopIsLeast(c, p);
    var r := (h: seq<Serve>) => [];
    CycleDriving(c, p, r);
    assert Cycle(c, p, r) == Pop(Find(c, p));
  }

  lemma {:induction false} TwinWakes(c: Clock, d: Clock, p: Params, acts: seq<seq<Move>>, k: nat, s: nat)
    requires Plain(c, p) && Plain(d, p) && Twin(c, d, k, s) && NoLateJoins(c, p, acts)
    ensures Wakes(d, p, MovedActs(acts, k, s)) == MovedStamps(Wakes(c, p, acts), k, s)
    decreases |acts|
  {
    hide Plain, Twin, Find, Pop;
    PopTwin(c, d, p, k, s);
    if acts != [] && Find(c, p).instant != {} {
      var f, g := Pop(Find(c, p)), Pop(Find(d, p));
      PopPlain(c, p);
      PopPlain(d, p);
      ApplyAllTwin(f, g, p, acts[0], k, s);
      TwinWakes(ApplyAll(f, acts[0]), ApplyAll(g, MovedMoves(acts[0], k, s)), p, acts[1..], k, s);
      assert MovedActs(acts, k, s)[1..] == MovedActs(acts[1..], k, s);
    }
  }

  /** The failed advance right after the pop whose callback raised, and the retry's first state. */
  lemma RetryPlain(c: Clock, p: Params)
    requires Plain(c, p)
    ensures var d := Begin(Restore(c)); Plain(d, p) && Queue(d) == Queue(c) && C.ServedSet(d) == C.ServedSet(c) && d.anchor == None
  {
    C.RestoreConserved(c);
    var d := Begin(Restore(c));
    assert C.ServedSet(d) == C.ServedSet(c);
  }

  function Shift(c: Clock): nat {
    if LiveOf(c, c.instant) == {} then 0 else 1
  }

  lemma SelfTwin(xs: set<Entry>, k: nat, s: nat)
    requires s == 0 || forall x :: x in xs ==> x.seqno < k
    ensures MovedSet(xs, k, s) == xs
  {
    forall x | x in xs ensures Moved(x, k, s) == x {}
    forall x | x in xs ensures x in MovedSet(xs, k, s) { assert Moved(x, k, s) == x; }
  }

  lemma FirstFound(c: Clock, p: Params)
    requires Plain(c, p)
    ensures var d := Begin(Restore(c)); var f, g := Find(c, p), Find(d, p);
      && (f.instant == {} <==> g.instant == {})
      && (f.instant != {} ==>
            var w := Least(ByPriority, f.instant);
            && w == Least(ByPriority, g.instant) && g.now == f.now && g.anchor == f.anchor
            && c.nextSeq <= f.nextSeq && g.nextSeq == f.nextSeq + Shift(c)
            && Queue(Pop(f)) == Queue(c) - {w} && Queue(Pop(g)) == Queue(c) - {w})
  {
    var d := Begin(Restore(c));
    RetryPlain(c, p);
    PopIsLeast(c, p);
    PopIsLeast(d, p);
    if Find(c, p).instant != {} { FirstShift(c, p); }
  }

  /** The retry's first wake is the wake the advance would have gone on with. */
  lemma FirstTwin(c: Clock, p: Params)
    requires Plain(c, p)
    ensures var d := Begin(Restore(c)); var f, g := Find(c, p), Find(d, p);
      && (f.instant == {} <==> g.instant == {})
      && (f.instant != {} ==>
            Least(ByPriority, g.instant) == Least(ByPriority, f.instant) && g.now == f.now &&
            Twin(Pop(f), Pop(g), c.nextSeq, Shift(c)))
  {
    var d, k, s := Begin(Restore(c)), c.nextSeq, Shift(c);
    FirstFound(c, p);
    FirstNumbers(c, p, k);
    RetryPlain(c, p);
    hide Plain, Driving, Queue, MovedSet, Find, Shift, Pop, C.ServedSet, Twin;
    var f, g := Find(c, p), Find(d, p);
    if f.instant != {} {
      FoundOld(c, p);
      C.FindHistory(c, p);
      C.FindHistory(d, p);
      TraceServed(f, c);
      TraceServed(g, d);
      SamePop(f, g, c.nextSeq, s);
    }
  }

  lemma TraceServed(f: Clock, c: Clock)
    requires f.trace == c.trace
    ensures C.ServedSet(f) == C.ServedSet(c)
  {}

  /** Clocks that agree on everything already numbered are twins after serving the same entry. */
  lemma SamePop(f: Clock, g: Clock, k: nat, s: nat)
    requires f.instant != {} && g.instant != {} && Least(ByPriority, g.instant) == Least(ByPriority, f.instant)
    requires k <= f.nextSeq && g.nextSeq == f.nextSeq + s && g.now == f.now && g.anchor == f.anchor
    requires g.known == f.known && g.cancelled == f.cancelled && C.ServedSet(g) == C.ServedSet(f)
    requires Queue(Pop(g)) == Queue(Pop(f)) && Queue(Pop(f)) <= f.known
    requires Least(ByPriority, f.instant) in f.known && C.ServedSet(f) <= f.known
    requires forall x :: x in f.known ==> x.seqno < k
    requires forall n :: n in f.cancelled ==> n < k
    ensures Twin(Pop(f), Pop(g), k, s)
  {
    hide MovedSet, Queue, C.ServedSet, Less, Moved, IsLeast, Renumber;
    var w := Least(ByPriority, f.instant);
    C.PopServed(f);
    C.PopServed(g);
    SelfTwin(f.known, k, s);
    SelfTwin(C.ServedSet(f) + {w}, k, s);
    SelfTwin(Queue(Pop(f)), k, s);
    SelfNumbers(f.cancelled, k, s);
  }

  lemma SelfNumbers(ns: set<nat>, k: nat, s: nat)
    requires forall n :: n in ns ==> n < k
    ensures ns == set n | n in ns :: Renumber(n, k, s)
  {}

  lemma FirstNumbers(c: Clock, p: Params, k: nat)
    requires Plain(c, p) && k == c.nextSeq
    ensures forall x :: x in c.known || x in C.ServedSet(c) || x in Queue(c) ==> x.seqno < k
    ensures forall n :: n in c.cancelled ==> n < k
    ensures C.ServedSet(c) <= c.known && Queue(c) <= c.known
  {}

  lemma FirstShift(c: Clock, p: Params)
    requires Plain(c, p) && Find(c, p).instant != {}
    ensures var w := Least(ByDeadline, Queue(c));
      Queue(c) != {} && (c.anchor == Some(w.deadline) <==> LiveOf(c, c.instant) != {})
  {
    PopIsLeast(c, p);
    InstantOfQueue(c, p);
    FindForm(c, p);
    if LiveOf(c, c.instant) != {} { FrozenLeast(c, Find(c, p), p); }
  }

  lemma FoundOld(c: Clock, p: Params)
    requires Plain(c, p) && Find(c, p).instant != {}
    ensures var w := Least(ByPriority, Find(c, p).instant); w in c.known && w.seqno < c.nextSeq && Moved(w, c.nextSeq, Shift(c)) == w
  {
    PopIsLeast(c, p);
  }

  /** Resumption: an advance that failed in state `c` (just after a pop) and is retried to the same target
      wakes, for any script, what it would have gone on to wake. */
  lemma RetryResumes(c: Clock, p: Params, acts: seq<seq<Move>>)
    requires Plain(c, p) && NoLateJoins(c, p, acts)
    ensures var k, s := c.nextSeq, Shift(c);
      Wakes(Begin(Restore(c)), p, MovedActs(acts, k, s)) == MovedStamps(Wakes(c, p, acts), k, s)
  {
    hide Plain, Twin, Find, Pop, Begin, Restore, Shift, Moved;
    var d, k, s := Begin(Restore(c)), c.nextSeq, Shift(c);
    FirstTwin(c, p);
    RetryPlain(c, p);
    if acts != [] && Find(c, p).instant != {} {
      var f, g := Pop(Find(c, p)), Pop(Find(d, p));
      FoundOld(c, p);
      PopPlain(c, p);
      PopPlain(d, p);
      ApplyAllTwin(f, g, p, acts[0], k, s);
      TwinWakes(ApplyAll(f, acts[0]), ApplyAll(g, MovedMoves(acts[0], k, s)), p, acts[1..], k, s);
      assert MovedActs(acts, k, s)[1..] == MovedActs(acts[1..], k, s);
    }
  }
}
