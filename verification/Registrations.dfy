/** Runs in terms of their moves: which entries exist and which are cancelled, and in which order those that tasks
    registered with given deadlines and priorities are served. */
module Registrations {
  import opened Times
  import opened Entries
  import opened ClockModel
  import opened Instants
  import opened Runs
  import C = Conservation
  import F = FrozenInstants

  /** Tasks act outside an advance and in its settles. */
  predicate Acts(s: Config) {
    s.pc.Resting? || s.pc.Settling?
  }

  /** A sleep for later, or a callback for any time. */
  predicate Registers(s: Config, m: Move) {
    Acts(s) && ((m.Sleep? && Lt(At(s.c.now), m.deadline)) || m.Callback?)
  }

  /** What it registers: its own deadline and priority, under the next number, at the present time. */
  function Registered(s: Config, m: Move): Entry
    requires m.Sleep? || m.Callback?
  {
    Entry(m.deadline, m.priority, s.c.nextSeq, s.c.now, m.Callback?)
  }

  lemma StepKnown(s: Config, m: Move)
    ensures Step(s, m).c.known == s.c.known + if Registers(s, m) then {Registered(s, m)} else {}
  {
    C.FindHistory(s.c, s.p);
    hide Find, CancelSleep;
    if Acts(s) { CancelKnown(s.c, m); }
  }

  lemma CancelKnown(c: Clock, m: Move)
    ensures m.DropSleep? ==> Client(c, m).known == c.known
  {}

  /** Move `i` of a run registers `x`. */
  ghost predicate RegisteredAt(s: Config, moves: seq<Move>, i: nat, x: Entry) {
    i < |moves| && Registers(Run(s, moves[..i]), moves[i]) && x == Registered(Run(s, moves[..i]), moves[i])
  }

  /** The entries of a run are exactly those that its moves registered. */
  lemma {:induction false} KnownIff(s: Config, moves: seq<Move>, x: Entry)
    ensures x in Run(s, moves).c.known <==> x in s.c.known || exists i: nat :: RegisteredAt(s, moves, i, x)
    decreases |moves|
  {
    hide Step, Registered;
    if moves == [] {
      assert forall i: nat :: !RegisteredAt(s, [], i, x);
    } else {
      var n := |moves| - 1;
      var init, m := moves[..n], moves[n];
      assert moves == init + [m];
      RunSnoc(s, init, m);
      KnownIff(s, init, x);
      StepKnown(Run(s, init), m);
      assert forall i: nat :: i < n ==> moves[..i] == init[..i] && moves[i] == init[i];
      assert forall i: nat :: i < n ==> (RegisteredAt(s, moves, i, x) <==> RegisteredAt(s, init, i, x));
      assert RegisteredAt(s, moves, n, x) <==> Registers(Run(s, init), m) && x == Registered(Run(s, init), m);
      assert forall i: nat :: RegisteredAt(s, moves, i, x) ==> i <= n;
    }
  }

  // ----- cancellation -----

  /** The handle named by the move is a callback, or a sleeper that has not woken. */
  ghost predicate Cancels(s: Config, m: Move, n: nat) {
    Acts(s) && ((m == DropCallback(n) && exists x :: x in s.c.known && x.seqno == n && x.isCall)
                || (m == DropSleep(n) && exists x :: x in s.c.known && x.seqno == n && !x.isCall && !Served(s.c, x)))
  }

  lemma StepCancelled(s: Config, m: Move, n: nat)
    ensures n in Step(s, m).c.cancelled <==> n in s.c.cancelled || Cancels(s, m, n)
  {
    C.FindHistory(s.c, s.p);
    hide Find;
  }

  ghost predicate CancelledAt(s: Config, moves: seq<Move>, i: nat, n: nat) {
    i < |moves| && Cancels(Run(s, moves[..i]), moves[i], n)
  }

  /** An entry is cancelled exactly if a move of the run cancelled it: no other one is. */
  lemma {:induction false} CancelledIff(s: Config, moves: seq<Move>, n: nat)
    ensures n in Run(s, moves).c.cancelled <==> n in s.c.cancelled || exists i: nat :: CancelledAt(s, moves, i, n)
    decreases |moves|
  {
    hide Step, Cancels;
    if moves == [] {
      assert forall i: nat :: !CancelledAt(s, [], i, n);
    } else {
      var k := |moves| - 1;
      var init, m := moves[..k], moves[k];
      assert moves == init + [m];
      RunSnoc(s, init, m);
      CancelledIff(s, init, n);
      StepCancelled(Run(s, init), m, n);
      assert forall i: nat :: i < k ==> moves[..i] == init[..i] && moves[i] == init[i];
      assert forall i: nat :: i < k ==> (CancelledAt(s, moves, i, n) <==> CancelledAt(s, init, i, n));
      assert CancelledAt(s, moves, k, n) <==> Cancels(Run(s, init), m, n);
      assert forall i: nat :: CancelledAt(s, moves, i, n) ==> i <= k;
    }
  }

  /** Whatever happens after its cancellation, it is not served any more. */
  lemma {:induction false} CancelledStaysOut(s: Config, moves: seq<Move>, n: nat, a: nat)
    requires C.Inv(s) && n in s.c.cancelled && |s.c.trace| <= a < |Run(s, moves).c.trace|
    ensures Run(s, moves).c.trace[a].entry.seqno != n
    decreases |moves|
  {
    hide C.Inv, Step;
    if moves != [] {
      var k := |moves| - 1;
      var init, m := moves[..k], moves[k];
      assert moves == init + [m];
      RunSnoc(s, init, m);
      C.RunInv(s, init);
      C.StepInv(Run(s, init), m);
      if a < |Run(s, init).c.trace| { CancelledStaysOut(s, init, n, a); }
    }
  }

  // ----- the order of service -----

  /** `x` was registered before the instant of the wake `v`, and comes no later and before it in priority. */
  predicate Ahead(x: Entry, v: Serve) {
    && x != v.entry && x.seqno < v.instant && v.entry.seqno < v.instant
    && Le(x.deadline, v.entry.deadline) && Prior(x, v.entry) && Le(v.entry.deadline, At(v.at))
  }

  ghost predicate ServedBefore(trace: seq<Serve>, x: Entry, a: nat) {
    exists b: nat :: b < a && b < |trace| && trace[b].entry == x
  }

  /** Whatever was ahead of a wake had been served before it, or was cancelled. */
  ghost predicate Fair(c: Clock) {
    forall a: nat, x :: a < |c.trace| && x in c.known && Ahead(x, c.trace[a]) ==>
      !Live(c, x) || ServedBefore(c.trace, x, a)
  }

  /** Of what is ahead of the entry about to wake, nothing is held. */
  lemma NoneAhead(f: Clock, p: Params, x: Entry)
    requires Phase(f, p) && f.instant != {} && f.anchor.Some? && Live(f, Least(ByPriority, f.instant)) && Live(f, x)
    requires Ahead(x, Serve(Least(ByPriority, f.instant), f.now, f.instantSeq, f.nextSeq))
    ensures x !in f.heap + f.instant + f.deferred
  {
    var w, a := Least(ByPriority, f.instant), f.anchor.value;
    assert IsClose(w.deadline, a, p.tol) && Le(w.deadline, At(p.t));
    if x in f.heap {
      assert Ready(f, p, x);
      CloseBetween(a, x.deadline, w.deadline, p.tol);
    }
  }

  lemma PopFair(f: Clock, p: Params)
    requires Phase(f, p) && f.instant != {} && f.anchor.Some? && Live(f, Least(ByPriority, f.instant))
    requires C.Conserved(f) && Fair(f)
    ensures Fair(Pop(f))
  {
    var g, w := Pop(f), Least(ByPriority, f.instant);
    var n := |f.trace|;
    hide Phase, Ahead;
    forall a: nat, x | a < |g.trace| && x in g.known && Ahead(x, g.trace[a]) && Live(g, x)
      ensures ServedBefore(g.trace, x, a)
    {
      if a == n {
        NoneAhead(f, p, x);
        assert x in C.ServedSet(f);
        var b :| 0 <= b < n && f.trace[b].entry == x;
        assert g.trace[b].entry == x;
      } else {
        assert Ahead(x, f.trace[a]);
        var b: nat :| b < a && b < n && f.trace[b].entry == x;
        assert g.trace[b].entry == x;
      }
    }
  }

  /** New entries come after every wake so far; cancelling takes nothing back. */
  lemma LaterFair(c: Clock, d: Clock)
    requires F.Numbered(c) && Fair(c) && d.trace == c.trace && c.cancelled <= d.cancelled
    requires forall x :: x in d.known ==> x in c.known || c.nextSeq <= x.seqno
    ensures Fair(d)
  {
    forall a: nat, x | a < |d.trace| && x in d.known && Ahead(x, d.trace[a]) && Live(d, x)
      ensures ServedBefore(d.trace, x, a)
    {
      assert x.seqno < c.trace[a].instant < c.trace[a].next <= c.nextSeq;
      assert x in c.known;
    }
  }

  lemma QuietStep(s: Config, m: Move)
    requires C.Inv(s) && !(s.pc.Popping? && m.Tick? && Find(s.c, s.p).instant != {})
    ensures var n := Step(s, m); n.c.trace == s.c.trace && s.c.cancelled <= n.c.cancelled
    ensures forall x :: x in Step(s, m).c.known ==> x in s.c.known || s.c.nextSeq <= x.seqno
  {
    C.StepInv(s, m);
    StepKnown(s, m);
    if s.pc.Popping? && m.Tick? {
      C.FindHistory(s.c, s.p);
      hide Find, C.Inv;
    } else {
      F.SameTrace(s, m);
      hide Step, C.Inv;
    }
  }

  lemma StepFair(s: Config, m: Move)
    requires F.Inv(s) && Fair(s.c)
    ensures Fair(Step(s, m).c)
  {
    if s.pc.Popping? && m.Tick? && Find(s.c, s.p).instant != {} {
      var f := Find(s.c, s.p);
      C.FindHistory(s.c, s.p);
      C.FindConserved(s.c, s.p);
      FindPhase(s.c, s.p);
      hide Find, Phase, C.Conserved, Pop, Fair;
      LaterFair(s.c, f);
      PopFair(f, s.p);
    } else {
      QuietStep(s, m);
      hide Step, Fair;
      LaterFair(s.c, Step(s, m).c);
    }
  }

  lemma {:induction false} RunFair(s: Config, moves: seq<Move>)
    requires F.Inv(s) && Fair(s.c) && F.RegularRun(moves)
    ensures Fair(Run(s, moves).c) && F.Inv(Run(s, moves))
    decreases |moves|
  {
    hide F.Inv, Fair, Step;
    if moves != [] {
      assert moves[0] in moves;
      F.StepInv(s, moves[0]);
      StepFair(s, moves[0]);
      RunFair(Step(s, moves[0]), moves[1..]);
    }
  }

  /** Two registrations of one run, moves `i` and `j`, before the instant in which the second entry wakes, not early: if
      the first has no later deadline and a lower priority, or the same one and came first, then it has been served
      before, unless it was cancelled. */
  lemma ServedInOrder(t0: real, work: nat, moves: seq<Move>, i: nat, x: Entry, j: nat, y: Entry, a: nat)
    requires F.RegularRun(moves)
    requires RegisteredAt(Initial(t0, work), moves, i, x) && RegisteredAt(Initial(t0, work), moves, j, y)
    requires Le(moves[i].deadline, moves[j].deadline)
    requires moves[i].priority < moves[j].priority || (moves[i].priority == moves[j].priority && i < j)
    requires var trace := Run(Initial(t0, work), moves).c.trace;
      && a < |trace| && trace[a].entry == y && Le(moves[j].deadline, At(trace[a].at))
      && x.seqno < trace[a].instant && y.seqno < trace[a].instant
    ensures var c := Run(Initial(t0, work), moves).c; !Live(c, x) || ServedBefore(c.trace, x, a)
  {
    var s := Initial(t0, work);
    C.EveryRunConserves(t0, work, []);
    RunFair(s, moves);
    KnownIff(s, moves, x);
    if i < j { NumbersGrow(s, moves, i, j); }
    hide Run, Step, F.Inv, Registers;
    var c := Run(s, moves).c;
    assert Ahead(x, c.trace[a]);
  }

  /** Later registrations have higher numbers. */
  lemma NumbersGrow(s: Config, moves: seq<Move>, i: nat, j: nat)
    requires i < j < |moves| && Registers(Run(s, moves[..i]), moves[i])
    ensures Run(s, moves[..i]).c.nextSeq < Run(s, moves[..j]).c.nextSeq
  {
    hide Step;
    RunSnoc(s, moves[..i], moves[i]);
    assert moves[..i] + [moves[i]] == moves[..i + 1];
    TakesNumber(Run(s, moves[..i]), moves[i]);
    RunAppend(s, moves[..i + 1], moves[i + 1..j]);
    assert moves[..i + 1] + moves[i + 1..j] == moves[..j];
    NumbersKept(Run(s, moves[..i + 1]), moves[i + 1..j]);
  }

  lemma TakesNumber(s: Config, m: Move)
    ensures s.c.nextSeq + (if Registers(s, m) then 1 else 0) <= Step(s, m).c.nextSeq
  {}

  lemma {:induction false} NumbersKept(s: Config, moves: seq<Move>)
    ensures s.c.nextSeq <= Run(s, moves).c.nextSeq
    decreases |moves|
  {
    hide Step;
    if moves != [] {
      TakesNumber(s, moves[0]);
      NumbersKept(Step(s, moves[0]), moves[1..]);
    }
  }
}
