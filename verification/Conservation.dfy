/** Nothing registered is lost or served twice: at every step of every run, under every tolerance. */
module Conservation {
  import opened Times
  import opened Entries
  import opened ClockModel
  import opened Instants
  import opened Runs

  ghost function ServedSet(c: Clock): set<Entry> {
    set i | 0 <= i < |c.trace| :: c.trace[i].entry
  }

  ghost function Held(c: Clock): set<Entry> {
    c.heap + c.instant + c.deferred
  }

  /** Every live registration is in exactly one of heap, instant, deferred and served; no entry is served twice. */
  ghost predicate Conserved(c: Clock) {
    && Sound(c)
    && ServedSet(c) <= c.known
    && ServedSet(c) !! Held(c)
    && (forall x :: x in c.known && Live(c, x) ==> x in Held(c) || x in ServedSet(c))
    && (forall i, j :: 0 <= i < j < |c.trace| ==> c.trace[i].entry != c.trace[j].entry)
  }

  lemma SkimConserved(c: Clock, p: Params)
    requires Conserved(c)
    ensures Conserved(Skim(c, p))
  {
    assert ServedSet(Skim(c, p)) == ServedSet(c);
  }

  lemma CollectConserved(c: Clock, p: Params, a: Time)
    requires Conserved(c) && c.anchor.Some?
    ensures Conserved(Collect(c, p, a))
  {
    assert ServedSet(Collect(c, p, a)) == ServedSet(c);
  }

  /** After the cancelled tops are dropped, the instant's least entry is live. */
  lemma CollectLive(c: Clock, p: Params, a: Time)
    requires Conserved(c)
    ensures var s := Collect(c, p, a).instant; s != {} ==> Live(c, Least(ByPriority, s))
  {
    var members := c.instant + Joining(c, p, a);
    var left := members - DeadTops(c, ByPriority, members);
    if left != {} {
      LeastLeftLive(c, members);
    }
  }

  lemma LeastLeftLive(c: Clock, members: set<Entry>)
    requires Distinct(members) && members - DeadTops(c, ByPriority, members) != {}
    ensures Live(c, Least(ByPriority, members - DeadTops(c, ByPriority, members)))
  {
    var left := members - DeadTops(c, ByPriority, members);
    var w := Least(ByPriority, left);
    forall y | y in members && Live(c, y) && y != w
      ensures Less(ByPriority, w, y)
    {
      assert y in left && !Less(ByPriority, y, w);
    }
  }

  lemma OpenConserved(c: Clock, a: Time)
    requires Conserved(c) && c.instant == {}
    ensures Conserved(Open(c, a)) && Conserved(c.(anchor := None))
  {
    assert ServedSet(Open(c, a)) == ServedSet(c) == ServedSet(c.(anchor := None));
  }

  lemma LaterConserved(c: Clock, t: real)
    requires Conserved(c) && c.now <= t
    ensures Conserved(c.(now := t))
  {
    assert ServedSet(c.(now := t)) == ServedSet(c);
  }

  lemma ReopenConserved(c: Clock, p: Params)
    requires Conserved(c) && c.instant == {}
    ensures var f := Reopen(c, p);
      && Conserved(f) && c.now <= f.now && (c.now <= p.t ==> f.now <= p.t) && f.trace == c.trace
      && (f.instant != {} ==> f.anchor.Some? && Live(f, Least(ByPriority, f.instant)))
  {
    hide Conserved, Arrival;
    SkimConserved(c, p);
    var s, top := Skim(c, p), Top(c, p);
    OpenConserved(s, if top.None? then NegInf else top.value.deadline);
    if top.Some? {
      var o := Open(s, top.value.deadline);
      CollectConserved(o, p, top.value.deadline);
      CollectLive(o, p, top.value.deadline);
      var d := Collect(o, p, top.value.deadline);
      ArrivalForward(p, c.now, d.end);
      LaterConserved(d, Arrival(p, d.now, d.end));
    }
  }

  lemma ArrivalForward(p: Params, now: real, end: Time)
    ensures now <= Arrival(p, now, end) && (now <= p.t ==> Arrival(p, now, end) <= p.t)
  {}

  lemma FindConserved(c: Clock, p: Params)
    requires Conserved(c)
    ensures var f := Find(c, p);
      && Conserved(f) && c.now <= f.now && (c.now <= p.t ==> f.now <= p.t) && f.trace == c.trace
      && (f.instant != {} ==> f.anchor.Some? && Live(f, Least(ByPriority, f.instant)))
  {
    match c.anchor
    case None => ReopenConserved(c, p);
    case Some(a) =>
      var d := Collect(c, p, a);
      CollectConserved(c, p, a);
      CollectLive(c, p, a);
      if d.instant == {} {
        ReopenConserved(d, p);
      } else {
        ArrivalForward(p, d.now, d.end);
        assert ServedSet(Arrive(d, p)) == ServedSet(d);
      }
  }

  lemma PopServed(f: Clock)
    requires f.instant != {}
    ensures ServedSet(Pop(f)) == ServedSet(f) + {Least(ByPriority, f.instant)}
  {
    var w, n := Least(ByPriority, f.instant), |f.trace|;
    forall x | x in ServedSet(f) + {w} ensures x in ServedSet(Pop(f)) {
      if x == w {
        assert Pop(f).trace[n].entry == x;
      } else {
        var i :| 0 <= i < n && f.trace[i].entry == x;
        assert Pop(f).trace[i].entry == x;
      }
    }
  }

  lemma PopConserved(f: Clock)
    requires Conserved(f) && f.instant != {} && f.anchor.Some?
    ensures Conserved(Pop(f))
  {
    PopServed(f);
  }

  lemma RestoreConserved(c: Clock)
    requires Conserved(c)
    ensures Conserved(Restore(c))
  {
    assert ServedSet(Restore(c)) == ServedSet(c);
  }

  lemma RegisterConserved(c: Clock, d: Clock, w: Entry)
    requires Conserved(c) && w.seqno == c.nextSeq && w.registeredAt == c.now
    requires d == c.(nextSeq := c.nextSeq + 1, known := c.known + {w}, heap := c.heap + {w}) ||
             (c.anchor.Some? && d == c.(nextSeq := c.nextSeq + 1, known := c.known + {w}, instant := c.instant + {w}))
    ensures Conserved(d)
  {
    assert ServedSet(d) == ServedSet(c);
  }

  /** Cancelling and pruning cancelled tops loses no live entry. */
  lemma CancelConserved(c: Clock, d: Clock)
    requires Conserved(c) && d == c.(heap := d.heap, cancelled := d.cancelled) && c.cancelled <= d.cancelled
    requires d.heap <= c.heap && (forall x :: x in c.heap && x !in d.heap ==> !Live(d, x))
    requires forall n :: n in d.cancelled ==> n < c.nextSeq
    ensures Conserved(d)
  {
    assert ServedSet(d) == ServedSet(c);
  }

  lemma ClientConserved(c: Clock, m: Move)
    requires Conserved(c)
    ensures var d := Client(c, m);
      Conserved(d) && d.now == c.now && d.trace == c.trace && d.anchor == c.anchor && d.deferred == c.deferred &&
      d.advancing == c.advancing && (c.anchor.None? ==> d.instant == {})
  {
    KnownNumbers(c);
    hide Conserved;
    match m
    case Sleep(t, priority) =>
      if !Le(t, At(c.now)) { RegisterConserved(c, Client(c, m), ClockModel.Fresh(c, t, priority, false)); }
    case Callback(t, priority) => RegisterConserved(c, Client(c, m), ClockModel.Fresh(c, t, priority, true));
    case DropCallback(_) => CancelConserved(c, Client(c, m));
    case DropSleep(_) => CancelConserved(c, Client(c, m));
    case _ =>
  }

  lemma KnownNumbers(c: Clock)
    requires Conserved(c)
    ensures (forall x :: x in c.known ==> x.seqno < c.nextSeq) && (forall n :: n in c.cancelled ==> n < c.nextSeq)
    ensures c.anchor.None? ==> c.instant == {}
  {}

  /** Outside an advance the instant and the deferred list are empty, whatever was attempted; inside
      one, time has not passed the target. */
  ghost predicate Inv(s: Config) {
    && Conserved(s.c)
    && (s.pc.Resting? <==> !s.c.advancing)
    && (s.pc.Resting? ==> s.c.anchor.None? && s.c.instant == {} && s.c.deferred == {})
    && (!s.pc.Resting? ==> s.c.now <= s.p.t)
  }

  /** A step never loses history. */
  ghost predicate Grows(c: Clock, d: Clock) {
    && c.now <= d.now && c.known <= d.known && c.cancelled <= d.cancelled
    && (d.trace == c.trace ||
        exists v: Serve :: d.trace == c.trace + [v] && Live(c, v.entry) && v.at == d.now)
  }

  lemma ClientGrows(c: Clock, m: Move)
    ensures Grows(c, Client(c, m))
  {}

  lemma TickInv(s: Config)
    requires Inv(s) && (s.pc.Popping? || s.pc.Peeking?)
    ensures Inv(Step(s, Tick)) && Grows(s.c, Step(s, Tick).c)
  {
    FindConserved(s.c, s.p);
    var f := Find(s.c, s.p);
    FindHistory(s.c, s.p);
    hide Find, Conserved, ServedSet;
    if f.instant != {} {
      PopConserved(f);
      if s.pc.Popping? {
        var v := Serve(Least(ByPriority, f.instant), f.now, f.instantSeq, f.nextSeq);
        assert Step(s, Tick).c.trace == s.c.trace + [v];
      }
    } else {
      FinishConserved(f, s.p);
    }
  }

  lemma FindHistory(c: Clock, p: Params)
    ensures var f := Find(c, p); f.known == c.known && f.cancelled == c.cancelled && f.advancing == c.advancing && f.trace == c.trace
  {}

  lemma FinishConserved(f: Clock, p: Params)
    requires Conserved(f) && f.now <= p.t
    ensures Conserved(Finish(f, p))
  {
    RestoreConserved(f);
    assert ServedSet(Finish(f, p)) == ServedSet(Restore(f));
  }

  lemma BeginConserved(c: Clock)
    requires Conserved(c)
    ensures Conserved(Begin(c))
  {
    assert ServedSet(Begin(c)) == ServedSet(c);
  }

  /** One step: the invariant is kept, time never moves back, and at most one entry is served, a live one. */
  lemma StepInv(s: Config, m: Move)
    requires Inv(s)
    ensures Inv(Step(s, m)) && Grows(s.c, Step(s, m).c)
  {
    if s.pc.Popping? || s.pc.Peeking? {
      if m.Tick? { TickInv(s); }
    } else {
      ClientConserved(s.c, m);
      ClientGrows(s.c, m);
      RestoreConserved(s.c);
      BeginConserved(s.c);
      hide Conserved, Client;
    }
  }

  lemma {:induction false} RunInv(s: Config, moves: seq<Move>)
    requires Inv(s)
    ensures var n := Run(s, moves);
      && Inv(n) && s.c.now <= n.c.now && s.c.known <= n.c.known && s.c.cancelled <= n.c.cancelled
      && s.c.trace <= n.c.trace
    decreases |moves|
  {
    if moves != [] {
      StepInv(s, moves[0]);
      RunInv(Step(s, moves[0]), moves[1..]);
    }
  }

  /** Conservation over every run of a new clock, whatever clients, hosts and drivers do. */
  lemma EveryRunConserves(t0: real, work: nat, moves: seq<Move>)
    ensures var s := Run(Initial(t0, work), moves);
      && Inv(s)
      && (forall x :: x in s.c.known && Live(s.c, x) ==> x in Held(s.c) || x in ServedSet(s.c))
  {
    assert ServedSet(NewClock(t0)) == {};
    RunInv(Initial(t0, work), moves);
  }

}
