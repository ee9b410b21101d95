/** What a trace says about instants, in every run: one `now()` per instant, priority order among what was
    already registered, and everything registered during it and due later wakes strictly later. */
module FrozenInstants {
  import opened Times
  import opened Entries
  import opened ClockModel
  import opened Instants
  import opened Runs
  import C = Conservation

  predicate RegularMove(m: Move) {
    m.AdvanceTo? && m.params.tol.Valid() ==> m.params.tol.rtol <= 1.0 || 2.0 <= m.params.tol.rtol
  }

  predicate RegularRun(moves: seq<Move>) {
    forall m :: m in moves ==> RegularMove(m)
  }

  ghost predicate InPhase(s: Config) {
    !s.pc.Resting? ==> Phase(s.c, s.p)
  }

  /** The stretch of sequence numbers handed out in a wake's instant before that wake. */
  predicate During(v: Serve, x: Entry) {
    v.instant <= x.seqno < v.next
  }

  ghost predicate Numbered(c: Clock) {
    && (forall i :: 0 <= i < |c.trace| ==>
          var v := c.trace[i];
          v.entry.seqno < v.next <= c.nextSeq && v.instant <= c.instantSeq && v.instant < v.next)
    && (c.anchor.Some? ==> forall x :: x in c.known && c.instantSeq <= x.seqno ==> x.registeredAt == c.now)
    && (forall i, x :: 0 <= i < |c.trace| && x in c.known && During(c.trace[i], x) ==> x.registeredAt == c.trace[i].at)
  }

  /** One instant, one time, in priority order among the entries registered before the wake. */
  ghost predicate Ordered(u: Serve, v: Serve) {
    && u.instant <= v.instant && u.at <= v.at
    && (u.instant == v.instant ==> u.at == v.at)
    && (u.instant == v.instant && v.entry.seqno < u.next ==> Prior(u.entry, v.entry))
    && (During(u, v.entry) && Lt(At(u.at), v.entry.deadline) ==> u.instant < v.instant && u.at < v.at)
  }

  ghost predicate Orderly(c: Clock) {
    && (forall i, j :: 0 <= i < j < |c.trace| ==> Ordered(c.trace[i], c.trace[j]))
    && (forall i :: 0 <= i < |c.trace| ==> c.trace[i].at <= c.now)
    && (c.anchor.Some? ==> forall i :: 0 <= i < |c.trace| && c.trace[i].instant == c.instantSeq ==>
          c.trace[i].at == c.now &&
          forall x :: x in c.instant && Live(c, x) && x.seqno < c.trace[i].next ==> Prior(c.trace[i].entry, x))
  }

  lemma FrozenOrderly(c: Clock, f: Clock, p: Params)
    requires Numbered(c) && Orderly(c) && Frozen(c, f, p) && c.anchor.Some?
    ensures Numbered(f) && Orderly(f)
  {}

  lemma ExhaustedOrderly(c: Clock, f: Clock, p: Params)
    requires Numbered(c) && Orderly(c) && Exhausted(c, f, p)
    ensures Numbered(f) && Orderly(f)
  {}

  lemma OpenedOrderly(c: Clock, f: Clock, p: Params)
    requires Sound(c) && Numbered(c) && Orderly(c) && Opened(c, f, p) && c.now <= f.now
    ensures Numbered(f) && Orderly(f)
  {
    forall i | 0 <= i < |f.trace| ensures f.trace[i].instant != f.instantSeq {}
  }

  lemma FindOrderly(c: Clock, p: Params)
    requires Phase(c, p) && Numbered(c) && Orderly(c)
    ensures Numbered(Find(c, p)) && Orderly(Find(c, p))
  {
    hide Find, Frozen, Exhausted, Opened, Numbered, Orderly, Sound;
    FindForm(c, p);
    FindPhase(c, p);
    if LiveOf(c, c.instant) != {} {
      FrozenOrderly(c, Find(c, p), p);
    } else if ReadyOf(c, p) == {} {
      ExhaustedOrderly(c, Find(c, p), p);
    } else {
      OpenedOrderly(c, Find(c, p), p);
    }
  }

  lemma PopOrdered(f: Clock, p: Params, i: nat)
    requires Phase(f, p) && Numbered(f) && Orderly(f) && f.instant != {} && f.anchor.Some? && i < |f.trace|
    requires Live(f, Least(ByPriority, f.instant)) && Timely(p, Least(ByPriority, f.instant), f.now)
    ensures Ordered(f.trace[i], Serve(Least(ByPriority, f.instant), f.now, f.instantSeq, f.nextSeq))
  {
    var u, w := f.trace[i], Least(ByPriority, f.instant);
    if During(u, w) && Lt(At(u.at), w.deadline) && u.instant == f.instantSeq {
      assert false;
    }
  }

  lemma PopOrderly(f: Clock, p: Params)
    requires Phase(f, p) && Numbered(f) && Orderly(f) && f.instant != {} && f.anchor.Some?
    requires f.instantSeq < f.nextSeq
    requires Live(f, Least(ByPriority, f.instant)) && Timely(p, Least(ByPriority, f.instant), f.now)
    ensures Numbered(Pop(f)) && Orderly(Pop(f))
  {
    hide Ordered, Phase, Timely, Orderly, Numbered;
    PopNumbered(f, p);
    var w, g := Least(ByPriority, f.instant), Pop(f);
    OrderlyParts(f);
    forall i, j | 0 <= i < j < |g.trace| ensures Ordered(g.trace[i], g.trace[j]) {
      if j == |f.trace| { PopOrdered(f, p, i); }
    }
    PopRest(f, p);
  }

  lemma PopNumbered(f: Clock, p: Params)
    requires Phase(f, p) && Numbered(f) && f.instant != {} && f.anchor.Some? && f.instantSeq < f.nextSeq
    requires Live(f, Least(ByPriority, f.instant))
    ensures Numbered(Pop(f))
  {}

  lemma OrderlyParts(c: Clock)
    requires Orderly(c)
    ensures forall i, j :: 0 <= i < j < |c.trace| ==> Ordered(c.trace[i], c.trace[j])
  {}

  lemma PopRest(f: Clock, p: Params)
    requires Phase(f, p) && Numbered(f) && Orderly(f) && f.instant != {} && f.anchor.Some?
    requires forall i, j :: 0 <= i < j < |Pop(f).trace| ==> Ordered(Pop(f).trace[i], Pop(f).trace[j])
    ensures Orderly(Pop(f))
  {
    hide Ordered;
    var w, g := Least(ByPriority, f.instant), Pop(f);
    forall x | x in g.instant ensures Prior(w, x) {
      assert !Less(ByPriority, x, w) && x.seqno != w.seqno;
    }
  }

  /** What a client may do to the history: register one entry under the next number, cancel, prune. */
  ghost predicate Extends(c: Clock, d: Clock) {
    && d.trace == c.trace && d.now == c.now && d.anchor == c.anchor && d.instantSeq == c.instantSeq
    && c.cancelled <= d.cancelled && c.nextSeq <= d.nextSeq
    && (forall x :: x in d.known ==> x in c.known || (x.seqno == c.nextSeq && x.registeredAt == c.now))
    && (forall x :: x in d.instant ==> x in c.instant || x.seqno == c.nextSeq)
  }

  lemma ClientExtends(c: Clock, m: Move)
    ensures Extends(c, Client(c, m))
  {}

  lemma ExtendsOrderly(c: Clock, d: Clock)
    requires Extends(c, d) && Numbered(c) && Orderly(c)
    ensures Numbered(d) && Orderly(d)
  {}

  ghost predicate Inv(s: Config) {
    C.Inv(s) && InPhase(s) && Numbered(s.c) && Orderly(s.c) && (s.c.anchor.Some? ==> s.c.instantSeq < s.c.nextSeq)
  }

  lemma ClientPhase(c: Clock, p: Params, m: Move)
    requires Phase(c, p)
    ensures Phase(Client(c, m), p)
  {
    match m
    case Sleep(d, priority) => WaitUntilPhase(c, p, d, priority);
    case Callback(d, priority) => CallAtPhase(c, p, d, priority);
    case DropCallback(n) => CancelCallPhase(c, p, n);
    case DropSleep(n) => CancelSleepPhase(c, p, n);
    case _ =>
  }

  lemma TickInv(s: Config)
    requires Inv(s) && (s.pc.Popping? || s.pc.Peeking?)
    ensures Inv(Step(s, Tick))
  {
    var f := Find(s.c, s.p);
    C.StepInv(s, Tick);
    FindForm(s.c, s.p);
    FindPhase(s.c, s.p);
    FindOrderly(s.c, s.p);
    if f.instant != {} { PopOrderly(f, s.p); }
  }

  lemma ClientInv(s: Config, m: Move)
    requires Inv(s) && !s.pc.Popping? && !s.pc.Peeking?
    ensures Inv(s.(c := Client(s.c, m)))
  {
    ClientExtends(s.c, m);
    ExtendsOrderly(s.c, Client(s.c, m));
    C.ClientConserved(s.c, m);
    if s.pc.Settling? { ClientPhase(s.c, s.p, m); }
  }

  lemma EnterInv(s: Config, p: Params)
    requires Inv(s) && s.pc.Resting? && RegularMove(AdvanceTo(p))
    ensures Inv(Enter(s, p))
  {
    C.StepInv(s, AdvanceTo(p));
    if !Refused(s.c, p) { RegularIff(p.tol); }
  }

  lemma FailInv(s: Config)
    requires Inv(s) && s.pc.Settling?
    ensures Inv(Fail(s))
  {
    C.RestoreConserved(s.c);
  }

  lemma MovedInv(s: Config, n: Config)
    requires Inv(s) && n.c == s.c && n.p == s.p && n.pc.Resting? == s.pc.Resting?
    ensures Inv(n)
  {}

  lemma SecondDriver(s: Config, p: Params)
    requires Inv(s) && s.pc.Settling?
    ensures Step(s, AdvanceTo(p)) == s
  {}

  lemma SettlingInv(s: Config, m: Move)
    requires Inv(s) && s.pc.Settling?
    ensures Inv(Step(s, m))
  {
    hide Inv, Client, Enter, Restore;
    match m
    case AdvanceTo(p) => SecondDriver(s, p);
    case HostWork(_) => MovedInv(s, Step(s, m));
    case RoundDone(_) => if Step(s, m).pc.Resting? { FailInv(s); } else { MovedInv(s, Step(s, m)); }
    case Raise => FailInv(s);
    case _ => ClientInv(s, m);
  }

  lemma RestingInv(s: Config, m: Move)
    requires Inv(s) && s.pc.Resting? && RegularMove(m)
    ensures Inv(Step(s, m))
  {
    match m
    case AdvanceTo(p) => EnterInv(s, p);
    case HostWork(_) => MovedInv(s, Step(s, m));
    case _ => ClientInv(s, m);
  }

  lemma StepInv(s: Config, m: Move)
    requires Inv(s) && RegularMove(m)
    ensures Inv(Step(s, m))
  {
    if s.pc.Resting? {
      RestingInv(s, m);
    } else if s.pc.Settling? {
      SettlingInv(s, m);
    } else if m.Tick? {
      TickInv(s);
    }
  }

  /** Every run whose advances have tolerances without gaps. */
  lemma {:induction false} RunInv(s: Config, moves: seq<Move>)
    requires Inv(s) && RegularRun(moves)
    ensures Inv(Run(s, moves))
    decreases |moves|
  {
    if moves != [] {
      assert moves[0] in moves;
      StepInv(s, moves[0]);
      RunInv(Step(s, moves[0]), moves[1..]);
    }
  }

  /** Any two wakes of any run. */
  lemma InstantsAreFrozen(t0: real, work: nat, moves: seq<Move>, i: nat, j: nat)
    requires RegularRun(moves)
    requires i < j < |Run(Initial(t0, work), moves).c.trace|
    ensures var trace := Run(Initial(t0, work), moves).c.trace; Ordered(trace[i], trace[j])
  {
    C.EveryRunConserves(t0, work, []);
    RunInv(Initial(t0, work), moves);
  }

  // ----- what is registered during an instant for later -----

  /** An entry registered in the instant in which it wakes was due in it; one registered for later wakes in a later
      instant, later than it was registered. */
  predicate OnlyDue(v: Serve) {
    && (v.instant <= v.entry.seqno ==> Le(v.entry.deadline, At(v.at)) && v.entry.registeredAt == v.at)
    && (Lt(At(v.entry.registeredAt), v.entry.deadline) ==> v.entry.seqno < v.instant && v.entry.registeredAt < v.at)
  }

  ghost predicate AllOnlyDue(c: Clock) {
    forall i :: 0 <= i < |c.trace| ==> OnlyDue(c.trace[i])
  }

  lemma PopOnlyDue(f: Clock, p: Params)
    requires Phase(f, p) && Numbered(f) && f.instant != {} && f.anchor.Some?
    requires Timely(p, Least(ByPriority, f.instant), f.now)
    ensures OnlyDue(Serve(Least(ByPriority, f.instant), f.now, f.instantSeq, f.nextSeq))
  {}

  lemma StepOnlyDue(s: Config, m: Move)
    requires Inv(s) && AllOnlyDue(s.c)
    ensures AllOnlyDue(Step(s, m).c)
  {
    hide OnlyDue;
    if s.pc.Popping? && m.Tick? {
      var f := Find(s.c, s.p);
      C.FindHistory(s.c, s.p);
      FindPhase(s.c, s.p);
      FindOrderly(s.c, s.p);
      hide Find, Phase, Numbered, Orderly;
      if f.instant != {} { PopOnlyDue(f, s.p); }
    } else {
      SameTrace(s, m);
    }
  }

  lemma SameTrace(s: Config, m: Move)
    requires !(s.pc.Popping? && m.Tick?)
    ensures Step(s, m).c.trace == s.c.trace
  {
    ClientExtends(s.c, m);
    C.FindHistory(s.c, s.p);
    hide Find, Client;
  }

  lemma {:induction false} RunOnlyDue(s: Config, moves: seq<Move>)
    requires Inv(s) && RegularRun(moves) && AllOnlyDue(s.c)
    ensures AllOnlyDue(Run(s, moves).c)
    decreases |moves|
  {
    hide Inv, AllOnlyDue, Step;
    if moves != [] {
      assert moves[0] in moves;
      StepInv(s, moves[0]);
      StepOnlyDue(s, moves[0]);
      RunOnlyDue(Step(s, moves[0]), moves[1..]);
    }
  }

  /** Every wake of every run: what is registered during an instant for later, be it after the instant's last wake,
      wakes in a later instant, and later than it was registered. */
  lemma LaterInstants(t0: real, work: nat, moves: seq<Move>, i: nat)
    requires RegularRun(moves) && i < |Run(Initial(t0, work), moves).c.trace|
    ensures OnlyDue(Run(Initial(t0, work), moves).c.trace[i])
  {
    C.EveryRunConserves(t0, work, []);
    RunOnlyDue(Initial(t0, work), moves);
  }
}
