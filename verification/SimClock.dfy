/** `SimClock` itself: heaps of waiters updated in place, proved against the clock as a value. */
module SimClocks {
  import opened Times
  import opened Entries
  import opened MinHeap
  import opened ClockModel
  import opened ClockLoops
  import C = Conservation
  import S = Settles
  import P = Promptness
  import R = Runs
  import D = Drives

  /** How a call of `advance_to` ends; the first three leave the clock as it was. */
  datatype Result = ValueError | RuntimeError | PastTarget | Returned | Raised

  /** How a turn of the driver's loop ends. */
  datatype Progress = Again | Done | Failing

  /** Moves of other tasks only. */
  predicate Acting(ms: seq<R.Move>) {
    R.Raise !in ms && forall more :: R.RoundDone(more) !in ms
  }

  /** A settle ends with a round after which there is no hook to ask, or the hook answers False, while its budget lasts. */
  predicate EndsSettle(p: Params, ms: seq<R.Move>, m: R.Move) {
    S.GoesOn(ms) && S.Trues(ms) < p.maxSettles && (m == R.RoundDone(false) || (!p.hooked && m.RoundDone?))
  }

  /** It fails with something raised, or with the True answer that uses up the budget. */
  predicate FailsSettle(p: Params, ms: seq<R.Move>, m: R.Move) {
    S.GoesOn(ms) && (m == R.Raise || (p.hooked && m == R.RoundDone(true) && S.Trues(ms) + 1 == p.maxSettles))
  }

  ghost function EntriesIn(h: seq<Waiter>): set<Entry> {
    set w | w in h :: w.entry
  }

  /** A sequence number names one waiter. */
  ghost predicate Handles(issued: seq<Waiter>) {
    forall v, w :: v in issued && w in issued && v.entry.seqno == w.entry.seqno ==> v == w
  }

  lemma TopLeast(o: Order, h: seq<Waiter>)
    requires HeapOrdered(o, h) && h != []
    ensures IsLeast(o, EntriesIn(h), h[0].entry)
  {
    forall x | x in EntriesIn(h) ensures !Less(o, x, h[0].entry) {
      var w :| w in h && w.entry == x;
      var i :| 0 <= i < |h| && h[i] == w;
      HeapTop(o, h, i);
      assert Ordered(o, h, 0, i);
    }
  }

  lemma MembersOf(h: seq<Waiter>, w: Waiter)
    ensures w in h <==> 0 < multiset(h)[w]
  {}

  lemma PopEntries(h: seq<Waiter>, r: seq<Waiter>, issued: seq<Waiter>)
    requires h != [] && multiset(h) == multiset(r) + multiset{h[0]}
    requires Handles(issued) && (forall w :: w in h ==> w in issued) && multiset(h)[h[0]] <= 1
    ensures EntriesIn(r) == EntriesIn(h) - {h[0].entry} && h[0] !in r && forall w :: w in r ==> w in h
  {
    forall w ensures w in h <==> w in r || w == h[0] {
      MembersOf(h, w);
      MembersOf(r, w);
    }
    MembersOf(r, h[0]);
    forall x | x in EntriesIn(h) - {h[0].entry} ensures x in EntriesIn(r) {
      var w :| w in h && w.entry == x;
      assert w in r;
    }
  }

  lemma PushEntries(h: seq<Waiter>, r: seq<Waiter>, w: Waiter)
    requires multiset(r) == multiset(h) + multiset{w}
    ensures EntriesIn(r) == EntriesIn(h) + {w.entry} && forall v :: v in r <==> v in h || v == w
  {
    forall v ensures v in r <==> v in h || v == w {
      MembersOf(h, v);
      MembersOf(r, v);
    }
  }

  ghost function CancelledIn(issued: seq<Waiter>): set<nat>
    reads issued
  {
    set w | w in issued && w.cancelled :: w.entry.seqno
  }

  /** The waiters whose event is set, or whose callback was called, are the served ones. */
  ghost predicate WokenAre(issued: seq<Waiter>, served: set<Entry>)
    reads issued
  {
    forall w :: w in issued ==> (w.woken <==> w.entry in served)
  }

  ghost predicate AllIn(h: seq<Waiter>, issued: seq<Waiter>) {
    forall w :: w in h ==> w in issued
  }

  ghost function Held(waiters: seq<Waiter>, deferred: seq<Waiter>, instant: seq<Waiter>): multiset<Waiter> {
    multiset(waiters) + multiset(deferred) + multiset(instant)
  }

  /** No waiter is held twice. */
  ghost predicate Once(m: multiset<Waiter>, issued: seq<Waiter>) {
    forall w :: w in issued ==> m[w] <= 1
  }

  /** The containers: two heaps, nothing held twice, everything issued. */
  ghost predicate ShapeOf(waiters: seq<Waiter>, deferred: seq<Waiter>, instant: seq<Waiter>, issued: seq<Waiter>) {
    && HeapOrdered(ByDeadline, waiters) && HeapOrdered(ByPriority, instant)
    && Handles(issued) && AllIn(waiters, issued) && AllIn(deferred, issued) && AllIn(instant, issued)
    && Once(Held(waiters, deferred, instant), issued)
  }

  /** A waiter leaves the heap, for the deferred list or for good. */
  lemma DropShape(waiters: seq<Waiter>, rest: seq<Waiter>, deferred: seq<Waiter>, instant: seq<Waiter>, issued: seq<Waiter>)
    requires ShapeOf(waiters, deferred, instant, issued) && waiters != [] && HeapOrdered(ByDeadline, rest)
    requires multiset(waiters) == multiset(rest) + multiset{waiters[0]}
    ensures ShapeOf(rest, deferred, instant, issued) && ShapeOf(rest, deferred + [waiters[0]], instant, issued)
    ensures EntriesIn(rest) == EntriesIn(waiters) - {waiters[0].entry} && |rest| < |waiters|
    ensures EntriesIn(deferred + [waiters[0]]) == EntriesIn(deferred) + {waiters[0].entry}
    ensures Held(rest, deferred, instant) <= Held(waiters, deferred, instant)
    ensures Held(rest, deferred + [waiters[0]], instant) == Held(waiters, deferred, instant)
  {
    var w := waiters[0];
    assert w in issued && multiset(waiters)[w] <= Held(waiters, deferred, instant)[w];
    PopEntries(waiters, rest, issued);
    assert |multiset(waiters)| == |multiset(rest)| + 1;
    assert multiset(deferred + [w]) == multiset(deferred) + multiset{w};
    PushEntries(deferred, deferred + [w], w);
  }

  /** A waiter leaves the heap for the open instant. */
  lemma JoinShape(waiters: seq<Waiter>, rest: seq<Waiter>, deferred: seq<Waiter>, instant: seq<Waiter>, joined: seq<Waiter>,
                  issued: seq<Waiter>)
    requires ShapeOf(waiters, deferred, instant, issued) && waiters != []
    requires HeapOrdered(ByDeadline, rest) && HeapOrdered(ByPriority, joined)
    requires multiset(waiters) == multiset(rest) + multiset{waiters[0]}
    requires multiset(joined) == multiset(instant) + multiset{waiters[0]}
    ensures ShapeOf(rest, deferred, joined, issued) && |rest| < |waiters|
    ensures EntriesIn(rest) == EntriesIn(waiters) - {waiters[0].entry}
    ensures EntriesIn(joined) == EntriesIn(instant) + {waiters[0].entry}
    ensures Held(rest, deferred, joined) == Held(waiters, deferred, instant)
  {
    DropShape(waiters, rest, deferred, instant, issued);
    PushEntries(instant, joined, waiters[0]);
  }

  /** A waiter enters the heap. */
  lemma EnterShape(waiters: seq<Waiter>, more: seq<Waiter>, deferred: seq<Waiter>, instant: seq<Waiter>,
                   issued: seq<Waiter>, w: Waiter)
    requires ShapeOf(waiters, deferred, instant, issued) && HeapOrdered(ByDeadline, more) && w in issued
    requires multiset(more) == multiset(waiters) + multiset{w}
    requires Once(Held(waiters, deferred, instant) + multiset{w}, issued)
    ensures ShapeOf(more, deferred, instant, issued) && EntriesIn(more) == EntriesIn(waiters) + {w.entry}
    ensures Held(more, deferred, instant) == Held(waiters, deferred, instant) + multiset{w}
  {
    PushEntries(waiters, more, w);
  }

  /** A waiter leaves the open instant. */
  lemma LeaveShape(waiters: seq<Waiter>, deferred: seq<Waiter>, instant: seq<Waiter>, rest: seq<Waiter>, issued: seq<Waiter>)
    requires ShapeOf(waiters, deferred, instant, issued) && instant != [] && HeapOrdered(ByPriority, rest)
    requires multiset(instant) == multiset(rest) + multiset{instant[0]}
    ensures ShapeOf(waiters, deferred, rest, issued) && |rest| < |instant|
    ensures EntriesIn(rest) == EntriesIn(instant) - {instant[0].entry}
  {
    var w := instant[0];
    assert w in issued && multiset(instant)[w] <= Held(waiters, deferred, instant)[w];
    PopEntries(instant, rest, issued);
    assert |multiset(instant)| == |multiset(rest)| + 1;
  }

  function Found(r: Option<Waiter>): Option<Entry> {
    match r
    case None => None
    case Some(w) => Some(w.entry)
  }

  class SimClock {
    var t: real
    var waiters: seq<Waiter>
    var nextSeq: nat
    var advancing: bool
    var deferred: seq<Waiter>
    var anchor: Option<Time>
    var instantEnd: Time
    var instantSeq: nat
    var instant: seq<Waiter>
    /** The waiters handed out: what tasks and `call_at`'s cancel functions hold on to. */
    var issued: seq<Waiter>
    ghost var trace: seq<Serve>

    ghost function View(): Clock
      reads this, issued
    {
      Clock(t, EntriesIn(waiters), nextSeq, advancing, EntriesIn(deferred), anchor, instantEnd, instantSeq,
            EntriesIn(instant), CancelledIn(issued), EntriesIn(issued), trace)
    }

    ghost predicate Shape()
      reads this
    {
      ShapeOf(waiters, deferred, instant, issued)
    }

    ghost predicate Valid()
      reads this, issued
    {
      Shape() && C.Conserved(View()) && WokenAre(issued, C.ServedSet(View()))
    }

    ghost function Contents(): multiset<Waiter>
      reads this
    {
      Held(waiters, deferred, instant)
    }

    lemma LiveWaiter(w: Waiter)
      requires Shape() && w in issued
      ensures Live(View(), w.entry) <==> !w.cancelled
    {}

    lemma TopIssued()
      requires Shape() && waiters != []
      ensures waiters[0] in issued
    {
      MembersOf(waiters, waiters[0]);
    }

    lemma ShapeDistinct()
      requires Shape()
      ensures Distinct(View().heap) && Distinct(View().instant) && Distinct(View().known)
      ensures View().heap !! View().instant && View().heap !! View().deferred
    {
      forall w | w in waiters ensures w !in instant && w !in deferred {
        MembersOf(waiters, w);
        MembersOf(instant, w);
        MembersOf(deferred, w);
      }
    }

    constructor (t0: real)
      ensures Valid() && View() == NewClock(t0) && issued == []
    {
      t := t0;
      waiters, nextSeq, advancing, deferred := [], 0, false, [];
      anchor, instantEnd, instantSeq, instant := None, NegInf, 0, [];
      issued, trace := [], [];
      new;
      assert View() == NewClock(t0);
      assert C.ServedSet(View()) == {};
    }

    /** The branch of `_heap_due` that takes the top off the heap and sets it aside unless cancelled. */
    method DropTop()
      requires Shape() && waiters != []
      modifies this`waiters, this`deferred
      ensures Shape() && View() == Drop(old(View()), old(waiters[0]).entry)
      ensures Contents() <= old(Contents()) && |waiters| < |old(waiters)|
    {
      hide ShapeOf, EntriesIn, Held, HeapOrdered, CancelledIn;
      ShapeHeaps(waiters, deferred, instant, issued);
      TopIssued();
      var w := waiters[0];
      LiveWaiter(w);
      var rest := HeapPop(ByDeadline, waiters);
      DropShape(waiters, rest, deferred, instant, issued);
      waiters := rest;
      if !w.cancelled {
        deferred := deferred + [w];
      }
    }

    /** `_heap_due`. */
    method HeapDue(p: Params) returns (r: Option<Waiter>)
      requires Shape()
      modifies this`waiters, this`deferred
      ensures Shape() && View() == Skim(old(View()), p) && Skim(View(), p) == View() && Top(View(), p) == Top(old(View()), p)
      ensures Found(r) == Top(View(), p) && TopIs(View(), p, Found(r))
      ensures r.Some? ==> waiters != [] && r.value == waiters[0]
      ensures Contents() <= old(Contents()) && |waiters| <= |old(waiters)|
    {
      hide Skim, Top, ShapeOf, EntriesIn, CancelledIn, Drop, HeapOrdered;
      while waiters != []
        invariant Shape() && Skim(View(), p) == Skim(old(View()), p) && Top(View(), p) == Top(old(View()), p)
        invariant Contents() <= old(Contents()) && |waiters| <= |old(waiters)|
        decreases |waiters|
      {
        var w := waiters[0];
        var close := Near(w.entry.deadline, p.t, p.tol);
        ShapeHeaps(waiters, deferred, instant, issued);
        TopLeast(ByDeadline, waiters);
        TopIssued();
        LiveWaiter(w);
        ShapeDistinct();
        if w.cancelled || (close && Lt(At(p.t), w.entry.deadline) && p.t <= w.entry.registeredAt) {
          SkimStep(View(), p, w.entry);
          DropTop();
        } else {
          SkimStop(View(), p, w.entry);
          return if Le(w.entry.deadline, At(p.t)) || close then Some(w) else None;
        }
      }
      EmptyEntries(waiters);
      SkimEmpty(View(), p);
      return None;
    }

    /** The inner loops of `_pop_due`: entries close to the anchor join the instant, unless they were
        registered during it; those wait aside and return to the heap. */
    method Gather(p: Params)
      requires Shape() && anchor.Some?
      modifies this`waiters, this`deferred, this`instant, this`instantEnd
      ensures Shape() && View() == Gathered(old(View()), p, anchor.value)
    {
      hide ShapeOf, EntriesIn, Held, Gathered, Skim, Top, Once;
      ghost var a := anchor.value;
      var later: seq<Waiter> := [];
      assert EntriesIn([]) == {} && Once(Contents() + multiset([]), issued) by { NothingLater(waiters, deferred, instant, issued); }
      GatherSkim(View(), p, a);
      var w := HeapDue(p);
      OnceLess(Contents(), old(Contents()), multiset(later), issued);
      while w.Some? && IsClose(w.value.entry.deadline, anchor.value, p.tol)
        invariant Shape() && AllIn(later, issued) && Once(Contents() + multiset(later), issued)
        invariant GatheredWith(View(), p, a, EntriesIn(later)) == GatheredWith(old(View()), p, a, {})
        invariant TopIs(View(), p, Found(w)) && (w.Some? ==> waiters != [] && w.value == waiters[0])
        decreases |waiters|
      {
        later := TakeClose(p, later);
        label taken:
        GatherSkim(View(), p, a);
        w := HeapDue(p);
        OnceLess(Contents(), old@taken(Contents()), multiset(later), issued);
      }
      ShapeDistinct();
      GatherStop(View(), p, a);
      PutBack(later);
      assert GatheredWith(old(View()), p, a, {}) == Gathered(old(View()), p, a) by { WithNone(old(View()), p, a); }
    }

    /** One turn of the gathering loop: the top is close, and goes to the instant or aside. */
    method TakeClose(p: Params, later: seq<Waiter>) returns (r: seq<Waiter>)
      requires Shape() && anchor.Some? && waiters != [] && AllIn(later, issued) && Once(Contents() + multiset(later), issued)
      requires TopIs(View(), p, Some(waiters[0].entry)) && IsClose(waiters[0].entry.deadline, anchor.value, p.tol)
      modifies this`waiters, this`instant, this`instantEnd
      ensures Shape() && AllIn(r, issued) && Once(Contents() + multiset(r), issued) && |waiters| < |old(waiters)|
      ensures GatheredWith(View(), p, anchor.value, EntriesIn(r)) == GatheredWith(old(View()), p, anchor.value, EntriesIn(later))
    {
      CloseTop(p);
      hide ShapeOf, EntriesIn, Held, HeapOrdered, Gathered, Once, TopIs, Distinct, IsLeast, Due, IsClose, Eligible;
      if waiters[0].entry.seqno < instantSeq {
        GatherJoin(View(), p, anchor.value, waiters[0].entry);
        JoinTop();
        r := later;
      } else {
        ghost var c := View();
        GatherLater(c, p, anchor.value, waiters[0].entry);
        r := SetAside(later);
        WithOne(View(), c, p, anchor.value, EntriesIn(later), old(waiters[0]).entry);
      }
    }

    method JoinTop()
      requires Shape() && waiters != []
      modifies this`waiters, this`instant, this`instantEnd
      ensures Shape() && Contents() == old(Contents()) && |waiters| < |old(waiters)|
      ensures var c, e := old(View()), old(waiters[0]).entry;
        View() == c.(heap := c.heap - {e}, instant := c.instant + {e}, end := MaxTime(c.end, e.deadline))
    {
      ShapeHeaps(waiters, deferred, instant, issued);
      hide ShapeOf, EntriesIn, Held, HeapOrdered;
      var w := waiters[0];
      var rest := HeapPop(ByDeadline, waiters);
      var joined := HeapPush(ByPriority, instant, w);
      JoinShape(waiters, rest, deferred, instant, joined, issued);
      waiters, instant := rest, joined;
      instantEnd := MaxTime(instantEnd, w.entry.deadline);
    }

    method SetAside(later: seq<Waiter>) returns (r: seq<Waiter>)
      requires Shape() && waiters != [] && AllIn(later, issued) && Once(Contents() + multiset(later), issued)
      modifies this`waiters
      ensures Shape() && AllIn(r, issued) && Once(Contents() + multiset(r), issued) && |waiters| < |old(waiters)|
      ensures var c, e := old(View()), old(waiters[0]).entry;
        View() == c.(heap := c.heap - {e}) && EntriesIn(r) == EntriesIn(later) + {e}
    {
      ShapeHeaps(waiters, deferred, instant, issued);
      hide ShapeOf, EntriesIn, Held, HeapOrdered, Once;
      var rest := HeapPop(ByDeadline, waiters);
      DropShape(waiters, rest, deferred, instant, issued);
      LaterMore(waiters, rest, deferred, instant, issued, later);
      r := later + [waiters[0]];
      waiters := rest;
    }

    lemma CloseTop(p: Params)
      requires Shape() && waiters != [] && TopIs(View(), p, Some(waiters[0].entry))
      ensures var c, e := View(), waiters[0].entry;
        Distinct(c.heap) && IsLeast(ByDeadline, c.heap, e) && Eligible(c, p, e) && Due(p, e) && e !in c.instant
    {
      ShapeDistinct();
      TopLeast(ByDeadline, waiters);
      LeastUnique(ByDeadline, View().heap, waiters[0].entry);
      assert waiters[0].entry in View().heap;
    }

    /** The entries set aside return to the heap. */
    method PutBack(later: seq<Waiter>)
      requires Shape() && AllIn(later, issued) && Once(Contents() + multiset(later), issued)
      modifies this`waiters
      ensures Shape() && View() == old(View()).(heap := old(View()).heap + EntriesIn(later))
    {
      hide ShapeOf, Held, HeapOrdered, Once, EntriesIn, CancelledIn, AllIn;
      EmptyEntries(later[..0]);
      AllOf(later, issued);
      assert later[0..] == later;
      for i := 0 to |later|
        invariant Shape() && Once(Contents() + multiset(later[i..]), issued)
        invariant View() == old(View()).(heap := old(View()).heap + EntriesIn(later[..i]))
      {
        LaterFirst(Contents(), later, i, issued);
        Enter(later[i]);
      }
      assert later[..|later|] == later;
    }

    method Enter(w: Waiter)
      requires Shape() && w in issued && Once(Contents() + multiset{w}, issued)
      modifies this`waiters
      ensures Shape() && View() == old(View()).(heap := old(View()).heap + {w.entry})
      ensures Contents() == old(Contents()) + multiset{w}
    {
      ShapeHeaps(waiters, deferred, instant, issued);
      hide ShapeOf, Held, HeapOrdered, Once, EntriesIn;
      var more := HeapPush(ByDeadline, waiters, w);
      EnterShape(waiters, more, deferred, instant, issued, w);
      waiters := more;
    }

    method LeaveInstant()
      requires Shape() && instant != []
      modifies this`instant
      ensures Shape() && |instant| < |old(instant)|
      ensures View() == old(View()).(instant := old(View()).instant - {old(instant[0]).entry})
    {
      ShapeHeaps(waiters, deferred, instant, issued);
      hide ShapeOf, EntriesIn, Held, HeapOrdered;
      var rest := HeapPop(ByPriority, instant);
      LeaveShape(waiters, deferred, instant, rest, issued);
      instant := rest;
    }

    lemma InstantTop()
      requires Shape() && instant != []
      ensures var c := View();
        Distinct(c.instant) && c.instant != {} && instant[0].entry == Least(ByPriority, c.instant) && instant[0] in issued &&
        (Live(c, instant[0].entry) <==> !instant[0].cancelled)
    {
      ShapeDistinct();
      ShapeHeaps(waiters, deferred, instant, issued);
      TopLeast(ByPriority, instant);
      assert instant[0].entry in EntriesIn(instant);
      LeastUnique(ByPriority, View().instant, instant[0].entry);
      LiveWaiter(instant[0]);
    }

    /** Cancelled entries at the top of the instant are dropped. */
    method PruneInstant()
      requires Shape()
      modifies this`instant
      ensures Shape() && View() == Pruned(old(View()))
    {
      hide ShapeOf;
      while instant != [] && instant[0].cancelled
        invariant Shape() && Pruned(View()) == Pruned(old(View()))
        decreases |instant|
      {
        InstantTop();
        PruneStep(View(), ByPriority, View().instant, instant[0].entry);
        LeaveInstant();
      }
      if instant != [] { InstantTop(); }
      PruneStop(View(), ByPriority, View().instant);
    }

    /** One pass over the heap and the instant. */
    method Pass(p: Params)
      requires Shape() && anchor.Some?
      modifies this`waiters, this`deferred, this`instant, this`instantEnd
      ensures Shape() && View() == Collect(old(View()), p, anchor.value)
    {
      hide ShapeOf, Gathered, Pruned, Collect;
      CollectSplit(View(), p, anchor.value);
      Gather(p);
      PruneInstant();
    }

    /** The anchor of the next instant, if any entry is due. */
    method OpenInstant(p: Params) returns (found: bool)
      requires Shape()
      modifies this`waiters, this`nextSeq, this`deferred, this`anchor, this`instantEnd, this`instantSeq
      ensures Shape() && found == Top(old(View()), p).Some?
      ensures View() == if found then Open(Skim(old(View()), p), Top(old(View()), p).value.deadline) else Skim(old(View()), p)
    {
      hide ShapeOf, Skim, Top, EntriesIn, TopIs;
      var first := HeapDue(p);
      if first.Some? {
        anchor, instantEnd, instantSeq, nextSeq := Some(first.value.entry.deadline), NegInf, nextSeq, nextSeq + 1;
      }
      return first.Some?;
    }

    /** The instant's next entry, at the instant's time. */
    method TakeNext(p: Params, peek: bool) returns (w: Waiter)
      requires Shape() && instant != []
      modifies this`t, this`instant
      ensures Shape() && w in issued && View().nextSeq == old(View()).nextSeq
      ensures var f := Arrive(old(View()), p);
        f.instant != {} && w.entry == Least(ByPriority, f.instant) &&
        View() == if peek then f else f.(instant := f.instant - {w.entry})
    {
      InstantTop();
      hide ShapeOf, EntriesIn;
      t := Arrival(p, t, instantEnd);
      w := instant[0];
      if !peek { LeaveInstant(); }
    }

    /** `_pop_due`: at most two passes. */
    method PopDue(p: Params, peek: bool) returns (r: Option<Waiter>)
      requires Shape() && C.Conserved(View())
      modifies this`t, this`waiters, this`nextSeq, this`deferred, this`anchor, this`instantEnd, this`instantSeq, this`instant
      ensures Shape()
      ensures var f := Find(old(View()), p);
        if f.instant == {} then r == None && View() == f
        else r.Some? && r.value in issued && r.value.entry == Least(ByPriority, f.instant) &&
             View() == if peek then f else f.(instant := f.instant - {r.value.entry})
    {
      hide ShapeOf, Skim, Top, Collect, EntriesIn, C.Conserved, Arrive, Reopen;
      while true
        invariant Shape() && C.Conserved(View())
        invariant View() == old(View()) || (anchor.None? && View().instant == {} && Reopen(View(), p) == Find(old(View()), p))
        decreases if anchor.Some? then 1 else 0
      {
        ghost var c := View();
        if anchor.None? {
          FindIdle(c, p);
          var found := OpenInstant(p);
          if !found { return None; }
        } else {
          FindPass(c, p, anchor.value);
        }
        Pass(p);
        EmptyEntries(instant);
        if instant != [] {
          var w := TakeNext(p, peek);
          return Some(w);
        }
        anchor := None;
      }
    }

    // ----- what clients call -----

    /** A new waiter under the next sequence number. */
    method Issue(d: Time, priority: int, isCall: bool) returns (w: Waiter)
      requires Valid()
      modifies this`nextSeq, this`issued
      ensures fresh(w) && w.entry == Entry(d, priority, old(nextSeq), old(t), isCall) && !w.woken && issued == old(issued) + [w]
      ensures Shape() && Once(Contents() + multiset{w}, issued)
      ensures View() == old(View()).(nextSeq := old(nextSeq) + 1, known := old(View()).known + {w.entry})
    {
      w := new Waiter(Entry(d, priority, nextSeq, t, isCall));
      IssueShape(waiters, deferred, instant, issued, w, nextSeq);
      NewCancelled(issued, w);
      hide ShapeOf, C.Conserved, Held, Once, EntriesIn, CancelledIn;
      issued := issued + [w];
      nextSeq := nextSeq + 1;
    }

    /** What a registration leaves valid. */
    lemma StillValid(c: Clock, before: seq<Waiter>, w: Waiter, m: R.Move)
      requires C.Conserved(c) && Shape() && View() == R.Client(c, m) && issued == before + [w]
      requires !w.woken && w.entry.seqno == c.nextSeq && EntriesIn(before) == c.known
      requires WokenAre(before, C.ServedSet(c))
      ensures Valid()
    {
      C.ClientConserved(c, m);
      assert C.ServedSet(View()) == C.ServedSet(c);
    }

    /** `wait_until`, past its checkpoint; the caller sleeps on the waiter it gets, if any. */
    method WaitUntil(d: Time, priority: int) returns (w: Waiter?)
      requires Valid()
      modifies this`nextSeq, this`issued, this`waiters
      ensures Valid() && View() == ClockModel.WaitUntil(old(View()), d, priority)
      ensures if Le(d, At(old(t))) then w == null && issued == old(issued)
              else w != null && fresh(w) && issued == old(issued) + [w] && w.entry == Entry(d, priority, old(nextSeq), old(t), false)
    {
      if Le(d, At(t)) { return null; }
      ghost var c, before := View(), issued;
      w := Issue(d, priority, false);
      hide ShapeOf, C.Conserved, Held, Once, EntriesIn, CancelledIn;
      Enter(w);
      StillValid(c, before, w, R.Sleep(d, priority));
    }

    method CallAt(d: Time, priority: int) returns (w: Waiter)
      requires Valid()
      modifies this`nextSeq, this`issued, this`waiters, this`instant
      ensures Valid() && View() == ClockModel.CallAt(old(View()), d, priority)
      ensures fresh(w) && issued == old(issued) + [w] && w.entry == Entry(d, priority, old(nextSeq), old(t), true)
    {
      ghost var c, before := View(), issued;
      hide ShapeOf, C.Conserved, Held, Once, EntriesIn, CancelledIn;
      w := Issue(d, priority, true);
      hide WokenAre, C.ServedSet;
      PlaceCall(w);
      assert View() == ClockModel.CallAt(c, d, priority);
      hide ClockModel.CallAt;
      StillValid(c, before, w, R.Callback(d, priority));
    }

    method PlaceCall(w: Waiter)
      requires Shape() && w in issued && Once(Contents() + multiset{w}, issued)
      modifies this`waiters, this`instant
      ensures Shape()
      ensures var c := old(View());
        View() == if c.anchor.Some? && Le(w.entry.deadline, At(c.now)) then c.(instant := c.instant + {w.entry})
                  else c.(heap := c.heap + {w.entry})
    {
      hide ShapeOf, Held, Once, EntriesIn, CancelledIn;
      if anchor.Some? && Le(w.entry.deadline, At(t)) {
        Join(w);
      } else {
        Enter(w);
      }
    }

    method Join(w: Waiter)
      requires Shape() && w in issued && Once(Contents() + multiset{w}, issued)
      modifies this`instant
      ensures Shape() && View() == old(View()).(instant := old(View()).instant + {w.entry})
    {
      ShapeHeaps(waiters, deferred, instant, issued);
      hide Held, HeapOrdered, Once, EntriesIn;
      var joined := HeapPush(ByPriority, instant, w);
      PushEntries(instant, joined, w);
      JoinHeld(waiters, deferred, instant, joined, w, issued);
      instant := joined;
    }

    method Flag(w: Waiter)
      requires Valid() && w in issued
      modifies w`cancelled
      ensures Shape() && View() == old(View()).(cancelled := old(View()).cancelled + {w.entry.seqno})
      ensures WokenAre(issued, C.ServedSet(old(View())))
    {
      ghost var before := CancelledIn(issued);
      w.Cancel();
      assert CancelledIn(issued) == before + {w.entry.seqno};
    }

    /** The cancel function `call_at` returned with `w`. */
    method CancelCall(w: Waiter)
      requires Valid() && w in issued && w.entry.isCall
      modifies w`cancelled
      ensures Valid() && View() == ClockModel.CancelCall(old(View()), w.entry.seqno)
    {
      ghost var c := View();
      assert w.entry in c.known;
      Flag(w);
      C.ClientConserved(c, R.DropCallback(w.entry.seqno));
      assert C.ServedSet(View()) == C.ServedSet(c);
    }

    /** The `finally` of a `wait_until` whose task is cancelled. */
    method CancelSleep(w: Waiter)
      requires Valid() && w in issued && !w.entry.isCall
      modifies w`cancelled, this`waiters
      ensures Valid() && View() == ClockModel.CancelSleep(old(View()), w.entry.seqno)
    {
      ghost var c := View();
      SleepEffect(w);
      hide ShapeOf, C.Conserved, EntriesIn, CancelledIn, C.ServedSet, WokenAre, DeadTops, R.Client;
      if !w.woken {
        Flag(w);
        PruneHeap();
      }
      assert View() == ClockModel.CancelSleep(c, w.entry.seqno);
      SleepConserved(c, w.entry.seqno);
      SameServed(View(), c);
    }

    lemma SleepEffect(w: Waiter)
      requires Valid() && w in issued && !w.entry.isCall
      ensures var c, n := View(), w.entry.seqno;
        w.woken <==> !(exists x :: x in c.known && x.seqno == n && !x.isCall && !Served(c, x))
    {
      assert w.entry in View().known;
      assert Served(View(), w.entry) <==> w.entry in C.ServedSet(View());
    }

    method LeaveHeap()
      requires Shape() && waiters != []
      modifies this`waiters
      ensures Shape() && |waiters| < |old(waiters)|
      ensures View() == old(View()).(heap := old(View()).heap - {old(waiters[0]).entry})
    {
      ShapeHeaps(waiters, deferred, instant, issued);
      hide ShapeOf, EntriesIn, Held, HeapOrdered;
      var rest := HeapPop(ByDeadline, waiters);
      DropShape(waiters, rest, deferred, instant, issued);
      waiters := rest;
    }

    method PruneHeap()
      requires Shape()
      modifies this`waiters
      ensures Shape() && View() == old(View()).(heap := old(View()).heap - DeadTops(old(View()), ByDeadline, old(View()).heap))
    {
      hide ShapeOf, EntriesIn;
      ghost var c := View();
      while waiters != [] && waiters[0].cancelled
        invariant Shape() && View() == c.(heap := View().heap)
        invariant View().heap - DeadTops(c, ByDeadline, View().heap) == c.heap - DeadTops(c, ByDeadline, c.heap)
        decreases |waiters|
      {
        HeapTopFacts();
        PruneStep(c, ByDeadline, View().heap, waiters[0].entry);
        LeaveHeap();
      }
      if waiters != [] { HeapTopFacts(); } else { EmptyEntries(waiters); }
      PruneStop(c, ByDeadline, View().heap);
    }

    lemma HeapTopFacts()
      requires Shape() && waiters != []
      ensures var c := View();
        Distinct(c.heap) && c.heap != {} && IsLeast(ByDeadline, c.heap, waiters[0].entry) &&
        waiters[0].entry == Least(ByDeadline, c.heap) && (Live(c, waiters[0].entry) <==> !waiters[0].cancelled)
    {
      ShapeDistinct();
      TopLeast(ByDeadline, waiters);
      LeastUnique(ByDeadline, View().heap, waiters[0].entry);
      LiveWaiter(waiters[0]);
    }

    /** The waiter a client's handle names. */
    method Handle(n: nat) returns (r: Option<Waiter>)
      requires Shape()
      ensures r.Some? ==> r.value in issued && r.value.entry.seqno == n
      ensures r.None? ==> forall x :: x in View().known ==> x.seqno != n
      ensures r.Some? ==> forall x :: x in View().known && x.seqno == n ==> x == r.value.entry
    {
      for i := 0 to |issued|
        invariant forall j :: 0 <= j < i ==> issued[j].entry.seqno != n
      {
        if issued[i].entry.seqno == n { return Some(issued[i]); }
      }
      return None;
    }

    /** One action of a client task. */
    method Perform(m: R.Move)
      requires Valid()
      modifies this, issued
      ensures Valid() && View() == R.Client(old(View()), m)
      ensures old(issued) <= issued && forall i :: |old(issued)| <= i < |issued| ==> fresh(issued[i])
    {
      hide ShapeOf, C.Conserved, EntriesIn, CancelledIn, WokenAre, C.ServedSet, ClockModel.WaitUntil, ClockModel.CallAt;
      match m
      case Sleep(d, priority) => var _ := WaitUntil(d, priority);
      case Callback(d, priority) => var _ := CallAt(d, priority);
      case DropCallback(n) =>
        var h := Handle(n);
        if h.Some? && h.value.entry.isCall { CancelCall(h.value); }
      case DropSleep(n) =>
        var h := Handle(n);
        if h.Some? && !h.value.entry.isCall { CancelSleep(h.value); }
      case _ =>
    }

    // ----- the driver -----

    /** The checkpoints of one settle round, then `settle()`: other tasks act by the given list until the round
        ends or raises; an exhausted list ends it. The run so far is extended by what happened. */
    method Round(env: seq<R.Move>, ghost s: R.Config)
      returns (rest: seq<R.Move>, more: bool, raised: bool, ghost run: seq<R.Move>, ghost e: R.Config)
      requires Valid() && advancing && s.pc.Settling? && s.c == View()
      modifies this, issued
      ensures Valid() && advancing && e == R.Run(s, run) && e == s.(c := View(), work := e.work)
      ensures |rest| < |env| || (rest == env && View() == old(View()))
      ensures Acting(run) && (raised ==> R.Raise in env) && (more ==> R.RoundDone(true) in env)
      ensures old(issued) <= issued && forall i :: |old(issued)| <= i < |issued| ==> fresh(issued[i])
    {
      hide ShapeOf, C.Conserved, EntriesIn, CancelledIn, WokenAre, C.ServedSet;
      rest, run, more, raised, e := env, [], false, false, s;
      while rest != []
        invariant Valid() && advancing && e == R.Run(s, run) && e == s.(c := View(), work := e.work)
        invariant |rest| < |env| || (rest == env && View() == old(View()))
        invariant Acting(run) && forall x :: x in rest ==> x in env
        invariant old(issued) <= issued && forall i :: |old(issued)| <= i < |issued| ==> fresh(issued[i])
        decreases |rest|
      {
        var m := rest[0];
        rest := rest[1..];
        if m.RoundDone? { return rest, m.more, false, run, e; }
        if m.Raise? { return rest, false, true, run, e; }
        Perform(m);
        R.RunSnoc(s, run, m);
        run := run + [m];
        e := R.Step(e, m);
      }
    }

    /** `_settle`: false when it raises; `last` is then the move that made it fail. */
    method Settle(p: Params, env: seq<R.Move>, ghost s: R.Config)
      returns (rest: seq<R.Move>, ok: bool, ghost run: seq<R.Move>, ghost e: R.Config, ghost last: R.Move)
      requires Valid() && advancing && 1 <= p.maxSettles && s.pc.Settling? && s.pc.rounds == 0 && s.c == View() && s.p == p
      modifies this, issued
      ensures Valid() && advancing && e == R.Run(s, run) && e == s.(c := View(), work := e.work, pc := e.pc)
      ensures ok ==> e.pc == R.AfterSettle(s.pc.point)
      ensures !ok ==> e.pc.Settling? && R.Step(e, last) == R.Fail(e)
      ensures ok ==> run != [] && EndsSettle(p, run[..|run| - 1], run[|run| - 1])
      ensures !ok ==> FailsSettle(p, run, last)
      ensures |rest| < |env| || (rest == env && View() == old(View()))
      ensures old(issued) <= issued && forall i :: |old(issued)| <= i < |issued| ==> fresh(issued[i])
    {
      hide ShapeOf, C.Conserved, EntriesIn, CancelledIn, WokenAre, C.ServedSet, R.Client;
      rest, run, e, last := env, [], s, R.Raise;
      for k := 0 to p.maxSettles
        invariant Valid() && advancing && e == R.Run(s, run)
        invariant e == s.(c := View(), work := e.work, pc := R.Settling(s.pc.point, k))
        invariant |rest| < |env| || (rest == env && View() == old(View()))
        invariant old(issued) <= issued && forall i :: |old(issued)| <= i < |issued| ==> fresh(issued[i])
        invariant k < p.maxSettles && S.Trues(run) == k && S.GoesOn(run) && (run != [] ==> p.hooked)
      {
        ghost var moves, e';
        var more, raised;
        rest, more, raised, moves, e' := Round(rest, e);
        R.RunAppend(s, run, moves);
        S.TruesAppend(run, moves);
        run, e := run + moves, e';
        if raised { return rest, false, run, e, R.Raise; }
        R.RunSnoc(s, run, R.RoundDone(more));
        if !p.hooked || !more {
          return rest, true, run + [R.RoundDone(more)], R.Step(e, R.RoundDone(more)), R.Raise;
        }
        if k + 1 == p.maxSettles { return rest, false, run, e, R.RoundDone(true); }
        S.TruesAppend(run, [R.RoundDone(true)]);
        run := run + [R.RoundDone(true)];
        e := R.Step(e, R.RoundDone(true));
      }
    }

    /** The pop of the loop and the wake: its event is set, or its callback is called. */
    method PopAndWake(p: Params) returns (found: bool)
      requires Valid()
      modifies this, issued
      ensures Valid() && issued == old(issued) && advancing == old(advancing)
      ensures var f := Find(old(View()), p);
        found == (f.instant != {}) && View() == if found then Pop(f) else f
    {
      hide ShapeOf, C.Conserved, Find, EntriesIn, C.ServedSet, WokenAre, CancelledIn, Pop, IsLeast, Least;
      FindServed(View(), p);
      PopFacts(View(), p);
      var served := PopDue(p, false);
      if served.Some? {
        Wake(served.value, C.ServedSet(Find(old(View()), p)));
      }
      return served.Some?;
    }

    lemma PopFacts(c: Clock, p: Params)
      requires C.Conserved(c)
      ensures var f := Find(c, p);
        C.Conserved(f) && (f.instant != {} ==>
          var w := Least(ByPriority, f.instant);
          && C.Conserved(Pop(f)) && C.ServedSet(Pop(f)) == C.ServedSet(f) + {w}
          && Pop(f) == f.(instant := f.instant - {w}, trace := f.trace + [Serve(w, f.now, f.instantSeq, f.nextSeq)]))
    {
      C.FindConserved(c, p);
      if Find(c, p).instant != {} {
        C.PopConserved(Find(c, p));
        C.PopServed(Find(c, p));
      }
    }

    method Wake(w: Waiter, ghost served: set<Entry>)
      requires Shape() && w in issued && WokenAre(issued, served)
      modifies w`woken, this`trace
      ensures Shape() && WokenAre(issued, served + {w.entry})
      ensures var c := old(View()); View() == c.(trace := c.trace + [Serve(w.entry, c.now, c.instantSeq, c.nextSeq)])
    {
      ghost var cancelled := CancelledIn(issued);
      w.woken := true;
      trace := trace + [Serve(w.entry, t, instantSeq, nextSeq)];
      assert CancelledIn(issued) == cancelled;
      forall v | v in issued ensures v.woken <==> v.entry in served + {w.entry} {
        if v.entry == w.entry { assert v == w; }
      }
    }

    method Peek(p: Params) returns (found: bool)
      requires Valid()
      modifies this
      ensures Valid() && issued == old(issued) && advancing == old(advancing)
      ensures View() == Find(old(View()), p) && found == (View().instant != {})
    {
      C.FindConserved(View(), p);
      FindServed(View(), p);
      hide ShapeOf, C.Conserved, Find, EntriesIn, C.ServedSet;
      var w := PopDue(p, true);
      return w.Some?;
    }

    /** One turn of the loop of `_advance_to`: a wake, or the last settle and its peek. */
    method Turn(p: Params, env: seq<R.Move>, ghost s: R.Config)
      returns (rest: seq<R.Move>, next: Progress, ghost run: seq<R.Move>, ghost e: R.Config, ghost last: R.Move)
      requires Valid() && advancing && 1 <= p.maxSettles && s.c == View() && s.p == p && s.pc == R.Popping
      modifies this, issued
      ensures Valid() && advancing && e == R.Run(s, run) && e == s.(c := e.c, work := e.work, pc := e.pc)
      ensures next == Again ==> e.pc == R.Popping && e.c == View()
      ensures next == Again ==>
        |rest| < |env| || (rest == env && |View().heap + View().instant| < |old(View()).heap + old(View()).instant|)
      ensures next == Done ==> e.pc.Peeking? && View() == Find(e.c, p) && View().instant == {}
      ensures next == Failing ==> e.pc.Settling? && View() == e.c && R.Step(e, last) == R.Fail(e)
      ensures old(issued) <= issued && forall i :: |old(issued)| <= i < |issued| ==> fresh(issued[i])
    {
      hide ShapeOf, C.Conserved, Find, EntriesIn, C.ServedSet, R.Run, R.Client, Pop, WokenAre;
      var ok: bool;
      LessLeft(View(), p);
      D.FindStays(View(), p);
      var found := PopAndWake(p);
      D.Run1(s, R.Tick);
      run, e := [R.Tick], R.Step(s, R.Tick);
      ghost var more;
      rest, ok, more, e, last := Settle(p, env, e);
      R.RunAppend(s, run, more);
      run := run + more;
      if !ok { return rest, Failing, run, e, last; }
      if found { return rest, Again, run, e, last; }
      var again := Peek(p);
      if !again { return rest, Done, run, e, last; }
      R.RunSnoc(s, run, R.Tick);
      run, e, next := run + [R.Tick], R.Step(e, R.Tick), Again;
    }

    /** `_advance_to`. It returns with the last peek done, or fails with `last` the move that fails. */
    method Drive(p: Params, env: seq<R.Move>, ghost s: R.Config)
      returns (rest: seq<R.Move>, ok: bool, ghost run: seq<R.Move>, ghost e: R.Config, ghost last: R.Move)
      requires Valid() && advancing && 1 <= p.maxSettles && s.c == View() && s.p == p
      requires s.pc == if p.hooked then R.Settling(R.Start, 0) else R.Popping
      modifies this, issued
      ensures Valid() && advancing && e == R.Run(s, run) && e == s.(c := e.c, work := e.work, pc := e.pc)
      ensures ok ==> e.pc.Peeking? && View() == Find(e.c, p) && View().instant == {}
      ensures !ok ==> e.pc.Settling? && View() == e.c && R.Step(e, last) == R.Fail(e)
      ensures old(issued) <= issued && forall i :: |old(issued)| <= i < |issued| ==> fresh(issued[i])
    {
      hide ShapeOf, C.Conserved, Find, EntriesIn, C.ServedSet, R.Run, R.Step, Pop, WokenAre;
      rest, run, e, last := env, [], s, R.Raise;
      RunNothing(s);
      if p.hooked {
        rest, ok, run, e, last := Settle(p, rest, e);
        if !ok { return; }
      }
      var next := Again;
      while next == Again
        invariant Valid() && advancing && e == R.Run(s, run) && e == s.(c := e.c, work := e.work, pc := e.pc)
        invariant next == Again ==> e.pc == R.Popping && e.c == View()
        invariant next == Done ==> e.pc.Peeking? && View() == Find(e.c, p) && View().instant == {}
        invariant next == Failing ==> e.pc.Settling? && View() == e.c && R.Step(e, last) == R.Fail(e)
        invariant old(issued) <= issued && forall i :: |old(issued)| <= i < |issued| ==> fresh(issued[i])
        decreases next == Again, |rest|, |View().heap + View().instant|
      {
        ghost var more;
        rest, next, more, e, last := Turn(p, rest, e);
        R.RunAppend(s, run, more);
        run := run + more;
      }
      ok := next == Done;
    }

    /** The `finally` of `advance_to`: what the advance holds goes back to the heap. */
    method GiveBack()
      requires Valid()
      modifies this`waiters, this`deferred, this`instant, this`anchor, this`advancing
      ensures Valid() && View() == Restore(old(View()))
    {
      RestoreFacts(View());
      hide ShapeOf, C.Conserved, Once, EntriesIn, C.ServedSet, WokenAre, CancelledIn;
      var back := Release();
      PutBack(back);
    }

    method Release() returns (back: seq<Waiter>)
      requires Shape()
      modifies this`deferred, this`instant, this`anchor, this`advancing
      ensures Shape() && AllIn(back, issued) && Once(Contents() + multiset(back), issued)
      ensures var c := old(View());
        View() == c.(advancing := false, deferred := {}, instant := {}, anchor := None) && EntriesIn(back) == c.deferred + c.instant
    {
      hide ShapeOf, Held, Once, EntriesIn, CancelledIn, AllIn;
      BackShape(waiters, deferred, instant, issued);
      back := deferred + instant;
      advancing, anchor, deferred, instant := false, None, [], [];
    }

    /** `advance_to`, while other tasks act by the given list. */
    method AdvanceTo(p: Params, env: seq<R.Move>, ghost s: R.Config)
      returns (r: Result, rest: seq<R.Move>, ghost run: seq<R.Move>, ghost e: R.Config)
      requires Valid() && s.c == View() && C.Inv(s) && (s.pc.Resting? || s.pc.Settling?)
      modifies this, issued
      ensures Valid() && e == R.Run(s, run) && e.c == View()
      ensures r.ValueError? <==> p.maxSettles < 1 || p.tol.rtol < 0.0 || p.tol.atol < 0.0
      ensures r.RuntimeError? <==> !r.ValueError? && old(advancing)
      ensures r.PastTarget? <==> !r.ValueError? && !r.RuntimeError? && p.t < old(t)
      ensures r.ValueError? || r.RuntimeError? || r.PastTarget? ==> e == s && rest == env && issued == old(issued)
      ensures r.Returned? ==> e.pc == R.Resting(R.Completed) && e.p == p && t == p.t
      ensures r.Raised? ==> e.pc == R.Resting(R.Failed) && e.p == p
      ensures old(issued) <= issued && forall i :: |old(issued)| <= i < |issued| ==> fresh(issued[i])
    {
      rest, run, e := env, [R.AdvanceTo(p)], s;
      D.Run1(s, R.AdvanceTo(p));
      if p.maxSettles < 1 { return ValueError, rest, run, e; }
      if p.tol.rtol < 0.0 || p.tol.atol < 0.0 { return ValueError, rest, run, e; }
      if advancing { return RuntimeError, rest, run, e; }
      if p.t < t { return PastTarget, rest, run, e; }
      assert s.pc.Resting?;
      ghost var moves, e';
      var ok;
      ok, rest, moves, e' := Attempt(p, env, s);
      R.RunAppend(s, run, moves);
      return if ok then Returned else Raised, rest, run + moves, e';
    }

    /** The `try` of `advance_to` and its `finally`. */
    method Attempt(p: Params, env: seq<R.Move>, ghost s: R.Config)
      returns (ok: bool, rest: seq<R.Move>, ghost run: seq<R.Move>, ghost e: R.Config)
      requires Valid() && s.c == View() && C.Inv(s) && s.pc.Resting? && !R.Refused(s.c, p)
      modifies this, issued
      ensures Valid() && e == R.Run(R.Enter(s, p), run) && e.c == View()
      ensures e.pc == R.Resting(if ok then R.Completed else R.Failed) && e.p == p && (ok ==> t == p.t)
      ensures old(issued) <= issued && forall i :: |old(issued)| <= i < |issued| ==> fresh(issued[i])
    {
      hide ShapeOf, C.Conserved, Find, EntriesIn, C.ServedSet, R.Run, R.Client, Pop, WokenAre, C.Inv, Restore, R.Step;
      SetOut(p, s);
      ghost var s1, last := R.Enter(s, p), R.Raise;
      rest, ok, run, e, last := Drive(p, env, s1);
      R.RunSnoc(s1, run, if ok then R.Tick else last);
      GiveBack();
      if ok {
        LandStep(e);
        run := run + [R.Tick];
        e := R.Step(e, R.Tick);
        LandConserved(s, p, run);
        Land(p);
      } else {
        run, e := run + [last], R.Fail(e);
      }
    }

    method SetOut(p: Params, ghost s: R.Config)
      requires Valid() && s.c == View() && C.Inv(s) && s.pc.Resting? && !R.Refused(s.c, p)
      modifies this`advancing
      ensures Valid() && View() == Begin(old(View()))
    {
      C.StepInv(s, R.AdvanceTo(p));
      SameServed(Begin(s.c), s.c);
      hide ShapeOf, C.Conserved, EntriesIn, C.ServedSet;
      advancing := true;
    }

    /** `self._t = t`. */
    method Land(p: Params)
      requires Valid() && C.Conserved(View().(now := p.t))
      modifies this`t
      ensures Valid() && View() == old(View()).(now := p.t)
    {
      SameServed(View().(now := p.t), View());
      hide ShapeOf, C.Conserved, EntriesIn, C.ServedSet;
      t := p.t;
    }
  }

  lemma LandStep(e: R.Config)
    requires e.pc.Peeking? && Find(e.c, e.p).instant == {}
    ensures R.Step(e, R.Tick) == e.(c := Restore(Find(e.c, e.p)).(now := e.p.t), pc := R.Resting(R.Completed))
  {}

  lemma LandConserved(s: R.Config, p: Params, run: seq<R.Move>)
    requires C.Inv(s) && s.pc.Resting?
    ensures C.Conserved(R.Run(R.Enter(s, p), run).c)
  {
    C.StepInv(s, R.AdvanceTo(p));
    C.RunInv(R.Enter(s, p), run);
    InvConserved(R.Run(R.Enter(s, p), run));
  }

  lemma InvConserved(e: R.Config)
    requires C.Inv(e)
    ensures C.Conserved(e.c)
  {}

  lemma RestoreFacts(c: Clock)
    requires C.Conserved(c)
    ensures C.Conserved(Restore(c)) && C.ServedSet(Restore(c)) == C.ServedSet(c)
    ensures Restore(c).heap == c.heap + (c.deferred + c.instant)
  {
    C.RestoreConserved(c);
    SameServed(Restore(c), c);
  }

  lemma RunNothing(s: R.Config)
    ensures R.Run(s, []) == s
  {}

  lemma BackShape(waiters: seq<Waiter>, deferred: seq<Waiter>, instant: seq<Waiter>, issued: seq<Waiter>)
    requires ShapeOf(waiters, deferred, instant, issued)
    ensures ShapeOf(waiters, [], [], issued) && AllIn(deferred + instant, issued)
    ensures Once(Held(waiters, [], []) + multiset(deferred + instant), issued)
    ensures EntriesIn(deferred + instant) == EntriesIn(deferred) + EntriesIn(instant) && EntriesIn([]) == {}
  {
    var all := deferred + instant;
    assert multiset(all) == multiset(deferred) + multiset(instant);
    forall w ensures w in all <==> w in deferred || w in instant {}
    forall x | x in EntriesIn(deferred) + EntriesIn(instant) ensures x in EntriesIn(all) {
      var w :| (w in deferred || w in instant) && w.entry == x;
      assert w in all;
    }
  }

  lemma FindServed(c: Clock, p: Params)
    requires C.Conserved(c)
    ensures var f := Find(c, p);
      f.trace == c.trace && C.ServedSet(f) == C.ServedSet(c) && f.advancing == c.advancing && (f.instant != {} ==> f.anchor.Some?)
  {
    C.FindConserved(c, p);
    SameServed(Find(c, p), c);
  }

  /** A wake leaves one entry less to find; a pop that finds nothing leaves none more. */
  lemma LessLeft(c: Clock, p: Params)
    requires C.Conserved(c)
    ensures var f := Find(c, p);
      |f.heap + f.instant| <= |c.heap + c.instant| &&
      (f.instant != {} ==> |Pop(f).heap + Pop(f).instant| < |c.heap + c.instant|)
  {
    var f := Find(c, p);
    C.FindConserved(c, p);
    FindShrinks(c, p);
    SubsetSize(f.heap + f.instant, c.heap + c.instant);
    if f.instant != {} {
      var w := Least(ByPriority, f.instant);
      assert |f.heap + f.instant - {w}| == |f.heap + f.instant| - 1;
    }
  }

  lemma {:induction false} SubsetSize(a: set<Entry>, b: set<Entry>)
    requires a <= b
    ensures |a| <= |b|
    decreases |a|
  {
    if x :| x in a {
      SubsetSize(a - {x}, b - {x});
    }
  }

  /** A pop takes one entry from the heap and the instant, and nothing enters them. */
  lemma FindShrinks(c: Clock, p: Params)
    ensures var f := Find(c, p);
      f.heap + f.instant <= c.heap + c.instant &&
      (f.instant != {} && C.Conserved(f) ==>
        Pop(f).heap + Pop(f).instant == f.heap + f.instant - {Least(ByPriority, f.instant)} &&
        Least(ByPriority, f.instant) in f.heap + f.instant)
  {}

  /** A pass without an open instant is the last one. */
  lemma FindIdle(c: Clock, p: Params)
    requires C.Conserved(c) && c.anchor.None?
    ensures c.instant == {} && Find(c, p) == Reopen(c, p)
    ensures match Top(c, p)
      case None => Find(c, p) == Skim(c, p) && Find(c, p).instant == {}
      case Some(w) =>
        var d := Collect(Open(Skim(c, p), w.deadline), p, w.deadline); Find(c, p) == Arrive(d, p) && d.instant != {}
  {
    P.ReopenFinds(c, p);
  }

  /** A pass with an open instant finds its next entry, or leaves the state in which a new one is opened. */
  lemma FindPass(c: Clock, p: Params, a: Time)
    requires C.Conserved(c) && c.anchor == Some(a)
    ensures var d := Collect(c, p, a);
      if d.instant != {} then Find(c, p) == Arrive(d, p)
      else Find(c, p) == Reopen(d.(anchor := None), p) && C.Conserved(d.(anchor := None))
  {
    var d := Collect(c, p, a);
    C.CollectConserved(c, p, a);
    if d.instant == {} {
      ReopenAnchor(d, p);
      NoAnchorConserved(d);
    }
  }

  lemma IssueShape(waiters: seq<Waiter>, deferred: seq<Waiter>, instant: seq<Waiter>, issued: seq<Waiter>, w: Waiter, n: nat)
    requires ShapeOf(waiters, deferred, instant, issued) && w !in issued && w.entry.seqno == n
    requires forall v :: v in issued ==> v.entry.seqno < n
    ensures ShapeOf(waiters, deferred, instant, issued + [w])
    ensures Once(Held(waiters, deferred, instant) + multiset{w}, issued + [w])
    ensures EntriesIn(issued + [w]) == EntriesIn(issued) + {w.entry}
  {
    var all := issued + [w];
    forall v ensures v in all <==> v in issued || v == w {}
    MembersOf(waiters, w);
    MembersOf(deferred, w);
    MembersOf(instant, w);
    assert Held(waiters, deferred, instant)[w] == 0;
  }

  lemma NewCancelled(issued: seq<Waiter>, w: Waiter)
    requires !w.cancelled
    ensures CancelledIn(issued + [w]) == CancelledIn(issued)
  {
    assert forall v :: v in issued + [w] <==> v in issued || v == w;
  }

  lemma JoinHeld(waiters: seq<Waiter>, deferred: seq<Waiter>, instant: seq<Waiter>, joined: seq<Waiter>, w: Waiter,
                 issued: seq<Waiter>)
    requires ShapeOf(waiters, deferred, instant, issued) && w in issued && HeapOrdered(ByPriority, joined)
    requires multiset(joined) == multiset(instant) + multiset{w}
    requires Once(Held(waiters, deferred, instant) + multiset{w}, issued)
    ensures ShapeOf(waiters, deferred, joined, issued)
  {
    PushEntries(instant, joined, w);
  }

  lemma SleepConserved(c: Clock, n: nat)
    requires C.Conserved(c)
    ensures C.Conserved(ClockModel.CancelSleep(c, n)) && ClockModel.CancelSleep(c, n).trace == c.trace
  {
    C.ClientConserved(c, R.DropSleep(n));
  }

  lemma SameServed(c: Clock, d: Clock)
    requires c.trace == d.trace
    ensures C.ServedSet(c) == C.ServedSet(d)
  {}

  lemma AllOf(h: seq<Waiter>, issued: seq<Waiter>)
    requires AllIn(h, issued)
    ensures forall i :: 0 <= i < |h| ==> h[i] in issued
  {}

  lemma EmptyEntries(h: seq<Waiter>)
    ensures h == [] <==> EntriesIn(h) == {}
  {
    if h != [] { assert h[0].entry in EntriesIn(h); }
  }

  lemma NoAnchorConserved(c: Clock)
    requires C.Conserved(c) && c.instant == {}
    ensures C.Conserved(c.(anchor := None))
  {
    assert C.ServedSet(c.(anchor := None)) == C.ServedSet(c);
  }

  lemma ReopenAnchor(c: Clock, p: Params)
    requires c.instant == {}
    ensures Reopen(c.(anchor := None), p) == Reopen(c, p)
  {
    var d := c.(anchor := None);
    assert Junk(d, p, {}) == Junk(c, p, {});
    assert Skim(d, p) == Skim(c, p).(anchor := None);
    assert Top(d, p) == Top(c, p);
    hide Skim, Top, Collect, Arrive, Junk;
    if Top(c, p).Some? {
      assert Open(Skim(d, p), Top(c, p).value.deadline) == Open(Skim(c, p), Top(c, p).value.deadline);
    }
  }

  lemma ShapeHeaps(waiters: seq<Waiter>, deferred: seq<Waiter>, instant: seq<Waiter>, issued: seq<Waiter>)
    requires ShapeOf(waiters, deferred, instant, issued)
    ensures HeapOrdered(ByDeadline, waiters) && HeapOrdered(ByPriority, instant)
  {}

  lemma NothingLater(waiters: seq<Waiter>, deferred: seq<Waiter>, instant: seq<Waiter>, issued: seq<Waiter>)
    requires ShapeOf(waiters, deferred, instant, issued)
    ensures EntriesIn([]) == {} && Once(Held(waiters, deferred, instant) + multiset([]), issued)
  {}

  lemma OnceLess(m: multiset<Waiter>, n: multiset<Waiter>, k: multiset<Waiter>, issued: seq<Waiter>)
    requires m <= n && Once(n + k, issued)
    ensures Once(m + k, issued)
  {}

  lemma WithNone(c: Clock, p: Params, a: Time)
    ensures GatheredWith(c, p, a, {}) == Gathered(c, p, a)
  {}

  lemma WithOne(d: Clock, c: Clock, p: Params, a: Time, later: set<Entry>, w: Entry)
    requires var g := Gathered(d, p, a); Gathered(c, p, a) == g.(heap := g.heap + {w})
    ensures GatheredWith(d, p, a, later + {w}) == GatheredWith(c, p, a, later)
  {}

  lemma LaterMore(waiters: seq<Waiter>, rest: seq<Waiter>, deferred: seq<Waiter>, instant: seq<Waiter>, issued: seq<Waiter>,
                  later: seq<Waiter>)
    requires ShapeOf(waiters, deferred, instant, issued) && waiters != [] && AllIn(later, issued)
    requires multiset(waiters) == multiset(rest) + multiset{waiters[0]}
    requires Once(Held(waiters, deferred, instant) + multiset(later), issued)
    ensures AllIn(later + [waiters[0]], issued)
    ensures Once(Held(rest, deferred, instant) + multiset(later + [waiters[0]]), issued)
    ensures EntriesIn(later + [waiters[0]]) == EntriesIn(later) + {waiters[0].entry}
  {
    var w := waiters[0];
    assert multiset(later + [w]) == multiset(later) + multiset{w};
    PushEntries(later, later + [w], w);
    assert Held(rest, deferred, instant) + multiset(later + [w]) == Held(waiters, deferred, instant) + multiset(later);
  }

  lemma LaterFirst(m: multiset<Waiter>, later: seq<Waiter>, i: nat, issued: seq<Waiter>)
    requires i < |later| && Once(m + multiset(later[i..]), issued)
    ensures Once(m + multiset{later[i]}, issued)
    ensures Once(m + multiset{later[i]} + multiset(later[i + 1..]), issued)
    ensures EntriesIn(later[..i + 1]) == EntriesIn(later[..i]) + {later[i].entry}
  {
    assert later[i..] == [later[i]] + later[i + 1..];
    assert multiset(later[i..]) == multiset{later[i]} + multiset(later[i + 1..]);
    assert later[..i + 1] == later[..i] + [later[i]];
    assert multiset(later[..i + 1]) == multiset(later[..i]) + multiset{later[i]};
    PushEntries(later[..i], later[..i + 1], later[i]);
  }
}
