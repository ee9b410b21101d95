/** What holds while an advance runs, and the closed form of one pop: an open instant with a live
    member is frozen; otherwise the next instant is cut from the due entries by closeness. */
module Instants {
  import opened Times
  import opened Entries
  import opened ClockModel

  ghost predicate Sound(c: Clock) {
    && Distinct(c.known)
    && (forall x :: x in c.known ==> x.seqno < c.nextSeq && x.registeredAt <= c.now)
    && c.heap <= c.known && c.instant <= c.known && c.deferred <= c.known
    && c.heap !! c.instant && c.heap !! c.deferred && c.instant !! c.deferred
    && (forall n :: n in c.cancelled ==> n < c.nextSeq)
    && c.instantSeq <= c.nextSeq
    && (c.anchor.None? ==> c.instant == {})
  }

  /** The open instant: nothing registered earlier and still in the heap belongs to it, and whatever
      was registered during it and not joined lies strictly after `now()`. */
  ghost predicate Held(c: Clock, p: Params, a: Time) {
    && (forall x :: x in c.heap && Ready(c, p, x) ==> Le(a, x.deadline))
    && (forall x :: x in c.heap && Ready(c, p, x) && x.seqno < c.instantSeq ==> !IsClose(x.deadline, a, p.tol))
    && (forall x :: x in c.heap && c.instantSeq <= x.seqno ==> Lt(At(c.now), x.deadline))
    && (forall x :: x in c.instant && x.seqno < c.instantSeq ==>
          IsClose(x.deadline, a, p.tol) && Due(p, x) && !Blocked(p, x) && Le(x.deadline, c.end))
    && (forall x :: x in c.instant && c.instantSeq <= x.seqno ==> Le(x.deadline, At(c.now)))
    && Le(a, c.end) && (Le(a, At(p.t)) || Near(a, p.t, p.tol))
    && Arrival(p, c.now, c.end) == c.now
  }

  ghost predicate Phase(c: Clock, p: Params) {
    && Sound(c) && Regular(p.tol) && c.now <= p.t
    && (c.anchor.Some? ==> Held(c, p, c.anchor.value))
    && (forall x :: x in c.deferred ==> Blocked(p, x))
  }

  ghost function ReadyOf(c: Clock, p: Params): set<Entry> {
    set x | x in c.heap && Ready(c, p, x)
  }

  /** The next instant's members, for an anchor `a`. */
  ghost function CloseTo(s: set<Entry>, a: Time, tol: Tolerance): set<Entry> {
    set x | x in s && IsClose(x.deadline, a, tol)
  }

  lemma CloseBetween(a: Time, y: Time, x: Time, tol: Tolerance)
    requires Regular(tol) && Le(a, y) && Le(y, x) && IsClose(x, a, tol)
    ensures IsClose(y, a, tol)
  {
    if a.At? && x.At? {
      assert ClosedAt(a.r, tol);
      assert Near(x, a.r, tol);
      assert Near(y, a.r, tol);
    }
  }

  lemma DueDown(p: Params, y: Entry, x: Entry)
    requires ClosedAt(p.t, p.tol) && Le(y.deadline, x.deadline) && Due(p, x)
    ensures Due(p, y)
  {}

  /** `_heap_due` finds the least due entry exactly when some entry of the heap is due. */
  lemma TopForm(c: Clock, p: Params)
    requires Distinct(c.heap) && ClosedAt(p.t, p.tol)
    ensures Top(c, p).None? <==> ReadyOf(c, p) == {}
    ensures Top(c, p).Some? ==> Top(c, p).value == Least(ByDeadline, ReadyOf(c, p))
  {
    var elig := set x | x in c.heap && Eligible(c, p, x);
    var h := Skim(c, p).heap;
    if elig == {} {
      assert h == {};
    } else {
      var e := Least(ByDeadline, elig);
      forall x | x in h ensures !Less(ByDeadline, x, e) {
        if Less(ByDeadline, x, e) {
          forall y | y in c.heap && Eligible(c, p, y) ensures Less(ByDeadline, x, y) {
            assert y in elig;
          }
        }
      }
      assert e in h;
      LeastUnique(ByDeadline, h, e);
      forall x | x in ReadyOf(c, p) ensures Due(p, e) {
        assert x in elig && !Less(ByDeadline, x, e);
        DueDown(p, e, x);
      }
      if Due(p, e) {
        assert IsLeast(ByDeadline, ReadyOf(c, p), e) by {
          assert forall x :: x in ReadyOf(c, p) ==> x in elig;
        }
        LeastUnique(ByDeadline, ReadyOf(c, p), e);
      }
    }
  }

  /** The gathering loop's prefix is the set of due entries close to the anchor. */
  lemma ReachForm(c: Clock, p: Params, a: Time)
    requires Regular(p.tol)
    requires forall x :: x in c.heap && Ready(c, p, x) ==> Le(a, x.deadline)
    ensures Reach(c, p, a) == CloseTo(ReadyOf(c, p), a, p.tol)
  {
    assert ClosedAt(p.t, p.tol);
    forall x | x in CloseTo(ReadyOf(c, p), a, p.tol) ensures x in Reach(c, p, a) {
      forall y | y in c.heap && Eligible(c, p, y) && !Less(ByDeadline, x, y)
        ensures Due(p, y) && IsClose(y.deadline, a, p.tol)
      {
        DueDown(p, y, x);
        CloseBetween(a, y.deadline, x.deadline, p.tol);
      }
    }
  }

  /** Only entries that cannot wake leave the heap unserved, and the live ones are set aside. */
  ghost predicate Shed(c: Clock, f: Clock, p: Params, taken: set<Entry>) {
    && f.heap <= c.heap && taken <= c.heap && f.heap !! taken
    && (forall x :: x in c.heap && x !in f.heap && x !in taken ==> !Eligible(c, p, x))
    && f.deferred == c.deferred + LiveOf(c, c.heap - f.heap - taken)
    && f.cancelled == c.cancelled && f.known == c.known && f.trace == c.trace && f.advancing == c.advancing
  }

  ghost predicate Frozen(c: Clock, f: Clock, p: Params) {
    && Shed(c, f, p, {})
    && f.now == c.now && f.anchor == c.anchor && f.end == c.end
    && f.instantSeq == c.instantSeq && f.nextSeq == c.nextSeq
    && {} != LiveOf(c, c.instant) <= f.instant <= c.instant
    && Least(ByPriority, f.instant) == Least(ByPriority, LiveOf(c, c.instant))
  }

  ghost predicate Opened(c: Clock, f: Clock, p: Params) {
    var ready := ReadyOf(c, p);
    ready != {} &&
    var a := Least(ByDeadline, ready).deadline;
    var members := CloseTo(ready, a, p.tol);
    && Shed(c, f, p, members)
    && f.anchor == Some(a) && f.end == Latest(members) && f.now == Arrival(p, c.now, f.end)
    && f.instantSeq == c.nextSeq && f.nextSeq == c.nextSeq + 1
    && f.instant == members && members != {}
  }

  ghost predicate Exhausted(c: Clock, f: Clock, p: Params) {
    && Shed(c, f, p, {})
    && f.now == c.now && f.anchor == None && f.nextSeq == c.nextSeq && f.instantSeq == c.instantSeq
    && f.instant == {} && ReadyOf(c, p) == {} && ReadyOf(f, p) == {}
  }

  lemma CollectHeld(c: Clock, p: Params, a: Time)
    requires Phase(c, p) && c.anchor == Some(a)
    ensures var d := Collect(c, p, a);
      && Shed(c, d, p, {}) && ReadyOf(d, p) == ReadyOf(c, p)
      && d.now == c.now && d.anchor == c.anchor && d.end == c.end
      && d.instantSeq == c.instantSeq && d.nextSeq == c.nextSeq
      && LiveOf(c, c.instant) <= d.instant <= c.instant
      && (LiveOf(c, c.instant) == {} ==> d.instant == {})
      && (LiveOf(c, c.instant) != {} ==>
            d.instant != {} && Least(ByPriority, d.instant) == Least(ByPriority, LiveOf(c, c.instant)))
  {
    ReachForm(c, p, a);
    var d := Collect(c, p, a);
    assert Joining(c, p, a) == {};
    assert c.instant + Joining(c, p, a) == c.instant;
    assert c.heap - Junk(c, p, Reach(c, p, a)) - {} == d.heap;
    var junk := Junk(c, p, Reach(c, p, a));
    assert c.heap - d.heap - {} == junk;
    var live := LiveOf(c, c.instant);
    if live != {} {
      var l := Least(ByPriority, live);
      forall x | x in d.instant ensures !Less(ByPriority, x, l) {
        if Less(ByPriority, x, l) {
          forall y | y in c.instant && Live(c, y) ensures Less(ByPriority, x, y) {
            assert y in live && !Less(ByPriority, y, l);
          }
        }
      }
      assert l in d.instant;
      LeastUnique(ByPriority, d.instant, l);
    }
  }

  /** The instant opened with the least due entry takes the due entries close to it. */
  lemma OpenForm(c: Clock, s: Clock, p: Params, w: Entry)
    requires Sound(c) && Regular(p.tol) && c.instant == {} && s == Skim(c, p)
    requires ReadyOf(s, p) == ReadyOf(c, p) != {} && w == Least(ByDeadline, ReadyOf(c, p))
    ensures var o := Open(s, w.deadline); var members := CloseTo(ReadyOf(c, p), w.deadline, p.tol);
      && Joining(o, p, w.deadline) == members && w in members
      && Collect(o, p, w.deadline).instant == members
  {
    var o, members := Open(s, w.deadline), CloseTo(ReadyOf(c, p), w.deadline, p.tol);
    assert ReadyOf(o, p) == ReadyOf(c, p);
    forall x | x in o.heap && Ready(o, p, x) ensures Le(w.deadline, x.deadline) {
      assert x in ReadyOf(c, p) && !Less(ByDeadline, x, w);
    }
    ReachForm(o, p, w.deadline);
    assert Joining(o, p, w.deadline) == members;
    assert o.instant + members == members;
    assert DeadTops(o, ByPriority, members) == {};
  }

  lemma ReopenForm(c: Clock, p: Params)
    requires Sound(c) && Regular(p.tol) && c.instant == {}
    ensures ReadyOf(c, p) == {} ==> Exhausted(c, Reopen(c, p), p)
    ensures ReadyOf(c, p) != {} ==> Opened(c, Reopen(c, p), p)
  {
    TopForm(c, p);
    var s := Skim(c, p);
    assert c.heap - s.heap - {} == Junk(c, p, {});
    assert ReadyOf(s, p) == ReadyOf(c, p);
    if ReadyOf(c, p) != {} { ReopenOpens(c, p); }
  }

  lemma JunkOut(c: Clock, p: Params, keep: set<Entry>)
    ensures Junk(c, p, keep) <= c.heap && forall x :: x in Junk(c, p, keep) ==> !Eligible(c, p, x)
  {}

  lemma ReopenOpens(c: Clock, p: Params)
    requires Sound(c) && Regular(p.tol) && c.instant == {} && ReadyOf(c, p) != {}
    ensures Opened(c, Reopen(c, p), p)
  {
    TopForm(c, p);
    var s := Skim(c, p);
    assert ReadyOf(s, p) == ReadyOf(c, p);
    var w := Least(ByDeadline, ReadyOf(c, p));
    var o, members := Open(s, w.deadline), CloseTo(ReadyOf(c, p), w.deadline, p.tol);
    OpenForm(c, s, p, w);
    var first, junk := Junk(c, p, {}), Junk(o, p, Reach(o, p, w.deadline));
    JunkOut(c, p, {});
    JunkOut(o, p, Reach(o, p, w.deadline));
    assert members <= c.heap && forall x :: x in members ==> Eligible(c, p, x);
    hide Reach, Joining, Junk, CloseTo, Sound, Regular, Top, Eligible, IsLeast, IsLatest;
    Opens(c, s, Collect(o, p, w.deadline), Reopen(c, p), p, first, junk, members);
    assert Reopen(c, p).end == Latest(members);
  }

  lemma Opens(c: Clock, s: Clock, d: Clock, f: Clock, p: Params, first: set<Entry>, junk: set<Entry>, members: set<Entry>)
    requires s.heap == c.heap - first && s.deferred == c.deferred + LiveOf(c, first) && s.cancelled == c.cancelled
    requires d.heap == s.heap - junk - members && d.deferred == s.deferred + LiveOf(s, junk)
    requires first <= c.heap && junk <= s.heap && members <= c.heap
    requires forall x :: x in first || x in junk ==> !Eligible(c, p, x)
    requires forall x :: x in members ==> Eligible(c, p, x)
    requires f.heap == d.heap && f.deferred == d.deferred && f.cancelled == c.cancelled && f.known == c.known
    requires f.trace == c.trace && f.advancing == c.advancing
    ensures Shed(c, f, p, members)
  {
    assert c.heap - f.heap - members == first + junk;
  }

  lemma ShedTrans(c: Clock, d: Clock, f: Clock, p: Params, taken: set<Entry>)
    requires Shed(c, d, p, {}) && Shed(d, f, p, taken)
    ensures Shed(c, f, p, taken)
  {
    assert c.heap - f.heap - taken == (c.heap - d.heap - {}) + (d.heap - f.heap - taken);
  }

  lemma FindClosed(c: Clock, p: Params, a: Time)
    requires Phase(c, p) && c.anchor == Some(a) && LiveOf(c, c.instant) == {}
    ensures ReadyOf(c, p) == {} ==> Exhausted(c, Find(c, p), p)
    ensures ReadyOf(c, p) != {} ==> Opened(c, Find(c, p), p)
  {
    CollectHeld(c, p, a);
    var d, f := Collect(c, p, a), Find(c, p);
    assert f == Reopen(d, p);
    ReopenForm(d, p);
    if ReadyOf(c, p) == {} {
      ShedTrans(c, d, f, p, {});
    } else {
      ShedTrans(c, d, f, p, f.instant);
    }
  }

  /** The closed form of `_pop_due`. */
  lemma FindForm(c: Clock, p: Params)
    requires Phase(c, p)
    ensures LiveOf(c, c.instant) != {} ==> c.anchor.Some? && Frozen(c, Find(c, p), p)
    ensures LiveOf(c, c.instant) == {} && ReadyOf(c, p) == {} ==> Exhausted(c, Find(c, p), p)
    ensures LiveOf(c, c.instant) == {} && ReadyOf(c, p) != {} ==> Opened(c, Find(c, p), p)
  {
    if c.anchor.None? {
      ReopenForm(c, p);
    } else if LiveOf(c, c.instant) == {} {
      FindClosed(c, p, c.anchor.value);
    } else {
      CollectHeld(c, p, c.anchor.value);
    }
  }

  /** The found entry: due at `now()`, or the target's tolerance lets it wake at the target. */
  ghost predicate Timely(p: Params, x: Entry, now: real) {
    Le(x.deadline, At(now)) || (now == p.t && Near(x.deadline, p.t, p.tol) && x.registeredAt < p.t)
  }

  lemma ArrivalTimely(p: Params, x: Entry, now: real, end: Time)
    requires Due(p, x) && !Blocked(p, x) && Le(x.deadline, end) && now <= p.t
    ensures now <= Arrival(p, now, end) <= p.t && Timely(p, x, Arrival(p, now, end))
    ensures Arrival(p, Arrival(p, now, end), end) == Arrival(p, now, end)
  {}

  /** A pop keeps the phase invariant, never moves time back or past the target, never wakes early. */
  lemma FindPhase(c: Clock, p: Params)
    requires Phase(c, p)
    ensures var f := Find(c, p);
      && Phase(f, p) && c.now <= f.now
      && (f.instant != {} ==>
            var w := Least(ByPriority, f.instant);
            f.anchor.Some? && Live(f, w) && Timely(p, w, f.now) && Phase(Pop(f), p))
  {
    FindForm(c, p);
    var f := Find(c, p);
    if LiveOf(c, c.instant) != {} {
      FrozenPhase(c, f, p);
    } else if ReadyOf(c, p) != {} {
      OpenedPhase(c, f, p);
    }
  }

  lemma FrozenPhase(c: Clock, f: Clock, p: Params)
    requires Phase(c, p) && c.anchor.Some? && Frozen(c, f, p)
    ensures Phase(f, p) && Phase(Pop(f), p)
    ensures var w := Least(ByPriority, f.instant); Live(f, w) && Timely(p, w, f.now)
  {
    var w := Least(ByPriority, f.instant);
    assert w in LiveOf(c, c.instant);
    if w.seqno < c.instantSeq { ArrivalTimely(p, w, c.now, c.end); }
  }

  lemma OpenedPhase(c: Clock, f: Clock, p: Params)
    requires Phase(c, p) && c.instant * f.heap == {} && LiveOf(c, c.instant) == {} && Opened(c, f, p)
    ensures Phase(f, p) && Phase(Pop(f), p) && c.now <= f.now
    ensures var w := Least(ByPriority, f.instant); Live(f, w) && Timely(p, w, f.now)
  {
    var ready := ReadyOf(c, p);
    var first := Least(ByDeadline, ready);
    var w := Least(ByPriority, f.instant);
    LatestBounds(f.instant);
    forall x | x in f.instant
      ensures Timely(p, x, f.now) && c.now <= f.now <= p.t && Arrival(p, f.now, f.end) == f.now && Le(x.deadline, f.end)
    {
      ArrivalTimely(p, x, c.now, f.end);
    }
    assert first in f.instant && w in f.instant;
    forall x | x in f.heap && Ready(f, p, x)
      ensures Le(first.deadline, x.deadline) && !IsClose(x.deadline, first.deadline, p.tol)
    {
      assert x in ready && !Less(ByDeadline, x, first);
    }
  }

  // ----- what clients do at a settle point -----

  /** An entry registered now and due later is never due in this advance once time has reached the target. */
  lemma FreshHeld(c: Clock, p: Params, d: Time, priority: int, isCall: bool)
    requires Phase(c, p) && c.anchor.Some? && Lt(At(c.now), d)
    ensures var x := Fresh(c, d, priority, isCall); Ready(c, p, x) ==> Le(c.anchor.value, d) && c.now < p.t
  {}

  lemma WaitUntilPhase(c: Clock, p: Params, d: Time, priority: int)
    requires Phase(c, p)
    ensures Phase(WaitUntil(c, d, priority), p)
  {
    if c.anchor.Some? && Lt(At(c.now), d) {
      FreshHeld(c, p, d, priority, false);
    }
  }

  lemma CallAtPhase(c: Clock, p: Params, d: Time, priority: int)
    requires Phase(c, p)
    ensures Phase(CallAt(c, d, priority), p)
  {
    hide Held, Sound, Regular;
    CallAtSound(c, d, priority);
    if c.anchor.Some? {
      if Lt(At(c.now), d) { FreshHeld(c, p, d, priority, true); }
      CallAtHeld(c, p, d, priority, c.anchor.value);
    }
  }

  lemma CallAtSound(c: Clock, d: Time, priority: int)
    requires Sound(c)
    ensures Sound(CallAt(c, d, priority))
  {}

  lemma CallAtHeld(c: Clock, p: Params, d: Time, priority: int, a: Time)
    requires Sound(c) && Held(c, p, a) && c.anchor == Some(a)
    requires Lt(At(c.now), d) ==> (var x := Fresh(c, d, priority, true); Ready(c, p, x) ==> Le(a, d) && c.now < p.t)
    ensures Held(CallAt(c, d, priority), p, a)
  {}

  lemma CancelCallPhase(c: Clock, p: Params, n: nat)
    requires Phase(c, p)
    ensures Phase(CancelCall(c, n), p)
  {}

  lemma CancelSleepPhase(c: Clock, p: Params, n: nat)
    requires Phase(c, p)
    ensures Phase(CancelSleep(c, n), p)
  {}
}
