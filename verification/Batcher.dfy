/** `batcher_loop`, run over a script of arrivals, clock readings and `forward` outcomes. */
module Batcher {
  import opened Times
  import opened Batches

  datatype Ending = ValueError | Ended | ReplyClosed | ForwardAborted

  /** `_recv_or_timeout`'s result. */
  datatype Got = Item(p: Request) | Timeout | Closed

  /** Of a batch: how many requests were at hand at once, and the reading that opened its delay window, if it had one. */
  datatype Window = Window(drained: nat, opening: Option<nat>)

  function SkipLulls(arrivals: seq<Arrival>): seq<Arrival> {
    if arrivals != [] && arrivals[0].Lull? then SkipLulls(arrivals[1..]) else arrivals
  }

  function Lulls(arrivals: seq<Arrival>): nat {
    if arrivals == [] then 0 else Lulls(arrivals[1..]) + (if arrivals[0].Lull? then 1 else 0)
  }

  lemma {:induction false} SkippedLulls(arrivals: seq<Arrival>, size: nat)
    requires 1 <= size
    ensures var rest := SkipLulls(arrivals);
      Requests(rest) == Requests(arrivals) && Cut(rest, size) == Cut(arrivals, size) && |rest| <= |arrivals|
  {
    if arrivals != [] && arrivals[0].Lull? { SkippedLulls(arrivals[1..], size); }
  }

  class BatcherLoop {
    const forward: Forward
    const maxBatch: int
    const maxQueueDelay: real
    const clock: Option<nat -> real>  // the n-th reading
    var incoming: seq<Arrival>
    var readings: nat
    var batches: seq<seq<Request>>
    var sent: seq<Sent>
    var timers: seq<real>             // what each timed receive was given
    ghost var windows: seq<Window>    // how each batch was formed

    constructor (incoming: seq<Arrival>, forward: Forward, maxBatch: int, maxQueueDelay: real, clock: Option<nat -> real>)
      ensures this.forward == forward && this.maxBatch == maxBatch
      ensures this.maxQueueDelay == maxQueueDelay && this.clock == clock
      ensures this.incoming == incoming && batches == [] && sent == [] && windows == []
    {
      this.forward, this.maxBatch, this.maxQueueDelay, this.clock := forward, maxBatch, maxQueueDelay, clock;
      this.incoming, readings, batches, sent, timers, windows := incoming, 0, [], [], [], [];
    }

    /** `receive`: waits through lulls. */
    method Receive() returns (got: Option<Request>)
      modifies this`incoming
      ensures got.None? ==> incoming == [] && SkipLulls(old(incoming)) == []
      ensures got.Some? ==> SkipLulls(old(incoming)) == [Submitted(got.value)] + incoming
    {
      while incoming != [] && incoming[0].Lull?
        invariant SkipLulls(incoming) == SkipLulls(old(incoming))
        decreases |incoming|
      {
        incoming := incoming[1..];
      }
      if incoming == [] { return None; }
      got, incoming := Some(incoming[0].p), incoming[1..];
    }

    method TryRecvNowait(batch: seq<Request>) returns (ok: bool, more: seq<Request>)
      modifies this`incoming
      ensures ok ==> |more| == |batch| + 1 && more[..|batch|] == batch
                     && old(incoming) == [Submitted(more[|batch|])] + incoming
      ensures !ok ==> more == batch && (old(incoming) == incoming == [] || old(incoming) == [Lull] + incoming)
    {
      if incoming == [] { return false, batch; }
      var head := incoming[0];
      incoming := incoming[1..];
      match head
      case Lull => ok, more := false, batch;
      case Submitted(p) => ok, more := true, batch + [p];
    }

    /** The race of one receive against one timer: whichever comes first, and nothing is lost. */
    method RecvOrTimeout(timeout: real) returns (got: Got)
      requires timeout > 0.0
      modifies this`incoming, this`timers
      ensures timers == old(timers) + [timeout]
      ensures match got
        case Item(p) => old(incoming) == [Submitted(p)] + incoming
        case Timeout => old(incoming) == [Lull] + incoming
        case Closed => old(incoming) == incoming == []
    {
      timers := timers + [timeout];
      if incoming == [] { return Closed; }
      got := match incoming[0] case Lull => Timeout case Submitted(p) => Item(p);
      incoming := incoming[1..];
    }

    method Now() returns (t: real)
      requires clock.Some?
      modifies this`readings
      ensures t == clock.value(old(readings)) && readings == old(readings) + 1
    {
      t, readings := clock.value(readings), readings + 1;
    }

    /** Phase 1: everything at hand, up to the size. */
    method Drain(first: Request) returns (batch: seq<Request>)
      requires 1 <= maxBatch
      modifies this`incoming
      ensures var n := Min(|Burst(old(incoming))|, maxBatch - 1);
        && n <= |old(incoming)|
        && batch == [first] + Burst(old(incoming))[..n]
        && incoming == if |batch| < maxBatch && n < |old(incoming)| then old(incoming)[n + 1..] else old(incoming)[n..]
    {
      batch := [first];
      BurstIsPrefix(incoming);
      ghost var all := Burst(incoming);
      var ok := true;
      while ok && |batch| < maxBatch
        invariant 1 <= |batch| <= maxBatch && |batch| - 1 <= |all|
        invariant batch == [first] + all[..|batch| - 1]
        invariant ok ==> incoming == old(incoming)[|batch| - 1..]
        invariant !ok ==> |batch| < maxBatch && |batch| - 1 == |all|
        invariant !ok ==> incoming == if |all| < |old(incoming)| then old(incoming)[|all| + 1..] else []
        decreases maxBatch - |batch|, ok
      {
        ghost var rest, n := incoming, |batch| - 1;
        assert rest == old(incoming)[n..];
        assert n < |all| ==> rest != [] && rest[0] == Submitted(all[n]);
        assert n == |all| && rest != [] ==> rest[0].Lull?;
        ok, batch := TryRecvNowait(batch);
        assert rest != [] ==> incoming == rest[1..] == old(incoming)[n + 1..];
        assert !ok ==> rest == [] || rest[0] == Lull;
        assert ok ==> rest[0] == Submitted(batch[n + 1]) && all[..n + 1] == all[..n] + [all[n]];
      }
    }

    /** Reading `i` lies in the delay window that began at reading `r`. */
    ghost predicate Within(r: nat, i: nat) {
      clock.Some? && clock.value(i) < clock.value(r) + maxQueueDelay
    }

    /** How long the window that began at reading `r` still lasts at reading `i`. */
    ghost function Rest(r: nat, i: nat): real
      requires clock.Some?
    {
      clock.value(r) + maxQueueDelay - clock.value(i)
    }

    /** Phase 2: as many of the requests at hand as there is room for, and as the window lasts, with one reading before
        each; the receives are given the rest of the window for their timer. */
    method Await(drained: seq<Request>) returns (batch: seq<Request>)
      requires |drained| < maxBatch && maxQueueDelay > 0.0 && clock.Some?
      modifies this`incoming, this`readings, this`timers
      ensures |drained| <= |batch| <= maxBatch && |incoming| <= |old(incoming)|
      ensures batch + Requests(incoming) == drained + Requests(old(incoming))
      ensures var r, n := old(readings), |batch| - |drained|;
        && n <= |Burst(old(incoming))| && batch == drained + Burst(old(incoming))[..n]
        && (forall i :: r < i <= r + n ==> Within(r, i))
        && (if |batch| == maxBatch then readings == r + 1 + n else readings == r + 2 + n)
        && (|batch| < maxBatch && Within(r, r + 1 + n) ==>
              n == |Burst(old(incoming))| && (incoming == [] || Lulls(incoming) < Lulls(old(incoming))))
        && (|batch| == maxBatch || !Within(r, r + 1 + n) ==> n <= |old(incoming)| && incoming == old(incoming)[n..])
        && timers == old(timers)
             + seq(if |batch| < maxBatch && Within(r, r + 1 + n) then n + 1 else n, j requires 0 <= j => Rest(r, r + 1 + j))
    {
      hide Requests, Lulls, Burst, Within, Rest;
      batch := drained;
      ghost var r, all, n := readings, Burst(incoming), 0;
      BurstIsPrefix(incoming);
      var began := Now();
      var deadline := began + maxQueueDelay;
      assert all[..0] == [] && timers == old(timers) + seq(0, j requires 0 <= j => Rest(r, r + 1 + j));
      while |batch| < maxBatch
        invariant n <= |all| && |batch| == |drained| + n <= maxBatch && batch == drained + all[..n]
        invariant incoming == old(incoming)[n..] && readings == r + 1 + n
        invariant forall i :: r < i <= r + n ==> Within(r, i)
        invariant timers == old(timers) + seq(n, j requires 0 <= j => Rest(r, r + 1 + j))
        decreases maxBatch - |batch|
      {
        var now := Now();
        var remaining := deadline - now;
        if remaining <= 0.0 {
          Expired(r, r + 1 + n);
          break;
        }
        NextTimer(old(timers), r, n);
        Windowed(r, r + 1 + n, remaining);
        assert n < |all| ==> incoming[0] == Submitted(all[n]) && incoming[1..] == old(incoming)[n + 1..];
        assert n == |all| && incoming != [] ==> incoming[0].Lull?;
        var got := RecvOrTimeout(remaining);
        match got {
          case Closed => break;
          case Timeout => break;
          case Item(p) =>
            assert all[..n + 1] == all[..n] + [all[n]];
            batch, n := batch + [p], n + 1;
        }
      }
      Awaited(drained, old(incoming), n, incoming);
    }

    lemma Windowed(r: nat, i: nat, remaining: real)
      requires clock.Some? && remaining == clock.value(r) + maxQueueDelay - clock.value(i) && remaining > 0.0
      ensures Within(r, i) && remaining == Rest(r, i)
    {}

    lemma Expired(r: nat, i: nat)
      requires clock.Some? && clock.value(r) + maxQueueDelay - clock.value(i) <= 0.0
      ensures !Within(r, i)
    {}

    lemma NextTimer(before: seq<real>, r: nat, n: nat)
      requires clock.Some?
      ensures before + seq(n, j requires 0 <= j => Rest(r, r + 1 + j)) + [Rest(r, r + 1 + n)]
           == before + seq(n + 1, j requires 0 <= j => Rest(r, r + 1 + j))
    {}

    method Send(p: Request, reply: Reply) returns (ok: bool)
      modifies this`sent
      ensures ok == !p.gone
      ensures sent == old(sent) + Delivered([Sent(p, reply)])
    {
      ok := !p.gone;
      if ok { sent := sent + [Sent(p, reply)]; }
    }

    /** The responses in order, or the same exception to the whole batch. */
    method DispatchBatch(batch: seq<Request>) returns (ending: Option<Ending>)
      modifies this`batches, this`sent
      ensures batches == old(batches) + [batch]
      ensures var f := forward(|old(batches)|, Reqs(batch));
        && sent == old(sent) + Delivered(Replies(batch, f))
        && ending == (if f.Aborted? then Some(ForwardAborted) else if NoneGone(batch) then None else Some(ReplyClosed))
    {
      var f := forward(|batches|, Reqs(batch));
      batches := batches + [batch];
      if f.Aborted? { return Some(ForwardAborted); }
      ghost var replies := Replies(batch, f);
      assert Targets(replies) == batch;
      for j := 0 to |batch|
        invariant NoneGone(batch[..j]) && batches == old(batches) + [batch]
        invariant sent == old(sent) + replies[..j]
      {
        var reply :=
          if f.Returned? && |f.responses| == |batch| then Response(f.responses[j])
          else if f.Raised? then Failure(f.error)
          else CountMismatch(|f.responses|, |batch|);
        var ok := Send(batch[j], reply);
        assert replies == replies[..j] + ([replies[j]] + replies[j + 1..]);
        assert Targets(replies[..j]) == batch[..j];
        if !ok {
          DeliveredAppend(replies[..j], [replies[j]] + replies[j + 1..]);
          return Some(ReplyClosed);
        }
        assert replies[..j + 1] == replies[..j] + [replies[j]];
      }
      assert replies[..|batch|] == replies && batch[..|batch|] == batch;
      DeliveredAll(replies);
      ending := None;
    }

    /** A batch has no window if it was full at once or no delay is configured; in a window every further request
        follows a reading of its own within it. */
    ghost predicate WindowOk(batch: seq<Request>, w: Window) {
      && 1 <= w.drained <= |batch| <= maxBatch
      && (w.opening == None <==> w.drained == maxBatch || maxQueueDelay == 0.0)
      && (w.opening == None ==> |batch| == w.drained)
      && (w.opening.Some? ==> forall i :: w.opening.value < i <= LastReading(batch, w) ==> Within(w.opening.value, i))
    }

    /** One batch from a first request on. */
    method Gather(first: Request) returns (batch: seq<Request>, ghost w: Window)
      requires 1 <= maxBatch && 0.0 <= maxQueueDelay && (maxQueueDelay > 0.0 ==> clock.Some?)
      modifies this`incoming, this`readings, this`timers
      ensures 1 <= |batch| <= maxBatch && |incoming| <= |old(incoming)|
      ensures batch + Requests(incoming) == [first] + Requests(old(incoming))
      ensures maxQueueDelay == 0.0 ==>
        [batch] + Cut(incoming, maxBatch) == Cut([Submitted(first)] + old(incoming), maxBatch)
      ensures WindowOk(batch, w) && w.drained == 1 + Min(|Burst(old(incoming))|, maxBatch - 1)
      ensures old(readings) <= readings && (w.opening == None ==> readings == old(readings))
      ensures w.opening.Some? ==> w.opening == Some(old(readings)) && old(readings) + 1 + |batch| - w.drained <= readings
      ensures |batch| < maxBatch && maxQueueDelay > 0.0 ==>
        || incoming == [] || Lulls(incoming) + 2 <= Lulls(old(incoming))
        || !Within(old(readings), old(readings) + 1 + |batch| - w.drained)
    {
      hide Burst, Requests, Cut, Lulls, Within, Rest;
      batch := Drain(first);
      Drained(first, old(incoming), maxBatch, batch, incoming);
      w := Window(|batch|, None);
      if |batch| < maxBatch && maxQueueDelay > 0.0 {
        w := Window(|batch|, Some(readings));
        batch := Await(batch);
      }
    }

    /** Every batch was formed so, and the windows follow each other in the readings. */
    ghost predicate WindowsOk(formed: seq<seq<Request>>, ws: seq<Window>, used: nat) {
      && |ws| == |formed|
      && (forall k :: 0 <= k < |ws| ==>
            WindowOk(formed[k], ws[k]) && (ws[k].opening.Some? ==> LastReading(formed[k], ws[k]) < used))
      && (forall k, l :: 0 <= k < l < |ws| && ws[k].opening.Some? && ws[l].opening.Some? ==>
            LastReading(formed[k], ws[k]) < ws[l].opening.value)
    }

    /** The reading before the last request that a window added, or the one that opened it. */
    ghost function LastReading(batch: seq<Request>, w: Window): int
      requires w.opening.Some?
    {
      w.opening.value + |batch| - w.drained
    }

    lemma WindowsMore(formed: seq<seq<Request>>, ws: seq<Window>, used: nat, batch: seq<Request>, w: Window, now: nat)
      requires WindowsOk(formed, ws, used) && WindowOk(batch, w) && used <= now
      requires w.opening.Some? ==> w.opening.value == used && LastReading(batch, w) < now
      ensures WindowsOk(formed + [batch], ws + [w], now)
    {}

    /** One batch, gathered and dispatched. */
    method Serve(ghost start: seq<Arrival>, first: Request) returns (failed: Option<Ending>)
      requires 0.0 <= maxQueueDelay && (maxQueueDelay > 0.0 ==> clock.Some?)
      requires Account(start, [Submitted(first)] + incoming, batches)
      requires sent == Owed(batches, forward) && Answered(batches, forward) && WindowsOk(batches, windows, readings)
      modifies this
      ensures WindowsOk(batches, windows, readings)
      ensures Account(start, incoming, batches) && |incoming| <= |old(incoming)|
      ensures sent == Delivered(Owed(batches, forward))
      ensures failed == None ==> sent == Owed(batches, forward) && Answered(batches, forward)
      ensures failed.Some? ==> !Answered(batches, forward) && failed.value != Ended && failed.value != ValueError
    {
      hide Flatten, Requests, Cut, Owed, Delivered, Answered, Lulls, Replies, Account, NoneGone, WindowOk, WindowsOk, Within, Burst;
      ghost var before, done := [Submitted(first)] + incoming, batches;
      HeadRequest(first, incoming);
      SizeAccounted(start, before, done);
      ghost var used := readings;
      ghost var w;
      var batch;
      batch, w := Gather(first);
      WindowsMore(done, windows, used, batch, w, readings);
      windows := windows + [w];
      AccountMore(start, before, done, batch, incoming);
      failed := DispatchBatch(batch);
      Dispatched(done, batch, forward);
    }

    lemma SizeAccounted(start: seq<Arrival>, rest: seq<Arrival>, formed: seq<seq<Request>>)
      requires Account(start, rest, formed)
      ensures 1 <= maxBatch
    {}

    /** The loop: until the channel is closed, or `forward` aborts, or a reply cannot be sent. */
    method Run() returns (ending: Ending)
      requires batches == [] && sent == [] && windows == []
      modifies this
      ensures WindowsOk(batches, windows, readings)
      ensures ending == ValueError <==> maxQueueDelay < 0.0 || (maxQueueDelay > 0.0 && clock == None) || maxBatch < 1
      ensures ending == ValueError ==> incoming == old(incoming) && batches == []
      ensures ending != ValueError ==> Account(old(incoming), incoming, batches)
      ensures sent == Delivered(Owed(batches, forward))
      ensures ending != ValueError ==>
        (ending == Ended <==> NeverAborts(batches, forward) && NoneGone(Requests(old(incoming))))
      ensures ending == Ended ==> incoming == [] && sent == Owed(batches, forward)
      ensures ending == Ended ==> Flatten(batches) == Targets(sent) == Requests(old(incoming))
      ensures ending == Ended && maxQueueDelay == 0.0 ==> batches == Cut(old(incoming), maxBatch)
    {
      if maxQueueDelay < 0.0 || (maxQueueDelay > 0.0 && clock == None) || maxBatch < 1 {
        return ValueError;
      }
      ghost var start := incoming;
      assert Account(start, incoming, batches) && Answered(batches, forward);
      ending := Loop(start);
    }

    method Loop(ghost start: seq<Arrival>) returns (ending: Ending)
      requires 0.0 <= maxQueueDelay && (maxQueueDelay > 0.0 ==> clock.Some?)
      requires Account(start, incoming, batches)
      requires sent == Owed(batches, forward) && Answered(batches, forward) && WindowsOk(batches, windows, readings)
      modifies this
      ensures WindowsOk(batches, windows, readings)
      ensures ending != ValueError && Account(start, incoming, batches) && sent == Delivered(Owed(batches, forward))
      ensures ending == Ended <==> NeverAborts(batches, forward) && NoneGone(Requests(start))
      ensures ending == Ended ==> incoming == [] && sent == Owed(batches, forward)
      ensures ending == Ended ==> Flatten(batches) == Targets(sent) == Requests(start)
      ensures ending == Ended && maxQueueDelay == 0.0 ==> batches == Cut(start, maxBatch)
    {
      hide Flatten, Requests, Cut, Owed, Delivered, NeverAborts, NoneGone, Answered, SkipLulls, Account, Targets, WindowsOk;
      while true
        invariant Account(start, incoming, batches)
        invariant sent == Owed(batches, forward) && Answered(batches, forward) && WindowsOk(batches, windows, readings)
        decreases |incoming|
      {
        AccountSkips(start, incoming, batches);
        var first := Receive();
        if first == None {
          AllReceived(start, batches, forward);
          return Ended;
        }
        var failed := Serve(start, first.value);
        if failed.Some? {
          NotAllAnswered(start, incoming, batches, forward);
          return failed.value;
        }
      }
    }

    lemma AccountSkips(start: seq<Arrival>, rest: seq<Arrival>, formed: seq<seq<Request>>)
      requires Account(start, rest, formed)
      ensures Account(start, SkipLulls(rest), formed) && |SkipLulls(rest)| <= |rest|
      ensures SkipLulls(rest) == [] ==> Account(start, [], formed)
    {
      SkippedLulls(rest, maxBatch);
    }

    lemma AllReceived(start: seq<Arrival>, formed: seq<seq<Request>>, forward: Forward)
      requires Account(start, [], formed) && Answered(formed, forward)
      ensures Flatten(formed) == Targets(Owed(formed, forward)) == Requests(start)
      ensures Owed(formed, forward) == Delivered(Owed(formed, forward))
      ensures NeverAborts(formed, forward) && NoneGone(Requests(start))
      ensures maxQueueDelay == 0.0 ==> formed == Cut(start, maxBatch)
    {
      OwedTargets(formed, forward);
      DeliveredAll(Owed(formed, forward));
      assert Cut([], maxBatch) == [];
      assert formed + [] == formed;
      assert Flatten(formed) + Requests([]) == Flatten(formed);
    }

    lemma NotAllAnswered(start: seq<Arrival>, rest: seq<Arrival>, formed: seq<seq<Request>>, forward: Forward)
      requires Account(start, rest, formed) && !Answered(formed, forward)
      ensures !(NeverAborts(formed, forward) && NoneGone(Requests(start)))
    {
      if NoneGone(Requests(start)) {
        assert forall j :: 0 <= j < |Flatten(formed)| ==> Requests(start)[j] == Flatten(formed)[j];
      }
    }

    /** Every request is in a batch, in order, or still to come. */
    ghost predicate Account(start: seq<Arrival>, rest: seq<Arrival>, formed: seq<seq<Request>>) {
      && 1 <= maxBatch
      && Flatten(formed) + Requests(rest) == Requests(start)
      && (forall k :: 0 <= k < |formed| ==> 1 <= |formed[k]| <= maxBatch)
      && (maxQueueDelay == 0.0 ==> formed + Cut(rest, maxBatch) == Cut(start, maxBatch))
    }

    lemma AccountMore(start: seq<Arrival>, before: seq<Arrival>, done: seq<seq<Request>>, batch: seq<Request>, rest: seq<Arrival>)
      requires Account(start, before, done) && 1 <= |batch| <= maxBatch
      requires batch + Requests(rest) == Requests(before)
      requires maxQueueDelay == 0.0 ==> [batch] + Cut(rest, maxBatch) == Cut(before, maxBatch)
      ensures Account(start, rest, done + [batch])
    {
      hide Flatten, Requests, Cut;
      FlattenSnoc(done, batch);
      assert Flatten(done) + batch + Requests(rest) == Flatten(done) + (batch + Requests(rest));
      if maxQueueDelay == 0.0 {
        assert done + [batch] + Cut(rest, maxBatch) == done + ([batch] + Cut(rest, maxBatch));
      }
    }
  }

  lemma HeadRequest(first: Request, rest: seq<Arrival>)
    ensures Requests([Submitted(first)] + rest) == [first] + Requests(rest)
  {
    assert ([Submitted(first)] + rest)[1..] == rest;
  }

  /** So far `forward` has not aborted, and no reply failed. */
  ghost predicate Answered(batches: seq<seq<Request>>, forward: Forward) {
    NeverAborts(batches, forward) && NoneGone(Flatten(batches))
  }

  /** Draining keeps every request, and takes the next batch of the cut if nothing is added. */
  lemma Drained(first: Request, arrivals: seq<Arrival>, size: nat, batch: seq<Request>, rest: seq<Arrival>)
    requires 1 <= size
    requires var n := Min(|Burst(arrivals)|, size - 1);
      && n <= |arrivals| && batch == [first] + Burst(arrivals)[..n]
      && rest == if |batch| < size && n < |arrivals| then arrivals[n + 1..] else arrivals[n..]
    ensures 1 <= |batch| <= size && |rest| <= |arrivals|
    ensures batch + Requests(rest) == [first] + Requests(arrivals)
    ensures [batch] + Cut(rest, size) == Cut([Submitted(first)] + arrivals, size)
    ensures |batch| < size ==> rest == [] || Lulls(rest) < Lulls(arrivals)
  {
    hide Cut, Requests, Lulls, Burst;
    var n := Min(|Burst(arrivals)|, size - 1);
    BurstIsPrefix(arrivals);
    var stop := arrivals[n..];
    RequestsSplit(arrivals, n);
    CutFirst(first, arrivals, size);
    if |batch| < size && n < |arrivals| {
      assert rest == stop[1..];
      LullHead(stop, size);
    }
    assert batch + Requests(stop) == [first] + (Burst(arrivals)[..n] + Requests(stop));
  }

  lemma Awaited(drained: seq<Request>, arrivals: seq<Arrival>, n: nat, rest: seq<Arrival>)
    requires n <= |Burst(arrivals)| && n <= |arrivals|
    requires rest == arrivals[n..] || (n == |Burst(arrivals)| < |arrivals| && rest == arrivals[n + 1..])
    ensures drained + Burst(arrivals)[..n] + Requests(rest) == drained + Requests(arrivals) && |rest| <= |arrivals|
    ensures n == |Burst(arrivals)| < |arrivals| && rest == arrivals[n + 1..] ==> Lulls(rest) < Lulls(arrivals)
  {
    hide Requests, Lulls, Burst;
    RequestsSplit(arrivals, n);
    BurstIsPrefix(arrivals);
    if n == |Burst(arrivals)| < |arrivals| && rest == arrivals[n + 1..] {
      assert arrivals[n..][1..] == rest;
      LullHead(arrivals[n..], 1);
    }
    assert drained + (Burst(arrivals)[..n] + Requests(arrivals[n..])) == drained + Burst(arrivals)[..n] + Requests(arrivals[n..]);
  }

  lemma LullHead(arrivals: seq<Arrival>, size: nat)
    requires arrivals != [] && arrivals[0].Lull? && 1 <= size
    ensures Requests(arrivals) == Requests(arrivals[1..]) && Cut(arrivals, size) == Cut(arrivals[1..], size)
    ensures Lulls(arrivals) == Lulls(arrivals[1..]) + 1
  {}

  lemma CutFirst(first: Request, arrivals: seq<Arrival>, size: nat)
    requires 1 <= size
    ensures var n := Min(|Burst(arrivals)|, size - 1);
      n <= |arrivals|
      && Cut([Submitted(first)] + arrivals, size) == [[first] + Burst(arrivals)[..n]] + Cut(arrivals[n..], size)
  {
    var n := Min(|Burst(arrivals)|, size - 1);
    var all := [Submitted(first)] + arrivals;
    assert all[1..] == arrivals;
    assert Burst(all) == [first] + Burst(arrivals);
    CutHead(all, size);
    hide Cut, Burst;
    assert all[n + 1..] == arrivals[n..];
    assert ([first] + Burst(arrivals))[..n + 1] == [first] + Burst(arrivals)[..n];
  }

  lemma {:induction false} RequestsSplit(arrivals: seq<Arrival>, n: nat)
    requires n <= |Burst(arrivals)|
    ensures n <= |arrivals|
    ensures Requests(arrivals) == Burst(arrivals)[..n] + Requests(arrivals[n..])
    ensures Lulls(arrivals) == Lulls(arrivals[n..])
  {
    BurstIsPrefix(arrivals);
    if n != 0 {
      RequestsSplit(arrivals[1..], n - 1);
      assert arrivals[1..][n - 1..] == arrivals[n..];
    }
  }

  lemma NeverAbortsSnoc(batches: seq<seq<Request>>, batch: seq<Request>, forward: Forward)
    ensures NeverAborts(batches + [batch], forward) <==>
      NeverAborts(batches, forward) && !forward(|batches|, Reqs(batch)).Aborted?
  {
    hide Reqs;
    var more := batches + [batch];
    assert more[|batches|] == batch;
    assert Outcome(forward, more, |batches|) == forward(|batches|, Reqs(batch));
    assert forall k :: 0 <= k < |batches| ==> Outcome(forward, more, k) == Outcome(forward, batches, k);
  }

  lemma NoneGoneAppend(q: seq<Request>, r: seq<Request>)
    ensures NoneGone(q + r) <==> NoneGone(q) && NoneGone(r)
  {
    assert forall j :: 0 <= j < |q| ==> (q + r)[j] == q[j];
    assert forall j :: 0 <= j < |r| ==> (q + r)[|q| + j] == r[j];
  }

  lemma DeliveredNothing()
    ensures Delivered([]) == []
  {}

  /** After one more dispatched batch. */
  lemma Dispatched(batches: seq<seq<Request>>, batch: seq<Request>, forward: Forward)
    requires Answered(batches, forward)
    ensures var f := forward(|batches|, Reqs(batch));
      && Delivered(Owed(batches + [batch], forward)) == Owed(batches, forward) + Delivered(Replies(batch, f))
      && (Answered(batches + [batch], forward) <==> !f.Aborted? && NoneGone(batch))
      && (!f.Aborted? && NoneGone(batch) ==> Owed(batches + [batch], forward) == Delivered(Owed(batches + [batch], forward)))
  {
    hide Owed, Flatten, Replies, Delivered, NeverAborts, NoneGone, Reqs, Targets;
    var f := forward(|batches|, Reqs(batch));
    OwedSnoc(batches, batch, forward);
    FlattenSnoc(batches, batch);
    OwedTargets(batches, forward);
    DeliveredAppend(Owed(batches, forward), Replies(batch, f));
    DeliveredAll(Replies(batch, f));
    DeliveredNothing();
    RepliesTo(batch, f);
    NeverAbortsSnoc(batches, batch, forward);
    NoneGoneAppend(Flatten(batches), batch);
  }
}
