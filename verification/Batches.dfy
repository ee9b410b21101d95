/** What `batcher_loop` promises: which batches it forms and who is answered what. */
module Batches {
  /** A request with its private reply channel; the caller may have closed the receiving end. */
  datatype Request = Request(req: int, gone: bool)

  /** What the batcher finds when it receives: a request, or none for the moment. At the end the channel is closed. */
  datatype Arrival = Submitted(p: Request) | Lull

  /** `forward` returns, raises an `Exception`, or raises another `BaseException`. */
  datatype Forwarded = Returned(responses: seq<int>) | Raised(error: int) | Aborted

  datatype Reply = Response(value: int) | Failure(error: int) | CountMismatch(got: nat, want: nat)

  datatype Sent = Sent(to: Request, reply: Reply)

  /** The n-th call of `forward`, on these requests. */
  type Forward = (nat, seq<int>) -> Forwarded

  function Requests(arrivals: seq<Arrival>): seq<Request> {
    if arrivals == [] then []
    else if arrivals[0].Lull? then Requests(arrivals[1..])
    else [arrivals[0].p] + Requests(arrivals[1..])
  }

  function Flatten<T>(parts: seq<seq<T>>): seq<T> {
    if parts == [] then [] else Flatten(parts[..|parts| - 1]) + parts[|parts| - 1]
  }

  function Reqs(batch: seq<Request>): seq<int> {
    seq(|batch|, j requires 0 <= j < |batch| => batch[j].req)
  }

  function Targets(sent: seq<Sent>): seq<Request> {
    seq(|sent|, j requires 0 <= j < |sent| => sent[j].to)
  }

  // ----- replies -----

  /** What the request at position `j` of a batch of `n` is answered. */
  function ReplyAt(f: Forwarded, n: nat, j: nat): Reply
    requires !f.Aborted? && j < n
  {
    match f
    case Returned(responses) =>
      if |responses| == n then Response(responses[j]) else CountMismatch(|responses|, n)
    case Raised(error) => Failure(error)
  }

  function Replies(batch: seq<Request>, f: Forwarded): seq<Sent> {
    if f.Aborted? then []
    else seq(|batch|, j requires 0 <= j < |batch| => Sent(batch[j], ReplyAt(f, |batch|, j)))
  }

  function Outcome(forward: Forward, batches: seq<seq<Request>>, k: nat): Forwarded
    requires k < |batches|
  {
    forward(k, Reqs(batches[k]))
  }

  /** The replies that a sequence of batches calls for. */
  function Owed(batches: seq<seq<Request>>, forward: Forward): seq<Sent> {
    if batches == [] then []
    else
      var k := |batches| - 1;
      Owed(batches[..k], forward) + Replies(batches[k], Outcome(forward, batches, k))
  }

  /** What gets out: a send to a closed reply channel raises and ends the loop. */
  function Delivered(sends: seq<Sent>): seq<Sent> {
    if sends == [] || sends[0].to.gone then [] else [sends[0]] + Delivered(sends[1..])
  }

  ghost predicate NoneGone(q: seq<Request>) {
    forall j :: 0 <= j < |q| ==> !q[j].gone
  }

  ghost predicate NeverAborts(batches: seq<seq<Request>>, forward: Forward) {
    forall k :: 0 <= k < |batches| ==> !Outcome(forward, batches, k).Aborted?
  }

  lemma RepliesTo(batch: seq<Request>, f: Forwarded)
    ensures if f.Aborted? then Replies(batch, f) == [] else Targets(Replies(batch, f)) == batch
  {}

  lemma FlattenSnoc<T>(parts: seq<seq<T>>, last: seq<T>)
    ensures Flatten(parts + [last]) == Flatten(parts) + last
  {
    assert (parts + [last])[..|parts|] == parts;
  }

  lemma OwedSnoc(batches: seq<seq<Request>>, last: seq<Request>, forward: Forward)
    ensures Owed(batches + [last], forward) == Owed(batches, forward) + Replies(last, forward(|batches|, Reqs(last)))
  {
    assert (batches + [last])[..|batches|] == batches;
  }

  lemma NoneGoneHead(a: seq<Sent>)
    requires a != []
    ensures NoneGone(Targets(a)) <==> !a[0].to.gone && NoneGone(Targets(a[1..]))
  {
    assert Targets(a) == [Targets(a)[0]] + Targets(a[1..]);
    if !a[0].to.gone && NoneGone(Targets(a[1..])) {
      forall j | 0 <= j < |a| ensures !Targets(a)[j].gone {
        assert j > 0 ==> Targets(a)[j] == Targets(a[1..])[j - 1];
      }
    }
    if NoneGone(Targets(a)) {
      assert !Targets(a)[0].gone;
      forall j | 0 <= j < |a| - 1 ensures !Targets(a[1..])[j].gone {
        assert Targets(a)[j + 1] == Targets(a[1..])[j];
      }
    }
  }

  lemma DeliveredHead(head: Sent, tail: seq<Sent>)
    ensures Delivered([head] + tail) == if head.to.gone then [] else [head] + Delivered(tail)
  {
    assert ([head] + tail)[1..] == tail;
  }

  lemma NobodyGone()
    ensures NoneGone(Targets([]))
  {}

  lemma {:induction false} DeliveredAppend(a: seq<Sent>, b: seq<Sent>)
    ensures Delivered(a + b) == if NoneGone(Targets(a)) then a + Delivered(b) else Delivered(a)
    decreases |a|
  {
    hide NoneGone, Targets, Delivered;
    if a == [] {
      NobodyGone();
      assert a + b == b && a + Delivered(b) == Delivered(b);
    } else {
      var head, tail := a[0], a[1..];
      assert a == [head] + tail;
      assert a + b == [head] + (tail + b);
      DeliveredAppend(tail, b);
      NoneGoneHead(a);
      DeliveredHead(head, tail);
      DeliveredHead(head, tail + b);
      assert [head] + (tail + Delivered(b)) == [head] + tail + Delivered(b);
    }
  }

  lemma {:induction false} DeliveredAll(a: seq<Sent>)
    ensures Delivered(a) == a <==> NoneGone(Targets(a))
    ensures |Delivered(a)| <= |a| && Delivered(a) == a[..|Delivered(a)|]
    ensures forall j :: 0 <= j < |Delivered(a)| ==> !a[j].to.gone
    ensures |Delivered(a)| < |a| ==> a[|Delivered(a)|].to.gone
  {
    if a != [] {
      DeliveredAll(a[1..]);
      NoneGoneHead(a);
    }
  }

  /** Unless `forward` aborts, the owed replies go to exactly the batched requests, in their order. */
  lemma {:induction false} OwedTargets(batches: seq<seq<Request>>, forward: Forward)
    requires NeverAborts(batches, forward)
    ensures Targets(Owed(batches, forward)) == Flatten(batches)
    decreases |batches|
  {
    if batches != [] {
      var k := |batches| - 1;
      NeverAbortsInit(batches, forward);
      OwedTargets(batches[..k], forward);
      var last := Replies(batches[k], Outcome(forward, batches, k));
      assert !Outcome(forward, batches, k).Aborted?;
      assert Targets(last) == batches[k];
      assert Targets(Owed(batches[..k], forward) + last) == Targets(Owed(batches[..k], forward)) + Targets(last);
    }
  }

  lemma {:induction false} OwedReply(batches: seq<seq<Request>>, forward: Forward, k: nat, j: nat)
    requires NeverAborts(batches, forward) && k < |batches| && j < |batches[k]|
    ensures !Outcome(forward, batches, k).Aborted?
    ensures var at := |Flatten(batches[..k])| + j;
      at < |Owed(batches, forward)|
      && Owed(batches, forward)[at] == Sent(batches[k][j], ReplyAt(Outcome(forward, batches, k), |batches[k]|, j))
    decreases |batches|
  {
    var n := |batches| - 1;
    var init := batches[..n];
    NeverAbortsInit(batches, forward);
    assert !Outcome(forward, batches, k).Aborted?;
    var all, first := Owed(batches, forward), Owed(init, forward);
    assert all == first + Replies(batches[n], Outcome(forward, batches, n));
    OwedTargets(init, forward);
    assert |first| == |Targets(first)| == |Flatten(init)|;
    if k < n {
      hide Owed, Flatten, NeverAborts, Targets, Replies, ReplyAt;
      OwedReply(init, forward, k, j);
      assert init[..k] == batches[..k] && init[k] == batches[k];
      assert Outcome(forward, init, k) == Outcome(forward, batches, k);
      assert forall at :: 0 <= at < |first| ==> all[at] == first[at];
    } else {
      hide Owed, Flatten, NeverAborts, Targets, ReplyAt, Outcome;
    }
  }

  /** Position by position: the k-th call of `forward` gets the k-th batch's requests in their order, and the j-th of
      them is answered by the j-th response, or by what the whole batch is answered: the exception, or the mismatch. */
  lemma OwedAt(batches: seq<seq<Request>>, forward: Forward, k: nat, j: nat, rs: seq<int>)
    requires NeverAborts(batches, forward) && k < |batches| && j < |batches[k]|
    requires |rs| == |batches[k]| && forall i :: 0 <= i < |rs| ==> rs[i] == batches[k][i].req
    ensures var at, sends := |Flatten(batches[..k])| + j, Owed(batches, forward);
      && at < |sends| && sends[at].to == batches[k][j]
      && (match forward(k, rs)
          case Raised(error) => sends[at].reply == Failure(error)
          case Aborted => false
          case Returned(responses) =>
            if |responses| == |rs| then sends[at].reply == Response(responses[j])
            else sends[at].reply == CountMismatch(|responses|, |rs|))
  {
    assert rs == Reqs(batches[k]);
    OwedReply(batches, forward, k, j);
    hide Owed, Flatten, NeverAborts;
  }

  lemma NeverAbortsInit(batches: seq<seq<Request>>, forward: Forward)
    requires NeverAborts(batches, forward) && batches != []
    ensures NeverAborts(batches[..|batches| - 1], forward)
  {
    var init := batches[..|batches| - 1];
    forall i | 0 <= i < |init| ensures !Outcome(forward, init, i).Aborted? {
      assert !Outcome(forward, batches, i).Aborted?;
    }
  }

  // ----- batches without a delay window -----

  /** The requests that are there without waiting. */
  function Burst(arrivals: seq<Arrival>): seq<Request> {
    if arrivals == [] || arrivals[0].Lull? then [] else [arrivals[0].p] + Burst(arrivals[1..])
  }

  function Chunks(q: seq<Request>, size: nat): seq<seq<Request>>
    requires 1 <= size
    decreases |q|
  {
    if q == [] then [] else if |q| <= size then [q] else [q[..size]] + Chunks(q[size..], size)
  }

  lemma {:induction false} BurstIsPrefix(arrivals: seq<Arrival>)
    ensures var b := Burst(arrivals);
      && |b| <= |arrivals| && (forall j :: 0 <= j < |b| ==> arrivals[j] == Submitted(b[j]))
      && (|b| < |arrivals| ==> arrivals[|b|].Lull?)
  {
    if arrivals != [] && !arrivals[0].Lull? { BurstIsPrefix(arrivals[1..]); }
  }

  /** Each uninterrupted burst is cut into full batches and a rest. */
  function Cut(arrivals: seq<Arrival>, size: nat): seq<seq<Request>>
    requires 1 <= size
    decreases |arrivals|
  {
    if arrivals == [] then []
    else if arrivals[0].Lull? then Cut(arrivals[1..], size)
    else
      BurstIsPrefix(arrivals);
      Chunks(Burst(arrivals), size) + Cut(arrivals[|Burst(arrivals)|..], size)
  }

  function Min(a: nat, b: nat): nat {
    if a < b then a else b
  }

  lemma {:induction false} BurstSuffix(arrivals: seq<Arrival>, n: nat)
    requires n <= |Burst(arrivals)|
    ensures n <= |arrivals| && Burst(arrivals[n..]) == Burst(arrivals)[n..]
    decreases n
  {
    BurstIsPrefix(arrivals);
    if n != 0 {
      BurstSuffix(arrivals[1..], n - 1);
      assert arrivals[1..][n - 1..] == arrivals[n..];
    }
  }

  /** The next batch of the cut is the longest run of requests at hand, up to the size. */
  lemma CutHead(arrivals: seq<Arrival>, size: nat)
    requires 1 <= size && arrivals != [] && arrivals[0].Submitted?
    ensures var b := Burst(arrivals); var n := Min(|b|, size);
      1 <= n <= |arrivals| && Cut(arrivals, size) == [b[..n]] + Cut(arrivals[n..], size)
  {
    var b := Burst(arrivals);
    var n := Min(|b|, size);
    BurstIsPrefix(arrivals);
    BurstSuffix(arrivals, n);
    if n < |b| {
      assert arrivals[n..][|b| - n..] == arrivals[|b|..];
      assert arrivals[n..][0] == Submitted(b[n]);
    } else {
      assert b[..n] == b;
    }
  }
}
