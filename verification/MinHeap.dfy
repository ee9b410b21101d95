/** The waiters of a `SimClock`, and `heapq` over lists of them: a binary heap kept in a sequence. */
module MinHeap {
  import opened Entries

  class Waiter {
    const entry: Entry
    var cancelled: bool
    var woken: bool

    constructor (entry: Entry)
      ensures this.entry == entry && !cancelled && !woken
    {
      this.entry := entry;
      cancelled := false;
      woken := false;
    }

    method Cancel()
      modifies this`cancelled
      ensures cancelled
    {
      cancelled := true;
    }
  }

  function Parent(k: int): int {
    (k - 1) / 2
  }

  predicate Ordered(o: Order, h: seq<Waiter>, i: int, j: int)
    requires 0 <= i < |h| && 0 <= j < |h|
  {
    !Less(o, h[j].entry, h[i].entry)
  }

  /** No waiter is less than its parent. */
  predicate HeapOrdered(o: Order, h: seq<Waiter>) {
    forall i :: 0 < i < |h| ==> Ordered(o, h, Parent(i), i)
  }

  lemma {:induction false} HeapTop(o: Order, h: seq<Waiter>, i: nat)
    requires HeapOrdered(o, h) && i < |h|
    ensures Ordered(o, h, 0, i)
    decreases i
  {
    if i != 0 {
      HeapTop(o, h, Parent(i));
      assert Ordered(o, h, Parent(i), i);
    }
  }

  lemma SwapMultiset(h: seq<Waiter>, i: int, j: int)
    requires 0 <= i < |h| && 0 <= j < |h|
    ensures multiset(h[i := h[j]][j := h[i]]) == multiset(h)
  {}

  /** Above a hole at `i`, children may skip a generation; everything else is in order. */
  predicate UpTo(o: Order, h: seq<Waiter>, i: int)
  {
    && 0 <= i < |h|
    && (forall k :: 0 < k < |h| && k != i ==> Ordered(o, h, Parent(k), k))
    && (forall k :: 0 < k < |h| && Parent(k) == i && 0 < i ==> Ordered(o, h, Parent(i), k))
  }

  lemma SiftUpStep(o: Order, h: seq<Waiter>, i: int)
    requires UpTo(o, h, i) && 0 < i && !Ordered(o, h, Parent(i), i)
    ensures var j := Parent(i); UpTo(o, h[i := h[j]][j := h[i]], j)
  {
    var j := Parent(i);
    var g := h[i := h[j]][j := h[i]];
    forall k | 0 < k < |g| && k != j ensures Ordered(o, g, Parent(k), k) {
      assert k != i ==> Ordered(o, h, Parent(k), k);
    }
    forall k | 0 < k < |g| && Parent(k) == j && 0 < j ensures Ordered(o, g, Parent(j), k) {
      assert Ordered(o, h, Parent(j), j);
      assert k != i ==> Ordered(o, h, j, k);
    }
  }

  /** `heapq.heappush`. */
  method HeapPush(o: Order, h: seq<Waiter>, w: Waiter) returns (r: seq<Waiter>)
    requires HeapOrdered(o, h)
    ensures HeapOrdered(o, r) && multiset(r) == multiset(h) + multiset{w}
  {
    r := h + [w];
    var i := |h|;
    forall k | 0 < k < |r| && k != i ensures Ordered(o, r, Parent(k), k) {
      assert Ordered(o, h, Parent(k), k);
    }
    while 0 < i && !Ordered(o, r, Parent(i), i)
      invariant UpTo(o, r, i) && multiset(r) == multiset(h) + multiset{w}
      decreases i
    {
      var j := Parent(i);
      SiftUpStep(o, r, i);
      SwapMultiset(r, i, j);
      r := r[i := r[j]][j := r[i]];
      i := j;
    }
  }

  /** Below a hole at `i`, its children may be less than it; everything else is in order. */
  predicate DownTo(o: Order, h: seq<Waiter>, i: int)
  {
    && 0 <= i < |h|
    && (forall k :: 0 < k < |h| && Parent(k) != i ==> Ordered(o, h, Parent(k), k))
    && (forall k :: 0 < k < |h| && Parent(k) == i && 0 < i ==> Ordered(o, h, Parent(i), k))
  }

  lemma SiftDownStep(o: Order, h: seq<Waiter>, i: int, j: int)
    requires DownTo(o, h, i) && 0 < j < |h| && Parent(j) == i && !Ordered(o, h, i, j)
    requires forall k :: 0 < k < |h| && Parent(k) == i ==> Ordered(o, h, j, k)
    ensures DownTo(o, h[i := h[j]][j := h[i]], j)
  {
    var g := h[i := h[j]][j := h[i]];
    forall k | 0 < k < |g| && Parent(k) != j ensures Ordered(o, g, Parent(k), k) {
      if Parent(k) == i {
        assert Ordered(o, h, j, k);
      } else if k == i {
        assert Ordered(o, h, Parent(i), j);
      } else {
        assert Ordered(o, h, Parent(k), k);
      }
    }
    forall k | 0 < k < |g| && Parent(k) == j ensures Ordered(o, g, Parent(j), k) {
      assert Ordered(o, h, j, k);
    }
  }

  /** The lesser child of `i`. */
  function LesserChild(o: Order, h: seq<Waiter>, i: int): (j: int)
    requires 0 <= i && 2 * i + 1 < |h|
    ensures 0 < j < |h| && Parent(j) == i
    ensures forall k :: 0 < k < |h| && Parent(k) == i ==> Ordered(o, h, j, k)
  {
    if 2 * i + 2 < |h| && Less(o, h[2 * i + 2].entry, h[2 * i + 1].entry) then 2 * i + 2 else 2 * i + 1
  }

  lemma DownDone(o: Order, h: seq<Waiter>, i: int)
    requires DownTo(o, h, i) && (2 * i + 1 < |h| ==> Ordered(o, h, i, LesserChild(o, h, i)))
    ensures HeapOrdered(o, h)
  {
    forall k | 0 < k < |h| ensures Ordered(o, h, Parent(k), k) {
      if Parent(k) == i { assert Ordered(o, h, LesserChild(o, h, i), k); }
    }
  }

  lemma PopMultiset(h: seq<Waiter>, g: seq<Waiter>)
    requires 1 < |h| && g == h[..|h| - 1][0 := h[|h| - 1]]
    ensures multiset(h) == multiset(g) + multiset{h[0]}
  {
    var n := |h| - 1;
    assert h == [h[0]] + h[1..n] + [h[n]];
    assert g == [h[n]] + h[1..n];
  }

  /** `heapq.heappop`: the top leaves. */
  method HeapPop(o: Order, h: seq<Waiter>) returns (r: seq<Waiter>)
    requires HeapOrdered(o, h) && h != []
    ensures HeapOrdered(o, r) && multiset(h) == multiset(r) + multiset{h[0]}
  {
    if |h| == 1 {
      assert h == [h[0]];
      return [];
    }
    r := h[..|h| - 1][0 := h[|h| - 1]];
    PopMultiset(h, r);
    forall k | 0 < k < |r| && Parent(k) != 0 ensures Ordered(o, r, Parent(k), k) {
      assert Ordered(o, h, Parent(k), k);
    }
    var i := 0;
    while 2 * i + 1 < |r| && !Ordered(o, r, i, LesserChild(o, r, i))
      invariant DownTo(o, r, i) && multiset(h) == multiset(r) + multiset{h[0]}
      decreases |r| - i
    {
      var j := LesserChild(o, r, i);
      SiftDownStep(o, r, i, j);
      SwapMultiset(r, i, j);
      r := r[i := r[j]][j := r[i]];
      i := j;
    }
    DownDone(o, r, i);
  }
}
