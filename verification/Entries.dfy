/** Registered entries, their two orders and least elements of finite sets. */
module Entries {
  import opened Times

  /** What a waiter carries from its registration; `isCall` marks a `call_at` callback. */
  datatype Entry = Entry(deadline: Time, priority: int, seqno: nat, registeredAt: real, isCall: bool)

  /** The order of the waiter heap and the order of the open instant's heap. */
  datatype Order = ByDeadline | ByPriority

  predicate Prior(x: Entry, y: Entry) {
    x.priority < y.priority || (x.priority == y.priority && x.seqno < y.seqno)
  }

  predicate Less(o: Order, x: Entry, y: Entry) {
    match o
    case ByDeadline => Lt(x.deadline, y.deadline) || (x.deadline == y.deadline && Prior(x, y))
    case ByPriority => Prior(x, y)
  }

  /** A sequence number names one entry. */
  ghost predicate Distinct(s: set<Entry>) {
    forall x, y :: x in s && y in s && x.seqno == y.seqno ==> x == y
  }

  ghost predicate IsLeast(o: Order, s: set<Entry>, m: Entry) {
    m in s && forall x :: x in s ==> !Less(o, x, m)
  }

  lemma {:induction false} LeastExists(o: Order, s: set<Entry>)
    requires s != {}
    ensures exists m :: IsLeast(o, s, m)
    decreases |s|
  {
    var m :| m in s;
    if y :| y in s && Less(o, y, m) {
      LeastExists(o, s - {m});
      var l :| IsLeast(o, s - {m}, l);
      assert y in s - {m} && !Less(o, y, l);
      assert IsLeast(o, s, l);
    } else {
      assert IsLeast(o, s, m);
    }
  }

  ghost function Least(o: Order, s: set<Entry>): (m: Entry)
    requires s != {}
    ensures IsLeast(o, s, m)
  {
    LeastExists(o, s);
    var m :| IsLeast(o, s, m);
    m
  }

  lemma LeastUnique(o: Order, s: set<Entry>, m: Entry)
    requires Distinct(s) && IsLeast(o, s, m)
    ensures m == Least(o, s)
  {
    var l := Least(o, s);
    assert !Less(o, l, m) && !Less(o, m, l);
  }

  ghost predicate IsLatest(s: set<Entry>, m: Entry) {
    m in s && forall x :: x in s ==> Le(x.deadline, m.deadline)
  }

  lemma {:induction false} LatestExists(s: set<Entry>)
    requires s != {}
    ensures exists m :: IsLatest(s, m)
    decreases |s|
  {
    var m :| m in s;
    if y :| y in s && Lt(m.deadline, y.deadline) {
      LatestExists(s - {m});
      var l :| IsLatest(s - {m}, l);
      assert IsLatest(s, l);
    } else {
      assert IsLatest(s, m);
    }
  }

  /** The latest deadline of a set, minus infinity for the empty set. */
  ghost function Latest(s: set<Entry>): (e: Time)
    ensures s == {} ==> e == NegInf
    ensures s != {} ==> exists m :: IsLatest(s, m) && m.deadline == e
  {
    if s == {} then NegInf
    else
      LatestExists(s);
      var m :| IsLatest(s, m);
      m.deadline
  }

  lemma LatestBounds(s: set<Entry>)
    ensures forall x :: x in s ==> Le(x.deadline, Latest(s))
  {}
}
