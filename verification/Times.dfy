/** Clock times (the source's floats as exact extended reals, without NaN) and the
    symmetric closeness of `math.isclose`. */
module Times {
  datatype Option<+T> = None | Some(value: T)

  datatype Time = NegInf | At(r: real) | PosInf

  predicate Lt(a: Time, b: Time) {
    match (a, b)
    case (NegInf, _) => b != NegInf
    case (At(x), At(y)) => x < y
    case (At(_), PosInf) => true
    case _ => false
  }

  predicate Le(a: Time, b: Time) {
    a == b || Lt(a, b)
  }

  function MaxTime(a: Time, b: Time): Time {
    if Lt(a, b) then b else a
  }

  function Abs(x: real): real {
    if x < 0.0 then -x else x
  }

  function Max(x: real, y: real): real {
    if x < y then y else x
  }

  datatype Tolerance = Tolerance(rtol: real, atol: real) {
    predicate Valid() {
      rtol >= 0.0 && atol >= 0.0
    }
  }

  const ZERO_TOLERANCE := Tolerance(0.0, 0.0)

  function Slack(a: real, b: real, tol: Tolerance): real {
    Max(tol.rtol * Max(Abs(a), Abs(b)), tol.atol)
  }

  /** A deadline is close to a target: finite, and not past it by more than the slack. */
  predicate Near(d: Time, c: real, tol: Tolerance) {
    d.At? && d.r <= c + Slack(d.r, c, tol)
  }

  /** `math.isclose`. */
  predicate IsClose(a: Time, b: Time, tol: Tolerance) {
    a == b || (a.At? && b.At? && Abs(a.r - b.r) <= Slack(a.r, b.r, tol))
  }

  lemma ScaleMax(r: real, x: real, y: real, rx: real, ry: real)
    requires 0.0 <= r && rx == r * x && ry == r * y
    ensures r * Max(x, y) == Max(rx, ry)
  {
    if x < y { MulLe(r, x, y); } else { MulLe(r, y, x); }
  }

  lemma SlackIs(a: real, b: real, tol: Tolerance, ra: real, rb: real)
    requires tol.Valid() && ra == tol.rtol * Abs(a) && rb == tol.rtol * Abs(b)
    ensures Slack(a, b, tol) == Max(Max(ra, rb), tol.atol)
  {
    ScaleMax(tol.rtol, Abs(a), Abs(b), ra, rb);
    hide Abs, Max;
  }

  lemma BelowMax(gap: real, x: real, y: real, z: real)
    ensures gap <= Max(Max(x, y), z) <==> gap <= x || gap <= y || gap <= z
  {}

  lemma CloseWithin(x: real, y: real, tol: Tolerance, rx: real, ry: real, gap: real)
    requires tol.Valid() && rx == tol.rtol * Abs(x) && ry == tol.rtol * Abs(y) && gap == Abs(x - y)
    ensures IsClose(At(x), At(y), tol) <==> gap <= rx || gap <= ry || gap <= tol.atol
  {
    SlackIs(x, y, tol, rx, ry);
    hide Slack, Max;
    BelowMax(gap, rx, ry, tol.atol);
  }

  /** PEP 485: two finite times are close if their distance is within the relative tolerance of either magnitude, or
      within the absolute one; infinities are close to themselves only, and closeness is symmetric. */
  lemma IsCloseIff(a: Time, b: Time, tol: Tolerance)
    requires tol.Valid()
    ensures IsClose(a, b, tol) <==>
      if a.At? && b.At? then
        var gap := Abs(a.r - b.r);
        gap <= tol.atol || gap <= tol.rtol * Abs(a.r) || gap <= tol.rtol * Abs(b.r)
      else a == b
    ensures IsClose(a, b, tol) <==> IsClose(b, a, tol)
  {
    if a.At? && b.At? {
      var ra, rb, gap := tol.rtol * Abs(a.r), tol.rtol * Abs(b.r), Abs(a.r - b.r);
      assert gap == Abs(b.r - a.r);
      hide IsClose, Abs;
      CloseWithin(a.r, b.r, tol, ra, rb, gap);
      CloseWithin(b.r, a.r, tol, rb, ra, gap);
    }
  }

  /** A deadline is due at a target with tolerance exactly if it is finite and past, or close to the target. */
  lemma NearIff(d: Time, t: real, tol: Tolerance)
    requires tol.Valid()
    ensures Near(d, t, tol) <==> d.At? && (d.r <= t || IsClose(d, At(t), tol))
  {
    if d.At? { MulLe(tol.rtol, 0.0, Max(Abs(d.r), Abs(t))); }
  }

  /** Closeness to `c` is downward closed: what the scan of a heap by its top relies on. */
  ghost predicate ClosedAt(c: real, tol: Tolerance) {
    forall a: Time, b: Time :: Le(a, b) && a.At? && Near(b, c, tol) ==> Near(a, c, tol)
  }

  /** Downward closed around every centre. */
  ghost predicate Regular(tol: Tolerance) {
    tol.Valid() && forall c: real :: ClosedAt(c, tol)
  }

  predicate ClosedCondition(c: real, tol: Tolerance) {
    tol.rtol <= 1.0 || 2.0 <= tol.rtol || 0.0 <= c || tol.rtol * -c <= tol.atol * (tol.rtol - 1.0)
  }

  lemma MulLe(k: real, x: real, y: real)
    requires k >= 0.0 && x <= y
    ensures k * x <= k * y
  {}

  /** Sound half for a relative tolerance up to 1: `d - rtol * |d|` never decreases. */
  lemma NearDownSmall(a: real, b: real, c: real, r: real)
    requires 0.0 <= r <= 1.0 && c < a <= b && b - c <= r * Max(Abs(b), Abs(c))
    ensures a - c <= r * Max(Abs(a), Abs(c))
  {
    if Abs(b) <= Abs(c) {
      MulLe(r, Abs(c), Max(Abs(a), Abs(c)));
    } else {
      MulLe(1.0 - r, 0.0, b);
      assert (1.0 - r) * b == b - r * b;
      MulLe(1.0 - r, a, b);
      assert (1.0 - r) * a == a - r * a;
      MulLe(r, a, Max(Abs(a), Abs(c)));
    }
  }

  lemma NearDownBig(a: real, c: real, r: real)
    requires c < a && (2.0 <= r || (1.0 <= r && 0.0 <= c))
    ensures a - c <= r * Max(Abs(a), Abs(c))
  {
    var m := Max(Abs(a), Abs(c));
    if 2.0 <= r {
      MulLe(m, 2.0, r);
    } else {
      MulLe(m, 1.0, r);
    }
  }

  /** Between 1 and 2 the slack alone must cover the gap around `-c`. */
  lemma NearDownGap(a: real, c: real, r: real, atol: real)
    requires 1.0 < r < 2.0 && c < 0.0 && 0.0 <= atol && c + atol < a && r * -c <= atol * (r - 1.0)
    ensures a - c <= r * Max(Abs(a), Abs(c))
  {
    MulLe(r - 1.0, atol, a - c);
    assert (r - 1.0) * atol == atol * (r - 1.0);
    assert (r - 1.0) * (a - c) == r * a + r * -c - (a - c);
    assert a - c <= r * a;
    if a < 0.0 {
      MulLe(r, a, 0.0);
      assert false;
    }
    MulLe(r, a, Max(Abs(a), Abs(c)));
  }

  /** Sound half: one pair of deadlines. */
  lemma NearDown(a: real, b: real, c: real, tol: Tolerance)
    requires tol.Valid() && ClosedCondition(c, tol) && a <= b && Near(At(b), c, tol)
    ensures Near(At(a), c, tol)
  {
    NearSplit(a, c, tol);
    NearSplit(b, c, tol);
    if c + tol.atol < a {
      NearDownFar(a, b, c, tol);
    }
  }

  lemma NearSplit(d: real, c: real, tol: Tolerance)
    ensures Near(At(d), c, tol) <==> d <= c + tol.atol || d - c <= tol.rtol * Max(Abs(d), Abs(c))
  {
    var x := tol.rtol * Max(Abs(d), Abs(c));
    assert Slack(d, c, tol) == Max(x, tol.atol);
  }

  lemma NearDownFar(a: real, b: real, c: real, tol: Tolerance)
    requires tol.Valid() && ClosedCondition(c, tol) && c + tol.atol < a <= b
    requires b - c <= tol.rtol * Max(Abs(b), Abs(c))
    ensures a - c <= tol.rtol * Max(Abs(a), Abs(c))
  {
    if tol.rtol <= 1.0 {
      NearDownSmall(a, b, c, tol.rtol);
    } else if 2.0 <= tol.rtol || 0.0 <= c {
      NearDownBig(a, c, tol.rtol);
    } else {
      NearDownGap(a, c, tol.rtol, tol.atol);
    }
  }

  /** The gap of a negative centre: closed at `b`, open just below it. */
  lemma Gap(k: real, r: real, atol: real) returns (low: real, b: real)
    requires 1.0 < r < 2.0 && 0.0 < k && 0.0 <= atol && atol * (r - 1.0) < r * k
    ensures (r - 1.0) * b == k && low == Max((r - 1.0) * k, atol - k) && low < b && k < b
  {
    var u := r - 1.0;
    b := k / u;
    Distribute(u, atol, -k);
    assert u * -k == -(u * k) && r * k == u * k + k;
    MulLess(k, u, 1.0);
    GapAbove(b, k, u, k);
    GapAbove(b, k, u, atol - k);
    low := Max(u * k, atol - k);
  }

  lemma Distribute(u: real, x: real, y: real)
    ensures u * (x + y) == u * x + u * y
  {}

  lemma MulLess(k: real, x: real, y: real)
    requires k > 0.0 && x < y
    ensures x * k < y * k
  {}

  lemma GapAbove(b: real, k: real, u: real, x: real)
    requires 0.0 < u && u * b == k && u * x < k
    ensures x < b
  {
    if b <= x {
      MulLe(u, b, x);
    }
  }

  /** Failing half: between 1 and 2, with a negative centre, some deadline is skipped. */
  lemma NearHole(c: real, tol: Tolerance) returns (a: real, b: real)
    requires tol.Valid() && !ClosedCondition(c, tol)
    ensures a < b && Near(At(b), c, tol) && !Near(At(a), c, tol)
  {
    var r, k, low := tol.rtol, -c, 0.0;
    low, b := Gap(k, r, tol.atol);
    assert r * b == (r - 1.0) * b + b;
    a := (low + b) / 2.0;
    NotNear(a, b, k, r);
  }

  lemma NotNear(a: real, b: real, k: real, r: real)
    requires 1.0 < r < 2.0 && 0.0 < k && (r - 1.0) * b == k && (r - 1.0) * k < a < b
    ensures r * Max(Abs(a), Abs(-k)) < a + k
  {
    assert (r - 1.0) * k > 0.0;
    if a <= k {
      assert r * k == (r - 1.0) * k + k;
    } else {
      assert (b - a) * (r - 1.0) > 0.0;
      assert (b - a) * (r - 1.0) == (r - 1.0) * b - (r - 1.0) * a;
      assert r * a == (r - 1.0) * a + a;
    }
  }

  /** Exactly when the heap's top decides the whole heap for a target `c`. */
  lemma ClosedAtIff(c: real, tol: Tolerance)
    requires tol.Valid()
    ensures ClosedAt(c, tol) <==> ClosedCondition(c, tol)
  {
    if ClosedCondition(c, tol) {
      forall a: Time, b: Time | Le(a, b) && a.At? && Near(b, c, tol) ensures Near(a, c, tol) {
        NearDown(a.r, b.r, c, tol);
      }
    } else {
      var a, b := NearHole(c, tol);
      assert Le(At(a), At(b)) && Near(At(b), c, tol) && !Near(At(a), c, tol);
    }
  }

  /** Exactly the tolerances that are safe for every target and every instant. */
  lemma RegularIff(tol: Tolerance)
    requires tol.Valid()
    ensures Regular(tol) <==> tol.rtol <= 1.0 || 2.0 <= tol.rtol
  {
    if tol.rtol <= 1.0 || 2.0 <= tol.rtol {
      forall c: real ensures ClosedAt(c, tol) { ClosedAtIff(c, tol); }
    } else {
      var c := -(tol.atol * (tol.rtol - 1.0) + 1.0);
      assert tol.atol * (tol.rtol - 1.0) >= 0.0;
      MulLe(-c, 1.0, tol.rtol);
      ClosedAtIff(c, tol);
      assert !ClosedAt(c, tol);
    }
  }
}
