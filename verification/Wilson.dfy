/** The Wilson score interval of k successes in n trials, over the reals. */
module Wilson {

  datatype Interval = Interval(lower: real, upper: real)

  lemma Product(x: real, y: real)
    requires x >= 0.0 && y >= 0.0
    ensures x * y >= 0.0
  {
  }

  lemma StrictProduct(x: real, y: real)
    requires x > 0.0 && y > 0.0
    ensures x * y > 0.0
  {
  }

  lemma Quotient(x: real, d: real)
    requires d != 0.0
    ensures x / d * d == x
  {
  }

  lemma Cancel(x: real, y: real, m: real)
    requires m > 0.0
    ensures x * m == y * m ==> x == y
    ensures x * m <= y * m ==> x <= y
  {
    if x > y {
      StrictProduct(x - y, m);
      assert (x - y) * m == x * m - y * m;
    }
    if x < y {
      StrictProduct(y - x, m);
      assert (y - x) * m == y * m - x * m;
    }
  }

  /** What `Math.sqrt` is taken to return. */
  ghost predicate IsRoot(s: real, x: real) {
    s >= 0.0 && s * s == x
  }

  function Rate(k: nat, n: nat): real {
    if n == 0 then 0.0 else k as real / n as real
  }

  /** The rate is the share of successes. */
  lemma RateIsShare(k: nat, n: nat)
    ensures n > 0 ==> Rate(k, n) * n as real == k as real
    ensures n == 0 ==> Rate(k, n) == 0.0
  {
  }

  /** The radicand of the standard error. */
  function Radicand(k: nat, n: nat, z: real): real
    requires n > 0
  {
    var p, m := Rate(k, n), n as real;
    p * (1.0 - p) / m + z * z / (4.0 * m * m)
  }

  function Max(x: real, y: real): real {
    if x >= y then x else y
  }

  function Min(x: real, y: real): real {
    if x <= y then x else y
  }

  lemma SquareShare(z: real, m: real)
    requires m > 0.0
    ensures z * z / m >= 0.0
  {
    var w := -z;
    assert w * w == z * z;
    if z >= 0.0 { Product(z, z); } else { Product(w, w); }
    Quotient(z * z, m);
    Cancel(0.0, z * z / m, m);
  }

  function Denominator(n: nat, z: real): (d: real)
    requires n > 0
    ensures d >= 1.0
  {
    SquareShare(z, n as real);
    1.0 + z * z / n as real
  }

  function Center(k: nat, n: nat, z: real): real
    requires n > 0
  {
    (Rate(k, n) + z * z / (2.0 * n as real)) / Denominator(n, z)
  }

  /** `root` is the square root the computation takes. */
  function ScoreInterval(k: nat, n: nat, z: real, root: real): Interval {
    if n == 0 then Interval(0.0, 0.0)
    else
      var halfWidth := z * root / Denominator(n, z);
      Interval(Max(0.0, Center(k, n, z) - halfWidth), Min(1.0, Center(k, n, z) + halfWidth))
  }

  // ---- The algebra behind the interval, in p = k/n, a = z*z/n and h = z*root ----

  lemma Squares(x: real, y: real)
    requires 0.0 <= y < x
    ensures y * y < x * x
  {
    var u, v := x - y, x + y;
    assert u * v == x * x - y * y;
    StrictProduct(u, v);
  }

  lemma SquaresOrder(x: real, y: real)
    requires y >= 0.0 && x * x <= y * y
    ensures -y <= x <= y
  {
    var w := -x;
    assert w * w == x * x;
    if x > y { Squares(x, y); }
    if w > y { Squares(w, y); }
  }

  /** h squared, however p and a are given. */
  ghost predicate HalfWidthSquared(p: real, a: real, h: real) {
    h >= 0.0 && h * h == a * p * (1.0 - p) + a * a / 4.0
  }

  lemma SameRadicand(p: real, a: real)
    ensures a * (1.0 - p) * (1.0 - (1.0 - p)) == a * p * (1.0 - p)
  {
  }

  lemma SquareAbove(p: real, a: real, h: real)
    requires 0.0 <= p && a >= 0.0 && HalfWidthSquared(p, a, h)
    ensures h <= p + a / 2.0
  {
    var x := p + a / 2.0;
    assert x * x == p * p + a * p + a * a / 4.0;
    assert a * p * (1.0 - p) == a * p - a * (p * p);
    Product(p, p);
    Product(a, p * p);
    SquaresOrder(h, x);
  }

  lemma HalfWidthStaysInside(p: real, a: real, h: real)
    requires 0.0 <= p <= 1.0 && a >= 0.0 && HalfWidthSquared(p, a, h)
    ensures h <= p + a / 2.0
    ensures h <= (1.0 - p) + a / 2.0
  {
    SquareAbove(p, a, h);
    assert HalfWidthSquared(1.0 - p, a, h) by { assert (1.0 - p) * (1.0 - (1.0 - p)) == p * (1.0 - p); SameRadicand(p, a); }
    SquareAbove(1.0 - p, a, h);
  }

  lemma HalfWidthReachesRate(p: real, a: real, h: real)
    requires 0.0 <= p <= 1.0 && a >= 0.0 && HalfWidthSquared(p, a, h)
    ensures -h <= a * (0.5 - p) <= h
  {
    var d, q := a * (0.5 - p), p * (1.0 - p);
    Product(p, 1.0 - p);
    Product(a, q);
    Product(a, a * q);
    assert d * d == a * a * ((0.5 - p) * (0.5 - p));
    assert (0.5 - p) * (0.5 - p) == 0.25 - q;
    assert a * a * (0.25 - q) == a * a / 4.0 - a * (a * q);
    assert a * p * (1.0 - p) == a * q;
    SquaresOrder(d, h);
  }

  lemma RadicandScales(p: real, m: real, z: real, a: real)
    requires m > 0.0 && a == z * z / m
    ensures z * z * (p * (1.0 - p) / m + z * z / (4.0 * m * m)) == a * p * (1.0 - p) + a * a / 4.0
  {
    var zz, q := z * z, p * (1.0 - p);
    var e := 4.0 * m;
    StrictProduct(e, m);
    var d := e * m;
    assert d == 4.0 * m * m && d > 0.0;
    var u, v := q / m, zz / d;
    Quotient(zz, m);
    Quotient(q, m);
    Quotient(zz, d);
    assert zz == a * m;
    assert v * d == v * (4.0 * m) * m;
    Cancel(v * (4.0 * m), a, m);
    assert zz * u == a * (u * m);
    assert zz * v == a * (v * m) == a * (a / 4.0);
    assert zz * (u + v) == zz * u + zz * v;
    assert a * q == a * p * (1.0 - p);
  }

  /** p, the squared z per trial and the scaled half width, in which the computation is a quadratic's two roots. */
  ghost predicate Roots(p: real, a: real, h: real, low: real, high: real) {
    && 0.0 <= p <= 1.0 && a >= 0.0 && HalfWidthSquared(p, a, h)
    && low * (1.0 + a) == p + a / 2.0 - h
    && high * (1.0 + a) == p + a / 2.0 + h
  }

  lemma RateInRange(k: nat, n: nat)
    requires n > 0 && k <= n
    ensures 0.0 <= Rate(k, n) <= 1.0
  {
    Quotient(k as real, n as real);
    Cancel(0.0, Rate(k, n), n as real);
    Cancel(Rate(k, n), 1.0, n as real);
  }

  lemma Combine(x: real, y: real, d: real)
    requires d > 0.0
    ensures (x / d - y / d) * d == x - y
    ensures (x / d + y / d) * d == x + y
  {
    Quotient(x, d);
    Quotient(y, d);
  }

  lemma TwiceBelow(zz: real, m: real)
    requires m > 0.0
    ensures zz / (2.0 * m) == zz / m / 2.0
  {
    Quotient(zz, m);
    Quotient(zz, 2.0 * m);
    Cancel(zz / (2.0 * m), zz / m / 2.0, 2.0 * m);
  }

  lemma Unclamped(k: nat, n: nat, z: real, root: real)
    requires n > 0 && k <= n && z >= 0.0 && IsRoot(root, Radicand(k, n, z))
    ensures var half := z * root / Denominator(n, z);
            Roots(Rate(k, n), z * z / n as real, z * root, Center(k, n, z) - half, Center(k, n, z) + half)
  {
    var m, p := n as real, Rate(k, n);
    RateInRange(k, n);
    UnclampedRoots(p, m, z, root);
  }

  lemma UnclampedRoots(p: real, m: real, z: real, root: real)
    requires m > 0.0 && 0.0 <= p <= 1.0 && z >= 0.0
    requires IsRoot(root, p * (1.0 - p) / m + z * z / (4.0 * m * m))
    ensures var a := z * z / m;
            && 1.0 + a >= 1.0
            && var center, half := (p + z * z / (2.0 * m)) / (1.0 + a), z * root / (1.0 + a);
               Roots(p, a, z * root, center - half, center + half)
  {
    var a, h := z * z / m, z * root;
    SquareShare(z, m);
    assert HalfWidthSquared(p, a, h) by {
      Product(z, root);
      assert h * h == z * z * (root * root);
      RadicandScales(p, m, z, a);
    }
    TwiceBelow(z * z, m);
    Combine(p + a / 2.0, h, 1.0 + a);
  }

  lemma RootsHoldRate(p: real, a: real, h: real, low: real, high: real)
    requires Roots(p, a, h, low, high)
    ensures 0.0 <= low <= p <= high <= 1.0
  {
    HalfWidthStaysInside(p, a, h);
    HalfWidthReachesRate(p, a, h);
    Distribute(a, p);
    InOrder(p, 1.0 + a, low, high, p + a / 2.0 - h, p + a * p, p + a / 2.0 + h);
  }

  lemma Distribute(a: real, p: real)
    ensures a * (0.5 - p) == a / 2.0 - a * p
    ensures p * (1.0 + a) == p + a * p
  {
  }

  lemma InOrder(p: real, d: real, low: real, high: real, ld: real, pd: real, hd: real)
    requires d > 0.0 && ld == low * d && pd == p * d && hd == high * d
    requires 0.0 <= ld <= pd <= hd <= d
    ensures 0.0 <= low <= p <= high <= 1.0
  {
    Between(0.0, low, d);
    Between(low, p, d);
    Between(p, high, d);
    Between(high, 1.0, d);
  }

  lemma Between(x: real, y: real, d: real)
    requires d > 0.0 && x * d <= y * d
    ensures x <= y
  {
    Cancel(x, y, d);
  }

  /** Neither clamp ever binds, and the observed rate lies inside. */
  lemma IntervalHoldsRate(k: nat, n: nat, z: real, root: real)
    requires n > 0 && k <= n && z >= 0.0 && IsRoot(root, Radicand(k, n, z))
    ensures var i, half := ScoreInterval(k, n, z, root), z * root / Denominator(n, z);
            && i.lower == Center(k, n, z) - half && i.upper == Center(k, n, z) + half
            && 0.0 <= i.lower <= Rate(k, n) <= i.upper <= 1.0
  {
    hide Center, Rate, Denominator, Radicand, Roots;
    Unclamped(k, n, z, root);
    var half := z * root / Denominator(n, z);
    RootsHoldRate(Rate(k, n), z * z / n as real, z * root, Center(k, n, z) - half, Center(k, n, z) + half);
  }

  ghost predicate NotRejected(p: real, a: real, x: real) {
    (x - p) * (x - p) <= a * x * (1.0 - x)
  }

  lemma Factored(p: real, a: real, h: real, low: real, high: real, x: real)
    requires Roots(p, a, h, low, high)
    ensures (x - p) * (x - p) - a * x * (1.0 - x) == (1.0 + a) * ((x - low) * (x - high))
  {
    var d, c := 1.0 + a, p + a / 2.0;
    assert (low + high) * d == 2.0 * p + a;
    ProductOfRoots(p, a, h, low, high);
    assert d * ((x - low) * (x - high)) == d * (x * x) - ((low + high) * d) * x + low * high * d;
    assert a * x * (1.0 - x) == a * x - a * (x * x);
  }

  lemma ProductOfRoots(p: real, a: real, h: real, low: real, high: real)
    requires Roots(p, a, h, low, high)
    ensures low * high * (1.0 + a) == p * p
  {
    var d, c := 1.0 + a, p + a / 2.0;
    assert (low * d) * (high * d) == (c - h) * (c + h) == c * c - h * h;
    assert c * c == p * p + a * p + a * a / 4.0;
    assert a * p * (1.0 - p) == a * p - a * (p * p);
    assert p * p * d == p * p + a * (p * p);
    assert (low * d) * (high * d) == low * high * d * d;
    Cancel(low * high * d, p * p, d);
  }

  lemma BetweenRoots(d: real, low: real, high: real, x: real)
    requires low <= high && d > 0.0
    ensures d * ((x - low) * (x - high)) <= 0.0 <==> low <= x <= high
  {
    var u, v := x - low, x - high;
    if low <= x <= high {
      Product(u, -v);
      Product(d, u * -v);
      assert d * (u * -v) == -(d * (u * v));
    } else if x < low {
      var u', v' := low - x, high - x;
      StrictProduct(u', v');
      assert u' * v' == u * v;
      StrictProduct(d, u * v);
    } else {
      StrictProduct(u, v);
      StrictProduct(d, u * v);
    }
  }

  lemma RootsBoundTest(p: real, a: real, h: real, low: real, high: real, x: real)
    requires Roots(p, a, h, low, high) && low <= high
    ensures low <= x <= high <==> NotRejected(p, a, x)
  {
    Factored(p, a, h, low, high, x);
    BetweenRoots(1.0 + a, low, high, x);
  }

  /** The interval is exactly the rates a score test at z does not reject: those x with (x - p)^2 <= z^2 x (1 - x) / n. */
  lemma IntervalInvertsScoreTest(k: nat, n: nat, z: real, root: real, x: real)
    requires n > 0 && k <= n && z >= 0.0 && IsRoot(root, Radicand(k, n, z))
    ensures var i := ScoreInterval(k, n, z, root);
            i.lower <= x <= i.upper <==> NotRejected(Rate(k, n), z * z / n as real, x)
  {
    hide Center, Rate, Denominator, Radicand, Roots, ScoreInterval, NotRejected;
    IntervalHoldsRate(k, n, z, root);
    Unclamped(k, n, z, root);
    var i := ScoreInterval(k, n, z, root);
    RootsBoundTest(Rate(k, n), z * z / n as real, z * root, i.lower, i.upper, x);
  }

  lemma RatesOrder(k: nat, k': nat, n: nat)
    requires n > 0 && k <= k'
    ensures Rate(k, n) <= Rate(k', n)
  {
    var m, x, y := n as real, k as real, k' as real;
    Quotient(x, m);
    Quotient(y, m);
    Between(x / m, y / m, m);
  }

  /** With as many trials, more successes move neither bound down. */
  lemma MoreSuccessesRankNoLower(k: nat, k': nat, n: nat, z: real, root: real, root': real)
    requires n > 0 && k <= k' <= n && z >= 0.0 && IsRoot(root, Radicand(k, n, z)) && IsRoot(root', Radicand(k', n, z))
    ensures ScoreInterval(k, n, z, root).lower <= ScoreInterval(k', n, z, root').lower
    ensures ScoreInterval(k, n, z, root).upper <= ScoreInterval(k', n, z, root').upper
  {
    var i, i', a := ScoreInterval(k, n, z, root), ScoreInterval(k', n, z, root'), z * z / n as real;
    var p, p' := Rate(k, n), Rate(k', n);
    assert p <= p' by { RatesOrder(k, k', n); }
    hide Center, Rate, Denominator, Radicand, ScoreInterval, NotRejected;
    IntervalHoldsRate(k, n, z, root);
    IntervalHoldsRate(k', n, z, root');
    if i'.lower < p {
      IntervalInvertsScoreTest(k', n, z, root', i'.lower);
      Closer(p, p', a, i'.lower);
      IntervalInvertsScoreTest(k, n, z, root, i'.lower);
    }
    if i.upper > p' {
      IntervalInvertsScoreTest(k, n, z, root, i.upper);
      Closer(p', p, a, i.upper);
      IntervalInvertsScoreTest(k', n, z, root', i.upper);
    }
  }

  lemma Closer(near: real, far: real, a: real, x: real)
    requires x <= near <= far || far <= near <= x
    requires NotRejected(far, a, x)
    ensures NotRejected(near, a, x)
  {
    var c, d := x - near, x - far;
    if x <= near <= far {
      var c', d' := near - x, far - x;
      SquaresUpTo(d', c');
      assert d' * d' == d * d && c' * c' == c * c;
    } else {
      SquaresUpTo(d, c);
    }
  }

  lemma SquaresUpTo(x: real, y: real)
    requires 0.0 <= y <= x
    ensures y * y <= x * x
  {
    if y < x { Squares(x, y); }
  }
}
