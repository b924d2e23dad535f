/** The Wilson interval, before rounding and over the reals: two implementations, `_wilson_ci95` in
    src/mind3/benchmarks/runner.py and in src/mind3/benchmarks/baselines.py. The square root is whatever
    non-negative number squares to the radicand. */
module Wilson {

  /** The 97.5% normal quantile both implementations write out; the laws below hold for every positive z. */
  const Z95 := 1.959963984540054

  datatype Interval = Interval(lo: real, hi: real)

  function Clamp(lo: real, hi: real): Interval {
    Interval(if lo < 0.0 then 0.0 else lo, if hi > 1.0 then 1.0 else hi)
  }

  /** The square of the quantile is the 95% quantile of the chi-squared distribution with one degree of freedom, to
      fourteen decimals. */
  lemma QuantileSquared()
    ensures 3.84145882069412 < Square(Z95) < 3.84145882069413
  {
  }

  /** Products by name, so that signs are known without expanding them. */
  function Times(a: real, b: real): (r: real)
    ensures a > 0.0 && b > 0.0 ==> r > 0.0
    ensures a >= 0.0 && b >= 0.0 ==> r >= 0.0
  {
    a * b
  }

  function Square(x: real): (r: real)
    ensures r >= 0.0 && (x > 0.0 ==> r > 0.0)
  {
    NegateBoth(x);
    Times(x, x)
  }

  lemma NegateBoth(x: real)
    ensures Times(-x, -x) == Times(x, x)
  {
  }

  function Share(k: int, n: int): real
    requires n > 0
  {
    k as real / n as real
  }

  function Weight(z: real, n: int): (w: real)
    requires z > 0.0 && n > 0
    ensures w > 0.0 && w * n as real == Square(z)
  {
    Quotient(Square(z), n as real);
    Square(z) / n as real
  }

  /** What the square root is taken of; the two implementations write it alike. */
  function Radicand(z: real, k: int, n: int): real
    requires n > 0
  {
    Share(k, n) * (1.0 - Share(k, n)) / n as real + Square(z) / (4.0 * Square(n as real))
  }

  ghost predicate IsRoot(root: real, x: real) { root >= 0.0 && Square(root) == x }

  function Center(z: real, k: int, n: int): real
    requires z > 0.0 && n > 0
  {
    (Share(k, n) + Square(z) / (2.0 * n as real)) / (1.0 + Weight(z, n))
  }

  /** The unclamped interval as the runner computes it. */
  function RunnerRaw(z: real, k: int, n: int, root: real): Interval
    requires z > 0.0 && n > 0
  {
    var half := z * root / (1.0 + Weight(z, n));
    Interval(Center(z, k, n) - half, Center(z, k, n) + half)
  }

  function RunnerInterval(z: real, k: int, n: int, root: real): Interval
    requires z > 0.0
  {
    if n <= 0 then Interval(0.0, 0.0) else Clamp(RunnerRaw(z, k, n, root).lo, RunnerRaw(z, k, n, root).hi)
  }

  /** The baselines scale the square root by `z / denom` instead. */
  function BaselineInterval(z: real, k: int, n: int, root: real): Interval
    requires z > 0.0
  {
    if n <= 0 then Interval(0.0, 0.0) else
    var margin := (z / (1.0 + Weight(z, n))) * root;
    Clamp(Center(z, k, n) - margin, Center(z, k, n) + margin)
  }

  function RunnerCi95(k: int, n: int, root: real): Interval { RunnerInterval(Z95, k, n, root) }
  function BaselineCi95(k: int, n: int, root: real): Interval { BaselineInterval(Z95, k, n, root) }

  // ---------------------------------------------------------------- products and quotients

  lemma Quotient(a: real, b: real)
    requires b > 0.0
    ensures a / b * b == a && Times(a / b, b) == a && (a >= 0.0 ==> a / b >= 0.0) && (a > 0.0 ==> a / b > 0.0)
  {
  }

  lemma SameQuotient(a: real, b: real, q: real)
    requires b > 0.0 && q * b == a
    ensures a / b == q
  {
  }

  lemma Scale(a: real, b: real, scale: real)
    requires scale > 0.0
    ensures Times(a, scale) <= Times(b, scale) <==> a <= b
    ensures Times(a, scale) == Times(b, scale) <==> a == b
  {
    assert Times(b - a, scale) == Times(b, scale) - Times(a, scale) == -Times(a - b, scale);
  }

  lemma SquareOrder(a: real, b: real)
    requires b >= 0.0 && Square(a) <= Square(b)
    ensures a <= b
  {
    if a > b { SquareStrict(a, b); }
  }

  lemma SquareStrict(a: real, b: real)
    requires a > b >= 0.0
    ensures Square(a) > Square(b)
  {
    assert Times(a - b, a + b) == Square(a) - Square(b);
  }

  lemma Half(a: real, b: real)
    requires b > 0.0
    ensures a / (2.0 * b) == a / b / 2.0
  {
    var q := a / b;
    Quotient(a, b);
    assert (q / 2.0) * (2.0 * b) == q * b;
    SameQuotient(a, 2.0 * b, q / 2.0);
  }

  lemma Quarter(a: real, b: real)
    requires b > 0.0
    ensures a / (4.0 * Square(b)) == a / b / b / 4.0
  {
    var q := a / b;
    var r := q / b;
    Quotient(a, b);
    Quotient(q, b);
    QuarterProduct(r, b, q, a);
    SameQuotient(a, 4.0 * Square(b), r / 4.0);
  }

  lemma QuarterProduct(r: real, b: real, q: real, a: real)
    requires r * b == q && q * b == a
    ensures (r / 4.0) * (4.0 * Square(b)) == a
  {
    assert (r / 4.0) * (4.0 * Square(b)) == r * Square(b) == (r * b) * b;
  }

  lemma Complement(c: real, b: real, p: real)
    requires b > 0.0 && p * b == c
    ensures (b - c) / b == 1.0 - p
  {
    var q := 1.0 - p;
    assert q * b == b - p * b;
    SameQuotient(b - c, b, q);
  }

  lemma ShareInUnit(k: int, n: int)
    requires 0 <= k <= n && n > 0
    ensures 0.0 <= Share(k, n) <= 1.0
    ensures Share(n - k, n) == 1.0 - Share(k, n)
  {
    var p, b, c := Share(k, n), n as real, k as real;
    Quotient(c, b);
    Complement(c, b, p);
    assert (n - k) as real == b - c;
    Quotient(b - c, b);
  }

  // ---------------------------------------------------------------- the interval without divisions

  /** With weight w = z*z/n and t = z*root the ends are (p + w/2 -+ t) / (1 + w), and t is determined by
      t*t = w*p*(1-p) + w*w/4. */
  ghost predicate Spread(p: real, w: real, t: real) {
    0.0 <= p <= 1.0 && w > 0.0 && t >= 0.0 && Square(t) == Times(w, Times(p, 1.0 - p)) + Square(w) / 4.0
  }

  lemma RootSpreads(z: real, k: int, n: int, root: real)
    requires z > 0.0 && 0 <= k <= n && n > 0 && IsRoot(root, Radicand(z, k, n))
    ensures Spread(Share(k, n), Weight(z, n), z * root)
  {
    var p, w, b := Share(k, n), Weight(z, n), n as real;
    ShareInUnit(k, n);
    assert Times(z, root) >= 0.0;
    var x := Times(p, 1.0 - p);
    RadicandForm(z, k, n, x, w, b);
    Distribute(z, root, x, w, b);
  }

  lemma RadicandForm(z: real, k: int, n: int, x: real, w: real, b: real)
    requires z > 0.0 && n > 0 && x == Times(Share(k, n), 1.0 - Share(k, n)) && w == Weight(z, n) && b == n as real
    ensures Radicand(z, k, n) == x / b + w / b / 4.0
    ensures w * b == Square(z)
  {
    Quarter(Square(z), b);
  }

  lemma Distribute(z: real, root: real, x: real, w: real, b: real)
    requires b > 0.0 && w * b == Square(z) && Square(root) == x / b + w / b / 4.0
    ensures Square(z * root) == Times(w, x) + Square(w) / 4.0
  {
    Quotient(x, b);
    Quotient(w, b);
    SquareOfProduct(z, root);
    Regroup(w, b, x / b, w / b);
  }

  lemma SquareOfProduct(z: real, root: real)
    ensures Square(z * root) == Times(Square(z), Square(root))
  {
  }

  lemma Regroup(w: real, b: real, u: real, v: real)
    ensures Times(w * b, u + v / 4.0) == Times(w, Times(u, b)) + Times(w, Times(v, b)) / 4.0
  {
  }

  /** The ends, multiplied out. */
  ghost predicate Ends(raw: Interval, p: real, w: real, t: real) {
    Times(raw.lo, 1.0 + w) == p + w / 2.0 - t && Times(raw.hi, 1.0 + w) == p + w / 2.0 + t
  }

  lemma RawEnds(z: real, k: int, n: int, root: real)
    requires z > 0.0 && n > 0
    ensures Ends(RunnerRaw(z, k, n, root), Share(k, n), Weight(z, n), z * root)
  {
    var p, w := Share(k, n), Weight(z, n);
    Half(Square(z), n as real);
    Quotient(p + w / 2.0, 1.0 + w);
    Quotient(z * root, 1.0 + w);
    Distributes((p + w / 2.0) / (1.0 + w), z * root / (1.0 + w), 1.0 + w);
  }

  lemma Distributes(a: real, b: real, c: real)
    ensures Times(a - b, c) == Times(a, c) - Times(b, c)
    ensures Times(a + b, c) == Times(a, c) + Times(b, c)
    ensures Times(c, a - b) == Times(c, a) - Times(c, b)
  {
  }

  lemma Swaps(a: real, b: real, c: real)
    ensures Times(a, Times(b, c)) == Times(b, Times(a, c))
  {
  }

  // ---------------------------------------------------------------- facts about the spread form

  lemma MirrorSpread(p: real, w: real, t: real)
    requires Spread(p, w, t)
    ensures Spread(1.0 - p, w, t)
  {
    assert Times(p, 1.0 - p) == Times(1.0 - p, 1.0 - (1.0 - p));
  }

  lemma SpreadBelow(p: real, w: real, t: real)
    requires Spread(p, w, t)
    ensures t <= p + w / 2.0
  {
    var a := p + w / 2.0;
    assert Square(a) == Square(p) + Times(w, p) + Square(w) / 4.0;
    assert Times(w, Times(p, 1.0 - p)) == Times(w, p) - Times(w, Square(p));
    SquareOrder(t, a);
  }

  lemma SpreadAbove(p: real, w: real, t: real)
    requires Spread(p, w, t)
    ensures t >= Times(w, p - 0.5)
  {
    var x, y := Times(p, 1.0 - p), Times(w, p - 0.5);
    assert Square(p - 0.5) == 0.25 - x;
    assert Square(y) == Times(Square(w), Square(p - 0.5));
    assert Times(Square(w), 0.25 - x) == Square(w) / 4.0 - Times(Square(w), x);
    SquareOrder(y, t);
  }

  lemma SpreadUnique(p: real, w: real, t: real, u: real)
    requires Spread(p, w, t) && Spread(p, w, u)
    ensures t == u
  {
    SquareOrder(t, u);
    SquareOrder(u, t);
  }

  /** The upper end rises with p: a larger p cannot lose more in t than it gains. */
  lemma SpreadMonotone(p1: real, p2: real, w: real, t1: real, t2: real)
    requires Spread(p1, w, t1) && Spread(p2, w, t2) && p1 <= p2
    ensures p1 + t1 <= p2 + t2
  {
    if p1 == p2 {
      SpreadUnique(p1, w, t1, t2);
    } else {
      SquareDifference(p1, p2, w, t1, t2);
      SlopeBound(p1, p2, w, t2);
      GainsMore(t1, t2, p2 - p1, Times(w, p1 + p2 - 1.0));
    }
  }

  lemma GainsMore(t1: real, t2: real, d: real, v: real)
    requires d > 0.0 && t2 >= 0.0 && v <= 2.0 * t2 + d && Square(t1) - Square(t2) == Times(d, v)
    ensures t1 <= t2 + d
  {
    SumSquare(t2, d);
    assert Times(d, 2.0 * t2 + d - v) == Times(d, 2.0 * t2 + d) - Times(d, v);
    SquareOrder(t1, t2 + d);
  }

  lemma SumSquare(t: real, d: real)
    ensures Square(t + d) == Square(t) + Times(d, 2.0 * t + d)
  {
  }

  lemma SlopeBound(p1: real, p2: real, w: real, t2: real)
    requires Spread(p2, w, t2) && p1 < p2
    ensures Times(w, p1 + p2 - 1.0) <= 2.0 * t2 + (p2 - p1)
  {
    SpreadAbove(p2, w, t2);
    var d, y := p2 - p1, p2 - 0.5;
    assert Times(w, p1 + p2 - 1.0) == 2.0 * Times(w, y) - Times(w, d);
  }

  lemma SquareDifference(p1: real, p2: real, w: real, t1: real, t2: real)
    requires Spread(p1, w, t1) && Spread(p2, w, t2)
    ensures Square(t1) - Square(t2) == Times(p2 - p1, Times(w, p1 + p2 - 1.0))
  {
    var x1, x2 := Times(p1, 1.0 - p1), Times(p2, 1.0 - p2);
    ParabolaStep(p1, p2);
    Distributes(x1, x2, w);
    Swaps(w, p2 - p1, p1 + p2 - 1.0);
  }

  lemma ParabolaStep(p1: real, p2: real)
    ensures Times(p1, 1.0 - p1) - Times(p2, 1.0 - p2) == Times(p2 - p1, p1 + p2 - 1.0)
  {
  }

  // ---------------------------------------------------------------- the theorems

  /** The interval contains the observed share and lies in the unit interval, so the clamps never act. */
  lemma ContainsShare(z: real, k: int, n: int, root: real)
    requires z > 0.0 && 0 <= k <= n && n > 0 && IsRoot(root, Radicand(z, k, n))
    ensures var raw := RunnerRaw(z, k, n, root);
      && 0.0 <= raw.lo <= Share(k, n) <= raw.hi <= 1.0
      && RunnerInterval(z, k, n, root) == raw
  {
    var p, w, t, raw := Share(k, n), Weight(z, n), z * root, RunnerRaw(z, k, n, root);
    ShareInUnit(k, n);
    RootSpreads(z, k, n, root);
    RawEnds(z, k, n, root);
    EndsOrdered(p, w, t, raw);
  }

  lemma EndsOrdered(p: real, w: real, t: real, raw: Interval)
    requires Spread(p, w, t) && Ends(raw, p, w, t)
    ensures 0.0 <= raw.lo <= p <= raw.hi <= 1.0
  {
    var wp := Times(w, p);
    SpreadFacts(p, w, t, wp);
    OnePlus(p, w);
    OrderedBy(1.0 + w, raw.lo, p, raw.hi, p + w / 2.0 - t, p + wp, p + w / 2.0 + t);
  }

  lemma OnePlus(p: real, w: real)
    ensures Times(p, 1.0 + w) == p + Times(w, p)
  {
  }

  lemma SpreadFacts(p: real, w: real, t: real, wp: real)
    requires Spread(p, w, t) && wp == Times(w, p)
    ensures t <= p + w / 2.0 && t <= 1.0 - p + w / 2.0 && t >= wp - w / 2.0 && t >= w / 2.0 - wp
  {
    MirrorSpread(p, w, t);
    SpreadBelow(p, w, t);
    SpreadBelow(1.0 - p, w, t);
    SpreadAbove(p, w, t);
    SpreadAbove(1.0 - p, w, t);
    assert Times(w, p - 0.5) == wp - w / 2.0;
    assert Times(w, (1.0 - p) - 0.5) == w / 2.0 - wp;
  }

  lemma OrderedBy(scale: real, a: real, b: real, c: real, sa: real, sb: real, sc: real)
    requires scale > 0.0 && 0.0 <= sa <= sb <= sc <= scale
    requires Times(a, scale) == sa && Times(b, scale) == sb && Times(c, scale) == sc
    ensures 0.0 <= a <= b <= c <= 1.0
  {
    Scale(0.0, a, scale);
    Scale(a, b, scale);
    Scale(b, c, scale);
    Scale(c, 1.0, scale);
  }

  /** Failures mirror successes. */
  lemma Mirrored(z: real, k: int, n: int, root: real, mirrored: real)
    requires z > 0.0 && 0 <= k <= n && n > 0
    requires IsRoot(root, Radicand(z, k, n)) && IsRoot(mirrored, Radicand(z, n - k, n))
    ensures RunnerInterval(z, n - k, n, mirrored).lo == 1.0 - RunnerInterval(z, k, n, root).hi
    ensures RunnerInterval(z, n - k, n, mirrored).hi == 1.0 - RunnerInterval(z, k, n, root).lo
  {
    ContainsShare(z, k, n, root);
    ContainsShare(z, n - k, n, mirrored);
    RawMirrored(z, k, n - k, n, root, mirrored, RunnerRaw(z, k, n, root), RunnerRaw(z, n - k, n, mirrored));
  }

  lemma RawMirrored(z: real, k: int, m: int, n: int, root: real, mirrored: real, here: Interval, there: Interval)
    requires z > 0.0 && 0 <= k <= n && n > 0 && m == n - k
    requires IsRoot(root, Radicand(z, k, n)) && IsRoot(mirrored, Radicand(z, m, n))
    requires here == RunnerRaw(z, k, n, root) && there == RunnerRaw(z, m, n, mirrored)
    ensures there.lo == 1.0 - here.hi && there.hi == 1.0 - here.lo
  {
    var p, q, w, t, u := MirrorFacts(z, k, m, n, root, mirrored, here, there);
    MirrorImage(p, q, w, t, u, here, there);
  }

  lemma MirrorFacts(z: real, k: int, m: int, n: int, root: real, mirrored: real, here: Interval, there: Interval)
    returns (p: real, q: real, w: real, t: real, u: real)
    requires z > 0.0 && 0 <= k <= n && n > 0 && m == n - k
    requires IsRoot(root, Radicand(z, k, n)) && IsRoot(mirrored, Radicand(z, m, n))
    requires here == RunnerRaw(z, k, n, root) && there == RunnerRaw(z, m, n, mirrored)
    ensures w > 0.0 && q == 1.0 - p && t == u && Ends(here, p, w, t) && Ends(there, q, w, u)
  {
    p, q, w, t, u := Share(k, n), Share(m, n), Weight(z, n), z * root, z * mirrored;
    SharesAndSpreads(z, k, m, n, root, mirrored, p, q, t, u);
    EndsAt(z, k, n, root, here, p, w, t);
    EndsAt(z, m, n, mirrored, there, q, w, u);
  }

  lemma SharesAndSpreads(z: real, k: int, m: int, n: int, root: real, mirrored: real, p: real, q: real, t: real, u: real)
    requires z > 0.0 && 0 <= k <= n && n > 0 && m == n - k
    requires IsRoot(root, Radicand(z, k, n)) && IsRoot(mirrored, Radicand(z, m, n))
    requires p == Share(k, n) && q == Share(m, n) && t == z * root && u == z * mirrored
    ensures q == 1.0 - p && t == u
  {
    SameSpread(z, k, n, root, mirrored);
  }

  lemma EndsAt(z: real, k: int, n: int, root: real, raw: Interval, p: real, w: real, t: real)
    requires z > 0.0 && n > 0 && raw == RunnerRaw(z, k, n, root) && p == Share(k, n) && w == Weight(z, n) && t == z * root
    ensures Ends(raw, p, w, t)
  {
    RawEnds(z, k, n, root);
  }

  lemma MirrorImage(p: real, q: real, w: real, t: real, u: real, here: Interval, there: Interval)
    requires w > 0.0 && q == 1.0 - p && t == u && Ends(here, p, w, t) && Ends(there, q, w, u)
    ensures there.lo == 1.0 - here.hi && there.hi == 1.0 - here.lo
  {
    MirroredEnds(p, w, t, here, there);
  }

  lemma SameSpread(z: real, k: int, n: int, root: real, mirrored: real)
    requires z > 0.0 && 0 <= k <= n && n > 0
    requires IsRoot(root, Radicand(z, k, n)) && IsRoot(mirrored, Radicand(z, n - k, n))
    ensures z * mirrored == z * root && Share(n - k, n) == 1.0 - Share(k, n)
  {
    ShareInUnit(k, n);
    RootSpreads(z, k, n, root);
    RootSpreads(z, n - k, n, mirrored);
    MirrorSpread(Share(k, n), Weight(z, n), z * root);
    SpreadUnique(1.0 - Share(k, n), Weight(z, n), z * mirrored, z * root);
  }

  lemma MirroredEnds(p: real, w: real, t: real, here: Interval, there: Interval)
    requires w > 0.0 && Ends(here, p, w, t) && Ends(there, 1.0 - p, w, t)
    ensures there.lo == 1.0 - here.hi && there.hi == 1.0 - here.lo
  {
    assert Times(1.0 - here.hi, 1.0 + w) == 1.0 + w - Times(here.hi, 1.0 + w);
    assert Times(1.0 - here.lo, 1.0 + w) == 1.0 + w - Times(here.lo, 1.0 + w);
    Scale(there.lo, 1.0 - here.hi, 1.0 + w);
    Scale(there.hi, 1.0 - here.lo, 1.0 + w);
  }

  lemma UpperRises(z: real, j: int, k: int, n: int, rootJ: real, rootK: real)
    requires z > 0.0 && 0 <= j <= k <= n && n > 0
    requires IsRoot(rootJ, Radicand(z, j, n)) && IsRoot(rootK, Radicand(z, k, n))
    ensures RunnerInterval(z, j, n, rootJ).hi <= RunnerInterval(z, k, n, rootK).hi
  {
    ContainsShare(z, j, n, rootJ);
    ContainsShare(z, k, n, rootK);
    RawRises(z, j, k, n, rootJ, rootK);
  }

  lemma RawRises(z: real, j: int, k: int, n: int, rootJ: real, rootK: real)
    requires z > 0.0 && 0 <= j <= k <= n && n > 0
    requires IsRoot(rootJ, Radicand(z, j, n)) && IsRoot(rootK, Radicand(z, k, n))
    ensures RunnerRaw(z, j, n, rootJ).hi <= RunnerRaw(z, k, n, rootK).hi
  {
    RootSpreads(z, j, n, rootJ);
    RootSpreads(z, k, n, rootK);
    ShareRises(j, k, n);
    SpreadMonotone(Share(j, n), Share(k, n), Weight(z, n), z * rootJ, z * rootK);
    RawEnds(z, j, n, rootJ);
    RawEnds(z, k, n, rootK);
    Scale(RunnerRaw(z, j, n, rootJ).hi, RunnerRaw(z, k, n, rootK).hi, 1.0 + Weight(z, n));
  }

  lemma ShareRises(j: int, k: int, n: int)
    requires j <= k && n > 0
    ensures Share(j, n) <= Share(k, n)
  {
    Quotient(j as real, n as real);
    Quotient(k as real, n as real);
    Scale(Share(j, n), Share(k, n), n as real);
  }

  lemma MirrorRoot(z: real, k: int, n: int)
    requires 0 <= k <= n && n > 0
    ensures Radicand(z, n - k, n) == Radicand(z, k, n)
  {
    ShareInUnit(k, n);
    var p, q := Share(k, n), Share(n - k, n);
    assert q * (1.0 - q) == p * (1.0 - p);
  }

  /** More successes move both ends up. */
  lemma BothEndsRise(z: real, j: int, k: int, n: int, rootJ: real, rootK: real)
    requires z > 0.0 && 0 <= j <= k <= n && n > 0
    requires IsRoot(rootJ, Radicand(z, j, n)) && IsRoot(rootK, Radicand(z, k, n))
    ensures RunnerInterval(z, j, n, rootJ).hi <= RunnerInterval(z, k, n, rootK).hi
    ensures RunnerInterval(z, j, n, rootJ).lo <= RunnerInterval(z, k, n, rootK).lo
  {
    UpperRises(z, j, k, n, rootJ, rootK);
    MirrorRoot(z, j, n);
    MirrorRoot(z, k, n);
    Mirrored(z, j, n, rootJ, rootJ);
    Mirrored(z, k, n, rootK, rootK);
    UpperRises(z, n - k, n - j, n, rootK, rootJ);
  }

  /** The two implementations agree, for every count and also when there is nothing to count. */
  lemma ImplementationsAgree(k: int, n: int, root: real)
    ensures RunnerCi95(k, n, root) == BaselineCi95(k, n, root)
  {
    if n > 0 { SameMargin(Z95, root, 1.0 + Weight(Z95, n)); }
  }

  lemma SameMargin(z: real, root: real, denom: real)
    requires denom > 0.0
    ensures z * root / denom == (z / denom) * root
  {
    var q := z / denom;
    Quotient(z, denom);
    assert (q * root) * denom == (q * denom) * root;
    SameQuotient(z * root, denom, q * root);
  }
}
