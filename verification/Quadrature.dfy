/** Rectangle sums over exact reals, for any curve that is nowhere negative and nowhere increasing. */
module Quadrature {

  type Curve = real -> real

  ghost predicate Falling(f: Curve)
  {
    && (forall x, y :: 0.0 <= x <= y ==> f(y) <= f(x))
    && (forall x :: 0.0 <= x ==> 0.0 <= f(x))
  }

  /** The i-th grid point, reached by adding dx i times. */
  ghost function Point(i: nat, dx: real): real
  {
    if i == 0 then 0.0 else Point(i - 1, dx) + dx
  }

  function Rect(height: real, width: real): real
  {
    height * width
  }

  /** The rectangles number lo to hi - 1, each as high as the curve at its left edge. */
  ghost function LeftSum(f: Curve, lo: nat, hi: nat, dx: real): real
    requires lo <= hi
    decreases hi
  {
    if lo == hi then 0.0 else LeftSum(f, lo, hi - 1, dx) + Rect(f(Point(hi - 1, dx)), dx)
  }

  /** The rectangles number 0 to n - 1, each as high as the curve at its right edge. */
  ghost function RightSum(f: Curve, n: nat, dx: real): real
  {
    if n == 0 then 0.0 else RightSum(f, n - 1, dx) + Rect(f(Point(n, dx)), dx)
  }

  // ----- real arithmetic -----

  lemma NonNegativeProduct(a: real, b: real)
    requires 0.0 <= a && 0.0 <= b
    ensures 0.0 <= a * b
  {
  }

  lemma Scale(a: real, b: real, c: real)
    requires a <= b && 0.0 <= c
    ensures a * c <= b * c
  {
    NonNegativeProduct(b - a, c);
  }

  lemma Join(h: real, x: real, z: real, y: real)
    ensures h * (y - z) + h * (z - x) == h * (y - x)
  {
  }

  lemma {:induction false} PointIsProduct(i: nat, dx: real)
    ensures Point(i, dx) == i as real * dx
  {
    if i > 0 {
      PointIsProduct(i - 1, dx);
      Successor((i - 1) as real, dx);
    }
  }

  lemma Successor(x: real, dx: real)
    ensures x * dx + dx == (x + 1.0) * dx
  {
  }

  lemma {:induction false} PointsIncrease(i: nat, j: nat, dx: real)
    requires 0.0 <= dx && i <= j
    ensures 0.0 <= Point(i, dx) <= Point(j, dx)
    decreases j
  {
    if 0 < j {
      PointsIncrease(if i < j then i else j - 1, j - 1, dx);
    }
  }

  // ----- sums -----

  lemma {:induction false} SplitSum(f: Curve, lo: nat, mid: nat, hi: nat, dx: real)
    requires lo <= mid <= hi
    ensures LeftSum(f, lo, hi, dx) == LeftSum(f, lo, mid, dx) + LeftSum(f, mid, hi, dx)
  {
    if mid < hi {
      SplitSum(f, lo, mid, hi - 1, dx);
    }
  }

  lemma Collapse(a: real, b: real, c: real, w: real)
    ensures Rect(a - b, w) + Rect(b, w) - Rect(c, w) == Rect(a - c, w)
  {
  }

  /** The two sums of the same rectangles differ by the first less the last height. */
  lemma {:induction false} Telescope(f: Curve, n: nat, dx: real)
    ensures LeftSum(f, 0, n, dx) - RightSum(f, n, dx) == Rect(f(0.0) - f(Point(n, dx)), dx)
  {
    if n > 0 {
      Telescope(f, n - 1, dx);
      Collapse(f(0.0), f(Point(n - 1, dx)), f(Point(n, dx)), dx);
    }
  }

  // ----- the area under the steps of a left sum -----

  /** The area up to y; y lies in step number j. */
  ghost function StepArea(f: Curve, dx: real, j: nat, y: real): real
  {
    LeftSum(f, 0, j, dx) + Rect(f(Point(j, dx)), y - Point(j, dx))
  }

  ghost predicate InStep(dx: real, j: nat, y: real)
  {
    Point(j, dx) <= y <= Point(j + 1, dx)
  }

  /** Where two steps meet, the area up to there is the sum of the rectangles up to there. */
  lemma StepStart(f: Curve, dx: real, j: nat)
    ensures StepArea(f, dx, j, Point(j, dx)) == LeftSum(f, 0, j, dx)
  {
    NoWidth(LeftSum(f, 0, j, dx), f(Point(j, dx)), Point(j, dx));
  }

  lemma NoWidth(s: real, h: real, p: real)
    ensures s + Rect(h, p - p) == s
  {
  }

  lemma StepEnd(f: Curve, dx: real, i: nat)
    ensures StepArea(f, dx, i, Point(i + 1, dx)) == LeftSum(f, 0, i + 1, dx)
  {
    WholeStep(LeftSum(f, 0, i, dx), f(Point(i, dx)), Point(i, dx), Point(i + 1, dx), dx);
  }

  lemma WholeStep(s: real, h: real, p: real, z: real, dx: real)
    requires z == p + dx
    ensures s + Rect(h, z - p) == s + Rect(h, dx)
  {
  }

  lemma SameStep(s: real, high: real, low: real, p: real, x: real, y: real)
    requires low <= high && x <= y
    ensures (s + Rect(high, y - p)) - (s + Rect(high, x - p)) >= Rect(low, y - x)
  {
    Join(high, p, x, y);
    Scale(low, high, y - x);
  }

  lemma CoverWithin(f: Curve, dx: real, j: nat, x: real, y: real)
    requires x <= y && f(y) <= f(Point(j, dx))
    ensures StepArea(f, dx, j, y) - StepArea(f, dx, j, x) >= Rect(f(y), y - x)
  {
    SameStep(LeftSum(f, 0, j, dx), f(Point(j, dx)), f(y), Point(j, dx), x, y);
  }

  lemma FallsFrom(f: Curve, dx: real, j: nat, y: real)
    requires Falling(f) && 0.0 <= dx && Point(j, dx) <= y
    ensures 0.0 <= f(y) <= f(Point(j, dx))
  {
    PointsIncrease(j, j, dx);
  }

  lemma Chain(a: real, b: real, c: real, high: real, low: real, x: real, z: real, y: real)
    requires low <= high && x <= z
    requires b - a >= Rect(high, z - x) && c - b >= Rect(low, y - z)
    ensures c - a >= Rect(low, y - x)
  {
    Scale(low, high, z - x);
    Join(low, x, z, y);
  }

  lemma StepBounds(dx: real, i: nat, x: real, j: nat)
    requires 0.0 < dx && i < j && InStep(dx, i, x)
    ensures 0.0 <= Point(j, dx) && x <= Point(j, dx) && InStep(dx, j - 1, Point(j, dx))
  {
    PointsIncrease(i + 1, j, dx);
    PointsIncrease(j - 1, j, dx);
  }

  /** Where two steps meet the area does not jump. */
  lemma StepsMeet(f: Curve, dx: real, j: nat)
    requires j > 0
    ensures StepArea(f, dx, j - 1, Point(j, dx)) == StepArea(f, dx, j, Point(j, dx))
  {
    StepEnd(f, dx, j - 1);
    StepStart(f, dx, j);
  }

  /** The steps lie above the curve: from x to y they cover at least the rectangle under the curve at y. */
  lemma {:induction false} StepsCover(f: Curve, dx: real, i: nat, x: real, j: nat, y: real)
    requires Falling(f) && 0.0 < dx && i <= j && 0.0 <= x <= y && InStep(dx, i, x) && InStep(dx, j, y)
    ensures StepArea(f, dx, j, y) - StepArea(f, dx, i, x) >= Rect(f(y), y - x)
    decreases j
  {
    FallsFrom(f, dx, j, y);
    if i == j {
      CoverWithin(f, dx, j, x, y);
    } else {
      StepBounds(dx, i, x, j);
      StepsCover(f, dx, i, x, j - 1, Point(j, dx));
      StepsMeet(f, dx, j);
      CoverWithin(f, dx, j, Point(j, dx), y);
      Chain(StepArea(f, dx, i, x), StepArea(f, dx, j, Point(j, dx)), StepArea(f, dx, j, y),
            f(Point(j, dx)), f(y), x, Point(j, dx), y);
    }
  }

  // ----- comparing two grids -----

  lemma ScaledStep(dx: real, j: nat, q: real)
    requires 0.0 < dx && j as real <= q <= (j + 1) as real
    ensures InStep(dx, j, q * dx)
  {
    PointIsProduct(j, dx);
    PointIsProduct(j + 1, dx);
    Sandwich(j as real, q, (j + 1) as real, dx, Point(j, dx), Point(j + 1, dx));
  }

  lemma Sandwich(a: real, q: real, b: real, dx: real, p: real, r: real)
    requires 0.0 < dx && a <= q <= b && p == a * dx && r == b * dx
    ensures p <= q * dx <= r
  {
    Scale(a, q, dx);
    Scale(q, b, dx);
  }

  lemma FloorIsStep(dx: real, q: real)
    requires 0.0 < dx && 0.0 <= q
    ensures InStep(dx, q.Floor, q * dx)
  {
    ScaledStep(dx, q.Floor, q);
  }

  lemma QuotientTimes(y: real, dx: real)
    requires 0.0 < dx && 0.0 <= y
    ensures 0.0 <= y / dx && y / dx * dx == y
  {
  }

  /** The number of whole steps up to y. */
  ghost function StepOf(dx: real, y: real): (j: nat)
    requires 0.0 < dx && 0.0 <= y
    ensures InStep(dx, j, y)
  {
    QuotientTimes(y, dx);
    FloorIsStep(dx, y / dx);
    (y / dx).Floor
  }

  lemma Expand(p: real, q: real, dx: real)
    requires q < p && 0.0 < dx
    ensures q * dx < p * dx
  {
    assert 0.0 < (p - q) * dx;
  }

  lemma QuotientsOrdered(p: real, q: real, dx: real)
    requires 0.0 < dx && p * dx <= q * dx
    ensures p <= q
  {
    if q < p {
      Expand(p, q, dx);
    }
  }

  lemma StepsOrdered(dx: real, x: real, y: real)
    requires 0.0 < dx && 0.0 <= x <= y
    ensures StepOf(dx, x) <= StepOf(dx, y)
  {
    QuotientTimes(x, dx);
    QuotientTimes(y, dx);
    QuotientsOrdered(x / dx, y / dx, dx);
  }

  /** Right rectangles of any width stay under left steps of any other width: no common refinement of the two
      grids is needed, and none need exist. */
  lemma {:induction false} RightBelowSteps(f: Curve, e: real, n: nat, dx: real)
    requires Falling(f) && 0.0 < e && 0.0 < dx
    ensures 0.0 <= Point(n, e)
    ensures RightSum(f, n, e) <= StepArea(f, dx, StepOf(dx, Point(n, e)), Point(n, e))
  {
    PointsIncrease(n, n, e);
    if n == 0 {
      StepStart(f, dx, 0);
      assert StepOf(dx, 0.0) == 0;
    } else {
      var x, y := Point(n - 1, e), Point(n, e);
      RightBelowSteps(f, e, n - 1, dx);
      StepsOrdered(dx, x, y);
      StepsCover(f, dx, StepOf(dx, x), x, StepOf(dx, y), y);
      WholeStep(0.0, f(y), x, y, e);
    }
  }

  // ----- the sum over [0, 1] -----

  /** The left sum with as many whole rectangles as fit into [0, 1]. */
  ghost function UnitSum(f: Curve, dx: real): real
    requires 0.0 < dx
  {
    LeftSum(f, 0, StepOf(dx, 1.0), dx)
  }

  /** The width of [0, 1] that the whole rectangles leave uncovered. */
  ghost function Gap(dx: real): real
    requires 0.0 < dx
  {
    1.0 - Point(StepOf(dx, 1.0), dx)
  }

  /** The rectangle over the gap that is missing on the right. */
  ghost function Missing(f: Curve, dx: real): real
    requires 0.0 < dx
  {
    Rect(f(1.0 - Gap(dx)), Gap(dx))
  }

  /** What the rectangles have above their right edges, taken together. */
  ghost function Overshoot(f: Curve, dx: real): real
    requires 0.0 < dx
  {
    Rect(f(0.0) - f(1.0 - Gap(dx)), dx)
  }

  lemma AreaToOne(f: Curve, dx: real)
    requires 0.0 < dx
    ensures StepArea(f, dx, StepOf(dx, 1.0), 1.0) == UnitSum(f, dx) + Missing(f, dx)
  {
    assert Point(StepOf(dx, 1.0), dx) == 1.0 - Gap(dx);
  }

  lemma StepsToOne(f: Curve, dx: real, x: real)
    requires Falling(f) && 0.0 < dx && 0.0 <= x <= 1.0
    ensures StepArea(f, dx, StepOf(dx, x), x) <= UnitSum(f, dx) + Missing(f, dx)
  {
    StepsOrdered(dx, x, 1.0);
    StepsCover(f, dx, StepOf(dx, x), x, StepOf(dx, 1.0), 1.0);
    NonNegativeProduct(f(1.0), 1.0 - x);
    AreaToOne(f, dx);
  }

  lemma TelescopeToOne(f: Curve, e: real)
    requires 0.0 < e
    ensures UnitSum(f, e) == RightSum(f, StepOf(e, 1.0), e) + Overshoot(f, e)
  {
    Telescope(f, StepOf(e, 1.0), e);
    assert Point(StepOf(e, 1.0), e) == 1.0 - Gap(e);
  }

  /** Any two grids: a left sum exceeds another by at most its own overshoot and the other's uncovered gap. */
  lemma Compare(f: Curve, e: real, dx: real)
    requires Falling(f) && 0.0 < e && 0.0 < dx
    ensures UnitSum(f, e) <= UnitSum(f, dx) + Overshoot(f, e) + Missing(f, dx)
  {
    var n := StepOf(e, 1.0);
    TelescopeToOne(f, e);
    RightBelowSteps(f, e, n, dx);
    StepsToOne(f, dx, Point(n, e));
  }

  // ----- grids that fit exactly -----

  function Part(m: nat): real
    requires m > 0
  {
    1.0 / m as real
  }

  lemma Reciprocal(x: real)
    requires 0.0 < x
    ensures 0.0 < 1.0 / x && x * (1.0 / x) == 1.0 && 1.0 / (1.0 / x) == x
  {
    var d := 1.0 / x;
    assert d * x == 1.0;
    assert 1.0 / d * d == 1.0;
    QuotientsOrdered(1.0 / d, x, d);
    QuotientsOrdered(x, 1.0 / d, d);
  }

  lemma ExactGrid(m: nat)
    requires m > 0
    ensures 0.0 < Part(m) && StepOf(Part(m), 1.0) == m && Point(m, Part(m)) == 1.0
    ensures Gap(Part(m)) == 0.0
  {
    Reciprocal(m as real);
    PointIsProduct(m, Part(m));
  }

  /** The area under the curve over [0, 1]: the number that all lower and upper sums enclose. */
  ghost predicate IsArea(f: Curve, area: real)
  {
    forall m: nat :: m > 0 ==> RightSum(f, m, Part(m)) <= area <= LeftSum(f, 0, m, Part(m))
  }

  lemma LessAfterDividing(c: real, x: real, r: real, q: real, d: real)
    requires 0.0 < x && q * x == c && q < r && r * d == 1.0 && 0.0 < d
    ensures c * d < x
  {
    assert 0.0 < (r - q) * x == r * x - c;
    assert 0.0 < (r * x - c) * d == r * x * d - c * d;
    assert r * x * d == r * d * x;
  }

  lemma Large(x: real, c: real, m: nat)
    requires 0.0 < x && 0.0 <= c && m > 0 && c / x < m as real
    ensures c * Part(m) < x
  {
    QuotientTimes(c, x);
    Reciprocal(m as real);
    LessAfterDividing(c, x, m as real, c / x, Part(m));
  }

  /** A number of which every multiple of a unit fraction is an upper bound is not positive. */
  lemma Archimedes(x: real, c: real)
    requires 0.0 <= c && forall m: nat :: m > 0 ==> x <= c * Part(m)
    ensures x <= 0.0
  {
    if x > 0.0 {
      QuotientTimes(c, x);
      var m: nat := (c / x).Floor + 1;
      Large(x, c, m);
    }
  }

  /** The left sum of an exact grid is at most (f(0) - f(1)) / m above the area. */
  lemma ExactSum(f: Curve, area: real, m: nat)
    requires Falling(f) && IsArea(f, area) && m > 0
    ensures 0.0 < Part(m) && area <= UnitSum(f, Part(m)) <= area + (f(0.0) - f(1.0)) * Part(m)
  {
    ExactGrid(m);
    Telescope(f, m, Part(m));
  }

  lemma ExactGridTerms(f: Curve, m: nat)
    requires m > 0
    ensures 0.0 < Part(m) && Missing(f, Part(m)) == 0.0 && Overshoot(f, Part(m)) == (f(0.0) - f(1.0)) * Part(m)
  {
    ExactGrid(m);
  }

  lemma NearExactSum(f: Curve, area: real, dx: real, m: nat)
    requires Falling(f) && IsArea(f, area) && 0.0 < dx && m > 0
    ensures UnitSum(f, dx) - Overshoot(f, dx) - area <= (f(0.0) - f(1.0)) * Part(m)
    ensures area - UnitSum(f, dx) - Missing(f, dx) <= (f(0.0) - f(1.0)) * Part(m)
  {
    ExactGridTerms(f, m);
    ExactSum(f, area, m);
    Compare(f, dx, Part(m));
    Compare(f, Part(m), dx);
  }

  lemma SumNotAbove(f: Curve, area: real, dx: real)
    requires Falling(f) && IsArea(f, area) && 0.0 < dx
    ensures UnitSum(f, dx) - Overshoot(f, dx) - area <= 0.0
  {
    forall m: nat | m > 0 ensures UnitSum(f, dx) - Overshoot(f, dx) - area <= (f(0.0) - f(1.0)) * Part(m) {
      NearExactSum(f, area, dx, m);
    }
    Archimedes(UnitSum(f, dx) - Overshoot(f, dx) - area, f(0.0) - f(1.0));
  }

  lemma SumNotBelow(f: Curve, area: real, dx: real)
    requires Falling(f) && IsArea(f, area) && 0.0 < dx
    ensures area - UnitSum(f, dx) - Missing(f, dx) <= 0.0
  {
    forall m: nat | m > 0 ensures area - UnitSum(f, dx) - Missing(f, dx) <= (f(0.0) - f(1.0)) * Part(m) {
      NearExactSum(f, area, dx, m);
    }
    Archimedes(area - UnitSum(f, dx) - Missing(f, dx), f(0.0) - f(1.0));
  }

  /** How far a left sum of any width can be from the area. */
  lemma SumNearArea(f: Curve, area: real, dx: real)
    requires Falling(f) && IsArea(f, area) && 0.0 < dx
    ensures area - Missing(f, dx) <= UnitSum(f, dx) <= area + Overshoot(f, dx)
  {
    SumNotAbove(f, area, dx);
    SumNotBelow(f, area, dx);
  }

  /** There is only one area. */
  lemma AreaIsUnique(f: Curve, a: real, b: real)
    requires Falling(f) && IsArea(f, a) && IsArea(f, b)
    ensures a == b
  {
    forall m: nat | m > 0
      ensures a - b <= (f(0.0) - f(1.0)) * Part(m) && b - a <= (f(0.0) - f(1.0)) * Part(m)
    {
      ExactGrid(m);
      ExactSum(f, a, m);
      ExactSum(f, b, m);
    }
    Archimedes(a - b, f(0.0) - f(1.0));
    Archimedes(b - a, f(0.0) - f(1.0));
  }
}
