/**
 * The geometry kernel of the rasteriser: integer and floating points, the
 * axis-aligned box, the implicit line `A*x + B*y + C = 0`, the side test of a
 * point against a vector, angle normalisation and the quadrant-aware tangent
 * order used for wedge tests.
 *
 * Floating-point values are modelled as `real` (rounding is not modelled) and
 * every C++ conversion from floating point to an integer type truncates toward
 * zero, which `Trunc` states explicitly.
 */
module Geometry {

  type PosReal = r: real | r > 0.0 witness 1.0

  /** M_PI.  Only its positivity is used by the model. */
  const PI: PosReal

  // ---------------------------------------------------------------------------
  // Conversions

  /** C++ conversion of a floating value to an integer type: truncation toward zero. */
  function Trunc(r: real): (t: int)
    ensures 0.0 <= r ==> 0 <= t && t as real <= r < t as real + 1.0
    ensures r < 0.0 ==> t <= 0 && t as real - 1.0 < r <= t as real
  {
    if r >= 0.0 then r.Floor else -((-r).Floor)
  }

  lemma TruncOfInt(n: int)
    ensures Trunc(n as real) == n
  {
  }

  /** `(int64)((double) n / d)`: the quotient of two integers truncated toward zero. */
  function TruncDiv(n: int, d: int): int
    requires d != 0
  {
    Trunc(n as real / d as real)
  }

  lemma {:induction false} TruncDivExact(q: int, d: int)
    requires d != 0
    ensures TruncDiv(q * d, d) == q
  {
    assert (q * d) as real / d as real == q as real;
    TruncOfInt(q);
  }

  lemma TruncDivNegateBoth(n: int, d: int)
    requires d != 0
    ensures TruncDiv(-n, -d) == TruncDiv(n, d)
  {
    assert (-n) as real / (-d) as real == n as real / d as real;
  }

  // ---------------------------------------------------------------------------
  // Points

  /** Point<int64_t>, the pixel-space point. */
  datatype PointI = PointI(x: int, y: int)
  {
    function Neg(): (r: PointI)
      ensures r.x == -x && r.y == -y
    {
      PointI(-x, -y)
    }

    function Minus(p: PointI): PointI
    {
      PointI(x - p.x, y - p.y)
    }

    function Plus(p: PointI): PointI
    {
      PointI(x + p.x, y + p.y)
    }

    /** The vector rotated by a quarter turn clockwise (y axis up): (y, -x). */
    function Ortho(): PointI
    {
      PointI(y, -x)
    }
  }

  /** Point<double>, the world-space point. */
  datatype PointD = PointD(x: real, y: real)
  {
    function Plus(p: PointD): PointD
    {
      PointD(x + p.x, y + p.y)
    }

    function Scaled(factor: real): PointD
    {
      PointD(x * factor, y * factor)
    }
  }

  /** Cross product of two integer vectors: base.x*p.y - base.y*p.x. */
  function Cross(base: PointI, p: PointI): int
  {
    base.x * p.y - base.y * p.x
  }

  /** ortho() is perpendicular to the vector, keeps its length, and applied twice negates it. */
  lemma OrthoProperties(p: PointI)
    ensures p.Ortho().x * p.x + p.Ortho().y * p.y == 0
    ensures p.Ortho().x * p.Ortho().x + p.Ortho().y * p.Ortho().y == p.x * p.x + p.y * p.y
    ensures p.Ortho().Ortho() == p.Neg()
  {
  }

  lemma MinusPlusCancel(p: PointI, q: PointI)
    ensures p.Minus(q).Plus(q) == p
  {
  }

  // ---------------------------------------------------------------------------
  // Side test

  /** linearY: the y of the line through the origin along `v` at abscissa `value`. */
  function LinearY(v: PointI, value: int): real
    requires v.x != 0
  {
    value as real * v.y as real / v.x as real
  }

  /** linearX: the x of the line through the origin along `v` at ordinate `value`. */
  function LinearX(v: PointI, value: int): real
    requires v.y != 0
  {
    value as real * v.x as real / v.y as real
  }

  /**
   * pointPosition: positive when `p` lies left of `base`, negative when it lies
   * right of it, zero when it lies on the line of `base`.
   */
  function PointPosition(base: PointI, p: PointI): (r: real)
    ensures base == PointI(0, 0) ==> r == 0.0
    ensures r > 0.0 <==> Cross(base, p) > 0
    ensures r < 0.0 <==> Cross(base, p) < 0
  {
    if base.x > 0 then
      SideSignY(base, p);
      p.y as real - LinearY(base, p.x)
    else if base.x < 0 then
      SideSignY(base, p);
      -(p.y as real - LinearY(base, p.x))
    else if base.y > 0 then
      SideSignX(base, p);
      -(p.x as real - LinearX(base, p.y))
    else if base.y < 0 then
      SideSignX(base, p);
      p.x as real - LinearX(base, p.y)
    else
      0.0
  }

  /** A product s * d == c with d non-zero: s has the sign of c when d is positive, the opposite sign otherwise. */
  lemma ProductSign(s: real, d: real, c: real)
    requires d != 0.0 && s * d == c
    ensures d > 0.0 ==> (s > 0.0 <==> c > 0.0) && (s < 0.0 <==> c < 0.0)
    ensures d < 0.0 ==> (s > 0.0 <==> c < 0.0) && (s < 0.0 <==> c > 0.0)
  {
    if s > 0.0 && d > 0.0 {
      assert c > 0.0;
    } else if s < 0.0 && d > 0.0 {
      assert c < 0.0;
    } else if s > 0.0 && d < 0.0 {
      assert c < 0.0;
    } else if s < 0.0 && d < 0.0 {
      assert c > 0.0;
    } else {
      assert s == 0.0 && c == 0.0;
    }
  }

  /** With base.x non-zero: p.y - linearY(base, p.x) times base.x is the cross product. */
  lemma SideSignY(base: PointI, p: PointI)
    requires base.x != 0
    ensures base.x > 0 ==> (p.y as real - LinearY(base, p.x) > 0.0 <==> Cross(base, p) > 0) &&
                           (p.y as real - LinearY(base, p.x) < 0.0 <==> Cross(base, p) < 0)
    ensures base.x < 0 ==> (p.y as real - LinearY(base, p.x) > 0.0 <==> Cross(base, p) < 0) &&
                           (p.y as real - LinearY(base, p.x) < 0.0 <==> Cross(base, p) > 0)
  {
    var d := base.x as real;
    var l := LinearY(base, p.x);
    assert l * d == p.x as real * base.y as real;
    assert (p.y as real - l) * d == Cross(base, p) as real;
    ProductSign(p.y as real - l, d, Cross(base, p) as real);
  }

  /** With base.y non-zero: p.x - linearX(base, p.y) times base.y is minus the cross product. */
  lemma SideSignX(base: PointI, p: PointI)
    requires base.y != 0
    ensures base.y > 0 ==> (p.x as real - LinearX(base, p.y) > 0.0 <==> Cross(base, p) < 0) &&
                           (p.x as real - LinearX(base, p.y) < 0.0 <==> Cross(base, p) > 0)
    ensures base.y < 0 ==> (p.x as real - LinearX(base, p.y) > 0.0 <==> Cross(base, p) > 0) &&
                           (p.x as real - LinearX(base, p.y) < 0.0 <==> Cross(base, p) < 0)
  {
    var d := base.y as real;
    var l := LinearX(base, p.y);
    assert l * d == p.y as real * base.x as real;
    assert (p.x as real - l) * d == -Cross(base, p) as real;
    ProductSign(p.x as real - l, d, -Cross(base, p) as real);
  }

  // ---------------------------------------------------------------------------
  // Angles

  /** normalizeAngle: subtracts whole turns, the count truncated and then lowered for negative angles. */
  function NormalizeAngle(angle: real): real
  {
    var parts := Trunc(angle / (2.0 * PI));
    var turns := if angle < 0.0 then parts - 1 else parts;
    angle - 2.0 * PI * turns as real
  }

  /** k full turns. */
  function Turns(k: int): real
  {
    2.0 * PI * k as real
  }

  /** An angle is an exact multiple of a full turn. */
  ghost predicate WholeTurns(angle: real)
  {
    exists k: int :: Turns(k) == angle
  }

  /** normalizeAngle removes whole turns and lands in [0, 2*PI]; it reaches 2*PI exactly for negative whole turns. */
  lemma {:induction false} NormalizeAngleRange(angle: real)
    ensures WholeTurns(angle - NormalizeAngle(angle))
    ensures 0.0 <= NormalizeAngle(angle) <= 2.0 * PI
    ensures NormalizeAngle(angle) == 2.0 * PI <==> angle < 0.0 && WholeTurns(angle)
  {
    var p: real := 2.0 * PI;
    var t := angle / p;
    DivisionSign(angle, p);
    var parts := Trunc(t);
    var turns := if angle < 0.0 then parts - 1 else parts;
    var r := NormalizeAngle(angle);
    assert r == angle - Turns(turns);
    assert Turns(turns) == angle - r;
    ScaledFraction(angle, p, turns);
    if angle < 0.0 && r == p {
      ScaledFraction(angle, p, turns + 1);
      assert Turns(turns + 1) == angle;
    }
    if angle < 0.0 && WholeTurns(angle) {
      var k: int :| Turns(k) == angle;
      ScaledFraction(angle, p, k);
      TruncOfInt(k);
      assert parts == k;
    }
  }

  /** Dividing by a positive p keeps the sign. */
  lemma DivisionSign(angle: real, p: real)
    requires p > 0.0
    ensures angle < 0.0 <==> angle / p < 0.0
  {
    assert angle == p * (angle / p);
  }

  /** With t = angle / p: angle - p*k has the sign and size of p * (t - k). */
  lemma ScaledFraction(angle: real, p: real, k: int)
    requires p == 2.0 * PI
    ensures angle == Turns(k) <==> angle / p == k as real
    ensures 0.0 <= angle / p - k as real < 1.0 ==> 0.0 <= angle - Turns(k) < p
    ensures 0.0 < angle / p - k as real <= 1.0 ==> 0.0 < angle - Turns(k) <= p
    ensures angle - Turns(k) == p <==> angle / p - k as real == 1.0
  {
    var t := angle / p;
    var d := t - k as real;
    assert angle == p * t;
    assert Turns(k) == p * k as real;
    assert angle - Turns(k) == p * d by {
      assert p * t - p * k as real == p * (t - k as real);
    }
    PositiveScale(p, d, angle - Turns(k));
  }

  /** Multiplying by a positive p keeps zero, the unit interval's ends and their order: pd is p * d. */
  lemma PositiveScale(p: real, d: real, pd: real)
    requires p > 0.0 && pd == p * d
    ensures pd == 0.0 <==> d == 0.0
    ensures 0.0 <= d < 1.0 ==> 0.0 <= pd < p
    ensures 0.0 < d <= 1.0 ==> 0.0 < pd <= p
    ensures pd == p <==> d == 1.0
  {
    assert pd - p == p * (d - 1.0);
    if d < 0.0 {
      assert pd < 0.0;
    } else if d == 0.0 {
    } else if d < 1.0 {
      assert 0.0 < pd;
      assert p * (d - 1.0) < 0.0;
      assert pd < p;
    } else if d == 1.0 {
    } else {
      assert p * (d - 1.0) > 0.0;
    }
  }

  lemma NormalizeAngleExamples()
    ensures NormalizeAngle(15.0 * PI / 2.0) == 3.0 * PI / 2.0
    ensures NormalizeAngle(-6.0 * PI - PI / 2.0) == 3.0 * PI / 2.0
    ensures NormalizeAngle(-2.0 * PI) == 2.0 * PI
  {
    assert (15.0 * PI / 2.0) / (2.0 * PI) == 15.0 / 4.0;
    assert (-6.0 * PI - PI / 2.0) / (2.0 * PI) == -13.0 / 4.0;
    assert (-2.0 * PI) / (2.0 * PI) == -1.0;
  }

  /** isInRangeAngle: a closed interval when from < to, otherwise the wrap-around range without its ends. */
  predicate IsInRangeAngle(angle: real, angleFrom: real, angleTo: real)
  {
    if angleFrom < angleTo then
      !(angle < angleFrom) && !(angle > angleTo)
    else
      angle > angleFrom || angle < angleTo
  }

  /** Swapping the bounds of a proper interval selects exactly the complement. */
  lemma IsInRangeAngleSwapped(angle: real, lo: real, hi: real)
    requires lo < hi
    ensures IsInRangeAngle(angle, lo, hi) <==> lo <= angle <= hi
    ensures IsInRangeAngle(angle, hi, lo) <==> !IsInRangeAngle(angle, lo, hi)
  {
  }

  lemma IsInRangeAngleExamples()
    ensures !IsInRangeAngle(PI / 8.0, PI / 4.0, 2.0 * PI - PI / 4.0)
    ensures IsInRangeAngle(PI / 2.0, PI / 4.0, 2.0 * PI - PI / 4.0)
    ensures IsInRangeAngle(PI / 8.0, 2.0 * PI - PI / 4.0, PI / 4.0)
    ensures !IsInRangeAngle(PI + PI / 2.0, 2.0 * PI - PI / 4.0, PI / 4.0)
  {
  }

  // ---------------------------------------------------------------------------
  // Tangens

  /** An angle as the tangent inside a quarter chosen by the sign of x and of the tangent. */
  datatype Tangens = Tangens(value: real, posX: bool)
  {
    function Quarter(): (q: nat)
      ensures 1 <= q <= 4
      ensures posX <==> q == 1 || q == 4
      ensures value < 0.0 <==> q == 2 || q == 4
    {
      if posX then
        if value < 0.0 then 4 else 1
      else
        if value < 0.0 then 2 else 3
    }

    predicate Greater(other: Tangens)
    {
      if Quarter() == other.Quarter() then value > other.value else Quarter() > other.Quarter()
    }

    predicate GreaterEq(other: Tangens)
    {
      if Quarter() == other.Quarter() then value >= other.value else Quarter() > other.Quarter()
    }

    predicate Less(other: Tangens)
    {
      if Quarter() == other.Quarter() then value < other.value else Quarter() < other.Quarter()
    }

    predicate LessEq(other: Tangens)
    {
      if Quarter() == other.Quarter() then value <= other.value else Quarter() < other.Quarter()
    }

    /** isInRange: between the bounds when they are in order, otherwise the wrap-around range. */
    predicate IsInRange(minTan: Tangens, maxTan: Tangens)
    {
      if maxTan.GreaterEq(minTan) then
        !Less(minTan) && !Greater(maxTan)
      else
        Greater(minTan) || Less(maxTan)
    }
  }

  /** The lexicographic order on (quarter, tangent) the comparison operators stand for. */
  predicate LexLess(a: Tangens, b: Tangens)
  {
    a.Quarter() < b.Quarter() || (a.Quarter() == b.Quarter() && a.value < b.value)
  }

  lemma TangensOrder(a: Tangens, b: Tangens)
    ensures a.Less(b) <==> LexLess(a, b)
    ensures a.Greater(b) <==> LexLess(b, a)
    ensures a.Less(b) <==> b.Greater(a)
    ensures a.LessEq(b) <==> !a.Greater(b)
    ensures a.GreaterEq(b) <==> !a.Less(b)
  {
  }

  lemma TangensLessTransitive(a: Tangens, b: Tangens, c: Tangens)
    requires a.Less(b) && b.Less(c)
    ensures a.Less(c)
  {
  }

  lemma TangensIsInRange(t: Tangens, lo: Tangens, hi: Tangens)
    ensures hi.GreaterEq(lo) ==> (t.IsInRange(lo, hi) <==> lo.LessEq(t) && t.LessEq(hi))
    ensures !hi.GreaterEq(lo) ==> (t.IsInRange(lo, hi) <==> LexLess(lo, t) || LexLess(t, hi))
  {
  }

  // ---------------------------------------------------------------------------
  // Boxes

  /** Rect<int64_t>: corners a (low) and b (high). */
  datatype RectI = RectI(a: PointI, b: PointI)
  {
    /** expand(radius): moves a by -radius and b by +radius. */
    function Expanded(radius: int): (r: RectI)
      ensures r.a.x == a.x - radius && r.a.y == a.y - radius
      ensures r.b.x == b.x + radius && r.b.y == b.y + radius
      ensures r.b.x - r.a.x == b.x - a.x + 2 * radius
      ensures r.b.y - r.a.y == b.y - a.y + 2 * radius
      ensures radius >= 0 ==> r.a.x <= a.x && r.a.y <= a.y && b.x <= r.b.x && b.y <= r.b.y
    {
      RectI(a.Minus(PointI(radius, radius)), b.Plus(PointI(radius, radius)))
    }
  }

  /** Rect<int64_t>::minmax: the box spanned by two points. */
  function MinMaxI(p1: PointI, p2: PointI): (r: RectI)
    ensures r.a.x <= r.b.x && r.a.y <= r.b.y
    ensures r.a.x <= p1.x <= r.b.x && r.a.y <= p1.y <= r.b.y
    ensures r.a.x <= p2.x <= r.b.x && r.a.y <= p2.y <= r.b.y
    ensures r.a.x in {p1.x, p2.x} && r.b.x in {p1.x, p2.x}
    ensures r.a.y in {p1.y, p2.y} && r.b.y in {p1.y, p2.y}
  {
    RectI(PointI(Min(p1.x, p2.x), Min(p1.y, p2.y)), PointI(Max(p1.x, p2.x), Max(p1.y, p2.y)))
  }

  lemma MinMaxISymmetric(p1: PointI, p2: PointI)
    ensures MinMaxI(p1, p2) == MinMaxI(p2, p1)
    ensures MinMaxI(p1, p1) == RectI(p1, p1)
  {
  }

  function Min(u: int, v: int): int { if u < v then u else v }
  function Max(u: int, v: int): int { if u < v then v else u }
  function MinR(u: real, v: real): real { if u < v then u else v }
  function MaxR(u: real, v: real): real { if u < v then v else u }

  /** Rect<double>: corners a (low) and b (high). */
  datatype RectD = RectD(a: PointD, b: PointD)
  {
    function Width(): real { b.x - a.x }
    function Height(): real { b.y - a.y }

    predicate Ordered() { a.x <= b.x && a.y <= b.y }

    predicate Contains(p: PointD) { a.x <= p.x <= b.x && a.y <= p.y <= b.y }

    predicate Encloses(box: RectD) { a.x <= box.a.x && a.y <= box.a.y && box.b.x <= b.x && box.b.y <= b.y }

    /** expand(radius): moves a by -radius and b by +radius. */
    function Expanded(radius: real): (r: RectD)
      ensures r.a == PointD(a.x - radius, a.y - radius) && r.b == PointD(b.x + radius, b.y + radius)
      ensures r.Width() == Width() + 2.0 * radius && r.Height() == Height() + 2.0 * radius
      ensures radius >= 0.0 ==> r.Encloses(this) && (Ordered() ==> r.Ordered())
    {
      RectD(PointD(a.x - radius, a.y - radius), PointD(b.x + radius, b.y + radius))
    }
  }

  /** Expanding twice is expanding once by the sum, and expanding by 0 changes nothing. */
  lemma ExpandedAdditive(box: RectD, r1: real, r2: real)
    ensures box.Expanded(r1).Expanded(r2) == box.Expanded(r1 + r2)
    ensures box.Expanded(0.0) == box
  {
  }

  /** Rect<double>::minmax: the box spanned by two points. */
  function MinMaxD(p1: PointD, p2: PointD): (r: RectD)
    ensures r.Ordered() && r.Contains(p1) && r.Contains(p2)
    ensures r.a.x in {p1.x, p2.x} && r.b.x in {p1.x, p2.x}
    ensures r.a.y in {p1.y, p2.y} && r.b.y in {p1.y, p2.y}
  {
    RectD(PointD(MinR(p1.x, p2.x), MinR(p1.y, p2.y)), PointD(MaxR(p1.x, p2.x), MaxR(p1.y, p2.y)))
  }

  /** The smallest box holding both boxes, edge by edge. */
  function Union(r: RectD, box: RectD): RectD
  {
    RectD(PointD(MinR(r.a.x, box.a.x), MinR(r.a.y, box.a.y)),
          PointD(MaxR(r.b.x, box.b.x), MaxR(r.b.y, box.b.y)))
  }

  lemma UnionEncloses(r: RectD, box: RectD)
    ensures Union(r, box).Encloses(r) && Union(r, box).Encloses(box)
    ensures Union(r, box) == r <==> r.Encloses(box)
    ensures r.Ordered() ==> Union(r, box).Ordered()
    ensures Union(Union(r, box), box) == Union(r, box)
  {
  }

  /**
   * Rect::expand(box): lowers a and raises b edge by edge where `box` reaches
   * further, and reports whether any edge moved.
   */
  method Expand(r: RectD, box: RectD) returns (r': RectD, changed: bool)
    ensures r' == Union(r, box)
    ensures changed <==> r' != r
    ensures changed <==> !r.Encloses(box)
  {
    r', changed := r, false;
    if r'.a.x > box.a.x {
      r' := r'.(a := r'.a.(x := box.a.x));
      changed := true;
    }
    if r'.a.y > box.a.y {
      r' := r'.(a := r'.a.(y := box.a.y));
      changed := true;
    }
    if r'.b.x < box.b.x {
      r' := r'.(b := r'.b.(x := box.b.x));
      changed := true;
    }
    if r'.b.y < box.b.y {
      r' := r'.(b := r'.b.(y := box.b.y));
      changed := true;
    }
  }

  // ---------------------------------------------------------------------------
  // Implicit line

  /** Linear: the line A*x + B*y + C = 0 (distFactor = sqrt(A*A + B*B) is replaced by squared comparisons). */
  datatype Linear = Linear(A: int, B: int, C: int)
  {
    /** A*x + B*y + C: zero exactly on the line. */
    function Residual(p: PointI): int
    {
      A * p.x + B * p.y + C
    }

    function ValueY(x: int): int
      requires B != 0
    {
      TruncDiv(-C - A * x, B)
    }

    function ValueX(y: int): int
      requires A != 0
    {
      TruncDiv(-C - B * y, A)
    }

    predicate Degenerate()
    {
      A == 0 && B == 0
    }

    /** pointSide: the offset of the point from the line along y (along x for a vertical line). */
    function PointSide(p: PointI): int
      requires !Degenerate()
    {
      if B != 0 then p.y - ValueY(p.x) else p.x - ValueX(p.y)
    }

    /** The line with every coefficient negated: the same set of points. */
    function Negated(): Linear
    {
      Linear(-A, -B, -C)
    }

    /**
     * `distance(p) < radius` for radius >= 0, i.e. |Residual| / sqrt(A*A + B*B) < radius.
     * For A = B = 0 the quotient is |C| / 0: infinite (never below) when C != 0 and
     * NaN when C == 0, and `NaN >= radius` is false, so the point is not rejected.
     */
    predicate DistanceBelow(p: PointI, radius: int)
    {
      if Degenerate() then C == 0
      else Residual(p) * Residual(p) < radius * radius * (A * A + B * B)
    }
  }

  /** createFromPoints: the line through `start` and `end`. */
  function CreateFromPoints(start: PointI, end: PointI): Linear
  {
    var sense := end.Minus(start);
    var cFactor := end.x * start.y - start.x * end.y;
    Linear(-sense.y, sense.x, -cFactor)
  }

  /** Both defining points satisfy the line equation, and the line is degenerate only for equal points. */
  lemma CreateFromPointsThrough(start: PointI, end: PointI)
    ensures CreateFromPoints(start, end).Residual(start) == 0
    ensures CreateFromPoints(start, end).Residual(end) == 0
    ensures CreateFromPoints(start, end).Degenerate() <==> start == end
  {
  }

  /** createFromParallel(start, sense): the line through `start` along `sense`. */
  function CreateFromParallel(start: PointI, sense: PointI): Linear
  {
    CreateFromPoints(start, start.Plus(sense))
  }

  /** createFromParallel(sense): the line through the origin along `sense`. */
  function CreateFromDirection(sense: PointI): Linear
  {
    CreateFromPoints(PointI(0, 0), sense)
  }

  /** createFromOrthogonal(start, ortho): the line through `start` perpendicular to `ortho`. */
  function CreateFromOrthogonal(start: PointI, ortho: PointI): Linear
  {
    CreateFromPoints(start, start.Plus(ortho.Ortho()))
  }

  /** The line along `sense` has normal (-sense.y, sense.x), and `start` satisfies its equation. */
  lemma CreateFromParallelValue(start: PointI, sense: PointI)
    ensures CreateFromParallel(start, sense) ==
      Linear(-sense.y, sense.x, sense.y * start.x - sense.x * start.y)
  {
    var end := start.Plus(sense);
    assert end.x * start.y - start.x * end.y == sense.x * start.y - start.x * sense.y;
  }

  /** The line perpendicular to `ortho` has `ortho` as its normal (A, B), and `start` satisfies its equation. */
  lemma CreateFromOrthogonalValue(start: PointI, ortho: PointI)
    ensures CreateFromOrthogonal(start, ortho) ==
      Linear(ortho.x, ortho.y, -(ortho.x * start.x + ortho.y * start.y))
  {
    var end := start.Plus(ortho.Ortho());
    assert end.x * start.y - start.x * end.y == ortho.y * start.y + start.x * ortho.x;
  }

  /** createFromOrthogonal(ortho): the line through the origin perpendicular to `ortho`. */
  function CreateFromNormal(ortho: PointI): Linear
  {
    CreateFromPoints(PointI(0, 0), ortho.Ortho())
  }

  /** Both defining points lie on the line: pointSide is 0 and the distance is below every positive radius. */
  lemma {:induction false} CreateFromPointsOnLine(start: PointI, end: PointI, radius: int)
    requires start != end && radius > 0
    ensures CreateFromPoints(start, end).PointSide(start) == 0
    ensures CreateFromPoints(start, end).PointSide(end) == 0
    ensures CreateFromPoints(start, end).DistanceBelow(start, radius)
    ensures CreateFromPoints(start, end).DistanceBelow(end, radius)
  {
    var l := CreateFromPoints(start, end);
    CreateFromPointsThrough(start, end);
    OnLineSideZero(l, start);
    OnLineSideZero(l, end);
    assert radius * radius * (l.A * l.A + l.B * l.B) > 0 by {
      assert radius * radius > 0;
      assert l.A * l.A + l.B * l.B > 0;
    }
  }

  lemma {:induction false} OnLineSideZero(l: Linear, p: PointI)
    requires !l.Degenerate() && l.Residual(p) == 0
    ensures l.PointSide(p) == 0
  {
    if l.B != 0 {
      assert -l.C - l.A * p.x == p.y * l.B;
      TruncDivExact(p.y, l.B);
    } else {
      assert -l.C - l.B * p.y == p.x * l.A;
      TruncDivExact(p.x, l.A);
    }
  }

  /** Negating every coefficient leaves pointSide unchanged. */
  lemma {:induction false} PointSideNegated(l: Linear, p: PointI)
    requires !l.Degenerate()
    ensures !l.Negated().Degenerate()
    ensures l.Negated().PointSide(p) == l.PointSide(p)
  {
    var m := l.Negated();
    if l.B != 0 {
      assert -m.C - m.A * p.x == -(-l.C - l.A * p.x);
      TruncDivNegateBoth(-l.C - l.A * p.x, l.B);
    } else {
      assert -m.C - m.B * p.y == -(-l.C - l.B * p.y);
      TruncDivNegateBoth(-l.C - l.B * p.y, l.A);
    }
  }

  /** Building the line along the opposite direction gives the same pointSide everywhere. */
  lemma {:induction false} PointSideIndependentOfDirection(start: PointI, sense: PointI, p: PointI)
    requires sense != PointI(0, 0)
    ensures !CreateFromParallel(start, sense).Degenerate()
    ensures CreateFromParallel(start, sense.Neg()) == CreateFromParallel(start, sense).Negated()
    ensures CreateFromParallel(start, sense.Neg()).PointSide(p) == CreateFromParallel(start, sense).PointSide(p)
  {
    var l := CreateFromParallel(start, sense);
    CreateFromPointsThrough(start, start.Plus(sense));
    var e := start.Plus(sense);
    var e' := start.Plus(sense.Neg());
    assert e'.x * start.y - start.x * e'.y == -(e.x * start.y - start.x * e.y) by {
      assert e.x * start.y - start.x * e.y == sense.x * start.y - start.x * sense.y;
      assert e'.x * start.y - start.x * e'.y == start.x * sense.y - sense.x * start.y;
    }
    PointSideNegated(l, p);
  }

  /** The lines of the pointSide, valueY/valueX and distance examples, as built by the factories. */
  lemma DiagonalLines()
    ensures CreateFromParallel(PointI(5, 5), PointI(1, 1)) == Linear(-1, 1, 0)
    ensures CreateFromParallel(PointI(5, 5), PointI(-1, -1)) == Linear(1, -1, 0)
  {
  }

  lemma HorizontalLine()
    ensures CreateFromParallel(PointI(5, 5), PointI(1, 0)) == Linear(0, 1, -5)
  {
    CreateFromParallelValue(PointI(5, 5), PointI(1, 0));
  }

  lemma OrthogonalLineOX()
    ensures CreateFromOrthogonal(PointI(0, 5), PointI(0, 1)) == Linear(0, 1, -5)
  {
    CreateFromOrthogonalValue(PointI(0, 5), PointI(0, 1));
  }

  lemma OrthogonalLineOY()
    ensures CreateFromOrthogonal(PointI(5, 0), PointI(1, 0)) == Linear(1, 0, -5)
  {
    CreateFromOrthogonalValue(PointI(5, 0), PointI(1, 0));
  }

  lemma PointSideExamples()
    ensures Linear(-1, 1, 0).PointSide(PointI(5, 10)) == 5
    ensures Linear(-1, 1, 0).PointSide(PointI(5, -10)) == -15
    ensures Linear(1, -1, 0).PointSide(PointI(5, 10)) == 5
    ensures Linear(1, -1, 0).PointSide(PointI(5, -10)) == -15
  {
    TruncDivExact(5, 1);
    TruncDivExact(5, -1);
  }

  lemma ValueExamples()
    ensures Linear(0, 1, -5).ValueY(10) == 5
    ensures Linear(1, 0, -5).ValueX(10) == 5
  {
    TruncDivExact(5, 1);
  }

  lemma DistanceExamples()
    ensures Linear(0, 1, -5).DistanceBelow(PointI(5, 10), 6)
    ensures !Linear(0, 1, -5).DistanceBelow(PointI(5, 10), 5)
    ensures !Linear(0, 1, -5).DistanceBelow(PointI(5, -10), 15)
  {
  }
}
