/** Numeric vocabulary shared by every construction formula: the payload
    shapes nodes exchange (points, implicit lines, circles), the numeric
    environment the formulas run in, and exact real helpers. */
module Geometry {

  datatype Option<T> = None | Some(value: T)

  /** The LineType tags of LineNode.h. */
  datatype LineType =
    | PointPointLineThrough
    | PointLineParallelLineThrough
    | PointPointPerpendicularBisector
    | PointCircleFirstTangent
    | PointCircleSecondTangent

  /** What lies outside the construction engine's shown code, as parameters
      of the model: the tolerance EPSILON (a shared header), the square root
      the formulas call (the C math library), and the line formulas of
      LineNode.cpp. A line formula takes the tag and the access vectors of
      the two parents, and gives the new coefficients or None when it
      refuses the configuration. */
  datatype Env = Env(epsilon: real, sqrt: real -> real,
                     lineFormula: (LineType, seq<real>, seq<real>) -> Option<Line>)

  /** What the formulas may rely on: a positive tolerance and a square root
      that is exact on non-negative arguments. Nothing is promised of the
      square root of a negative number. */
  ghost predicate ValidEnv(env: Env) {
    && env.epsilon > 0.0
    && forall v :: v >= 0.0 ==> env.sqrt(v) >= 0.0 && env.sqrt(v) * env.sqrt(v) == v
  }

  /** A point [x, y]. */
  datatype Pt = Pt(x: real, y: real)

  /** A line in implicit form a*x + b*y + c = 0, as [a, b, c]. */
  datatype Line = Line(a: real, b: real, c: real)

  /** A circle [cx, cy, r]. */
  datatype Circ = Circ(cx: real, cy: real, r: real)

  function Sq(v: real): real { v * v }

  function Abs(v: real): real { if v < 0.0 then -v else v }

  /** Squared Euclidean distance. */
  function Dist2(p: Pt, q: Pt): (d: real)
    ensures d >= 0.0
  {
    Sq(p.x - q.x) + Sq(p.y - q.y)
  }

  lemma DistanceSymmetric(p: Pt, q: Pt)
    ensures Dist2(p, q) == Dist2(q, p)
  {
    assert Sq(p.x - q.x) == Sq(q.x - p.x);
    assert Sq(p.y - q.y) == Sq(q.y - p.y);
  }

  function Center(c: Circ): Pt { Pt(c.cx, c.cy) }

  /** True when p lies on the circle c. */
  predicate OnCircumference(p: Pt, c: Circ) {
    Dist2(p, Center(c)) == Sq(c.r)
  }

  /** True when p satisfies the line's equation. */
  predicate Incident(p: Pt, l: Line) {
    l.a * p.x + l.b * p.y + l.c == 0.0
  }

  /** Real division. The floating-point quotient by zero (an infinity or NaN)
      is not modelled: the model yields 0 there. In the line-circle test,
      where such a NaN is compared at once, the formula takes the branch the
      NaN takes. Elsewhere the source keeps the NaN as a coordinate with the
      flag true, and the model keeps its own value; a node built on such a
      point then decides its comparisons on the model's value, so its flag
      is the model's, not the source's. */
  function Quot(n: real, d: real): (q: real)
    ensures d != 0.0 ==> q * d == n
  {
    if d == 0.0 then 0.0 else n / d
  }

  /** A product with a nonzero factor can be cancelled. */
  lemma Cancel(u: real, v: real, k: real)
    requires k != 0.0
    requires u * k == v * k
    ensures u == v
  {
    assert (u - v) * k == 0.0;
  }

  /** The product of two positive numbers is positive. */
  lemma PositiveProduct(u: real, v: real)
    requires u > 0.0 && v > 0.0
    ensures u * v > 0.0
  {
  }

  /** The square root of a non-negative number is a non-negative number
      whose square is that number. */
  lemma SqrtSquared(env: Env, v: real)
    requires ValidEnv(env) && v >= 0.0
    ensures env.sqrt(v) >= 0.0 && Sq(env.sqrt(v)) == v
  {
  }

  /** The square root of a square is the absolute value. */
  lemma SqrtOfSquare(env: Env, v: real)
    requires ValidEnv(env)
    ensures env.sqrt(Sq(v)) == Abs(v)
  {
    var s := env.sqrt(Sq(v));
    assert v * v >= 0.0;
    assert s >= 0.0 && s * s == v * v;
    SameSquare(s, Abs(v));
  }

  /** Two non-negative reals with the same square are equal. */
  lemma SameSquare(s: real, a: real)
    requires s >= 0.0 && a >= 0.0
    requires s * s == a * a
    ensures s == a
  {
    if s > a {
      assert (s - a) * (s + a) == s * s - a * a;
      PositiveProduct(s - a, s + a);
    } else if s < a {
      assert (a - s) * (s + a) == a * a - s * s;
      PositiveProduct(a - s, s + a);
    }
  }
}
