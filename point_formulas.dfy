/** The point construction formulas of PointNode.cpp, as functions on the
    payloads of the node's own seed and of its parents. Each formula either
    places the point or reports a degenerate configuration, in which case
    the node becomes ill-defined and keeps its coordinates. The arithmetic
    is the source's, operation for operation, over exact reals. */
module PointFormulas {
  import opened Geometry

  datatype Placement = Placed(at: Pt) | Degenerate

  /** Orthogonal projection of p onto l (the parameter t of on_line and of
      the closest point used by the line-circle formulas). */
  function Foot(p: Pt, l: Line): Pt {
    var t := FootParameter(p, l);
    Pt(p.x - l.a * t, p.y - l.b * t)
  }

  /** The parameter t = (a*x + b*y + c) / (a^2 + b^2) of the projection. */
  function FootParameter(p: Pt, l: Line): real {
    Quot(l.a * p.x + l.b * p.y + l.c, l.a * l.a + l.b * l.b)
  }

  /** The projection lies on the line (when the line has a normal) and the
      point moves along the normal (a, b). */
  lemma FootSpec(p: Pt, l: Line)
    ensures l.a * l.a + l.b * l.b != 0.0 ==> Incident(Foot(p, l), l)
    ensures (p.x - Foot(p, l).x) * l.b == (p.y - Foot(p, l).y) * l.a
  {
    ProjectionAlgebra(p.x, p.y, l.a, l.b, l.c, FootParameter(p, l));
  }

  /** The algebra of the projection, with t the parameter. */
  lemma ProjectionAlgebra(x: real, y: real, a: real, b: real, c: real, t: real)
    requires a * a + b * b != 0.0 ==> t * (a * a + b * b) == a * x + b * y + c
    ensures a * a + b * b != 0.0 ==> a * (x - a * t) + b * (y - b * t) + c == 0.0
    ensures (x - (x - a * t)) * b == (y - (y - b * t)) * a
  {
  }

  /** Projecting a point that already lies on the line leaves it in place. */
  lemma FootOfIncident(p: Pt, l: Line)
    requires Incident(p, l)
    ensures Foot(p, l) == p
  {
  }

  /** Projection is idempotent: a second on_line pass does not move the point. */
  lemma FootIdempotent(p: Pt, l: Line)
    ensures Foot(Foot(p, l), l) == Foot(p, l)
  {
    FootSpec(p, l);
    if l.a * l.a + l.b * l.b != 0.0 {
      FootOfIncident(Foot(p, l), l);
    }
  }

  /** independent: the payload is the caller's; the formula does nothing. */
  function Independent(seed: Pt): Placement {
    Placed(seed)
  }

  /** on_line: the seed projected orthogonally onto the parent line. */
  function OnLine(seed: Pt, l: Line): (r: Placement)
    ensures r.Placed?
  {
    Placed(Foot(seed, l))
  }

  /** Distance from the seed to the parent circle's centre, as on_circle
      computes it. */
  function SeedRadius(seed: Pt, c: Circ, env: Env): real {
    env.sqrt(Sq(seed.x - c.cx) + Sq(seed.y - c.cy))
  }

  /** on_circle: the seed pushed radially onto the parent circle. */
  function OnCircle(seed: Pt, c: Circ, env: Env): Placement {
    var d := SeedRadius(seed, c, env);
    if d < env.epsilon then Degenerate
    else Placed(Pt(c.cx + Quot((seed.x - c.cx) * c.r, d),
                   c.cy + Quot((seed.y - c.cy) * c.r, d)))
  }

  /** on_circle is degenerate exactly when the seed is within EPSILON of the
      centre; otherwise the result lies on the circle, on the ray from the
      centre through the seed (for a non-negative radius). */
  lemma OnCircleSpec(seed: Pt, c: Circ, env: Env)
    requires ValidEnv(env)
    ensures OnCircle(seed, c, env).Degenerate? <==> SeedRadius(seed, c, env) < env.epsilon
    ensures OnCircle(seed, c, env).Placed? ==> OnRay(OnCircle(seed, c, env).at, seed, c)
  {
    SqrtSquared(env, Sq(seed.x - c.cx) + Sq(seed.y - c.cy));
    OnCircleRoot(seed, c, env);
  }

  /** OnCircleSpec for a square root known to be exact at the one argument
      the formula takes it of. */
  lemma OnCircleRoot(seed: Pt, c: Circ, env: Env)
    requires env.epsilon > 0.0
    requires var d := SeedRadius(seed, c, env);
      d >= 0.0 && Sq(d) == Sq(seed.x - c.cx) + Sq(seed.y - c.cy)
    ensures OnCircle(seed, c, env).Degenerate? <==> SeedRadius(seed, c, env) < env.epsilon
    ensures OnCircle(seed, c, env).Placed? ==> OnRay(OnCircle(seed, c, env).at, seed, c)
  {
    if SeedRadius(seed, c, env) >= env.epsilon {
      OnCirclePlaced(seed, c, SeedRadius(seed, c, env), OnCircle(seed, c, env).at);
    }
  }

  /** p lies on the circle c, on the line through the centre and the seed
      and, for a non-negative radius, on the seed's side of the centre. */
  predicate OnRay(p: Pt, seed: Pt, c: Circ) {
    && OnCircumference(p, c)
    && (p.x - c.cx) * (seed.y - c.cy) == (p.y - c.cy) * (seed.x - c.cx)
    && (c.r >= 0.0 ==> (p.x - c.cx) * (seed.x - c.cx) + (p.y - c.cy) * (seed.y - c.cy) >= 0.0)
  }

  /** The placed point of on_circle, for a seed at distance d > 0 from the
      centre. */
  lemma OnCirclePlaced(seed: Pt, c: Circ, d: real, p: Pt)
    requires d > 0.0 && Sq(d) == Sq(seed.x - c.cx) + Sq(seed.y - c.cy)
    requires p == Pt(c.cx + Quot((seed.x - c.cx) * c.r, d), c.cy + Quot((seed.y - c.cy) * c.r, d))
    ensures OnRay(p, seed, c)
  {
    assert (p.x - c.cx) * d == Quot((seed.x - c.cx) * c.r, d) * d;
    assert (p.y - c.cy) * d == Quot((seed.y - c.cy) * c.r, d) * d;
    RadialScaling(seed.x - c.cx, seed.y - c.cy, c.r, d, p.x - c.cx, p.y - c.cy);
  }

  /** A point already on a circle of radius at least EPSILON is a fixed
      point of on_circle. */
  lemma OnCircleFixedPoint(p: Pt, c: Circ, env: Env)
    requires ValidEnv(env)
    requires c.r >= env.epsilon
    requires OnCircumference(p, c)
    ensures OnCircle(p, c, env) == Placed(p)
  {
    SqrtOfSquare(env, c.r);
    assert Quot((p.x - c.cx) * c.r, c.r) == p.x - c.cx;
    assert Quot((p.y - c.cy) * c.r, c.r) == p.y - c.cy;
  }

  /** A vector (u, w) with (u, w) * d == (dx, dy) * r, where d is the length
      of (dx, dy), has squared length r^2, is parallel to (dx, dy), and
      points the same way when r >= 0. */
  lemma RadialScaling(dx: real, dy: real, r: real, d: real, u: real, w: real)
    requires d > 0.0 && Sq(d) == Sq(dx) + Sq(dy)
    requires u * d == dx * r && w * d == dy * r
    ensures Sq(u) + Sq(w) == Sq(r)
    ensures u * dy == w * dx
    ensures r >= 0.0 ==> u * dx + w * dy >= 0.0
  {
    RadialLength(dx, dy, r, d, u, w);
    RadialParallel(dx, dy, r, d, u, w);
    if r >= 0.0 {
      RadialSameWay(dx, dy, r, d, u, w);
    }
  }

  lemma RadialLength(dx: real, dy: real, r: real, d: real, u: real, w: real)
    requires d > 0.0 && Sq(d) == Sq(dx) + Sq(dy)
    requires u * d == dx * r && w * d == dy * r
    ensures Sq(u) + Sq(w) == Sq(r)
  {
    PositiveProduct(d, d);
    calc {
      (u * u + w * w) * (d * d);
      (u * d) * (u * d) + (w * d) * (w * d);
      (dx * r) * (dx * r) + (dy * r) * (dy * r);
      (r * r) * (dx * dx + dy * dy);
      (r * r) * (d * d);
    }
    Cancel((u * u + w * w) * d, (r * r) * d, d);
    Cancel(u * u + w * w, r * r, d);
  }

  lemma RadialParallel(dx: real, dy: real, r: real, d: real, u: real, w: real)
    requires d > 0.0
    requires u * d == dx * r && w * d == dy * r
    ensures u * dy == w * dx
  {
    assert u * dy * d == w * dx * d;
    Cancel(u * dy, w * dx, d);
  }

  lemma RadialSameWay(dx: real, dy: real, r: real, d: real, u: real, w: real)
    requires d > 0.0 && r >= 0.0
    requires u * d == dx * r && w * d == dy * r
    ensures u * dx + w * dy >= 0.0
  {
    assert (u * dx + w * dy) * d == r * (dx * dx + dy * dy);
    assert r * (dx * dx + dy * dy) >= 0.0;
    NonNegativeQuotient(u * dx + w * dy, r * (dx * dx + dy * dy), d);
  }

  lemma NonNegativeQuotient(q: real, n: real, d: real)
    requires d > 0.0 && n >= 0.0 && q * d == n
    ensures q >= 0.0
  {
    if q < 0.0 {
      PositiveProduct(-q, d);
    }
  }

  /** point_point_midpoint: the mean of the two parent points. */
  function Midpoint(p1: Pt, p2: Pt): (r: Placement)
    ensures r.Placed?
    ensures r.at.x - p1.x == p2.x - r.at.x && r.at.y - p1.y == p2.y - r.at.y
  {
    Placed(Pt((p1.x + p2.x) / 2.0, (p1.y + p2.y) / 2.0))
  }

  /** The determinant a1*b2 - b1*a2 checked by line_line_intersection. */
  function Det(l1: Line, l2: Line): real {
    l1.a * l2.b - l1.b * l2.a
  }

  /** line_line_intersection: Cramer's rule, refused when the determinant is
      within EPSILON of zero (parallel or coincident lines). */
  function LineLine(l1: Line, l2: Line, env: Env): Placement {
    var delta := Det(l1, l2);
    if delta < env.epsilon && delta > -env.epsilon then Degenerate
    else Placed(Pt(Quot(DeltaX(l1, l2), delta), Quot(DeltaY(l1, l2), delta)))
  }

  /** The numerators delta_x and delta_y of Cramer's rule. */
  function DeltaX(l1: Line, l2: Line): real { - l1.c * l2.b + l1.b * l2.c }

  function DeltaY(l1: Line, l2: Line): real { - l1.a * l2.c + l1.c * l2.a }

  /** line_line_intersection is degenerate exactly when |a1*b2 - b1*a2| is
      below EPSILON; otherwise the point lies on both parent lines. */
  lemma LineLineSpec(l1: Line, l2: Line, env: Env)
    requires env.epsilon > 0.0
    ensures LineLine(l1, l2, env).Degenerate? <==> -env.epsilon < Det(l1, l2) < env.epsilon
    ensures LineLine(l1, l2, env).Placed? ==>
      Incident(LineLine(l1, l2, env).at, l1) && Incident(LineLine(l1, l2, env).at, l2)
  {
    var delta := Det(l1, l2);
    if LineLine(l1, l2, env).Placed? {
      var x, y := LineLine(l1, l2, env).at.x, LineLine(l1, l2, env).at.y;
      CramerSolves(l1, l2, x, y);
    }
  }

  lemma CramerSolves(l1: Line, l2: Line, x: real, y: real)
    requires Det(l1, l2) != 0.0
    requires x * Det(l1, l2) == - l1.c * l2.b + l1.b * l2.c
    requires y * Det(l1, l2) == - l1.a * l2.c + l1.c * l2.a
    ensures Incident(Pt(x, y), l1) && Incident(Pt(x, y), l2)
  {
    var delta := Det(l1, l2);
    var dx := - l1.c * l2.b + l1.b * l2.c;
    var dy := - l1.a * l2.c + l1.c * l2.a;
    assert (l1.a * x + l1.b * y + l1.c) * delta == l1.a * dx + l1.b * dy + l1.c * delta;
    assert l1.a * dx + l1.b * dy + l1.c * delta == 0.0;
    Cancel(l1.a * x + l1.b * y + l1.c, 0.0, delta);
    assert (l2.a * x + l2.b * y + l2.c) * delta == l2.a * dx + l2.b * dy + l2.c * delta;
    assert l2.a * dx + l2.b * dy + l2.c * delta == 0.0;
    Cancel(l2.a * x + l2.b * y + l2.c, 0.0, delta);
  }

  /** Distance from a circle's centre to its projection on a line, as the
      line-circle formulas compute it. */
  function CentreDistance(l: Line, c: Circ, env: Env): real {
    env.sqrt(Dist2(Foot(Center(c), l), Center(c)))
  }

  /** The half-chord to_shift: r^2 - dist^2, clamped at zero, then rooted. */
  function HalfChord(l: Line, c: Circ, env: Env): (s: real)
    ensures ValidEnv(env) ==> s >= 0.0
  {
    var dist := CentreDistance(l, c, env);
    var toShift := Sq(c.r) - Sq(dist);
    env.sqrt(if toShift < 0.0 then 0.0 else toShift)
  }

  /** line_circle_first_intersection (second = false) and
      line_circle_second_intersection (second = true): from the projection
      of the centre onto the line, shift by the half-chord along (a, b)
      normalised, with a plus sign for the first and a minus sign for the
      second. The second also refuses a half-chord below EPSILON. */
  function LineCircle(l: Line, c: Circ, env: Env, second: bool): Placement {
    if !NoNormal(l) && CentreDistance(l, c, env) <= c.r + env.epsilon then
      var toShift := HalfChord(l, c, env);
      if second && toShift < env.epsilon then Degenerate
      else Placed(ChordEnd(Foot(Center(c), l), toShift, l, env, second))
    else Degenerate
  }

  /** A line with a = b = 0. The line-circle formulas divide by a^2 + b^2,
      which makes t and then dist NaN, so their test dist <= r + EPSILON
      fails and they refuse. */
  predicate NoNormal(l: Line) {
    l.a * l.a + l.b * l.b == 0.0
  }

  /** The projected centre f shifted by to_shift along the normal (a, b)
      normalised: forwards for the first intersection, backwards for the
      second. */
  function ChordEnd(f: Pt, toShift: real, l: Line, env: Env, second: bool): Pt {
    var normalize := env.sqrt(Sq(l.a) + Sq(l.b));
    var dx, dy := Quot(toShift * l.a, normalize), Quot(toShift * l.b, normalize);
    if second then Pt(f.x - dx, f.y - dy) else Pt(f.x + dx, f.y + dy)
  }


  /** What the two line-circle variants share and where they differ: both
      fail for a line without a normal and when the centre is more than
      r + EPSILON from the line, the second also when the half-chord is below
      EPSILON; when the first succeeds the projected centre lies on the line,
      and when both succeed the two results are mirror images about it. */
  lemma LineCircleSpec(l: Line, c: Circ, env: Env)
    ensures LineCircle(l, c, env, false).Degenerate?
            <==> NoNormal(l) || CentreDistance(l, c, env) > c.r + env.epsilon
    ensures LineCircle(l, c, env, true).Degenerate?
            <==> NoNormal(l) || CentreDistance(l, c, env) > c.r + env.epsilon
                 || HalfChord(l, c, env) < env.epsilon
    ensures LineCircle(l, c, env, false).Placed? ==> Incident(Foot(Center(c), l), l)
    ensures LineCircle(l, c, env, true).Placed? ==> LineCircle(l, c, env, false).Placed?
    ensures LineCircle(l, c, env, true).Placed? ==>
      var f := Foot(Center(c), l);
      && LineCircle(l, c, env, false).at.x + LineCircle(l, c, env, true).at.x == 2.0 * f.x
      && LineCircle(l, c, env, false).at.y + LineCircle(l, c, env, true).at.y == 2.0 * f.y
  {
    FootSpec(Center(c), l);
  }

  /** The band test of the circle-circle formulas: the centres' distance
      must lie within EPSILON of |R - r|. */
  function CentresDistance(c1: Circ, c2: Circ, env: Env): real {
    env.sqrt(Sq(c1.cx - c2.cx) + Sq(c1.cy - c2.cy))
  }

  predicate OutOfBand(c1: Circ, c2: Circ, env: Env) {
    var dist := CentresDistance(c1, c2, env);
    dist < Abs(c1.r - c2.r) - env.epsilon || dist > Abs(c1.r - c2.r) + env.epsilon
  }

  /** shift_horizontal: the distance from the larger centre to the chord. */
  function ShiftH(big: Circ, small: Circ, dist: real): real {
    (dist + Quot(big.r * big.r - small.r * small.r, dist)) / 2.0
  }

  /** The point after the horizontal shift along the centre axis, with the
      larger circle first and result_y seeded from circle1[0] as written. */
  function AxisPoint(big: Circ, small: Circ, dist: real): Pt {
    var shiftH := ShiftH(big, small, dist);
    Pt(big.cx + Quot((small.cx - big.cx) * shiftH, dist),
       big.cx + Quot((small.cy - big.cy) * shiftH, dist))
  }

  /** The result point: the axis point moved by shift_vertical across the
      centre axis. */
  function Crossing(big: Circ, small: Circ, dist: real, shiftV: real): Pt {
    var a := AxisPoint(big, small, dist);
    Pt(a.x + Quot((small.cy - big.cy) * shiftV, dist),
       a.y - Quot((small.cx - big.cx) * shiftV, dist))
  }

  /** Opposite vertical shifts give points mirrored about the axis point. */
  lemma CrossingMirror(big: Circ, small: Circ, dist: real, v: real)
    requires dist != 0.0
    ensures var a := AxisPoint(big, small, dist);
      && Crossing(big, small, dist, v).x + Crossing(big, small, dist, -v).x == 2.0 * a.x
      && Crossing(big, small, dist, v).y + Crossing(big, small, dist, -v).y == 2.0 * a.y
  {
    assert (small.cy - big.cy) * -v == -((small.cy - big.cy) * v);
    assert (small.cx - big.cx) * -v == -((small.cx - big.cx) * v);
    assert Quot(-((small.cy - big.cy) * v), dist) == -Quot((small.cy - big.cy) * v, dist);
    assert Quot(-((small.cx - big.cx) * v), dist) == -Quot((small.cx - big.cx) * v, dist);
  }

  /** The larger of the two parent circles (circle1 after the swap loop). */
  function Larger(c1: Circ, c2: Circ): Circ { if c1.r < c2.r then c2 else c1 }

  /** The other parent circle (circle2 after the swap loop). */
  function Smaller(c1: Circ, c2: Circ): Circ { if c1.r < c2.r then c1 else c2 }

  /** The square root taken for shift_vertical. */
  function VerticalRoot(big: Circ, small: Circ, dist: real, env: Env): real {
    var shiftH := ShiftH(big, small, dist);
    env.sqrt(Sq(big.r) - Sq(shiftH))
  }

  /** circle_circle_first_intersection (second = false) and
      circle_circle_second_intersection (second = true), reproducing the
      source's arithmetic literally. */
  function CircleCircle(c1: Circ, c2: Circ, env: Env, second: bool): Placement {
    if OutOfBand(c1, c2, env) then Degenerate
    else
      var big, small, dist := Larger(c1, c2), Smaller(c1, c2), CentresDistance(c1, c2, env);
      var root := VerticalRoot(big, small, dist, env);
      Placed(Crossing(big, small, dist, if second then -root else root))
  }

  /** The two circle-circle variants fail on exactly the same configurations
      (outside the band) and otherwise are mirror images about the axis
      point: they differ only in the sign of shift_vertical. With coincident
      centres (dist = 0, which the band lets through when |R - r| is within
      EPSILON of 0) the source divides by zero, so the mirror is stated for
      distinct centres. */
  lemma CircleCircleSpec(c1: Circ, c2: Circ, env: Env)
    ensures CircleCircle(c1, c2, env, false).Degenerate? <==> OutOfBand(c1, c2, env)
    ensures CircleCircle(c1, c2, env, true).Degenerate? <==> OutOfBand(c1, c2, env)
    ensures !OutOfBand(c1, c2, env) && CentresDistance(c1, c2, env) != 0.0 ==>
      var a := AxisPoint(Larger(c1, c2), Smaller(c1, c2), CentresDistance(c1, c2, env));
      && CircleCircle(c1, c2, env, false).at.x + CircleCircle(c1, c2, env, true).at.x == 2.0 * a.x
      && CircleCircle(c1, c2, env, false).at.y + CircleCircle(c1, c2, env, true).at.y == 2.0 * a.y
  {
    if !OutOfBand(c1, c2, env) && CentresDistance(c1, c2, env) != 0.0 {
      var big, small, dist := Larger(c1, c2), Smaller(c1, c2), CentresDistance(c1, c2, env);
      CrossingMirror(big, small, dist, VerticalRoot(big, small, dist, env));
    }
  }

  /** Because the larger circle is always taken first, the parents' order
      matters only when the radii are equal. */
  lemma CircleCircleSymmetric(c1: Circ, c2: Circ, env: Env, second: bool)
    requires c1.r != c2.r
    ensures CircleCircle(c1, c2, env, second) == CircleCircle(c2, c1, env, second)
  {
    assert Sq(c1.cx - c2.cx) == Sq(c2.cx - c1.cx);
    assert Sq(c1.cy - c2.cy) == Sq(c2.cy - c1.cy);
    assert CentresDistance(c1, c2, env) == CentresDistance(c2, c1, env);
    assert Abs(c1.r - c2.r) == Abs(c2.r - c1.r);
    assert OutOfBand(c1, c2, env) == OutOfBand(c2, c1, env);
    assert Larger(c1, c2) == Larger(c2, c1) && Smaller(c1, c2) == Smaller(c2, c1);

  }
}
