/** The circle construction formulas of CircleNode.cpp, as functions on the
    parents' payloads. The arithmetic is the source's, over exact reals. */
module CircleFormulas {
  import opened Geometry

  /** Outcome of a circle formula: a circle together with the validity the
      formula assigns, or collinear input (three-point circle only), in
      which case the node becomes ill-defined and keeps its payload. */
  datatype Drawing = Drawn(circle: Circ, wellDefined: bool) | Collinear

  /** The determinant `distance` of point_point_point_through: twice the
      signed area of the triangle p1 p2 p3. */
  function Det3(p1: Pt, p2: Pt, p3: Pt): real {
    Det(p1.x, p1.y, p2.x, p2.y, p3.x, p3.y)
  }

  /** Denominator of center_y, over the coordinates x1, y1, x2, y2, x3, y3
      of the three parents as the source names them. */
  function DenomY(x1: real, y1: real, x2: real, y2: real, x3: real, y3: real): real {
    2.0 * ((y3 - y1) * (x1 - x2) - (y2 - y1) * (x1 - x3))
  }

  /** Denominator of center_x. */
  function DenomX(x1: real, y1: real, x2: real, y2: real, x3: real, y3: real): real {
    2.0 * ((x3 - x1) * (y1 - y2) - (x2 - x1) * (y1 - y3))
  }

  /** Numerator of center_y, with the squared-coordinate differences
      sx13, sy13, sx21, sy21 as written. */
  function NumerY(x1: real, y1: real, x2: real, y2: real, x3: real, y3: real): real {
    var sx13, sx21 := x1 * x1 - x3 * x3, x2 * x2 - x1 * x1;
    var sy13, sy21 := y1 * y1 - y3 * y3, y2 * y2 - y1 * y1;
    var x12, x13 := x1 - x2, x1 - x3;
    (-1.0) * (sx13 * x12 + sy13 * x12 + sx21 * x13 + sy21 * x13)
  }

  /** Numerator of center_x. */
  function NumerX(x1: real, y1: real, x2: real, y2: real, x3: real, y3: real): real {
    var sx13, sx21 := x1 * x1 - x3 * x3, x2 * x2 - x1 * x1;
    var sy13, sy21 := y1 * y1 - y3 * y3, y2 * y2 - y1 * y1;
    var y12, y13 := y1 - y2, y1 - y3;
    (-1.0) * (sx13 * y12 + sy13 * y12 + sx21 * y13 + sy21 * y13)
  }

  /** The determinant over the six coordinates. */
  function Det(x1: real, y1: real, x2: real, y2: real, x3: real, y3: real): real {
    x3 * (y1 - y2) + y3 * (x2 - x1) - (x1 * (y1 - y2) + y1 * (x2 - x1))
  }

  /** The computed centre of point_point_point_through. */
  function Circumcentre(p1: Pt, p2: Pt, p3: Pt): Pt {
    var x1, y1, x2, y2, x3, y3 := p1.x, p1.y, p2.x, p2.y, p3.x, p3.y;
    Pt(Quot(NumerX(x1, y1, x2, y2, x3, y3), DenomX(x1, y1, x2, y2, x3, y3)),
       Quot(NumerY(x1, y1, x2, y2, x3, y3), DenomY(x1, y1, x2, y2, x3, y3)))
  }

  /** point_point_point_through: refused when |distance| is below EPSILON;
      otherwise the circumcentre and its distance to p1. */
  function ThroughThree(p1: Pt, p2: Pt, p3: Pt, env: Env): Drawing {
    var distance := Det3(p1, p2, p3);
    if distance < env.epsilon && distance > -env.epsilon then Collinear
    else
      var c := Circumcentre(p1, p2, p3);
      Drawn(Circ(c.x, c.y, env.sqrt(Dist2(c, p1))), true)
  }

  /** Both denominators are the determinant up to sign and the factor 2, so
      the guard on `distance` also guards the two divisions. */
  lemma DenominatorsAreDet(x1: real, y1: real, x2: real, y2: real, x3: real, y3: real)
    ensures DenomX(x1, y1, x2, y2, x3, y3) == 2.0 * Det(x1, y1, x2, y2, x3, y3)
    ensures DenomY(x1, y1, x2, y2, x3, y3) == -2.0 * Det(x1, y1, x2, y2, x3, y3)
  {
  }

  /** The computed centre is equidistant from the three points whenever the
      determinant is nonzero: the formula is a correct circumcentre. */
  lemma CircumcentreEquidistant(p1: Pt, p2: Pt, p3: Pt)
    requires Det3(p1, p2, p3) != 0.0
    ensures Dist2(Circumcentre(p1, p2, p3), p1) == Dist2(Circumcentre(p1, p2, p3), p2)
    ensures Dist2(Circumcentre(p1, p2, p3), p1) == Dist2(Circumcentre(p1, p2, p3), p3)
  {
    CentreScaled(p1, p2, p3);
    ScaledCentreEquidistant(Circumcentre(p1, p2, p3), p1, p2, p3);
  }

  /** The two centre equations, scaled by the denominators: the centre
      (cx, cy) times each denominator gives the numerator. */
  predicate ScaledAt(cx: real, cy: real, x1: real, y1: real, x2: real, y2: real, x3: real, y3: real) {
    && cx * (2.0 * Det(x1, y1, x2, y2, x3, y3)) == NumerX(x1, y1, x2, y2, x3, y3)
    && cy * (-2.0 * Det(x1, y1, x2, y2, x3, y3)) == NumerY(x1, y1, x2, y2, x3, y3)
  }

  /** ScaledAt for the centre c of the points p1, p2, p3. */
  predicate ScaledCentre(c: Pt, p1: Pt, p2: Pt, p3: Pt) {
    ScaledAt(c.x, c.y, p1.x, p1.y, p2.x, p2.y, p3.x, p3.y)
  }

  /** Any point satisfying the two scaled centre equations is equidistant
      from the three points. */
  lemma ScaledCentreEquidistant(c: Pt, p1: Pt, p2: Pt, p3: Pt)
    requires Det3(p1, p2, p3) != 0.0
    requires ScaledCentre(c, p1, p2, p3)
    ensures Dist2(c, p1) == Dist2(c, p2) && Dist2(c, p1) == Dist2(c, p3)
  {
    OnBisector12(c.x, c.y, p1.x, p1.y, p2.x, p2.y, p3.x, p3.y);
    OnBisector13(c.x, c.y, p1.x, p1.y, p2.x, p2.y, p3.x, p3.y);
  }

  /** A point whose coordinates, scaled by the denominators, give the
      numerators lies on the perpendicular bisector of the first two points. */
  lemma OnBisector12(cx: real, cy: real, x1: real, y1: real, x2: real, y2: real, x3: real, y3: real)
    requires Det(x1, y1, x2, y2, x3, y3) != 0.0
    requires ScaledAt(cx, cy, x1, y1, x2, y2, x3, y3)
    ensures Sq(cx - x1) + Sq(cy - y1) == Sq(cx - x2) + Sq(cy - y2)
  {
    NumeratorsSolve12(x1, y1, x2, y2, x3, y3);
    BisectorEquation(cx, cy, x1, y1, x2, y2, Det(x1, y1, x2, y2, x3, y3),
      NumerX(x1, y1, x2, y2, x3, y3), NumerY(x1, y1, x2, y2, x3, y3));
  }

  /** The same for the first and the third point. */
  lemma OnBisector13(cx: real, cy: real, x1: real, y1: real, x2: real, y2: real, x3: real, y3: real)
    requires Det(x1, y1, x2, y2, x3, y3) != 0.0
    requires ScaledAt(cx, cy, x1, y1, x2, y2, x3, y3)
    ensures Sq(cx - x1) + Sq(cy - y1) == Sq(cx - x3) + Sq(cy - y3)
  {
    NumeratorsSolve13(x1, y1, x2, y2, x3, y3);
    BisectorEquation(cx, cy, x1, y1, x3, y3, Det(x1, y1, x2, y2, x3, y3),
      NumerX(x1, y1, x2, y2, x3, y3), NumerY(x1, y1, x2, y2, x3, y3));
  }

  /** The centre's coordinates times their denominators give back the
      numerators. */
  lemma CentreScaled(p1: Pt, p2: Pt, p3: Pt)
    requires Det3(p1, p2, p3) != 0.0
    ensures ScaledCentre(Circumcentre(p1, p2, p3), p1, p2, p3)
  {
    var x1, y1, x2, y2, x3, y3 := p1.x, p1.y, p2.x, p2.y, p3.x, p3.y;
    var det := Det(x1, y1, x2, y2, x3, y3);
    DenominatorsAreDet(x1, y1, x2, y2, x3, y3);
    QuotBy(NumerX(x1, y1, x2, y2, x3, y3), DenomX(x1, y1, x2, y2, x3, y3), 2.0 * det);
    QuotBy(NumerY(x1, y1, x2, y2, x3, y3), DenomY(x1, y1, x2, y2, x3, y3), -2.0 * det);
  }

  /** The numerators solve the perpendicular-bisector equation of the first
      two points, scaled by the determinant. */
  lemma NumeratorsSolve12(x1: real, y1: real, x2: real, y2: real, x3: real, y3: real)
    ensures NumerX(x1, y1, x2, y2, x3, y3) * (x2 - x1) - NumerY(x1, y1, x2, y2, x3, y3) * (y2 - y1)
         == ((x2 * x2 + y2 * y2) - (x1 * x1 + y1 * y1)) * Det(x1, y1, x2, y2, x3, y3)
  {
    NumeratorsGrouped(x1, y1, x2, y2, x3, y3);
    BisectorAlgebra(NumerX(x1, y1, x2, y2, x3, y3), NumerY(x1, y1, x2, y2, x3, y3),
      Det(x1, y1, x2, y2, x3, y3), x1, y1, x2, y2, x3, y3);
  }

  /** The same for the first and the third point. */
  lemma NumeratorsSolve13(x1: real, y1: real, x2: real, y2: real, x3: real, y3: real)
    ensures NumerX(x1, y1, x2, y2, x3, y3) * (x3 - x1) - NumerY(x1, y1, x2, y2, x3, y3) * (y3 - y1)
         == ((x3 * x3 + y3 * y3) - (x1 * x1 + y1 * y1)) * Det(x1, y1, x2, y2, x3, y3)
  {
    NumeratorsGrouped(x1, y1, x2, y2, x3, y3);
    BisectorAlgebra(NumerX(x1, y1, x2, y2, x3, y3), NumerY(x1, y1, x2, y2, x3, y3),
      Det(x1, y1, x2, y2, x3, y3), x1, y1, x2, y2, x3, y3);
  }

  /** The numerators with the squared-coordinate differences of each pair
      of points gathered into one term, a = |p1|^2 - |p3|^2 and
      b = |p2|^2 - |p1|^2, and the determinant factored likewise. */
  lemma NumeratorsGrouped(x1: real, y1: real, x2: real, y2: real, x3: real, y3: real)
    ensures NumerX(x1, y1, x2, y2, x3, y3)
         == -(((x1 * x1 - x3 * x3) + (y1 * y1 - y3 * y3)) * (y1 - y2)
              + ((x2 * x2 - x1 * x1) + (y2 * y2 - y1 * y1)) * (y1 - y3))
    ensures NumerY(x1, y1, x2, y2, x3, y3)
         == -(((x1 * x1 - x3 * x3) + (y1 * y1 - y3 * y3)) * (x1 - x2)
              + ((x2 * x2 - x1 * x1) + (y2 * y2 - y1 * y1)) * (x1 - x3))
    ensures Det(x1, y1, x2, y2, x3, y3) == (x1 - x2) * (y1 - y3) - (x1 - x3) * (y1 - y2)
  {
  }

  lemma QuotBy(n: real, d: real, k: real)
    requires d == k && k != 0.0
    ensures Quot(n, d) * k == n
  {
  }

  /** The polynomial identity behind the circumcentre: the grouped
      numerators nx, ny and determinant det satisfy both bisector
      equations. */
  lemma BisectorAlgebra(nx: real, ny: real, det: real,
                        x1: real, y1: real, x2: real, y2: real, x3: real, y3: real)
    requires nx == -(((x1 * x1 - x3 * x3) + (y1 * y1 - y3 * y3)) * (y1 - y2)
                     + ((x2 * x2 - x1 * x1) + (y2 * y2 - y1 * y1)) * (y1 - y3))
    requires ny == -(((x1 * x1 - x3 * x3) + (y1 * y1 - y3 * y3)) * (x1 - x2)
                     + ((x2 * x2 - x1 * x1) + (y2 * y2 - y1 * y1)) * (x1 - x3))
    requires det == (x1 - x2) * (y1 - y3) - (x1 - x3) * (y1 - y2)
    ensures nx * (x2 - x1) - ny * (y2 - y1) == ((x2 * x2 + y2 * y2) - (x1 * x1 + y1 * y1)) * det
    ensures nx * (x3 - x1) - ny * (y3 - y1) == ((x3 * x3 + y3 * y3) - (x1 * x1 + y1 * y1)) * det
  {
    GroupedIdentity((x1 * x1 - x3 * x3) + (y1 * y1 - y3 * y3), (x2 * x2 - x1 * x1) + (y2 * y2 - y1 * y1),
      x1 - x2, x1 - x3, y1 - y2, y1 - y3, nx, ny, det);
  }

  /** The same identity over the grouped terms a, b and the coordinate
      differences. */
  lemma GroupedIdentity(a: real, b: real, x12: real, x13: real, y12: real, y13: real,
                        nx: real, ny: real, det: real)
    requires nx == -(a * y12 + b * y13)
    requires ny == -(a * x12 + b * x13)
    requires det == x12 * y13 - x13 * y12
    ensures nx * (-x12) - ny * (-y12) == b * det
    ensures nx * (-x13) - ny * (-y13) == -a * det
  {
  }

  /** From the scaled bisector equation to equal squared distances. */
  lemma BisectorEquation(cx: real, cy: real, px: real, py: real, qx: real, qy: real,
                         det: real, nx: real, ny: real)
    requires det != 0.0
    requires cx * (2.0 * det) == nx && cy * (-2.0 * det) == ny
    requires nx * (qx - px) - ny * (qy - py) == ((qx * qx + qy * qy) - (px * px + py * py)) * det
    ensures Sq(cx - px) + Sq(cy - py) == Sq(cx - qx) + Sq(cy - qy)
  {
    var lhs := 2.0 * cx * (qx - px) + 2.0 * cy * (qy - py);
    assert lhs * det == nx * (qx - px) - ny * (qy - py);
    Cancel(lhs, (qx * qx + qy * qy) - (px * px + py * py), det);
  }

  /** point_point_point_through is degenerate exactly when |distance| is
      below EPSILON; otherwise the circle passes through all three points
      and its radius is non-negative. */
  lemma ThroughThreeSpec(p1: Pt, p2: Pt, p3: Pt, env: Env)
    requires ValidEnv(env)
    ensures ThroughThree(p1, p2, p3, env).Collinear?
            <==> -env.epsilon < Det3(p1, p2, p3) < env.epsilon
    ensures ThroughThree(p1, p2, p3, env).Drawn? ==>
      var c := ThroughThree(p1, p2, p3, env).circle;
      && ThroughThree(p1, p2, p3, env).wellDefined
      && c.r >= 0.0
      && OnCircumference(p1, c)
      && OnCircumference(p2, c)
      && OnCircumference(p3, c)
  {
    SqrtSquared(env, Dist2(Circumcentre(p1, p2, p3), p1));
    ThroughThreeRoot(p1, p2, p3, env);
  }

  /** ThroughThreeSpec for a square root known to be exact at the one
      argument the formula takes it of. */
  lemma ThroughThreeRoot(p1: Pt, p2: Pt, p3: Pt, env: Env)
    requires env.epsilon > 0.0
    requires var r := env.sqrt(Dist2(Circumcentre(p1, p2, p3), p1));
      r >= 0.0 && Sq(r) == Dist2(Circumcentre(p1, p2, p3), p1)
    ensures ThroughThree(p1, p2, p3, env).Collinear?
            <==> -env.epsilon < Det3(p1, p2, p3) < env.epsilon
    ensures ThroughThree(p1, p2, p3, env).Drawn? ==>
      var c := ThroughThree(p1, p2, p3, env).circle;
      && ThroughThree(p1, p2, p3, env).wellDefined
      && c.r >= 0.0
      && OnCircumference(p1, c)
      && OnCircumference(p2, c)
      && OnCircumference(p3, c)
  {
    var det := Det3(p1, p2, p3);
    if !(det < env.epsilon && det > -env.epsilon) {
      CircumcentreEquidistant(p1, p2, p3);
      DrawnThrough(Circumcentre(p1, p2, p3), p1, p2, p3, env.sqrt(Dist2(Circumcentre(p1, p2, p3), p1)));
    }
  }

  /** The circle about an equidistant centre with radius |c p1| passes
      through all three points. */
  lemma DrawnThrough(c: Pt, p1: Pt, p2: Pt, p3: Pt, r: real)
    requires Dist2(c, p1) == Dist2(c, p2) && Dist2(c, p1) == Dist2(c, p3)
    requires Sq(r) == Dist2(c, p1)
    ensures OnCircumference(p1, Circ(c.x, c.y, r))
    ensures OnCircumference(p2, Circ(c.x, c.y, r))
    ensures OnCircumference(p3, Circ(c.x, c.y, r))
  {
    OnCircleOfRadius(p1, c, r);
    OnCircleOfRadius(p2, c, r);
    OnCircleOfRadius(p3, c, r);
  }

  /** A point at squared distance r*r from c lies on the circle about c of
      radius r. */
  lemma OnCircleOfRadius(p: Pt, c: Pt, r: real)
    requires Dist2(c, p) == Sq(r)
    ensures OnCircumference(p, Circ(c.x, c.y, r))
  {
    DistanceSymmetric(c, p);
  }

  /** point_point_center_through: centre p1, radius |p1 p2|, well-defined
      only when the radius exceeds EPSILON. */
  function CenterThrough(p1: Pt, p2: Pt, env: Env): Drawing {
    var radius := env.sqrt(Sq(p2.x - p1.x) + Sq(p2.y - p1.y));
    Drawn(Circ(p1.x, p1.y, radius), radius > env.epsilon)
  }

  /** The centre-and-point circle is centred on p1, passes through p2, and is
      well-defined exactly when |p1 p2| exceeds EPSILON. */
  lemma CenterThroughSpec(p1: Pt, p2: Pt, env: Env)
    requires ValidEnv(env)
    ensures var d := CenterThrough(p1, p2, env);
      && d.Drawn?
      && Center(d.circle) == p1
      && d.circle.r >= 0.0
      && OnCircumference(p2, d.circle)
      && (d.wellDefined <==> d.circle.r > env.epsilon)
  {
    assert Sq(p2.x - p1.x) + Sq(p2.y - p1.y) == Dist2(p2, p1);
  }

  /** point_point_point_center_radius as written: centre p1, and a radius
      whose y-term multiplies by (p3.y - p3.y). */
  function CenterRadius(p1: Pt, p2: Pt, p3: Pt, env: Env): Drawing {
    var radius := env.sqrt(Sq(p3.x - p2.x) + (p3.y - p2.y) * (p3.y - p3.y));
    Drawn(Circ(p1.x, p1.y, radius), radius > env.epsilon)
  }

  /** Because of the (p3.y - p3.y) factor the radius is |p3.x - p2.x|; the
      circle is centred on p1 and well-defined exactly when that exceeds
      EPSILON. */
  lemma CenterRadiusSpec(p1: Pt, p2: Pt, p3: Pt, env: Env)
    requires ValidEnv(env)
    ensures var d := CenterRadius(p1, p2, p3, env);
      && d.Drawn?
      && Center(d.circle) == p1
      && d.circle.r == Abs(p3.x - p2.x)
      && (d.wellDefined <==> Abs(p3.x - p2.x) > env.epsilon)
  {
    assert (p3.y - p2.y) * (p3.y - p3.y) == 0.0;
    SqrtOfSquare(env, p3.x - p2.x);
  }
}
