/** What one update() of a node computes, as a function of the node's own
    payload and of its parents' access vectors and validity flags. This is
    the specification the node classes are proved against and the step the
    container's propagation pass replays. */
module Steps {
  import opened Geometry
  import PF = PointFormulas
  import CF = CircleFormulas

  /** The PointType tags. */
  datatype PointType =
    | Independent
    | OnLine
    | OnCircle
    | PointPointMidpoint
    | LineLineIntersection
    | LineCircleFirstIntersection
    | LineCircleSecondIntersection
    | CircleCircleFirstIntersection
    | CircleCircleSecondIntersection

  /** The CircleType tags. */
  datatype CircleType =
    | PointPointCenterThrough
    | PointPointPointThrough
    | PointPointPointCenterRadius

  /** A node's variant and the formula bound at construction; None stands
      for a definition left unset because the constructor did not
      recognise the tag. */
  datatype Kind =
    | PointKind(pointDef: Option<PointType>)
    | CircleKind(circleDef: Option<CircleType>)
    | LineKind(lineDef: Option<LineType>)

  /** What a node shows its children: the access vector ([x, y],
      [a, b, c] or [cx, cy, r]) and the well_defined flag. */
  datatype View = View(data: seq<real>, wellDefined: bool)

  /** Number of entries of the access vector of each variant. */
  function Width(k: Kind): nat {
    match k
    case PointKind(_) => 2
    case CircleKind(_) => 3
    case LineKind(_) => 3
  }

  /** Entry i of an access vector. A formula reading past the end of a
      shorter vector (a point parent read as a line) sees 0, where the
      source reads an uninitialised entry. */
  function Get(s: seq<real>, i: nat): real {
    if i < |s| then s[i] else 0.0
  }

  /** The access vector of parent i, empty when there is no such parent. */
  function ParentData(ps: seq<View>, i: nat): seq<real> {
    if i < |ps| then ps[i].data else []
  }

  function AsPt(d: seq<real>): Pt { Pt(Get(d, 0), Get(d, 1)) }

  /** Parent i read as a point. */
  function ParentPoint(ps: seq<View>, i: nat): Pt { AsPt(ParentData(ps, i)) }

  function AsLine(d: seq<real>): Line { Line(Get(d, 0), Get(d, 1), Get(d, 2)) }

  function AsCirc(d: seq<real>): Circ { Circ(Get(d, 0), Get(d, 1), Get(d, 2)) }

  predicate AllWellDefined(ps: seq<View>) {
    forall i | 0 <= i < |ps| :: ps[i].wellDefined
  }

  /** The flag update() computes before running the formula: the AND of
      the parents' flags, accumulated left to right. */
  function Conjunction(ps: seq<View>): (b: bool)
    ensures b <==> AllWellDefined(ps)
  {
    if ps == [] then true else Conjunction(ps[..|ps| - 1]) && ps[|ps| - 1].wellDefined
  }

  /** The formula bound to a point tag, applied to the node's seed and its
      parents' access vectors. */
  function PointFormula(t: PointType, seed: Pt, d0: seq<real>, d1: seq<real>, env: Env): PF.Placement {
    match t
    case Independent => PF.Independent(seed)
    case OnLine => PF.OnLine(seed, AsLine(d0))
    case OnCircle => PF.OnCircle(seed, AsCirc(d0), env)
    case PointPointMidpoint => PF.Midpoint(AsPt(d0), AsPt(d1))
    case LineLineIntersection => PF.LineLine(AsLine(d0), AsLine(d1), env)
    case LineCircleFirstIntersection => PF.LineCircle(AsLine(d0), AsCirc(d1), env, false)
    case LineCircleSecondIntersection => PF.LineCircle(AsLine(d0), AsCirc(d1), env, true)
    case CircleCircleFirstIntersection => PF.CircleCircle(AsCirc(d0), AsCirc(d1), env, false)
    case CircleCircleSecondIntersection => PF.CircleCircle(AsCirc(d0), AsCirc(d1), env, true)
  }

  /** The payload after a point formula has run on payload d: the placed
      point with the flag true, or d itself with the flag false. */
  function Place(pl: PF.Placement, d: seq<real>): View {
    match pl
    case Placed(p) => View([p.x, p.y], true)
    case Degenerate => View(d, false)
  }

  /** (this->*definition)() on a point whose parents are all well-defined.
      A node without a definition stays ill-defined. */
  function PointRun(def: Option<PointType>, d: seq<real>, ps: seq<View>, env: Env): View {
    match def
    case None => View(d, false)
    case Some(t) => Place(PointFormula(t, AsPt(d), ParentData(ps, 0), ParentData(ps, 1), env), d)
  }

  /** PointNode::update on payload d: the flag becomes the AND of the
      parents' flags; only if that holds does the formula run, placing the
      point (flag true) or refusing (flag false, coordinates kept). The flag
      the node had before does not matter. */
  function PointStep(def: Option<PointType>, d: seq<real>, ps: seq<View>, env: Env): (r: View)
    ensures r.wellDefined ==> def.Some? && AllWellDefined(ps)
    ensures !AllWellDefined(ps) || def.None? ==> r == View(d, false)
    ensures r.wellDefined ==> |r.data| == 2
  {
    if !Conjunction(ps) then View(d, false) else PointRun(def, d, ps, env)
  }

  /** The formula bound to a circle tag. */
  function CircleFormula(t: CircleType, p1: Pt, p2: Pt, p3: Pt, env: Env): CF.Drawing {
    match t
    case PointPointCenterThrough => CF.CenterThrough(p1, p2, env)
    case PointPointPointThrough => CF.ThroughThree(p1, p2, p3, env)
    case PointPointPointCenterRadius => CF.CenterRadius(p1, p2, p3, env)
  }

  /** The payload after a circle formula has run on payload d. */
  function Draw(dr: CF.Drawing, d: seq<real>): View {
    match dr
    case Drawn(c, wd) => View([c.cx, c.cy, c.r], wd)
    case Collinear => View(d, false)
  }

  /** (this->*definition)() on a circle whose parents are all well-defined. */
  function CircleRun(def: Option<CircleType>, d: seq<real>, ps: seq<View>, env: Env): View {
    match def
    case None => View(d, false)
    case Some(t) => Draw(CircleFormula(t, ParentPoint(ps, 0), ParentPoint(ps, 1), ParentPoint(ps, 2), env), d)
  }

  /** CircleNode::update on payload d. */
  function CircleStep(def: Option<CircleType>, d: seq<real>, ps: seq<View>, env: Env): (r: View)
    ensures r.wellDefined ==> def.Some? && AllWellDefined(ps)
    ensures !AllWellDefined(ps) || def.None? ==> r == View(d, false)
    ensures def.Some? && AllWellDefined(ps) && !CircleFormula(def.value, ParentPoint(ps, 0), ParentPoint(ps, 1), ParentPoint(ps, 2), env).Collinear? ==> |r.data| == 3
  {
    if !Conjunction(ps) then View(d, false) else CircleRun(def, d, ps, env)
  }

  /** The payload after a line formula has run on payload d. */
  function Fit(fit: Option<Line>, d: seq<real>): View {
    match fit
    case Some(l) => View([l.a, l.b, l.c], true)
    case None => View(d, false)
  }

  /** (this->*definition)() on a line whose parents are all well-defined:
      the line formula of the environment on the parents' access vectors. */
  function LineRun(def: Option<LineType>, d: seq<real>, ps: seq<View>, env: Env): View {
    match def
    case None => View(d, false)
    case Some(t) => Fit(env.lineFormula(t, ParentData(ps, 0), ParentData(ps, 1)), d)
  }

  /** LineNode::update on payload d, in the pattern PointNode::update and
      CircleNode::update share; the line formulas themselves are a parameter. */
  function LineStep(def: Option<LineType>, d: seq<real>, ps: seq<View>, env: Env): (r: View)
    ensures r.wellDefined ==> def.Some? && AllWellDefined(ps)
    ensures !AllWellDefined(ps) || def.None? ==> r == View(d, false)
    ensures r.wellDefined ==> |r.data| == 3
  {
    if !Conjunction(ps) then View(d, false) else LineRun(def, d, ps, env)
  }

  /** One update() of a node of any variant on payload d. */
  function Step(k: Kind, d: seq<real>, ps: seq<View>, env: Env): (r: View)
    ensures r.wellDefined ==> AllWellDefined(ps)
    ensures !AllWellDefined(ps) ==> r == View(d, false)
  {
    match k
    case PointKind(def) => PointStep(def, d, ps, env)
    case CircleKind(def) => CircleStep(def, d, ps, env)
    case LineKind(def) => LineStep(def, d, ps, env)
  }

  /** mutate(d): overwrite the payload with the first entries of d, then
      update(). */
  function MutateStep(k: Kind, d: seq<real>, ps: seq<View>, env: Env): View
    requires |d| >= Width(k)
  {
    Step(k, d[..Width(k)], ps, env)
  }

  /** An independent point hands back exactly what it was given and is
      well-defined: mutate followed by access is the identity. */
  lemma IndependentRoundTrip(d: seq<real>, env: Env)
    requires |d| >= 2
    ensures MutateStep(PointKind(Some(Independent)), d, [], env) == View(d[..2], true)
  {
    assert [d[0], d[1]] == d[..2];
  }

  /** With an ill-defined parent, mutate(d) leaves exactly d in the payload
      and the node ill-defined: the formula does not run. */
  lemma MutateWithIllDefinedParent(k: Kind, d: seq<real>, ps: seq<View>, env: Env)
    requires |d| >= Width(k)
    requires exists i :: 0 <= i < |ps| && !ps[i].wellDefined
    ensures MutateStep(k, d, ps, env) == View(d[..Width(k)], false)
  {
  }

  /** update() is idempotent: a second pass over unchanged parents changes
      nothing. The on-circle point needs a radius of at least EPSILON, for
      otherwise the projected point is itself refused as a seed (or, for a
      negative radius, reflected through the centre). */
  lemma UpdateIdempotent(k: Kind, d: seq<real>, ps: seq<View>, env: Env)
    requires ValidEnv(env)
    requires k == PointKind(Some(OnCircle)) ==> AsCirc(ParentData(ps, 0)).r >= env.epsilon
    ensures Step(k, Step(k, d, ps, env).data, ps, env) == Step(k, d, ps, env)
  {
    match k
    case PointKind(def) =>
      var r := PointStep(def, d, ps, env);
      if r.wellDefined {
        var t, seed := def.value, AsPt(d);
        var p := PointFormula(t, seed, ParentData(ps, 0), ParentData(ps, 1), env).at;
        assert AsPt(r.data) == p;
        match t
        case Independent =>
        case OnLine =>
          PF.FootIdempotent(seed, AsLine(ParentData(ps, 0)));
        case OnCircle =>
          OnCircleFixed(seed, AsCirc(ParentData(ps, 0)), env);
        case _ =>
      }
    case CircleKind(def) =>
    case LineKind(def) =>
  }

  /** Without that radius bound update() drifts. With EPSILON = 1, a seed at
      distance 1 from the centre of a circle of radius 1/2 is placed on the
      circle, and the next update() refuses the placed point, which now lies
      closer than EPSILON to the centre. */
  lemma OnCircleDrift(env: Env)
    requires ValidEnv(env) && env.epsilon == 1.0
    ensures var k, ps := PointKind(Some(OnCircle)), [View([0.0, 0.0, 0.5], true)];
      && Step(k, [1.0, 0.0], ps, env) == View([0.5, 0.0], true)
      && Step(k, Step(k, [1.0, 0.0], ps, env).data, ps, env) == View([0.5, 0.0], false)
  {
    var c := Circ(0.0, 0.0, 0.5);
    assert PF.SeedRadius(Pt(1.0, 0.0), c, env) == env.sqrt(Sq(1.0)) == 1.0 by {
      SqrtOfSquare(env, 1.0);
    }
    assert PF.SeedRadius(Pt(0.5, 0.0), c, env) == env.sqrt(Sq(0.5)) == 0.5 by {
      SqrtOfSquare(env, 0.5);
    }
  }

  /** A point placed on a circle of radius at least EPSILON is placed again
      at the same spot. */
  lemma OnCircleFixed(seed: Pt, c: Circ, env: Env)
    requires ValidEnv(env)
    requires c.r >= env.epsilon
    requires PF.OnCircle(seed, c, env).Placed?
    ensures PF.OnCircle(PF.OnCircle(seed, c, env).at, c, env) == PF.OnCircle(seed, c, env)
  {
    PF.OnCircleSpec(seed, c, env);
    PF.OnCircleFixedPoint(PF.OnCircle(seed, c, env).at, c, env);
  }
}
