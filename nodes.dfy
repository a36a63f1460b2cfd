/** The node classes of PointNode.cpp and CircleNode.cpp (and the line node
    declared in LineNode.h). Each node holds its payload and its
    well_defined flag in fields; update() recomputes both from the parents,
    and every method is proved against the step functions of module Steps. */
module Nodes {
  import opened Geometry
  import opened Steps
  import PF = PointFormulas
  import CF = CircleFormulas

  /** A reference to a node of any variant, as the parent arrays and the
      container hold them (a GeoNode* in the source). */
  datatype Construction =
    | PointC(point: PointNode)
    | CircleC(circle: CircleNode)
    | LineC(line: LineNode)
  {
    function Obj(): object {
      match this
      case PointC(p) => p
      case CircleC(c) => c
      case LineC(l) => l
    }

    function Kind(): Kind {
      match this
      case PointC(p) => PointKind(p.definition)
      case CircleC(c) => CircleKind(c.definition)
      case LineC(l) => LineKind(l.definition)
    }

    function Parents(): seq<Construction> {
      match this
      case PointC(p) => p.parents
      case CircleC(c) => c.parents
      case LineC(l) => l.parents
    }

    /** access() together with get_well_defined(). */
    function Current(): View
      reads Obj()
    {
      match this
      case PointC(p) => p.Current()
      case CircleC(c) => c.Current()
      case LineC(l) => l.Current()
    }

    function Access(): seq<real>
      reads Obj()
    {
      Current().data
    }

    function WellDefined(): bool
      reads Obj()
    {
      Current().wellDefined
    }

    function Label(): string
      reads Obj()
    {
      match this
      case PointC(p) => p.name
      case CircleC(c) => c.name
      case LineC(l) => l.name
    }

    function Pid(): nat
      reads Obj()
    {
      match this
      case PointC(p) => p.pid
      case CircleC(c) => c.pid
      case LineC(l) => l.pid
    }

    /** The node behind the reference is well formed. */
    ghost predicate Valid() {
      match this
      case PointC(p) => p.Valid()
      case CircleC(c) => c.Valid()
      case LineC(l) => l.Valid()
    }

    /** The virtual update(). */
    method Update(env: Env)
      requires Valid()
      modifies Obj()
      ensures Current() == Step(Kind(), old(Access()), old(Views(Parents())), env)
      ensures Label() == old(Label()) && Pid() == old(Pid())
    {
      match this
      case PointC(p) => p.Update(env);
      case CircleC(c) => c.Update(env);
      case LineC(l) => l.Update(env);
    }

    /** The virtual mutate(data). */
    method Mutate(data: seq<real>, env: Env)
      requires Valid() && |data| >= Width(Kind())
      modifies Obj()
      ensures Current() == MutateStep(Kind(), data, old(Views(Parents())), env)
      ensures Label() == old(Label()) && Pid() == old(Pid())
    {
      match this
      case PointC(p) => p.Mutate(data, env);
      case CircleC(c) => c.Mutate(data, env);
      case LineC(l) => l.Mutate(data, env);
    }

    /** set_label and the pid the container assigns. */
    method Register(newLabel: string, newPid: nat)
      modifies Obj()
      ensures Label() == newLabel && Pid() == newPid
      ensures Current() == old(Current())
    {
      match this
      case PointC(p) => p.name, p.pid := newLabel, newPid;
      case CircleC(c) => c.name, c.pid := newLabel, newPid;
      case LineC(l) => l.name, l.pid := newLabel, newPid;
    }
  }

  /** The objects behind a sequence of constructions. */
  function Objects(ps: seq<Construction>): set<object> {
    set i | 0 <= i < |ps| :: ps[i].Obj()
  }

  /** What the parents show: their access vectors and flags. */
  function Views(ps: seq<Construction>): (vs: seq<View>)
    reads Objects(ps)
    ensures |vs| == |ps|
  {
    if ps == [] then []
    else
      assert Objects(ps[1..]) <= Objects(ps) by {
        forall o | o in Objects(ps[1..]) ensures o in Objects(ps) {
          var i :| 0 <= i < |ps[1..]| && ps[1..][i].Obj() == o;
          assert ps[i + 1].Obj() == o;
        }
      }
      [ps[0].Current()] + Views(ps[1..])
  }

  /** The loop at the head of every update(): well_defined starts true
      and is ANDed with each parent's flag in turn. */
  method ParentsWellDefined(ps: seq<Construction>) returns (wellDefined: bool)
    ensures wellDefined <==> AllWellDefined(Views(ps))
  {
    ghost var vs := Views(ps);
    forall j | 0 <= j < |ps| ensures vs[j] == ps[j].Current() {
      ViewAt(ps, j);
    }
    wellDefined := true;
    var i := 0;
    while i < |ps|
      invariant 0 <= i <= |ps|
      invariant wellDefined == Conjunction(vs[..i])
    {
      assert vs[..i + 1][..i] == vs[..i];
      assert Conjunction(vs[..i + 1]) == (Conjunction(vs[..i]) && vs[i].wellDefined);
      wellDefined := wellDefined && ps[i].WellDefined();
      i := i + 1;
    }
    assert vs[..|ps|] == vs;
  }

  /** The objects behind one, two and three parents. */
  lemma ObjectsOfThree(geo1: Construction, geo2: Construction, geo3: Construction)
    ensures Objects([geo1]) == {geo1.Obj()}
    ensures Objects([geo1, geo2]) == {geo1.Obj(), geo2.Obj()}
    ensures Objects([geo1, geo2, geo3]) == {geo1.Obj(), geo2.Obj(), geo3.Obj()}
  {
    var one, two, three := [geo1], [geo1, geo2], [geo1, geo2, geo3];
    assert one[0] == geo1;
    assert two[0] == geo1 && two[1] == geo2;
    assert three[0] == geo1 && three[1] == geo2 && three[2] == geo3;
  }

  /** Entry i of the views is what parent i shows. */
  lemma {:induction false} ViewAt(ps: seq<Construction>, i: nat)
    requires i < |ps|
    ensures Views(ps)[i] == ps[i].Current()
    decreases i
  {
    if i > 0 {
      ViewAt(ps[1..], i - 1);
    }
  }

  /** How many parents the constructor of each point tag takes. */
  function PointArity(def: Option<PointType>): nat {
    match def
    case None => 0
    case Some(Independent) => 0
    case Some(OnLine) => 1
    case Some(OnCircle) => 1
    case Some(_) => 2
  }

  /** The switch of PointNode(type, x, y). */
  function FreeDefinition(t: PointType): Option<PointType> {
    if t == Independent then Some(t) else None
  }

  /** The switch of PointNode(type, geo1, x, y). */
  function OneParentDefinition(t: PointType): Option<PointType> {
    if t == OnLine || t == OnCircle then Some(t) else None
  }

  /** The switch of PointNode(type, geo1, geo2). */
  function TwoParentDefinition(t: PointType): Option<PointType> {
    if t == Independent || t == OnLine || t == OnCircle then None else Some(t)
  }

  class PointNode {
    const definition: Option<PointType>
    const parents: seq<Construction>
    var x: real
    var y: real
    var wellDefined: bool
    var name: string
    var pid: nat

    /** The node is not among its parents, and it has the parents its
        definition reads. */
    ghost predicate Valid() {
      && this !in Objects(parents)
      && |parents| == PointArity(definition)
    }

    function Current(): View
      reads this
    {
      View([x, y], wellDefined)
    }

    /** access(data): the coordinates. */
    function Access(): (d: seq<real>)
      reads this
      ensures d == [x, y]
    {
      Current().data
    }

    /** PointNode(type, x, y): an independent point keeps the given
        coordinates and, not calling update(), the default flag true; any
        other tag leaves the node ill-defined with no coordinates set. */
    constructor Free(t: PointType, x0: real, y0: real)
      ensures definition == FreeDefinition(t) && parents == [] && Valid()
      ensures wellDefined <==> t == Independent
      ensures t == Independent ==> x == x0 && y == y0
      ensures name == "" && pid == 0
    {
      definition := FreeDefinition(t);
      parents := [];
      name, pid := "", 0;
      if t == Independent {
        x, y := x0, y0;
        wellDefined := true;
      } else {
        x, y := 0.0, 0.0;
        wellDefined := false;
      }
    }

    /** PointNode(type, geo1, x, y): an on-line or on-circle point seeded
        at (x, y) and placed by update(); any other tag leaves the node
        ill-defined, with no parent and no coordinates set. */
    constructor OneParent(t: PointType, geo1: Construction, x0: real, y0: real, env: Env)
      ensures definition == OneParentDefinition(t) && Valid()
      ensures definition.Some? ==>
        && parents == [geo1]
        && Current() == PointStep(definition, [x0, y0], Views(parents), env)
      ensures definition.None? ==> parents == [] && !wellDefined
      ensures name == "" && pid == 0
    {
      definition := OneParentDefinition(t);
      name, pid := "", 0;
      if t == OnLine || t == OnCircle {
        parents := [geo1];
        x, y := x0, y0;
        wellDefined := true;
      } else {
        parents := [];
        x, y := 0.0, 0.0;
        wellDefined := false;
      }
      new;
      ObjectsOfThree(geo1, geo1, geo1);
      if definition.Some? {
        Update(env);
      }
    }

    /** PointNode(type, geo1, geo2): a point computed from two parents by
        update(); an unrecognised tag leaves it ill-defined. The source never
        assigns the coordinates before update(); the model starts them at 0. */
    constructor TwoParents(t: PointType, geo1: Construction, geo2: Construction, env: Env)
      ensures definition == TwoParentDefinition(t) && Valid()
      ensures definition.Some? ==>
        && parents == [geo1, geo2]
        && Current() == PointStep(definition, [0.0, 0.0], Views(parents), env)
      ensures definition.None? ==> parents == [] && !wellDefined
      ensures name == "" && pid == 0
    {
      definition := TwoParentDefinition(t);
      name, pid := "", 0;
      x, y := 0.0, 0.0;
      if TwoParentDefinition(t).Some? {
        parents := [geo1, geo2];
        wellDefined := true;
      } else {
        parents := [];
        wellDefined := false;
      }
      new;
      ObjectsOfThree(geo1, geo2, geo2);
      if definition.Some? {
        Update(env);
      }
    }

    /** mutate(data): take the coordinates, then update(). */
    method Mutate(data: seq<real>, env: Env)
      requires Valid() && |data| >= 2
      modifies this`x, this`y, this`wellDefined
      ensures Current() == MutateStep(PointKind(definition), data, old(Views(parents)), env)
    {
      x := data[0];
      y := data[1];
      assert [x, y] == data[..2];
      Update(env);
    }

    /** update(): AND the parents' flags into well_defined, then run the
        formula if that holds. */
    method Update(env: Env)
      requires Valid()
      modifies this`x, this`y, this`wellDefined
      ensures Current() == PointStep(definition, old(Access()), old(Views(parents)), env)
    {
      ghost var vs, d := Views(parents), Access();
      wellDefined := ParentsWellDefined(parents);
      assert Views(parents) == vs && Access() == d;
      if wellDefined {
        Run(env);
        assert Current() == PointStep(definition, d, vs, env);
      }
    }

    /** (this->*definition)(): read the parents' access vectors, then
        dispatch on the tag fixed at construction. Without a definition
        the node stays ill-defined. */
    method Run(env: Env)
      requires Valid() && wellDefined && AllWellDefined(Views(parents))
      modifies this`x, this`y, this`wellDefined
      ensures Current() == PointRun(definition, old(Access()), old(Views(parents)), env)
    {
      ghost var vs := Views(parents);
      var d0 := if |parents| > 0 then parents[0].Access() else [];
      var d1 := if |parents| > 1 then parents[1].Access() else [];
      if |parents| > 0 { ViewAt(parents, 0); }
      if |parents| > 1 { ViewAt(parents, 1); }
      assert d0 == ParentData(vs, 0) && d1 == ParentData(vs, 1);
      match definition
      case None =>
        wellDefined := false;
      case Some(t) =>
        Dispatch(t, d0, d1, env);
    }

    /** The member function bound to tag t, on the parents' access
        vectors d0 and d1. */
    method Dispatch(t: PointType, d0: seq<real>, d1: seq<real>, env: Env)
      requires wellDefined
      modifies this`x, this`y, this`wellDefined
      ensures Current() == Place(PointFormula(t, old(Pt(x, y)), d0, d1, env), old(Access()))
    {
      match t
      case Independent =>
      case OnLine => OnLineFormula(AsLine(d0));
      case OnCircle => OnCircleFormula(AsCirc(d0), env);
      case PointPointMidpoint => MidpointFormula(AsPt(d0), AsPt(d1));
      case LineLineIntersection => LineLineFormula(AsLine(d0), AsLine(d1), env);
      case LineCircleFirstIntersection => LineCircleFormula(AsLine(d0), AsCirc(d1), env, false);
      case LineCircleSecondIntersection => LineCircleFormula(AsLine(d0), AsCirc(d1), env, true);
      case CircleCircleFirstIntersection => CircleCircleFormula(AsCirc(d0), AsCirc(d1), env, false);
      case CircleCircleSecondIntersection => CircleCircleFormula(AsCirc(d0), AsCirc(d1), env, true);
    }

    /** on_line, given the parent line. */
    method OnLineFormula(line: Line)
      requires wellDefined
      modifies this`x, this`y
      ensures Current() == Place(PF.OnLine(old(Pt(x, y)), line), old(Access()))
    {
      var p := Project(x, y, line);
      x, y := p.x, p.y;
    }

    /** on_circle, given the parent circle. */
    method OnCircleFormula(circle: Circ, env: Env)
      modifies this`x, this`y, this`wellDefined
      ensures Current() == Place(PF.OnCircle(old(Pt(x, y)), circle, env), old(Access()))
    {
      var currentRadius := env.sqrt(Sq(x - circle.cx) + Sq(y - circle.cy));
      assert currentRadius == PF.SeedRadius(Pt(x, y), circle, env);
      if currentRadius < env.epsilon {
        wellDefined := false;
      } else {
        ghost var seed := Pt(x, y);
        x := circle.cx + Quot((x - circle.cx) * circle.r, currentRadius);
        y := circle.cy + Quot((y - circle.cy) * circle.r, currentRadius);
        wellDefined := true;
        assert PF.OnCircle(seed, circle, env) == PF.Placed(Pt(x, y));
      }
    }

    /** point_point_midpoint, given the parent points. */
    method MidpointFormula(p1: Pt, p2: Pt)
      requires wellDefined
      modifies this`x, this`y
      ensures Current() == Place(PF.Midpoint(p1, p2), old(Access()))
    {
      x := (p1.x + p2.x) / 2.0;
      y := (p1.y + p2.y) / 2.0;
    }

    /** line_line_intersection, given the parent lines. */
    method LineLineFormula(line1: Line, line2: Line, env: Env)
      modifies this`x, this`y, this`wellDefined
      ensures Current() == Place(PF.LineLine(line1, line2, env), old(Access()))
    {
      var delta := line1.a * line2.b - line1.b * line2.a;
      assert delta == PF.Det(line1, line2);
      if delta < env.epsilon && delta > -env.epsilon {
        wellDefined := false;
      } else {
        var deltaX := - line1.c * line2.b + line1.b * line2.c;
        var deltaY := - line1.a * line2.c + line1.c * line2.a;
        assert deltaX == PF.DeltaX(line1, line2) && deltaY == PF.DeltaY(line1, line2);
        x := Quot(deltaX, delta);
        y := Quot(deltaY, delta);
        wellDefined := true;
      }
    }

    /** line_circle_first_intersection (second = false) and
        line_circle_second_intersection (second = true), given the parent
        line and circle. */
    method LineCircleFormula(line: Line, circle: Circ, env: Env, second: bool)
      modifies this`x, this`y, this`wellDefined
      ensures Current() == Place(PF.LineCircle(line, circle, env, second), old(Access()))
    {
      var foot := Project(circle.cx, circle.cy, line);
      var projectX, projectY := foot.x, foot.y;
      var dist := env.sqrt(Sq(projectX - circle.cx) + Sq(projectY - circle.cy));
      assert dist == PF.CentreDistance(line, circle, env);
      // With a = b = 0 the division for t gives NaN, so dist is NaN and the
      // comparison with it fails.
      var noNormal := line.a * line.a + line.b * line.b == 0.0;
      if !noNormal && dist <= circle.r + env.epsilon {
        var toShift := Sq(circle.r) - Sq(dist);
        if toShift < 0.0 {
          toShift := 0.0;
        }
        toShift := env.sqrt(toShift);
        assert toShift == PF.HalfChord(line, circle, env);
        if second && toShift < env.epsilon {
          wellDefined := false;
          return;
        }
        var p := ShiftAlongNormal(projectX, projectY, toShift, line, env, second);
        x, y := p.x, p.y;
        wellDefined := true;
      } else {
        wellDefined := false;
      }
    }

    /** circle_circle_first_intersection (second = false) and
        circle_circle_second_intersection (second = true), given the parent
        circles, which are copied into arrays and swapped entry by entry so
        that the larger comes first. */
    method CircleCircleFormula(c1: Circ, c2: Circ, env: Env, second: bool)
      modifies this`x, this`y, this`wellDefined
      ensures Current() == Place(PF.CircleCircle(c1, c2, env, second), old(Access()))
    {
      var circle1 := new real[3][c1.cx, c1.cy, c1.r];
      var circle2 := new real[3][c2.cx, c2.cy, c2.r];
      var dist := env.sqrt(Sq(circle1[0] - circle2[0]) + Sq(circle1[1] - circle2[1]));
      assert dist == PF.CentresDistance(c1, c2, env);
      if dist < Abs(circle1[2] - circle2[2]) - env.epsilon || dist > Abs(circle1[2] - circle2[2]) + env.epsilon {
        wellDefined := false;
        return;
      }
      if circle1[2] < circle2[2] {
        SwapRows(circle1, circle2);
      }
      var big := Circ(circle1[0], circle1[1], circle1[2]);
      var small := Circ(circle2[0], circle2[1], circle2[2]);
      assert big == PF.Larger(c1, c2) && small == PF.Smaller(c1, c2);
      var p := Intersect(big, small, dist, env, second);
      x, y := p.x, p.y;
      wellDefined := true;
    }
  }

  /** The projection shared by on_line and the line-circle formulas: the
      point (x, y) moved along the normal (a, b) by the parameter t. */
  method Project(x: real, y: real, line: Line) returns (p: Pt)
    ensures p == PF.Foot(Pt(x, y), line)
  {
    var t := Quot(line.a * x + line.b * y + line.c, line.a * line.a + line.b * line.b);
    assert t == PF.FootParameter(Pt(x, y), line);
    p := Pt(x - line.a * t, y - line.b * t);
  }

  /** The last step of the line-circle formulas: the projected centre
      moved by to_shift along the line's normal, forwards for the first
      intersection and backwards for the second. */
  method ShiftAlongNormal(projectX: real, projectY: real, toShift: real, line: Line, env: Env, second: bool)
    returns (p: Pt)
    ensures p == PF.ChordEnd(Pt(projectX, projectY), toShift, line, env, second)
  {
    var normalizeFactor := env.sqrt(Sq(line.a) + Sq(line.b));
    var x, y;
    if second {
      x := projectX - Quot(toShift * line.a, normalizeFactor);
      y := projectY - Quot(toShift * line.b, normalizeFactor);
    } else {
      x := projectX + Quot(toShift * line.a, normalizeFactor);
      y := projectY + Quot(toShift * line.b, normalizeFactor);
    }
    p := Pt(x, y);
  }

  /** The arithmetic of the circle-circle formulas once the larger circle
      is first: shift along the centre axis, then across it. */
  method Intersect(big: Circ, small: Circ, dist: real, env: Env, second: bool) returns (p: Pt)
    ensures p == PF.Crossing(big, small, dist,
                             if second then -PF.VerticalRoot(big, small, dist, env)
                             else PF.VerticalRoot(big, small, dist, env))
  {
    var resultX, resultY, shiftHorizontal := AlongAxis(big, small, dist);
    var normalizeFactor := dist;
    var shiftVertical := env.sqrt(Sq(big.r) - Sq(shiftHorizontal));
    if second {
      shiftVertical := -shiftVertical;
    }
    resultX := resultX + Quot((small.cy - big.cy) * shiftVertical, normalizeFactor);
    resultY := resultY - Quot((small.cx - big.cx) * shiftVertical, normalizeFactor);
    p := Pt(resultX, resultY);
  }

  /** The horizontal shift of the circle-circle formulas: from the larger
      centre (with result_y seeded from its x coordinate, as written) along
      the centre axis by shift_horizontal. */
  method AlongAxis(big: Circ, small: Circ, dist: real) returns (resultX: real, resultY: real, shiftHorizontal: real)
    ensures Pt(resultX, resultY) == PF.AxisPoint(big, small, dist)
    ensures shiftHorizontal == PF.ShiftH(big, small, dist)
  {
    resultX, resultY := big.cx, big.cx;
    shiftHorizontal := Quot(big.r * big.r - small.r * small.r, dist);
    shiftHorizontal := (dist + shiftHorizontal) / 2.0;
    assert shiftHorizontal == PF.ShiftH(big, small, dist);
    resultX := resultX + Quot((small.cx - big.cx) * shiftHorizontal, dist);
    resultY := resultY + Quot((small.cy - big.cy) * shiftHorizontal, dist);
  }

  /** Exchanges the three entries of the two circles' arrays, one index at a time. */
  method SwapRows(a: array<real>, b: array<real>)
    requires a.Length == 3 && b.Length == 3 && a != b
    modifies a, b
    ensures a[..] == old(b[..]) && b[..] == old(a[..])
  {
    var i := 0;
    while i < 3
      invariant 0 <= i <= 3
      invariant forall j | 0 <= j < i :: a[j] == old(b[j]) && b[j] == old(a[j])
      invariant forall j | i <= j < 3 :: a[j] == old(a[j]) && b[j] == old(b[j])
    {
      a[i], b[i] := b[i], a[i];
      i := i + 1;
    }
  }

  /** How many parents the constructors of each circle tag take. */
  function CircleArity(def: Option<CircleType>): nat {
    match def
    case None => 0
    case Some(PointPointCenterThrough) => 2
    case Some(_) => 3
  }

  /** The switch of CircleNode(type, geo1, geo2). */
  function TwoPointDefinition(t: CircleType): Option<CircleType> {
    if t == PointPointCenterThrough then Some(t) else None
  }

  /** The switch of CircleNode(type, geo1, geo2, geo3). */
  function ThreePointDefinition(t: CircleType): Option<CircleType> {
    if t == PointPointCenterThrough then None else Some(t)
  }

  class CircleNode {
    const definition: Option<CircleType>
    const parents: seq<Construction>
    var centerX: real
    var centerY: real
    var radius: real
    var wellDefined: bool
    var name: string
    var pid: nat

    ghost predicate Valid() {
      && this !in Objects(parents)
      && |parents| == CircleArity(definition)
    }

    function Current(): View
      reads this
    {
      View([centerX, centerY, radius], wellDefined)
    }

    /** access(data): centre and radius. */
    function Access(): (d: seq<real>)
      reads this
      ensures d == [centerX, centerY, radius]
    {
      Current().data
    }

    /** CircleNode(type, geo1, geo2): a centre-and-point circle computed by
        update(); any other tag leaves the node ill-defined. The source never
        assigns the payload before update(); the model starts it at 0. */
    constructor TwoPoints(t: CircleType, geo1: Construction, geo2: Construction, env: Env)
      ensures definition == TwoPointDefinition(t) && Valid()
      ensures definition.Some? ==>
        && parents == [geo1, geo2]
        && Current() == CircleStep(definition, [0.0, 0.0, 0.0], Views(parents), env)
      ensures definition.None? ==> parents == [] && !wellDefined
      ensures name == "" && pid == 0
    {
      definition := TwoPointDefinition(t);
      name, pid := "", 0;
      centerX, centerY, radius := 0.0, 0.0, 0.0;
      if t == PointPointCenterThrough {
        parents := [geo1, geo2];
        wellDefined := true;
      } else {
        parents := [];
        wellDefined := false;
      }
      new;
      ObjectsOfThree(geo1, geo2, geo2);
      if definition.Some? {
        Update(env);
      }
    }

    /** CircleNode(type, geo1, geo2, geo3): a three-point or
        centre-and-radius circle computed by update(); any other tag leaves
        the node ill-defined. The payload starts at 0, as in TwoPoints. */
    constructor ThreePoints(t: CircleType, geo1: Construction, geo2: Construction, geo3: Construction, env: Env)
      ensures definition == ThreePointDefinition(t) && Valid()
      ensures definition.Some? ==>
        && parents == [geo1, geo2, geo3]
        && Current() == CircleStep(definition, [0.0, 0.0, 0.0], Views(parents), env)
      ensures definition.None? ==> parents == [] && !wellDefined
      ensures name == "" && pid == 0
    {
      definition := ThreePointDefinition(t);
      name, pid := "", 0;
      centerX, centerY, radius := 0.0, 0.0, 0.0;
      if t != PointPointCenterThrough {
        parents := [geo1, geo2, geo3];
        wellDefined := true;
      } else {
        parents := [];
        wellDefined := false;
      }
      new;
      ObjectsOfThree(geo1, geo2, geo3);
      if definition.Some? {
        Update(env);
      }
    }

    /** mutate(data): take centre and radius, then update(). */
    method Mutate(data: seq<real>, env: Env)
      requires Valid() && |data| >= 3
      modifies this`centerX, this`centerY, this`radius, this`wellDefined
      ensures Current() == MutateStep(CircleKind(definition), data, old(Views(parents)), env)
    {
      centerX := data[0];
      centerY := data[1];
      radius := data[2];
      assert [centerX, centerY, radius] == data[..3];
      Update(env);
    }

    /** update(): AND the parents' flags, then run the formula if that
        holds. */
    method Update(env: Env)
      requires Valid()
      modifies this`centerX, this`centerY, this`radius, this`wellDefined
      ensures Current() == CircleStep(definition, old(Access()), old(Views(parents)), env)
    {
      ghost var vs, d := Views(parents), Access();
      wellDefined := ParentsWellDefined(parents);
      assert Views(parents) == vs && Access() == d;
      if wellDefined {
        Run(env);
        assert Current() == CircleStep(definition, d, vs, env);
      }
    }

    /** (this->*definition)(): read the parents' access vectors, then
        dispatch on the tag. */
    method Run(env: Env)
      requires Valid() && wellDefined && AllWellDefined(Views(parents))
      modifies this`centerX, this`centerY, this`radius, this`wellDefined
      ensures Current() == CircleRun(definition, old(Access()), old(Views(parents)), env)
    {
      ghost var vs := Views(parents);
      var p1 := AsPt(if |parents| > 0 then parents[0].Access() else []);
      var p2 := AsPt(if |parents| > 1 then parents[1].Access() else []);
      var p3 := AsPt(if |parents| > 2 then parents[2].Access() else []);
      if |parents| > 0 { ViewAt(parents, 0); }
      if |parents| > 1 { ViewAt(parents, 1); }
      if |parents| > 2 { ViewAt(parents, 2); }
      assert p1 == ParentPoint(vs, 0) && p2 == ParentPoint(vs, 1) && p3 == ParentPoint(vs, 2);
      match definition
      case None =>
        wellDefined := false;
      case Some(t) =>
        Dispatch(t, p1, p2, p3, env);
    }

    /** The member function bound to tag t, on the parent points. */
    method Dispatch(t: CircleType, p1: Pt, p2: Pt, p3: Pt, env: Env)
      modifies this`centerX, this`centerY, this`radius, this`wellDefined
      ensures Current() == Draw(CircleFormula(t, p1, p2, p3, env), old(Access()))
    {
      match t
      case PointPointCenterThrough => CenterThroughFormula(p1, p2, env);
      case PointPointPointThrough => ThroughThreeFormula(p1, p2, p3, env);
      case PointPointPointCenterRadius => CenterRadiusFormula(p1, p2, p3, env);
    }

    /** point_point_point_through, given the three parent points. */
    method ThroughThreeFormula(p1: Pt, p2: Pt, p3: Pt, env: Env)
      modifies this`centerX, this`centerY, this`radius, this`wellDefined
      ensures Current() == Draw(CF.ThroughThree(p1, p2, p3, env), old(Access()))
    {
      var distance := p3.x * (p1.y - p2.y) + p3.y * (p2.x - p1.x) - (p1.x * (p1.y - p2.y) + p1.y * (p2.x - p1.x));
      assert distance == CF.Det3(p1, p2, p3);
      if distance < env.epsilon && distance > -env.epsilon {
        wellDefined := false;
      } else {
        var c := Circumcentre(p1, p2, p3);
        centerX, centerY := c.x, c.y;
        radius := env.sqrt(Sq(centerX - p1.x) + Sq(centerY - p1.y));
        wellDefined := true;
      }
    }

    /** point_point_center_through, given the centre and the point on the
        circle. */
    method CenterThroughFormula(p1: Pt, p2: Pt, env: Env)
      modifies this`centerX, this`centerY, this`radius, this`wellDefined
      ensures Current() == Draw(CF.CenterThrough(p1, p2, env), old(Access()))
    {
      centerX := p1.x;
      centerY := p1.y;
      radius := env.sqrt(Sq(p2.x - p1.x) + Sq(p2.y - p1.y));
      wellDefined := radius > env.epsilon;
    }

    /** point_point_point_center_radius, with its (p3.y - p3.y) factor. */
    method CenterRadiusFormula(p1: Pt, p2: Pt, p3: Pt, env: Env)
      modifies this`centerX, this`centerY, this`radius, this`wellDefined
      ensures Current() == Draw(CF.CenterRadius(p1, p2, p3, env), old(Access()))
    {
      centerX := p1.x;
      centerY := p1.y;
      radius := env.sqrt(Sq(p3.x - p2.x) + (p3.y - p2.y) * (p3.y - p3.y));
      wellDefined := radius > env.epsilon;
    }
  }

  /** The centre computation of point_point_point_through: centre_y first,
      then centre_x, each a numerator over a denominator. */
  method Circumcentre(p1: Pt, p2: Pt, p3: Pt) returns (c: Pt)
    ensures c == CF.Circumcentre(p1, p2, p3)
  {
    var x1, x2, x3 := p1.x, p2.x, p3.x;
    var y1, y2, y3 := p1.y, p2.y, p3.y;
    var x12, x13, x31, x21 := x1 - x2, x1 - x3, x3 - x1, x2 - x1;
    var y12, y13, y31, y21 := y1 - y2, y1 - y3, y3 - y1, y2 - y1;
    var sx13, sx21 := x1 * x1 - x3 * x3, x2 * x2 - x1 * x1;
    var sy13, sy21 := y1 * y1 - y3 * y3, y2 * y2 - y1 * y1;
    var centerY := (-1.0) * (sx13 * x12 + sy13 * x12 + sx21 * x13 + sy21 * x13);
    var denomY := 2.0 * (y31 * x12 - y21 * x13);
    var centerX := (-1.0) * (sx13 * y12 + sy13 * y12 + sx21 * y13 + sy21 * y13);
    var denomX := 2.0 * (x31 * y12 - x21 * y13);
    TermsAsWritten(x1, y1, x2, y2, x3, y3, sx13, sx21, sy13, sy21, x12, x13, x31, x21, y12, y13, y31, y21);
    centerY := Quot(centerY, denomY);
    centerX := Quot(centerX, denomX);
    c := Pt(centerX, centerY);
  }

  /** The named intermediate quantities of point_point_point_through give
      the numerators and denominators of the circle formulas. */
  lemma TermsAsWritten(x1: real, y1: real, x2: real, y2: real, x3: real, y3: real,
                       sx13: real, sx21: real, sy13: real, sy21: real,
                       x12: real, x13: real, x31: real, x21: real,
                       y12: real, y13: real, y31: real, y21: real)
    requires sx13 == x1 * x1 - x3 * x3 && sx21 == x2 * x2 - x1 * x1
    requires sy13 == y1 * y1 - y3 * y3 && sy21 == y2 * y2 - y1 * y1
    requires x12 == x1 - x2 && x13 == x1 - x3 && x31 == x3 - x1 && x21 == x2 - x1
    requires y12 == y1 - y2 && y13 == y1 - y3 && y31 == y3 - y1 && y21 == y2 - y1
    ensures (-1.0) * (sx13 * x12 + sy13 * x12 + sx21 * x13 + sy21 * x13) == CF.NumerY(x1, y1, x2, y2, x3, y3)
    ensures (-1.0) * (sx13 * y12 + sy13 * y12 + sx21 * y13 + sy21 * y13) == CF.NumerX(x1, y1, x2, y2, x3, y3)
    ensures 2.0 * (y31 * x12 - y21 * x13) == CF.DenomY(x1, y1, x2, y2, x3, y3)
    ensures 2.0 * (x31 * y12 - x21 * y13) == CF.DenomX(x1, y1, x2, y2, x3, y3)
  {
  }

  /** The line node of LineNode.h. LineNode.cpp is not part of this model:
      the node follows the pattern the point and circle nodes share (the
      constructor binds the definition and runs update(), mutate overwrites
      the payload and runs update(), update() ANDs the parents' flags and
      then runs the formula), and the formulas are the environment's. */
  class LineNode {
    const definition: Option<LineType>
    const parents: seq<Construction>
    var xCoeff: real
    var yCoeff: real
    var cCoeff: real
    var wellDefined: bool
    var name: string
    var pid: nat

    ghost predicate Valid() {
      && this !in Objects(parents)
      && |parents| == (if definition.Some? then 2 else 0)
    }

    function Current(): View
      reads this
    {
      View([xCoeff, yCoeff, cCoeff], wellDefined)
    }

    /** access(data): the coefficients [a, b, c] of a*x + b*y + c = 0. */
    function Access(): (d: seq<real>)
      reads this
      ensures d == [xCoeff, yCoeff, cCoeff]
    {
      Current().data
    }

    /** LineNode(type, geo1, geo2), with the coefficients at their declared
        initial value 0 until update() runs the formula. */
    constructor (t: LineType, geo1: Construction, geo2: Construction, env: Env)
      ensures definition == Some(t) && parents == [geo1, geo2] && Valid()
      ensures Current() == LineStep(definition, [0.0, 0.0, 0.0], Views(parents), env)
      ensures name == "" && pid == 0
    {
      definition := Some(t);
      parents := [geo1, geo2];
      xCoeff, yCoeff, cCoeff := 0.0, 0.0, 0.0;
      wellDefined := true;
      name, pid := "", 0;
      new;
      ObjectsOfThree(geo1, geo2, geo2);
      Update(env);
    }

    /** mutate(data): take the coefficients, then update(). */
    method Mutate(data: seq<real>, env: Env)
      requires Valid() && |data| >= 3
      modifies this`xCoeff, this`yCoeff, this`cCoeff, this`wellDefined
      ensures Current() == LineStep(definition, data[..3], old(Views(parents)), env)
    {
      xCoeff := data[0];
      yCoeff := data[1];
      cCoeff := data[2];
      assert [xCoeff, yCoeff, cCoeff] == data[..3];
      Update(env);
    }

    /** update(): AND the parents' flags into well_defined, then run the
        formula if that holds. */
    method Update(env: Env)
      requires Valid()
      modifies this`xCoeff, this`yCoeff, this`cCoeff, this`wellDefined
      ensures Current() == LineStep(definition, old(Access()), old(Views(parents)), env)
    {
      ghost var vs, d := Views(parents), Access();
      wellDefined := ParentsWellDefined(parents);
      assert Views(parents) == vs && Access() == d;
      if wellDefined {
        Run(env);
      }
    }

    /** (this->*definition)(): the line formula on the parents' access
        vectors, which sets the coefficients or refuses. */
    method Run(env: Env)
      requires Valid() && wellDefined && AllWellDefined(Views(parents))
      modifies this`xCoeff, this`yCoeff, this`cCoeff, this`wellDefined
      ensures Current() == LineRun(definition, old(Access()), old(Views(parents)), env)
    {
      ghost var vs := Views(parents);
      var d0 := if |parents| > 0 then parents[0].Access() else [];
      var d1 := if |parents| > 1 then parents[1].Access() else [];
      if |parents| > 0 { ViewAt(parents, 0); }
      if |parents| > 1 { ViewAt(parents, 1); }
      assert d0 == ParentData(vs, 0) && d1 == ParentData(vs, 1);
      match definition
      case None =>
        wellDefined := false;
      case Some(t) =>
        var fit := env.lineFormula(t, d0, d1);
        match fit
        case Some(l) =>
          xCoeff, yCoeff, cCoeff := l.a, l.b, l.c;
        case None =>
          wellDefined := false;
    }
  }
}
