# geometry-toolbox construction engine in Dafny

This project models the construction engine of the geometry-toolbox
dynamic-geometry program and proves properties of that model.

## The engine

Every construction is a node: a point, a circle or a line.

- **Payload.** A node holds a payload that its children read through
  `access()`.
  - A point holds `[x, y]`.
  - A circle holds `[center_x, center_y, radius]`.
  - A line holds `[a, b, c]` of `a*x + b*y + c = 0`.
- **Flag.** A node also holds a `well_defined` flag.
- **update().** `update()` sets the flag to the AND of the parents' flags.
  - Only if that AND holds does it run the formula that the constructor bound from the type tag.
  - The formula may place the node, or it may refuse a degenerate configuration. A refused node is ill-defined and keeps its payload.
- **mutate(d).** `mutate(d)` overwrites the payload and then calls `update()`.
- **Container.** The container `GeoComponents` stores the nodes in insertion order and hands out pids from `next_pid`. It supports these operations:
  - add a construction;
  - edit one, which mutates it and then updates everything stored after it;
  - remove one together with every construction derived from it;
  - look up a pid by label, and a construction by pid.

## Modules

The formula and node modules follow PointNode.cpp, CircleNode.cpp and GeoComponents.h: PointFormulas and CircleFormulas hold the formulas of the two node files, Nodes holds their classes, and Components holds the container. Steps and Graph have no counterpart in the source: they are the model's own value layer, which the classes and the container are proved against.

- **Geometry.**
  - Defines points, lines and circles.
  - Defines the environment `Env`: the tolerance EPSILON, the square root and the line formulas, all passed as parameters.
  - Provides exact real helpers.
- **PointFormulas and CircleFormulas.**
  - The formulas of `PointNode.cpp` and `CircleNode.cpp` as functions over `real`, with their arithmetic reproduced literally.
  - Lemmas that state what each formula computes and when it refuses.
- **Steps.**
  - What one `update()` or `mutate()` of a node of each variant computes from its payload and its parents' views.
  - Lemmas about update (the skipped formula, idempotence and where it fails, the independent round trip).
- **Nodes.**
  - The node classes `PointNode`, `CircleNode` and `LineNode`, each with the fields the source assigns.
  - Their constructors, `access`, `mutate`, `update`, and one method per formula that assigns the fields step by step.
  - Every method is proved against the functions of Steps and of the formula modules.
  - The datatype `Construction` stands for a `GeoNode*` and dispatches the virtual calls.
- **Graph.**
  - The container's contents as a value: a sequence of entries, each holding a kind, a view and the storage positions of its parents.
  - Edit propagation (`Edit`) and cascading removal (`Remove`) as functions over that value.
  - Their properties: the single forward pass leaves every node consistent with its parents; ill-definedness spreads to every descendant; removal drops exactly the descendants.
- **Components.**
  - The class `GeoComponents`, with `geoComponents` (a sequence of constructions) and `nextPid`.
  - A ghost field `links` holding each node's parent positions. Parents always sit at smaller positions, so storage order is topological.
  - The class invariant `Valid()` covers well-formed, distinct nodes, topological links and increasing pids.
  - The methods `Add`, `Edit`, `Remove`, `GetPid` and `GetConstruction`, proved against Graph through `Snapshot()`.
  - Edit is a forward loop of updates. Remove is a marking scan followed by a sweep.

## Where the formulas' documented intent and the code differ

In each case the model follows the code.

- **Line–circle** (`PointNode.cpp:203-204`, `238-239`): the code shifts along the normal `(a, b)` rather than along the line's direction.
- **Circle–circle** (`PointNode.cpp:267`, `307`): the code seeds `result_y` from `circle1[0]`.
- **Circle–circle band** (`PointNode.cpp:257`, `297`): the code accepts only centre distances within EPSILON of `|R - r|`.
- **Centre and point** (`CircleNode.cpp:146`): the circle is well-defined only when `radius > EPSILON`. So a radius exactly equal to EPSILON is ill-defined.
- **Centre and two-point radius** (`CircleNode.cpp:162`): the radius's y-term multiplies by `(p3.y - p3.y)`. As a result the radius is `|p3.x - p2.x|` (see `CircleFormulas.CenterRadiusSpec`).
- **Repeated update** (`PointNode.cpp:130-141`): re-running update() on a well-defined, unchanged node is meant to change nothing. An on-circle point over a circle of radius below EPSILON breaks this: it is placed closer than EPSILON to the centre, and the next update() refuses it (see `Steps.OnCircleDrift`).

None of these formulas is claimed to be geometrically correct. What is proved about them is their branch structure and their exact arithmetic.

## Model

| member | source | states |
|---|---|---|
| Steps.Conjunction | PointNode.cpp:102-104 | the accumulated `&=` of the parents' flags is true exactly when every parent is well-defined |
| Steps.PointStep | PointNode.cpp:101-107 | a point is well-defined after update only if it has a definition and all parents are well-defined; otherwise its payload is kept and it is ill-defined; a well-defined result has two coordinates |
| Steps.CircleStep | CircleNode.cpp:88-94 | the same for circles: with an ill-defined parent or no definition the payload is kept and the flag is false; a formula that ran yields three entries |
| Steps.LineStep | LineNode.h:38-39 | a line is well-defined after update only if it has a definition and all parents are well-defined; otherwise its coefficients are kept and it is ill-defined; a line formula that accepts yields three coefficients |
| Steps.Step | PointNode.cpp:101-107 | for every variant, well-defined implies every parent well-defined, and an ill-defined parent leaves the payload unchanged with the flag false |
| Steps.IndependentRoundTrip | PointNode.cpp:95-99 | mutate(d) on an independent point, followed by access, returns exactly `d[0], d[1]`, and the point is well-defined |
| Steps.MutateWithIllDefinedParent | CircleNode.cpp:81-94 | with some ill-defined parent, access after mutate(d) returns exactly the first entries of d, and the node is ill-defined |
| Steps.UpdateIdempotent | PointNode.cpp:101-142 | a second update over unchanged parents changes nothing (for on-circle points, given a radius of at least EPSILON) |
| Steps.OnCircleFixed | PointNode.cpp:123-142 | an on-circle point that was placed on a circle of radius at least EPSILON is placed again at the same spot |
| Steps.OnCircleDrift | PointNode.cpp:130-141 | with EPSILON = 1, a seed at distance 1 from the centre of a circle of radius 1/2 is placed at distance 1/2, and the next update() over the same parent refuses that point |
| PointFormulas.FootSpec | PointNode.cpp:111-121 | the on-line projection satisfies the line equation whenever `a^2 + b^2 != 0`, and it moves the seed along the normal `(a, b)` |
| PointFormulas.FootOfIncident | PointNode.cpp:111-121 | a point already on the line is not moved |
| PointFormulas.FootIdempotent | PointNode.cpp:111-121 | projecting a projected point leaves it unchanged |
| PointFormulas.OnLine | PointNode.cpp:111-121 | on_line never refuses |
| PointFormulas.OnCircleSpec | PointNode.cpp:123-142 | on_circle refuses exactly when the seed is within EPSILON of the centre; otherwise the result lies on the circle, on the line through the centre and the seed, and (for a non-negative radius) on the seed's side |
| PointFormulas.OnCircleRoot | PointNode.cpp:130-141 | the same, given only that the square root is exact at the seed's squared distance |
| PointFormulas.OnCirclePlaced | PointNode.cpp:136-137 | the scaled seed vector lies on the circle, on the centre–seed line and on the seed's side |
| PointFormulas.OnCircleFixedPoint | PointNode.cpp:123-142 | a point on a circle of radius at least EPSILON is a fixed point of on_circle |
| PointFormulas.RadialScaling | PointNode.cpp:136-137 | a vector scaled from (dx, dy) by r over its length has squared length r^2, is parallel to (dx, dy), and points the same way when r >= 0 |
| PointFormulas.Midpoint | PointNode.cpp:144-154 | the midpoint is always placed and is equidistant along each axis from both parents |
| PointFormulas.LineLineSpec | PointNode.cpp:156-179 | line_line_intersection refuses exactly when `-EPSILON < a1*b2 - b1*a2 < EPSILON`; otherwise the point lies on both parent lines |
| PointFormulas.CramerSolves | PointNode.cpp:171-174 | Cramer's quotients satisfy both line equations |
| PointFormulas.HalfChord | PointNode.cpp:198-200 | the clamped half-chord offset is never negative |
| PointFormulas.LineCircleSpec | PointNode.cpp:181-244 | both line–circle variants refuse exactly when the line has `a = b = 0` (the NaN test fails) or the centre is more than r + EPSILON from the line; the second also refuses when the half-chord is below EPSILON; when the first succeeds the projected centre lies on the line; when the second succeeds so does the first, and the two results are mirror images about the projected centre |
| PointFormulas.CrossingMirror | PointNode.cpp:276-278 | for a nonzero centre distance, opposite vertical shifts give points mirrored about the axis point |
| PointFormulas.CircleCircleSpec | PointNode.cpp:247-326 | both circle–circle variants refuse exactly outside the band `[abs(R - r) - EPSILON, abs(R - r) + EPSILON]`, so they always agree on validity; otherwise, for distinct centres, they are mirror images about the axis point, differing only in the sign of shift_vertical |
| PointFormulas.CircleCircleSymmetric | PointNode.cpp:257-265 | because the larger circle is taken first, swapping two parents of different radii does not change the result |
| CircleFormulas.DenominatorsAreDet | CircleNode.cpp:120-124 | the two centre denominators are `2 * distance` and `-2 * distance`, so the collinearity guard also guards both divisions |
| CircleFormulas.CentreScaled | CircleNode.cpp:120-124 | the computed centre, times each denominator, gives back the numerators |
| CircleFormulas.ScaledCentreEquidistant | CircleNode.cpp:111-124 | any point satisfying the scaled centre equations is equidistant from the three points |
| CircleFormulas.OnBisector12 | CircleNode.cpp:111-124 | such a point lies on the perpendicular bisector of p1 and p2 |
| CircleFormulas.OnBisector13 | CircleNode.cpp:111-124 | such a point lies on the perpendicular bisector of p1 and p3 |
| CircleFormulas.NumeratorsSolve12 | CircleNode.cpp:117-123 | the numerators solve the bisector equation of p1 and p2, scaled by the determinant |
| CircleFormulas.NumeratorsSolve13 | CircleNode.cpp:117-123 | the same for p1 and p3 |
| CircleFormulas.CircumcentreEquidistant | CircleNode.cpp:111-126 | whenever the determinant is nonzero, the computed centre is equidistant from p1, p2 and p3 |
| CircleFormulas.ThroughThreeSpec | CircleNode.cpp:96-131 | point_point_point_through refuses exactly when `-EPSILON < distance < EPSILON`; otherwise the circle is well-defined, has a non-negative radius and passes through all three points |
| CircleFormulas.ThroughThreeRoot | CircleNode.cpp:105-128 | the same, given only that the square root is exact at the one argument the formula uses |
| CircleFormulas.DrawnThrough | CircleNode.cpp:126 | a circle about an equidistant centre with radius `|c p1|` passes through all three points |
| CircleFormulas.CenterThroughSpec | CircleNode.cpp:133-148 | the centre-and-point circle is centred on p1, passes through p2, has a non-negative radius, and is well-defined exactly when the radius exceeds EPSILON |
| CircleFormulas.CenterRadiusSpec | CircleNode.cpp:150-165 | the circle is centred on p1, its radius as written is `abs(p3.x - p2.x)`, and it is well-defined exactly when that exceeds EPSILON |
| Nodes.Construction.Update | PointNode.cpp:101-107 | the virtual update() leaves the node showing Step of its old payload and its parents' views; its label and pid stay |
| Nodes.Construction.Mutate | PointNode.cpp:95-99 | the virtual mutate(d) leaves the node showing MutateStep of d; its label and pid stay |
| Nodes.Construction.Register | GeoComponents.h:16-17 | setting the label and pid changes neither the node's payload nor its flag |
| Nodes.ParentsWellDefined | PointNode.cpp:102-104 | the loop `well_defined &= parents[i]->get_well_defined()`, started at true, yields true exactly when every parent is well-defined |
| Nodes.PointNode.Access | PointNode.cpp:90-93 | access returns `[x, y]` |
| Nodes.PointNode.Free | PointNode.cpp:9-20 | an independent point keeps the given coordinates and is well-defined; any other tag leaves the node with no definition, no parents and ill-defined |
| Nodes.PointNode.OneParent | PointNode.cpp:22-38 | on-line and on-circle points get their one parent and the state of a point update from the seed; any other tag leaves no parent and an ill-defined node |
| Nodes.PointNode.TwoParents | PointNode.cpp:40-59 | the six two-parent tags get both parents and the state of a point update from a starting payload of `[0, 0]`; any other tag leaves no parents and an ill-defined node |
| Nodes.PointNode.Mutate | PointNode.cpp:95-99 | afterwards the point shows MutateStep of the data against its parents' views |
| Nodes.PointNode.Update | PointNode.cpp:101-107 | afterwards the point shows PointStep of its old coordinates and its parents' views |
| Nodes.PointNode.Run | PointNode.cpp:105-106 | the bound formula runs on the parents' access vectors; a node without a definition stays ill-defined |
| Nodes.PointNode.Dispatch | PointNode.cpp:109-326 | the member function bound to each tag computes the placement of the corresponding formula |
| Nodes.PointNode.OnLineFormula | PointNode.cpp:111-121 | the fields become the projection of the seed onto the line |
| Nodes.PointNode.OnCircleFormula | PointNode.cpp:123-142 | the fields become on_circle's placement, or the node becomes ill-defined with its coordinates kept |
| Nodes.PointNode.MidpointFormula | PointNode.cpp:144-154 | the fields become the midpoint |
| Nodes.PointNode.LineLineFormula | PointNode.cpp:156-179 | the fields become Cramer's solution, or the node becomes ill-defined with its coordinates kept |
| Nodes.PointNode.LineCircleFormula | PointNode.cpp:181-244 | the fields become the line–circle placement of either variant, or the node becomes ill-defined with its coordinates kept, including for a line with `a = b = 0` |
| Nodes.PointNode.CircleCircleFormula | PointNode.cpp:247-326 | the fields become the circle–circle placement of either variant, or the node becomes ill-defined with its coordinates kept |
| Nodes.Project | PointNode.cpp:189-193 | the projected centre is the foot of the perpendicular |
| Nodes.ShiftAlongNormal | PointNode.cpp:202-204 | the shift by to_shift along the normalised normal, with a plus sign for the first variant and a minus sign for the second |
| Nodes.AlongAxis | PointNode.cpp:267-274 | the horizontal shift and the axis point, with result_y seeded from circle1[0] |
| Nodes.Intersect | PointNode.cpp:276-281 | the vertical shift across the axis, negated for the second intersection |
| Nodes.SwapRows | PointNode.cpp:262-265 | the element-by-element swap loop exchanges the contents of the two arrays |
| Nodes.CircleNode.Access | CircleNode.cpp:75-79 | access returns `[center_x, center_y, radius]` |
| Nodes.CircleNode.TwoPoints | CircleNode.cpp:9-23 | the centre-and-point tag gets both parents and the state of a circle update from a starting payload of `[0, 0, 0]`; any other tag leaves no parents and an ill-defined node |
| Nodes.CircleNode.ThreePoints | CircleNode.cpp:25-41 | the three-point and centre-and-radius tags get three parents and the state of a circle update from a starting payload of `[0, 0, 0]`; any other tag leaves no parents and an ill-defined node |
| Nodes.CircleNode.Mutate | CircleNode.cpp:81-86 | afterwards the circle shows MutateStep of the data against its parents' views |
| Nodes.CircleNode.Update | CircleNode.cpp:88-94 | afterwards the circle shows CircleStep of its old payload and its parents' views |
| Nodes.CircleNode.Run | CircleNode.cpp:92-93 | the bound formula runs on the parent points |
| Nodes.CircleNode.Dispatch | CircleNode.cpp:96-165 | the member function bound to each tag computes the corresponding circle |
| Nodes.CircleNode.ThroughThreeFormula | CircleNode.cpp:96-131 | the fields become the three-point circle, or the node becomes ill-defined with its payload kept |
| Nodes.CircleNode.CenterThroughFormula | CircleNode.cpp:133-148 | the fields become the centre-and-point circle, with the flag `radius > EPSILON` |
| Nodes.CircleNode.CenterRadiusFormula | CircleNode.cpp:150-165 | the fields become the circle with the radius as written, with the flag `radius > EPSILON` |
| Nodes.Circumcentre | CircleNode.cpp:111-124 | the step-by-step centre computation yields the circumcentre formula |
| Nodes.TermsAsWritten | CircleNode.cpp:114-124 | the named intermediate quantities give the numerators and denominators |
| Nodes.LineNode.Access | LineNode.h:35 | access returns the three coefficients |
| Nodes.LineNode.constructor | LineNode.h:22-28 | the line gets its tag as definition, both parents, the declared initial coefficients `[0, 0, 0]`, and then the state of a line update |
| Nodes.LineNode.Mutate | LineNode.h:36 | afterwards the line shows LineStep of the data against its parents' views |
| Nodes.LineNode.Update | LineNode.h:38-39 | afterwards the line shows LineStep of its coefficients and its parents' views |
| Nodes.LineNode.Run | LineNode.h:39-45 | the line formula bound to the tag runs on the parents' access vectors and either sets the coefficients or leaves them and makes the line ill-defined |
| Graph.ReplayShape | GeoComponents.h:18-19 | the forward pass changes no kind, no parent link and nothing stored before its start |
| Graph.ReplayConsistent | GeoComponents.h:18-19 | after one forward pass, every visited entry holds the step of its old payload against the final views of its parents |
| Graph.EditShape | GeoComponents.h:18-19 | editing changes no kind, no link and nothing before the edited entry, and it keeps storage order topological |
| Graph.EditSpec | GeoComponents.h:18-19 | after an edit, the edited entry holds mutate(data) against its parents, every later entry is consistent with its parents, and everything before it is unchanged |
| Graph.EditIllDefinedSpreads | GeoComponents.h:18-19 | when the edited entry ends ill-defined, every construction derived from it is ill-defined too and keeps its payload |
| Graph.DescendsFromEarlier | GeoComponents.h:20-21 | nothing stored before the target is derived from it |
| Graph.SurvivorsSpec | GeoComponents.h:20-21 | the survivors are exactly the positions not derived from the target, listed in increasing order |
| Graph.SurvivorsPrefix | GeoComponents.h:20-21 | the survivors below m are a prefix of the survivors below n |
| Graph.SurvivorAtRank | GeoComponents.h:20-21 | a surviving entry is found at its rank |
| Graph.RemoveSpec | GeoComponents.h:20-21 | removal drops the target and exactly its descendants; the rest keep their order, kind and payload; each survivor sees the same parent views; the result is shorter and topological |
| Graph.RemoveParents | GeoComponents.h:20-21 | a survivor's renumbered parents are stored before it and show what its old parents showed |
| Graph.RemoveShorter | GeoComponents.h:20-21 | the target itself is removed, so the sequence gets shorter |
| Graph.RemoveLink | GeoComponents.h:20-21 | every parent of a survivor survives too, at a smaller new position |
| Components.AscendingIncreasing | GeoComponents.h:36 | numbering pids by the counter one at a time is the same as pairwise increasing pids, all below the counter |
| Components.EntriesSpec | GeoComponents.h:35 | the stored value is topological, and each node reads in update() exactly the entries its links point to |
| Components.ShapedWellFormed | GeoComponents.h:35 | a value carrying the links of stored nodes is topological |
| Components.MarkStep | GeoComponents.h:20-21 | a node has a marked parent exactly when it is derived from the target |
| Components.StoredOnce | GeoComponents.h:35 | a stored node is stored at no other position |
| Components.RemoveLinked | GeoComponents.h:20-21 | after erasing, every survivor's parents are still stored before it |
| Components.PickDistinct | GeoComponents.h:20-21 | the survivors are distinct, well-formed nodes |
| Components.KeptLinks | GeoComponents.h:20-21 | each survivor's renumbered links point at its own parents |
| Components.PickNumbered | GeoComponents.h:20-21 | erasing keeps the survivors' pids increasing and below the counter |
| Components.RemoveEntries | GeoComponents.h:20-21 | what is left after erasing is the value model's removal |
| Components.RemovePlan | GeoComponents.h:20-21 | erasing leaves stored constructions whose value is the removal |
| Components.AppendLinked | GeoComponents.h:16-17 | appending a node whose parents are stored keeps the links topological |
| Components.AppendNumbered | GeoComponents.h:16-17 | appending a node carrying the counter's pid keeps the numbering |
| Components.AppendEntries | GeoComponents.h:16-17 | appending a node appends its entry, and leaves earlier entries unchanged |
| Components.Label | GeoComponents.h:16-17 | labelling a node that is not stored yet changes nothing stored |
| Components.MutateAt | GeoComponents.h:18-19 | mutate on the stored node at k changes only its entry, to mutate(data) against its parents' entries; every label and pid stays |
| Components.UpdateAt | GeoComponents.h:18-19 | update on the stored node at i is the value model's refresh of entry i; every label and pid stays |
| Components.Propagate | GeoComponents.h:18-19 | mutate followed by the forward loop of updates turns the stored value into the value model's edit |
| Components.Find | GeoComponents.h:30 | the first position holding the pid, or None exactly when no stored node carries it |
| Components.PidUnique | GeoComponents.h:36 | no two stored constructions share a pid |
| Components.GeoComponents.constructor | GeoComponents.h:15 | nothing is stored, next_pid starts at 0, and the invariant holds |
| Components.GeoComponents.GetConstruction | GeoComponents.h:30 | returns the stored construction with that pid, or None (null) exactly when no stored construction has it |
| Components.GeoComponents.GetPid | GeoComponents.h:29 | returns the pid of the first stored construction with that label, or the unsigned -1 exactly when none has it |
| Components.GeoComponents.Add | GeoComponents.h:16-17 | the node gets the label and next_pid and is appended at the back; next_pid advances by one; earlier entries are untouched; the invariant holds |
| Components.GeoComponents.Edit | GeoComponents.h:18-19 | the stored value becomes the edit of the construction with that pid (or nothing changes when there is none); labels, pids and storage are unchanged |
| Components.GeoComponents.Remove | GeoComponents.h:20-21 | the construction with that pid and exactly its descendants are removed, the others keep their order and pids (nothing happens when there is none); the invariant holds |
| Components.GeoComponents.RemoveAt | GeoComponents.h:20-21 | the stored sequence becomes the survivors, and the stored value becomes the removal |
| Components.GeoComponents.Install | GeoComponents.h:35-36 | storing stored constructions establishes the invariant |
| Components.AnyMarked | GeoComponents.h:20-21 | true exactly when some parent is marked |
| Components.Mark | GeoComponents.h:20-21 | the forward scan marks exactly the target and its descendants |
| Components.Sweep | GeoComponents.h:20-21 | the unmarked nodes in storage order are the survivors, with their links renumbered |
| Components.SweepStep | GeoComponents.h:20-21 | one sweep step drops a descendant and appends any other node |
| Components.Erase | GeoComponents.h:20-21 | both passes together leave stored constructions whose value is the removal |

## Left out

- `display`, `print`, `labels` and the destructors of both node classes: they are plotting, console and UI code. The same goes for the container's display, label-update, print and destructor members, and for releasing removed nodes.
- Steps.LineStep, Nodes.LineNode.constructor, Nodes.LineNode.Mutate, Nodes.LineNode.Update, Nodes.LineNode.Run: LineNode.cpp is not part of this model. The five line formulas are a parameter of the environment (`Env.lineFormula`), so nothing is proved about what they compute. The line node is assumed to follow the pattern PointNode.cpp and CircleNode.cpp share: the constructor binds the definition and runs update(); mutate overwrites the coefficients and runs update(); update() ANDs the parents' flags and then runs the formula; a refused formula keeps the coefficients.
- GeoNode.h is not part of this model.
  - EPSILON is a parameter, required to be positive.
  - The square root is a parameter, required to be exact on non-negative arguments; its value on negative arguments is unconstrained.
  - A free independent point starts with the flag true; this is assumed to be the base class's default.
- IEEE `double` behaviour is not modelled: rounding, NaN and infinities. Division by zero yields 0.
  - The line–circle test at PointNode.cpp:197 and :227 compares a NaN at once for a line with `a = b = 0`. The model refuses there, as the source does.
  - Three other inputs give NaN coordinates while the flag stays true. The model holds its own values there instead:
    - on_line onto a line with `a = b = 0`, which divides by zero at PointNode.cpp:118;
    - circle–circle with coincident centres, which the band at PointNode.cpp:257 lets through when `|R - r|` is at most EPSILON, and which divides by `dist = 0` at :271-274;
    - circle–circle with `dist` below `|R - r|` but inside the band, where the square root at PointNode.cpp:276 and :316 takes a negative argument.
  - A node built on such a point reads those NaN coordinates. Every comparison a NaN takes part in is false in the source, so such a node may be ill-defined there; for example, a centre-and-point circle gets `radius = sqrt(NaN)` and fails the test at CircleNode.cpp:146. The model decides the same comparisons on its own values. The well-defined flags of nodes built on such a point are therefore the model's, not the source's.
  - PointFormulas.FootIdempotent, the normal-direction clause of PointFormulas.FootSpec, and Steps.UpdateIdempotent for on-line points describe the model's values at those inputs.
- PointFormulas.CircleCircleSpec: the mirror clause is stated for distinct centres only. With coincident centres the source divides by `dist = 0`, and its coordinates are NaN.
- PointFormulas.CrossingMirror: requires a nonzero centre distance, for the same reason.
- Steps.UpdateIdempotent: requires a radius of at least EPSILON for on-circle points. Below it the source drifts, as Steps.OnCircleDrift shows, so for those points the model does not claim that a repeated update() changes nothing.
- The stale declarations in PointNode.h and CircleNode.h are not part of this model.
- GeoComponents.cpp is not part of this model, so the container follows its header's documentation. Where the documentation leaves a choice open, the model assumes:
  - get_pid returns the first match in storage order;
  - get_construction looks up by pid;
  - an unknown pid makes edit and remove do nothing.
- Components.GeoComponents.Add: requires `next_pid < 0xFFFF_FFFF`. The 32-bit wrap-around of the counter is not modelled, and this bound keeps the unsigned -1 of get_pid from ever being a real pid.
- Components.GeoComponents.Add: requires the node's parents to be stored already. The source does not check this, but it is what keeps storage order topological.
- Components.GeoComponents.Add: requires the node not to be stored already. The source does not check this. Adding a stored node again would leave one node at two positions with two pids, which the invariant's distinct-nodes clause excludes.
- Components.GeoComponents.Edit: requires the data to hold at least as many entries as the node's payload, because the source reads that many entries of a raw array.
- Erasing from the vector is modelled as rebuilding the sequence of survivors. In-place erasure and the invalidation of iterators are not captured.
- Components.Find: a recursive function standing in for the lookup loop of get_construction and edit, whose body is not shown.
- Parent pointers are modelled as references to node objects. The container keeps the positions of each node's parents as ghost state.
- Nodes.PointNode.Free, Nodes.PointNode.OneParent, Nodes.PointNode.TwoParents, Nodes.CircleNode.TwoPoints, Nodes.CircleNode.ThreePoints: with an unrecognised tag the source leaves the coordinates uninitialised. The contracts promise nothing about them.
- Nodes.PointNode.TwoParents, Nodes.CircleNode.TwoPoints, Nodes.CircleNode.ThreePoints: the source never initialises the payload of these nodes (PointNode.h:12, CircleNode.h:12), even for a recognised tag. A node whose first update() refuses, or that has an ill-defined parent, therefore holds indeterminate values in the source. The model starts from zeros instead, so in those cases the contracts describe the model's zeros, not the source's values.
- Reading past the end of a shorter access vector. A formula such as on_line or on_circle reading a point parent as a line or a circle into `double line[3]` or `double circle[3]` (PointNode.cpp:114-115, :126-127) sees an uninitialised entry in the source. The model (`Steps.Get`) reads 0 there, so its results for such a parent are the model's values, not the source's.
- Calling update() on a node without a definition uses a null member-function pointer in the source, which is undefined behaviour. Here such a node is kept ill-defined.
