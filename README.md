# graviton core in Dafny

graviton is a browser-based two-dimensional gravity simulator. This project
models its three core components:

- **The body quadtree** (`tree.dfy`, with mass sums in `moments.dfy`). A tree
  node covers a rectangular region, keeps the total mass and the centre of
  mass of the bodies inserted into it, and has four child slots in the order
  NW, NE, SW, SE. Each slot is empty, holds one body, or holds a nested node.
  - Inserting a body first folds it into the node's mass and centre.
  - It then picks the quadrant by comparing the body's position with the
    node's midpoint. It stores the body in an empty slot, descends into a
    child node, or splits an occupied slot into a half-size node that
    receives both bodies.
  - Insertion stops at a depth ceiling of 1000.
  - The tree wrapper (`QuadTree`) handles the empty root and the
    single-body root itself, and delegates to the root node otherwise.
  - The wrapper keeps, as ghost state, the sequence of bodies inserted and the
    sequence dropped at the depth ceiling. Its invariant ties them to the
    root:
    - the root's mass is the total inserted mass;
    - the root's mass times its centre is the total inserted moment;
    - reachable bodies plus dropped bodies are exactly the inserted bodies;
    - with nothing dropped, every node's aggregate is the mass and weighted
      centre of the bodies below it.
- **The simulator** (`sim.dfy`). It holds the options, the body collection and
  the clock.
  - A step visits the bodies in collection order. Each body gets a collision
    check, a move by the net pull of all the others, and eviction when it
    leaves the scatter square.
  - Later bodies see the already-moved earlier ones. A two-body example shows
    that this differs from an all-at-once update.
  - The move is semi-implicit: velocity first, then position with the new
    velocity.
  - Options default when they are missing or zero. Collision checks are on
    for every boolean or missing collision argument.
- **The event queue** (`events.js` → `events.dfy`). Browser input becomes
  event records, each tagged with its event code, which wait in a first-in
  first-out queue.
  - Creating a queue fails without a grid element.
  - Positions are measured from the grid's corner.
  - Wheel motion becomes a zoom delta, reversed in sign and scaled by 1/50.

Bodies are values (`Bodies.Body`). Masses, positions and forces are `real`.

## Model

| member | source | states |
|---|---|---|
| Tree.QuadrantIndex | src/graviton/tree.js:66-70 | the quadrant is in 0..3; bit 0 is set iff x is east of the midpoint, bit 1 iff y is south of it, so a point on a midline goes west or north |
| Tree.Quadrant | src/graviton/tree.js:36 | defined as the quadrant index of a point against the node's own midpoint |
| Tree.QuadrantX | src/graviton/tree.js:44 | defined as the x origin of a quadrant's sub-rectangle: the midline for the eastern quadrants 1 and 3, the node's start otherwise |
| Tree.QuadrantY | src/graviton/tree.js:45 | defined as the y origin of a quadrant's sub-rectangle: the midline for the southern quadrants 2 and 3, the node's start otherwise |
| Tree.QuadrantContains | src/graviton/tree.js:44-46 | for a point inside the node, the sub-quadrant origin chosen from its position and the half extents give a region that contains the point |
| Tree.NewNode | src/graviton/tree.js:8-27 | a new node keeps its extent, has its midpoint at origin plus half the extent, mass 0, centre (0, 0), four empty slots, and is well formed and consistent |
| Tree.UpdateMass | src/graviton/tree.js:56-63 | for a positive body mass, the new mass is the sum and the new mass times the new centre is the old moment plus the body's moment, in each axis; nothing else changes |
| Tree.Insert | src/graviton/tree.js:30-53 | beyond the ceiling the node is unchanged; otherwise mass and centre take the body, the three other slots are unchanged, an empty slot receives the body, an occupied slot becomes a node; the extent is kept and the result is well formed |
| Tree.Lost | src/graviton/tree.js:31-49 | defined as the bodies an insertion drops: the body itself past the ceiling, nothing for an empty slot, what the child loses when descending, and what the two insertions into the new node lose for a split |
| Tree.BeyondCeiling | src/graviton/tree.js:30-34 | an insertion deeper than the ceiling changes nothing and drops the body |
| Tree.SplitShape | src/graviton/tree.js:42-52 | splitting an occupied slot puts there a half-size node over the sub-rectangle of the existing body's quadrant, holding the existing body and then the new one, inserted one level deeper; the bodies they lose are the split's losses |
| Tree.CeilingSplit | src/graviton/tree.js:31-35 | a split at the ceiling depth counts the new body's mass in the parent but leaves an empty child node with mass 0, dropping both the existing and the new body |
| Tree.CoincidentBodiesDropped | src/graviton/tree.js:42-52 | two bodies at the same position in one quadrant split again and again until the ceiling, so both are dropped |
| Tree.InsertKeepsBodies | src/graviton/tree.js:30-53 | the bodies reachable after an insertion, plus the bodies it drops, are the bodies reachable before plus the inserted one |
| Tree.InsertAddsWeight | src/graviton/tree.js:35-52 | when nothing is dropped, the reachable mass and moment grow by exactly the body's |
| Tree.InsertConsistent | src/graviton/tree.js:35-52 | when nothing is dropped, insertion keeps every node's mass and centre equal to the mass and weighted mean position of the bodies below it |
| Tree.InsertTwoConsistent | src/graviton/tree.js:48-49 | the two insertions of a split keep the new node consistent when neither drops a body |
| Tree.AggregateTakesBody | src/graviton/tree.js:35-63 | after an insertion that drops nothing, the node's mass and centre are the total mass and weighted centre of its reachable bodies |
| Tree.InsertAccounts | src/graviton/tree.js:30-53 | the tree invariant relating node, inserted bodies and dropped bodies survives an insertion at depth 1 |
| Tree.SplitRootAccounts | src/graviton/tree.js:88-91 | a fresh full-extent node that receives the existing root body and then the new one satisfies the invariant for those two bodies |
| Tree.QuadTree.constructor | src/graviton/tree.js:74-80 | the tree keeps its extent and starts with an empty root and no bodies inserted or dropped |
| Tree.QuadTree.AddBody | src/graviton/tree.js:82-93 | the body is recorded as inserted and the invariant holds; an empty root takes the body, a body root becomes a full-extent node holding both bodies, a node root takes the body at depth 1 |
| Tree.QuadTree.Clear | src/graviton/tree.js:95-97 | the root is empty again and the invariant holds with no bodies |
| Tree.RootMoments | src/graviton/tree.js:82-93 | a node root's mass is the total inserted mass and its mass times centre is the total inserted moment, even when bodies were dropped |
| Tree.NothingLost | src/graviton/tree.js:82-93 | when nothing was dropped, the bodies reachable from the root are exactly the inserted bodies and every node is consistent |
| Moments.Sum | src/graviton/tree.js:57-59 | defined as the total mass, or total mass times coordinate, of a sequence of bodies, added up from the front |
| Moments.Centre | src/graviton/tree.js:58-59 | defined as the centre of mass along one axis folded in arrival order, one Blend step per body from 0 for no bodies |
| Moments.Blend | src/graviton/tree.js:57-59 | defined as the mass-weighted average of a running centre and a body's coordinate, the computation `_updateMass` does, and 0 when there is no mass at all |
| Moments.FoldBody | src/graviton/tree.js:56-63 | folding a positive-mass body into an aggregate of a sequence gives the aggregate of the sequence extended by the body |
| Moments.MassPositive | src/graviton/tree.js:57 | the total mass of positive-mass bodies is non-negative, and positive when there is at least one |
| Moments.CentreIsWeightedMean | src/graviton/tree.js:56-63 | the running centre, times the total mass, is the total moment |
| Moments.CentreIsQuotient | src/graviton/tree.js:58-59 | for a positive total mass, the running centre is the total moment over the total mass |
| Moments.SumPermutation | src/graviton/tree.js:56-63 | the total mass and moment do not depend on the order of the bodies |
| Moments.CentrePermutation | src/graviton/tree.js:56-63 | the running centre does not depend on the insertion order |
| Sim.OrDefault | src/graviton/sim.js:123-126 | a missing or zero option takes the default, any other value is kept |
| Sim.Configure | src/graviton/sim.js:119-126 | with no arguments every option has its default (G 6.67384e-11, deltaT 25000, scatter limit 10000); otherwise each takes its argument or its default |
| Sim.CollisionsAlwaysOn | src/graviton/sim.js:125 | collision checking is on whatever the arguments say |
| Sim.Distance | src/graviton/sim.js:66-77 | dx and dy are the other body's coordinates minus this one's, and the squared distance is dx² + dy², never negative |
| Sim.DistanceAntisymmetric | src/graviton/sim.js:66-77 | swapping the bodies negates dx and dy and keeps the squared distance |
| Sim.Newton | src/graviton/sim.js:44-46 | for the distance r, the square root of the squared distance, the force has magnitude G·m1·m2/r² along the offset; with positive G and masses it pulls body towards other along each axis |
| Sim.NewtonThirdLaw | src/graviton/sim.js:44-46 | the gravitational force of b on a is the negation of that of a on b |
| Sim.Collides | src/graviton/sim.js:82-85 | defined as a non-negative clearance (sum of radii) whose square is at least the squared distance |
| Sim.CollidesByDistance | src/graviton/sim.js:82-85 | for the distance r, r is within the sum of the radii iff the collision predicate holds |
| Sim.NetForce | src/graviton/sim.js:34-51 | the pulls of the first k other bodies summed by axis, skipping the body's own index; a body that no other body pulls feels no force, whatever the pull says about the body and itself |
| Sim.NetForceSkipsSelf | src/graviton/sim.js:38-50 | the net force never looks at the pull of a body on itself: pulls that agree on the other bodies give the same net force |
| Sim.Advance | src/graviton/sim.js:53-63 | mass times the velocity change is dt times the force, the position moves by dt times the NEW velocity, and mass and radius stay |
| Sim.AdvanceIsSemiImplicit | src/graviton/sim.js:53-63 | velocity gains dt·F/m, and position moves by dt times the new velocity, i.e. dt·v + dt²·F/m; mass and radius stay |
| Sim.MoveBody | src/graviton/sim.js:33-64 | moving one body keeps the collection's length and every other entry |
| Sim.Scattered | src/graviton/sim.js:94-97 | defined as some coordinate lying strictly beyond the limit on either side |
| Sim.ScatteredOutside | src/graviton/sim.js:93-101 | a body is kept iff both coordinates lie in the closed square [-limit, limit] |
| Sim.Remove | src/graviton/sim.js:110-112 | removing an index in range shortens the collection by one; an index out of range leaves it unchanged |
| Sim.RemoveEntries | src/graviton/sim.js:110-112 | entries before the index stay, later entries shift down by one, and the removed body is the only one missing |
| Sim.StepFrom | src/graviton/sim.js:19-28 | the visits from index i on never grow the collection, keep every mass nonzero and leave the already-visited prefix alone |
| Sim.StepVisit | src/graviton/sim.js:20-28 | a visit that does not evict moves body i in the collection and passes the updated collection on to the visit of i + 1 |
| Sim.EvictionSkipsNext | src/graviton/sim.js:20-28 | when the visit at i evicts its body and another body follows, that body slides into index i while the visit goes on at i + 1, so it comes out of the step unmoved |
| Sim.Simultaneous | src/graviton/sim.js:19-28 | the all-at-once update that a step is NOT: every body moved by the net pull of the collection as it was before the step |
| Sim.PairStepsInTurn | src/graviton/sim.js:19-28 | for two bodies pulled by a spring, the second body is moved by the pull of the already-moved first one |
| Sim.SequentialIsNotSimultaneous | src/graviton/sim.js:19-28 | a step differs from the all-at-once update on a concrete two-body collection |
| Sim.Simulation.constructor | src/graviton/sim.js:119-128 | options as configured, no bodies, time 0 |
| Sim.Simulation.Step | src/graviton/sim.js:19-31 | the collection becomes the result of visiting every index in order, and time advances by exactly deltaT |
| Sim.Simulation.CalculateNewPosition | src/graviton/sim.js:33-64 | body index is replaced by its semi-implicit move under the net pull of every other body; nothing else changes |
| Sim.Simulation.DetectCollision | src/graviton/sim.js:79-91 | changes nothing; reports, in increasing order, exactly the other indices whose body touches body index |
| Sim.Simulation.RemoveScattered | src/graviton/sim.js:93-101 | a scattered body is removed at its index; otherwise the collection is unchanged; time stays |
| Sim.Simulation.AddNewBody | src/graviton/sim.js:103-108 | the body is appended at the end and returned; earlier entries and time are unchanged |
| Sim.Simulation.RemoveBody | src/graviton/sim.js:110-112 | the collection loses the entry at the index |
| Sim.Simulation.Clear | src/graviton/sim.js:114-116 | the collection is empty; options and time stay |
| Events.GetPosition | src/graviton/events.js:295-302 | the position plus the grid offset is the client position, in each axis |
| Events.WheelDelta | src/graviton/events.js:245-247 | the delta times 50 is the negated scroll amount; scrolling down zooms out |
| Events.KeyOf | src/graviton/events.js:264 | the key code, or `which` when the key code is 0 |
| Events.PointerEvent | src/graviton/events.js:188-235 | a pointer record carries its code, grid position, button, modifier keys and time stamp |
| Events.KeyEvent | src/graviton/events.js:262-286 | a key record carries its code, the key, the modifier keys and the time stamp |
| Events.CheckGrid | src/graviton/events.js:104-112 | arguments succeed iff they give a grid, and then yield that grid |
| Events.Create | src/graviton/events.js:104-127 | fails with the missing-grid message iff no grid is given; otherwise a new, empty queue on that grid |
| Events.EventQueue.constructor | src/graviton/events.js:104-112 | the queue starts empty on the given grid |
| Events.EventQueue.QAdd | src/graviton/events.js:129-131 | the event is appended at the tail |
| Events.EventQueue.QPoll | src/graviton/events.js:133-135 | the head is removed and returned; an empty queue gives nothing and stays empty |
| Events.EventQueue.QGet | src/graviton/events.js:137-142 | every queued event is returned, oldest first, and the queue is left empty |
| Events.EventQueue.QClear | src/graviton/events.js:144-146 | the queue is empty |
| Events.EventQueue.HandleClick | src/graviton/events.js:188-197 | one CLICK record is queued |
| Events.EventQueue.HandleDblClick | src/graviton/events.js:199-208 | one DBLCLICK record is queued |
| Events.EventQueue.HandleContextMenu | src/graviton/events.js:210-213 | no record is queued |
| Events.EventQueue.HandleMouseDown | src/graviton/events.js:215-224 | one MOUSEDOWN record is queued |
| Events.EventQueue.HandleMouseUp | src/graviton/events.js:226-235 | one MOUSEUP record is queued |
| Events.EventQueue.HandleMouseMove | src/graviton/events.js:237-243 | one MOUSEMOVE record with the grid position and time stamp is queued |
| Events.EventQueue.HandleMouseWheel | src/graviton/events.js:245-256 | one MOUSEWHEEL record with the reversed, scaled delta is queued |
| Events.EventQueue.HandleKeyDown | src/graviton/events.js:262-273 | one KEYDOWN record is queued |
| Events.EventQueue.HandleKeyUp | src/graviton/events.js:275-286 | one KEYUP record is queued |
| Events.EventQueue.HandleControlClick | src/graviton/events.js:288-293 | one record with the button's code and the time stamp is queued |
| Events.FifoOrder | src/graviton/events.js:129-135 | two events added to a cleared queue are polled back in the order they were added, and a third poll finds the queue empty |

## Left out

- Tree nodes are values, not objects updated in place. `Tree.Insert` returns
  the updated node, and the tree wrapper replaces its root. Sharing of nodes
  between references is not modelled; nothing in the tree code shares them.
- Tree.Lost is a ghost companion of `Tree.Insert`: it lists the bodies an
  insertion drops at the depth ceiling. The source drops them silently.
- Tree.Insert requires a positive body mass. With a zero total mass the
  centre update divides by zero, which `real` arithmetic cannot express.
- Tree.Insert has no requirement that the body lie within the node's extent,
  and the source does not check it either. A body outside the extent is
  placed by the same midpoint comparison as any other. No property here
  depends on containment; `Tree.QuadrantContains` alone is stated for points
  inside the node.
- No Barnes-Hut traversal is modelled, because the tree code has none.
- Positions, masses and forces are `real`. IEEE rounding, infinities and NaN
  are not modelled.
- Sim.Simulation.Step takes the pairwise pull as a parameter `pull`. The
  source's pull is Newton's law with `r = Math.sqrt(dx² + dy²)`. `Sim.Newton`
  states that law for an `r > 0` whose square is the squared distance; the
  square root itself is not computed. The force at `r = 0` is undefined in
  the source and excluded here.
- Sim.Simulation.AddNewBody returns a copy of the body, not a handle into the
  collection. In the source the returned object is the one pushed into the
  collection, so a caller that later sets its velocity moves the body being
  simulated; here nothing a caller does to the returned value reaches the
  collection. The tree's leaves likewise hold copies of the bodies, where the
  source's leaves share the caller's body objects.
- Sim.Simulation.AddNewBody requires a nonzero mass, because the move divides
  by the mass. It takes a finished body: how `graviton/body` builds one from
  its arguments is not part of this model.
- Sim.StepFrom assumes two things about `util/lambda`, which is not part of
  this model:
  - `L.foreach` reads the live collection by index, in increasing order,
    until the index reaches the current length;
  - `L.remove` splices one entry out and leaves the collection unchanged for
    an index out of range.
  After a removal during a step the model goes on at the next index, so the
  body that slides into the freed index is not moved in that step
  (`Sim.EvictionSkipsNext`). What the real `L.foreach` does there is not
  established.
- Sim.Simulation.DetectCollision returns the indices it would log.
  `util/log` is not part of this model.
- Sim.Simulation.RemoveBody takes a natural index. Negative indices and
  `L.remove`'s return value are not modelled.
- Sim.Configure types the collision argument as a boolean. In the source a
  truthy non-boolean such as `1` survives `args.collision || true`, and the
  `=== true` test of the step then skips collision checks; that case is not
  modelled.
- Sim.Distance gives the squared distance only. The fact that the squared
  distance is zero iff the bodies coincide is not stated.
- Orbit stability and energy properties are not modelled.
- The DOM wiring in `wireupEvents`, `preventDefault`, and the button elements
  held by the event queue are not modelled. The same goes for the
  KEYCODES and MOUSECODES tables, which the queue code never reads.
- Events.Create returns a failure where the source throws an exception.
- The canvas renderer (`gfx.js`) and the application loop (`app.js`) are
  not part of this model.
