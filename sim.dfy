/**
 * The gravitational simulator of graviton/sim: a collection of bodies and a
 * clock, advanced one time step at a time.  Each step visits the bodies in
 * collection order; each visited body is moved by the pull of all the others
 * as they are at that moment (the bodies visited before it already moved),
 * and is evicted when it has left the square the scatter limit bounds.
 *
 * Bodies are values here: moving a body replaces its entry in the collection.
 * The pull one body exerts on another involves a square root, which is not
 * modelled: it is a parameter of the operations that need it, and Newton
 * states the law the simulator instantiates it with, given the distance.
 */
module Sim {
  import opened Wrappers
  import opened Bodies

  /** The gravitational constant 6.67384e-11 used when none is given. */
  const DEFAULT_G: real := 0.0000000000667384
  const DEFAULT_DELTA_T: real := 25000.0
  const DEFAULT_SCATTER_LIMIT: real := 10000.0

  /** The simulator's settings. */
  datatype Options = Options(G: real, deltaT: real, collisions: bool, scatterLimit: real)

  /** The settings a simulator is created with; a missing setting is None. */
  datatype Args = Args(G: Option<real>, deltaT: Option<real>, collision: Option<bool>, scatterLimit: Option<real>)

  /** A number setting as JavaScript's `||` reads it: a missing or zero value is falsy and gives way to the default. */
  function OrDefault(v: Option<real>, default: real): (r: real)
    ensures v.Some? && v.value != 0.0 ==> r == v.value
    ensures v.None? || v.value == 0.0 ==> r == default
  {
    if v.Some? && v.value != 0.0 then v.value else default
  }

  /**
   * The settings given the arguments (None when no arguments are passed).
   * The collision setting is `collision || true`, which is true whatever it
   * is given.
   */
  function Configure(args: Option<Args>): (o: Options)
    ensures args.None? ==> o == Options(DEFAULT_G, DEFAULT_DELTA_T, true, DEFAULT_SCATTER_LIMIT)
    ensures args.Some? ==>
      && o.G == OrDefault(args.value.G, DEFAULT_G)
      && o.deltaT == OrDefault(args.value.deltaT, DEFAULT_DELTA_T)
      && o.scatterLimit == OrDefault(args.value.scatterLimit, DEFAULT_SCATTER_LIMIT)
  {
    var a := if args.Some? then args.value else Args(None, None, None, None);
    var collisions := if a.collision.Some? && a.collision.value then a.collision.value else true;
    Options(OrDefault(a.G, DEFAULT_G), OrDefault(a.deltaT, DEFAULT_DELTA_T), collisions,
            OrDefault(a.scatterLimit, DEFAULT_SCATTER_LIMIT))
  }

  /** Collision detection is on whatever the arguments say. */
  lemma CollisionsAlwaysOn(args: Option<Args>)
    ensures Configure(args).collisions
  {
  }

  /** The offset from one body to another and the square of their distance. */
  datatype Delta = Delta(dx: real, dy: real, r2: real)

  function Distance(body: Body, other: Body): (d: Delta)
    ensures d.dx == other.x - body.x && d.dy == other.y - body.y
    ensures d.r2 == d.dx * d.dx + d.dy * d.dy && 0.0 <= d.r2
  {
    var dx := other.x - body.x;
    var dy := other.y - body.y;
    SquaresNonnegative(dx, dy);
    Delta(dx, dy, dx * dx + dy * dy)
  }

  lemma SquaresNonnegative(dx: real, dy: real)
    ensures 0.0 <= dx * dx + dy * dy
  {
    SquareNonnegative(dx);
    SquareNonnegative(dy);
  }

  lemma SquareNonnegative(x: real)
    ensures 0.0 <= x * x
  {
    if x < 0.0 {
      MulPositive(-x, -x);
      assert (-x) * (-x) == x * x;
    } else if x > 0.0 {
      MulPositive(x, x);
    }
  }

  lemma MulPositive(a: real, b: real)
    requires 0.0 < a && 0.0 < b
    ensures 0.0 < a * b
  {
  }

  /** Squaring is strictly increasing on the non-negative reals. */
  lemma SquareBelow(c: real, r: real)
    requires 0.0 <= c < r
    ensures c * c < r * r
  {
    MulPositive(r - c, r + c);
    assert (r - c) * (r + c) == r * r - c * c;
  }

  /** The offset is antisymmetric and the distance symmetric. */
  lemma DistanceAntisymmetric(a: Body, b: Body)
    ensures Distance(a, b).dx == -Distance(b, a).dx
    ensures Distance(a, b).dy == -Distance(b, a).dy
    ensures Distance(a, b).r2 == Distance(b, a).r2
  {
    var dx := b.x - a.x;
    var dy := b.y - a.y;
    assert (-dx) * (-dx) == dx * dx;
    assert (-dy) * (-dy) == dy * dy;
  }

  /** A force on a body, by axis. */
  datatype Force = Force(fx: real, fy: real)

  /**
   * Newton's law of gravitation for the pull `other` exerts on `body` at
   * distance r, the square root of the squared distance: magnitude
   * G m1 m2 / r², along the offset from body to other.  The law is not
   * defined when the bodies coincide.  For positive G and masses the pull is
   * an attraction: along each axis it points from body towards other.
   */
  function Newton(G: real, body: Body, other: Body, r: real): (f: Force)
    requires 0.0 < r && r * r == Distance(body, other).r2
    ensures 0.0 < G * body.mass * other.mass ==>
      && (0.0 < f.fx <==> body.x < other.x) && (f.fx < 0.0 <==> other.x < body.x)
      && (0.0 < f.fy <==> body.y < other.y) && (f.fy < 0.0 <==> other.y < body.y)
  {
    var d := Distance(body, other);
    var F := (G * body.mass * other.mass) / (r * r);
    if 0.0 < G * body.mass * other.mass then
      MulPositive(r, r);
      ScaledSign(F, d.dx, r);
      ScaledSign(F, d.dy, r);
      Force(F * (d.dx / r), F * (d.dy / r))
    else
      Force(F * (d.dx / r), F * (d.dy / r))
  }

  /** A positive magnitude times d / r, for positive r, has the sign of d. */
  lemma ScaledSign(F: real, d: real, r: real)
    requires 0.0 < F && 0.0 < r
    ensures 0.0 < F * (d / r) <==> 0.0 < d
    ensures F * (d / r) < 0.0 <==> d < 0.0
  {
    if 0.0 < d {
      MulPositive(F, d / r);
    } else if d < 0.0 {
      MulPositive(F, -d / r);
      assert F * (d / r) == -(F * (-d / r));
    }
  }

  /** Newton's third law: two bodies pull each other with opposite forces. */
  lemma NewtonThirdLaw(G: real, a: Body, b: Body, r: real)
    requires 0.0 < r && r * r == Distance(a, b).r2
    ensures Newton(G, a, b, r).fx == -Newton(G, b, a, r).fx
    ensures Newton(G, a, b, r).fy == -Newton(G, b, a, r).fy
  {
    DistanceAntisymmetric(a, b);
    assert r * r == Distance(b, a).r2;
    var Fa := (G * a.mass * b.mass) / (r * r);
    var Fb := (G * b.mass * a.mass) / (r * r);
    assert G * a.mass * b.mass == G * b.mass * a.mass;
    assert Fa == Fb;
    var dx := Distance(a, b).dx;
    var dy := Distance(a, b).dy;
    assert Distance(b, a).dx / r == -(dx / r);
    assert Distance(b, a).dy / r == -(dy / r);
  }

  /**
   * The pull a body feels from every other body of the collection among the
   * first k, summed by axis.  A body that no other body pulls feels no force,
   * whatever the pull says about the body and itself.
   */
  function NetForce(bs: seq<Body>, index: nat, pull: (Body, Body) -> Force, k: nat): (f: Force)
    requires index < |bs| && k <= |bs|
    ensures (forall j :: 0 <= j < k && j != index ==> pull(bs[index], bs[j]) == Force(0.0, 0.0)) ==>
      f == Force(0.0, 0.0)
  {
    if k == 0 then Force(0.0, 0.0)
    else
      var f := NetForce(bs, index, pull, k - 1);
      if k - 1 == index then f
      else
        var p := pull(bs[index], bs[k - 1]);
        Force(f.fx + p.fx, f.fy + p.fy)
  }

  /**
   * A body feels no pull from itself: two pulls that agree on the body and
   * every other entry give the same net force, whatever they say about the
   * body's own entry.
   */
  lemma {:induction false} NetForceSkipsSelf(bs: seq<Body>, index: nat, p1: (Body, Body) -> Force,
                                             p2: (Body, Body) -> Force, k: nat)
    requires index < |bs| && k <= |bs|
    requires forall j :: 0 <= j < k && j != index ==> p1(bs[index], bs[j]) == p2(bs[index], bs[j])
    ensures NetForce(bs, index, p1, k) == NetForce(bs, index, p2, k)
  {
    if k > 0 {
      NetForceSkipsSelf(bs, index, p1, p2, k - 1);
    }
  }

  /**
   * A semi-implicit Euler step over dt: the velocity takes the acceleration
   * force/mass first, and the position then moves by the new velocity.
   */
  function Advance(b: Body, f: Force, dt: real): (r: Body)
    requires b.mass != 0.0
    ensures b.mass * (r.velX - b.velX) == dt * f.fx && b.mass * (r.velY - b.velY) == dt * f.fy
    ensures r.x == b.x + dt * r.velX && r.y == b.y + dt * r.velY
    ensures r.mass == b.mass && r.radius == b.radius
  {
    var ax := f.fx / b.mass;
    var ay := f.fy / b.mass;
    var velX := b.velX + dt * ax;
    var velY := b.velY + dt * ay;
    b.(velX := velX, velY := velY, x := b.x + dt * velX, y := b.y + dt * velY)
  }

  /**
   * The position moves by dt times the old velocity plus dt² times the
   * acceleration, which is what makes the step semi-implicit; mass and
   * radius stay.
   */
  lemma AdvanceIsSemiImplicit(b: Body, f: Force, dt: real)
    requires b.mass != 0.0
    ensures var r := Advance(b, f, dt);
      && r.velX == b.velX + dt * (f.fx / b.mass)
      && r.velY == b.velY + dt * (f.fy / b.mass)
      && r.x == b.x + dt * b.velX + dt * dt * (f.fx / b.mass)
      && r.y == b.y + dt * b.velY + dt * dt * (f.fy / b.mass)
      && r.mass == b.mass && r.radius == b.radius
  {
    var ax := f.fx / b.mass;
    var ay := f.fy / b.mass;
    assert dt * (b.velX + dt * ax) == dt * b.velX + dt * dt * ax;
    assert dt * (b.velY + dt * ay) == dt * b.velY + dt * dt * ay;
  }

  /** Whether a body lies strictly outside the square [-limit, limit]². */
  predicate Scattered(b: Body, limit: real)
  {
    b.x > limit || b.x < -limit || b.y > limit || b.y < -limit
  }

  /** A body is kept exactly when both its coordinates lie in [-limit, limit], bounds included. */
  lemma ScatteredOutside(b: Body, limit: real)
    ensures !Scattered(b, limit) <==> -limit <= b.x <= limit && -limit <= b.y <= limit
  {
  }

  /**
   * Whether two bodies touch: their distance is at most the sum of their
   * radii, stated over the squared distance.
   */
  predicate Collides(a: Body, b: Body)
  {
    var clearance := a.radius + b.radius;
    0.0 <= clearance && Distance(a, b).r2 <= clearance * clearance
  }

  /** Stating the test over the squared distance is exact: for the distance r itself, r <= clearance iff they collide. */
  lemma CollidesByDistance(a: Body, b: Body, r: real)
    requires 0.0 <= r && r * r == Distance(a, b).r2
    ensures r <= a.radius + b.radius <==> Collides(a, b)
  {
    var c := a.radius + b.radius;
    if r < c {
      SquareBelow(r, c);
    } else if 0.0 <= c < r {
      SquareBelow(c, r);
    }
  }

  /** Removing entry i by splicing one element out; an index past the end removes nothing. */
  function Remove(bs: seq<Body>, i: nat): (r: seq<Body>)
    ensures i < |bs| ==> |r| == |bs| - 1
    ensures i >= |bs| ==> r == bs
  {
    if i < |bs| then bs[..i] + bs[i + 1..] else bs
  }

  /** Removal keeps the order of the others and takes out exactly the entry at i. */
  lemma RemoveEntries(bs: seq<Body>, i: nat)
    requires i < |bs|
    ensures forall j :: 0 <= j < i ==> Remove(bs, i)[j] == bs[j]
    ensures forall j :: i <= j < |bs| - 1 ==> Remove(bs, i)[j] == bs[j + 1]
    ensures multiset(Remove(bs, i)) + multiset{bs[i]} == multiset(bs)
  {
    assert bs == bs[..i] + [bs[i]] + bs[i + 1..];
  }

  /** Every body of the collection has a mass to divide by. */
  predicate Weighty(bs: seq<Body>)
  {
    forall i :: 0 <= i < |bs| ==> bs[i].mass != 0.0
  }

  /** Moving body i by the pull of the others as they are now. */
  function MoveBody(bs: seq<Body>, i: nat, dt: real, pull: (Body, Body) -> Force): (r: seq<Body>)
    requires i < |bs| && Weighty(bs)
    ensures |r| == |bs| && Weighty(r)
    ensures forall j :: 0 <= j < |bs| && j != i ==> r[j] == bs[j]
  {
    bs[i := Advance(bs[i], NetForce(bs, i, pull, |bs|), dt)]
  }

  /**
   * The collection after a step's visits from index i on: the body at i is
   * moved and, if it has scattered, removed; the visit then goes on at i + 1
   * in the collection as it now is.
   */
  function StepFrom(bs: seq<Body>, i: nat, o: Options, pull: (Body, Body) -> Force): (r: seq<Body>)
    requires Weighty(bs)
    decreases |bs| - i
    ensures |r| <= |bs| && Weighty(r)
    ensures i <= |bs| ==> i <= |r| && r[..i] == bs[..i]
  {
    if i >= |bs| then bs
    else
      var moved := MoveBody(bs, i, o.deltaT, pull);
      if Scattered(moved[i], o.scatterLimit) then
        RemoveWeighty(moved, i);
        RemoveEntries(moved, i);
        assert Remove(moved, i)[..i] == bs[..i];
        StepFrom(Remove(moved, i), i + 1, o, pull)
      else StepFrom(moved, i + 1, o, pull)
  }

  lemma RemoveWeighty(bs: seq<Body>, i: nat)
    requires Weighty(bs)
    ensures Weighty(Remove(bs, i))
  {
    if i < |bs| {
      RemoveEntries(bs, i);
    }
  }

  /**
   * The step visits bodies in order and each sees the ones before it
   * already moved; moving all bodies by the pull of the collection as it was
   * before the step is a different computation.
   */
  function Simultaneous(bs: seq<Body>, dt: real, pull: (Body, Body) -> Force): (r: seq<Body>)
    requires Weighty(bs)
    ensures |r| == |bs|
    ensures forall j :: 0 <= j < |bs| ==> r[j] == Advance(bs[j], NetForce(bs, j, pull, |bs|), dt)
  {
    seq(|bs|, j requires 0 <= j < |bs| => Advance(bs[j], NetForce(bs, j, pull, |bs|), dt))
  }

  /** A pull in proportion to the offset along x, for the example below. */
  function Spring(body: Body, other: Body): Force
  {
    Force(other.x - body.x, 0.0)
  }

  /** A visit that leaves the body within the limit goes on at the next index of the updated collection. */
  lemma StepVisit(bs: seq<Body>, i: nat, o: Options, pull: (Body, Body) -> Force)
    requires Weighty(bs) && i < |bs|
    ensures !Scattered(MoveBody(bs, i, o.deltaT, pull)[i], o.scatterLimit) ==>
      StepFrom(bs, i, o, pull) == StepFrom(MoveBody(bs, i, o.deltaT, pull), i + 1, o, pull)
  {
  }

  /**
   * When the visit at i evicts its body, the body behind it slides into
   * index i while the visit goes on at i + 1: that body is not moved in this
   * step.
   */
  lemma EvictionSkipsNext(bs: seq<Body>, i: nat, o: Options, pull: (Body, Body) -> Force)
    requires Weighty(bs) && i + 1 < |bs|
    requires Scattered(MoveBody(bs, i, o.deltaT, pull)[i], o.scatterLimit)
    ensures |StepFrom(bs, i, o, pull)| > i && StepFrom(bs, i, o, pull)[i] == bs[i + 1]
  {
    var moved := MoveBody(bs, i, o.deltaT, pull);
    RemoveEntries(moved, i);
    RemoveWeighty(moved, i);
    var rest := StepFrom(Remove(moved, i), i + 1, o, pull);
    assert rest[..i + 1] == Remove(moved, i)[..i + 1];
    assert rest[i] == Remove(moved, i)[i];
  }

  /** Two unit masses at rest a unit apart on the x axis. */
  predicate IsPair(bs: seq<Body>)
  {
    bs == [Body(0.0, 0.0, 0.0, 0.0, 1.0, 0.0), Body(1.0, 0.0, 0.0, 0.0, 1.0, 0.0)]
  }

  /** The net pulls under Spring: before the step, and on the second body once the first has moved. */
  lemma PairForces(bs: seq<Body>)
    requires IsPair(bs)
    ensures NetForce(bs, 0, Spring, 2) == Force(1.0, 0.0)
    ensures NetForce(bs, 1, Spring, 2) == Force(-1.0, 0.0)
    ensures NetForce(bs[0 := Body(1.0, 0.0, 1.0, 0.0, 1.0, 0.0)], 1, Spring, 2) == Force(0.0, 0.0)
  {
    assert NetForce(bs, 0, Spring, 1) == Force(0.0, 0.0);
    assert NetForce(bs, 1, Spring, 1) == Force(-1.0, 0.0);
    var first := bs[0 := Body(1.0, 0.0, 1.0, 0.0, 1.0, 0.0)];
    assert NetForce(first, 1, Spring, 1) == Force(0.0, 0.0);
  }

  /** Stepped in turn with a unit time step, the first body moves onto the second, which then feels no pull and stays. */
  lemma PairStepsInTurn(bs: seq<Body>, o: Options)
    requires IsPair(bs) && o.deltaT == 1.0 && o.scatterLimit == DEFAULT_SCATTER_LIMIT
    ensures StepFrom(bs, 0, o, Spring) == [Body(1.0, 0.0, 1.0, 0.0, 1.0, 0.0), Body(1.0, 0.0, 0.0, 0.0, 1.0, 0.0)]
  {
    PairForces(bs);
    var first := MoveBody(bs, 0, 1.0, Spring);
    assert first == bs[0 := Body(1.0, 0.0, 1.0, 0.0, 1.0, 0.0)];
    StepVisit(bs, 0, o, Spring);
    var second := MoveBody(first, 1, 1.0, Spring);
    assert second == first;
    StepVisit(first, 1, o, Spring);
  }

  /** Moved together with a unit time step, the two bodies swap places. */
  lemma PairMovesTogether(bs: seq<Body>)
    requires IsPair(bs)
    ensures Simultaneous(bs, 1.0, Spring) == [Body(1.0, 0.0, 1.0, 0.0, 1.0, 0.0), Body(0.0, 0.0, -1.0, 0.0, 1.0, 0.0)]
  {
    PairForces(bs);
  }

  /** The step's in-turn update is not the simultaneous one. */
  lemma SequentialIsNotSimultaneous(bs: seq<Body>, o: Options)
    requires IsPair(bs) && o.deltaT == 1.0 && o.scatterLimit == DEFAULT_SCATTER_LIMIT
    ensures StepFrom(bs, 0, o, Spring) != Simultaneous(bs, o.deltaT, Spring)
  {
    PairStepsInTurn(bs, o);
    PairMovesTogether(bs);
    assert StepFrom(bs, 0, o, Spring)[1] != Simultaneous(bs, o.deltaT, Spring)[1];
  }

  /** The simulator: its settings, its collection of bodies and its clock. */
  class Simulation {
    const options: Options
    var bodies: seq<Body>
    var time: real

    ghost predicate Valid()
      reads this
    {
      Weighty(bodies)
    }

    /** A simulator with the given arguments, no bodies, at time 0. */
    constructor (args: Option<Args>)
      ensures Valid()
      ensures options == Configure(args) && bodies == [] && time == 0.0
    {
      options := Configure(args);
      bodies := [];
      time := 0.0;
    }

    /**
     * One time step: every body in turn is checked for collisions, moved,
     * and evicted if it has scattered; then the clock advances by deltaT.
     */
    method Step(pull: (Body, Body) -> Force)
      requires Valid()
      modifies this
      ensures Valid()
      ensures bodies == StepFrom(old(bodies), 0, options, pull)
      ensures time == old(time) + options.deltaT
    {
      var i := 0;
      while i < |bodies|
        invariant Valid()
        invariant StepFrom(bodies, i, options, pull) == StepFrom(old(bodies), 0, options, pull)
        invariant time == old(time)
        decreases |bodies| - i
      {
        if options.collisions {
          var _ := DetectCollision(i);
        }
        CalculateNewPosition(i, options.deltaT, pull);
        RemoveScattered(i);
        i := i + 1;
      }
      time := time + options.deltaT;
    }

    /**
     * Moves body `index` by the pull of every other body of the collection:
     * the pulls are summed first, then the body's velocity and position are
     * updated in that order.
     */
    method CalculateNewPosition(index: nat, deltaT: real, pull: (Body, Body) -> Force)
      requires Valid() && index < |bodies|
      modifies this
      ensures Valid()
      ensures bodies == MoveBody(old(bodies), index, deltaT, pull)
      ensures time == old(time)
    {
      var netFx := 0.0;
      var netFy := 0.0;
      var i := 0;
      while i < |bodies|
        invariant i <= |bodies|
        invariant bodies == old(bodies)
        invariant Force(netFx, netFy) == NetForce(bodies, index, pull, i)
      {
        if i != index {
          var f := pull(bodies[index], bodies[i]);
          netFx := netFx + f.fx;
          netFy := netFy + f.fy;
        }
        i := i + 1;
      }
      assert Force(netFx, netFy) == NetForce(old(bodies), index, pull, |old(bodies)|);
      var moved := Advance(bodies[index], Force(netFx, netFy), deltaT);
      bodies := bodies[index := moved];
    }

    /** The indices of the bodies that touch body `index`, in collection order: what a collision check reports. */
    method DetectCollision(index: nat) returns (hits: seq<nat>)
      requires index < |bodies|
      ensures forall j: nat :: j in hits <==> j < |bodies| && j != index && Collides(bodies[index], bodies[j])
      ensures forall k :: 0 < k < |hits| ==> hits[k - 1] < hits[k]
    {
      hits := [];
      var i := 0;
      while i < |bodies|
        invariant i <= |bodies|
        invariant forall j: nat :: j in hits <==> j < i && j != index && Collides(bodies[index], bodies[j])
        invariant forall k :: 0 < k < |hits| ==> hits[k - 1] < hits[k]
        invariant forall k :: 0 <= k < |hits| ==> hits[k] < i
      {
        if i != index && Collides(bodies[index], bodies[i]) {
          hits := hits + [i];
        }
        i := i + 1;
      }
    }

    /** Evicts body `index` when it lies outside the scatter limit. */
    method RemoveScattered(index: nat)
      requires Valid() && index < |bodies|
      modifies this
      ensures Valid()
      ensures Scattered(old(bodies)[index], options.scatterLimit) ==> bodies == Remove(old(bodies), index)
      ensures !Scattered(old(bodies)[index], options.scatterLimit) ==> bodies == old(bodies)
      ensures time == old(time)
    {
      if Scattered(bodies[index], options.scatterLimit) {
        RemoveWeighty(bodies, index);
        bodies := Remove(bodies, index);
      }
    }

    /** Appends a body to the collection and hands it back. */
    method AddNewBody(b: Body) returns (r: Body)
      requires Valid() && b.mass != 0.0
      modifies this
      ensures Valid()
      ensures bodies == old(bodies) + [b] && r == b && time == old(time)
    {
      bodies := bodies + [b];
      r := b;
    }

    /** Removes the body at `index`; an index past the end removes nothing. */
    method RemoveBody(index: nat)
      requires Valid()
      modifies this
      ensures Valid()
      ensures bodies == Remove(old(bodies), index) && time == old(time)
    {
      RemoveWeighty(bodies, index);
      bodies := Remove(bodies, index);
    }

    /** Empties the collection; the clock keeps its time. */
    method Clear()
      modifies this
      ensures Valid()
      ensures bodies == [] && time == old(time)
    {
      bodies := [];
    }
  }
}
