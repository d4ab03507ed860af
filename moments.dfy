/**
 * Aggregates over a sequence of bodies: total mass, first moments
 * (mass-weighted coordinates), and the centre of mass as a tree node folds it
 * in, one body at a time.
 */
module Moments {
  import opened Bodies

  datatype Axis = X | Y

  /** What a body contributes to an aggregate: its mass, or its mass times a coordinate. */
  datatype Quantity = Mass | Moment(axis: Axis)

  function Coord(b: Body, a: Axis): real
  {
    match a
    case X => b.x
    case Y => b.y
  }

  function Weight(b: Body, k: Quantity): real
  {
    match k
    case Mass => b.mass
    case Moment(a) => b.mass * Coord(b, a)
  }

  /** The sum of the weights of `s`, folded from the front. */
  function Sum(s: seq<Body>, k: Quantity): real
    decreases |s|
  {
    if s == [] then 0.0 else Sum(s[..|s| - 1], k) + Weight(s[|s| - 1], k)
  }

  /**
   * The centre of mass along one axis, folded in the order the bodies arrive:
   * the running centre and the new body are averaged, weighted by the running
   * mass and the body's mass.  An empty sequence has its centre at 0.
   */
  function Centre(s: seq<Body>, a: Axis): real
    decreases |s|
  {
    if s == [] then 0.0
    else
      var prefix := s[..|s| - 1];
      var b := s[|s| - 1];
      Blend(Centre(prefix, a), Sum(prefix, Mass), Coord(b, a), b.mass)
  }

  /**
   * One fold step: the mass-weighted average of a running centre `c` of mass
   * `m` and a body at `bc` of mass `bm`; 0 when there is no mass at all.
   */
  function Blend(c: real, m: real, bc: real, bm: real): real
  {
    if m + bm == 0.0 then 0.0 else (c * m + bc * bm) / (m + bm)
  }

  /** Appending one body: the sums grow by its weight and the centre takes one fold step. */
  lemma SumSnoc(s: seq<Body>, b: Body, k: Quantity)
    ensures Sum(s + [b], k) == Sum(s, k) + Weight(b, k)
  {
    assert (s + [b])[..|s|] == s;
  }

  lemma CentreSnoc(s: seq<Body>, b: Body, a: Axis)
    ensures Centre(s + [b], a) == Blend(Centre(s, a), Sum(s, Mass), Coord(b, a), b.mass)
  {
    assert (s + [b])[..|s|] == s;
  }

  /** Every body of `s` has positive mass. */
  predicate PositiveMasses(s: seq<Body>)
  {
    forall b :: b in s ==> 0.0 < b.mass
  }

  /**
   * A running aggregate `m`, `(cx, cy)` is the mass and centre of mass of
   * `s`, whose bodies all have positive mass.
   */
  ghost predicate Aggregated(s: seq<Body>, m: real, cx: real, cy: real)
  {
    && PositiveMasses(s)
    && 0.0 <= m
    && m == Sum(s, Mass)
    && cx == Centre(s, X)
    && cy == Centre(s, Y)
  }

  /** An aggregate's mass times its centre is the total moment on each axis. */
  lemma AggregatedMoments(s: seq<Body>, m: real, cx: real, cy: real)
    requires Aggregated(s, m, cx, cy)
    ensures m * cx == Sum(s, Moment(X)) && m * cy == Sum(s, Moment(Y))
  {
    CentreIsWeightedMean(s, X);
    CentreIsWeightedMean(s, Y);
  }

  /** Folding one more body of positive mass into an aggregate of `s` gives the aggregate of `s + [b]`. */
  lemma FoldBody(s: seq<Body>, b: Body, m: real, cx: real, cy: real)
    requires Aggregated(s, m, cx, cy) && b.mass > 0.0
    ensures Aggregated(s + [b], m + b.mass, Blend(cx, m, b.x, b.mass), Blend(cy, m, b.y, b.mass))
  {
    CentreSnoc(s, b, X);
    CentreSnoc(s, b, Y);
    SumSnoc(s, b, Mass);
    assert (s + [b])[..|s|] == s;
  }

  lemma {:induction false} MassPositive(s: seq<Body>)
    requires PositiveMasses(s)
    ensures Sum(s, Mass) >= 0.0
    ensures s != [] ==> Sum(s, Mass) > 0.0
    decreases |s|
  {
    if s != [] {
      MassPositive(s[..|s| - 1]);
    }
  }

  /**
   * The incremental fold computes the weighted centroid: total mass times
   * centre is the first moment, for bodies of positive mass.
   */
  lemma {:induction false} CentreIsWeightedMean(s: seq<Body>, a: Axis)
    requires PositiveMasses(s)
    ensures Sum(s, Mass) * Centre(s, a) == Sum(s, Moment(a))
    decreases |s|
  {
    if s != [] {
      var prefix := s[..|s| - 1];
      var b := s[|s| - 1];
      CentreIsWeightedMean(prefix, a);
      MassPositive(prefix);
      FoldMoment(Sum(s, Mass), Centre(s, a), Sum(s, Moment(a)),
                 Sum(prefix, Mass), Centre(prefix, a), Sum(prefix, Moment(a)), b, a);
    }
  }

  /**
   * One fold step keeps mass times centre equal to the moment: `m`, `c`,
   * `moment` describe the aggregate after folding body `b` into the one
   * described by `pm`, `pc`, `pmoment`.
   */
  lemma FoldMoment(m: real, c: real, moment: real, pm: real, pc: real, pmoment: real, b: Body, a: Axis)
    requires 0.0 <= pm && 0.0 < b.mass && pm * pc == pmoment
    requires m == pm + b.mass && c == Blend(pc, pm, Coord(b, a), b.mass)
    requires moment == pmoment + Weight(b, Moment(a))
    ensures m * c == moment
  {
    FoldStep(pm, pc, pmoment, b.mass, Coord(b, a));
  }

  /** One step of the fold, as plain arithmetic: a mass-weighted average of two points. */
  lemma FoldStep(pm: real, pc: real, pmom: real, bm: real, bc: real)
    requires pm >= 0.0 && bm > 0.0
    requires pm * pc == pmom
    ensures (pm + bm) * Blend(pc, pm, bc, bm) == pmom + bm * bc
  {
    var m := pm + bm;
    var num := pc * pm + bc * bm;
    assert m * (num / m) == num;
    assert pc * pm == pm * pc;
  }

  lemma {:induction false} SumAppend(s: seq<Body>, t: seq<Body>, k: Quantity)
    ensures Sum(s + t, k) == Sum(s, k) + Sum(t, k)
    decreases |t|
  {
    if t == [] {
      assert s + t == s;
    } else {
      var t' := t[..|t| - 1];
      assert (s + t)[..|s + t| - 1] == s + t';
      SumAppend(s, t', k);
    }
  }

  /** Removing the body at index i takes its weight out of the sum. */
  lemma SumRemove(t: seq<Body>, i: nat, k: Quantity)
    requires i < |t|
    ensures Sum(t, k) == Sum(t[..i] + t[i + 1..], k) + Weight(t[i], k)
  {
    assert t == t[..i] + [t[i]] + t[i + 1..];
    SumAppend(t[..i] + [t[i]], t[i + 1..], k);
    SumSnoc(t[..i], t[i], k);
    SumAppend(t[..i], t[i + 1..], k);
  }

  lemma CancelOne(a: multiset<Body>, b: multiset<Body>, x: Body)
    requires a + multiset{x} == b + multiset{x}
    ensures a == b
  {
    calc {
      a;
      (a + multiset{x}) - multiset{x};
      (b + multiset{x}) - multiset{x};
      b;
    }
  }

  /** The sum does not depend on the order in which the bodies are listed. */
  lemma {:induction false} SumPermutation(s: seq<Body>, t: seq<Body>, k: Quantity)
    requires multiset(s) == multiset(t)
    ensures Sum(s, k) == Sum(t, k)
    decreases |s|
  {
    if s != [] {
      var last := s[|s| - 1];
      var s' := s[..|s| - 1];
      assert s == s' + [last];
      assert last in multiset(t);
      var i :| 0 <= i < |t| && t[i] == last;
      var t' := t[..i] + t[i + 1..];
      assert multiset(t) == multiset(t') + multiset{last} by {
        assert t == t[..i] + [t[i]] + t[i + 1..];
      }
      assert multiset(s) == multiset(s') + multiset{last};
      CancelOne(multiset(s'), multiset(t'), last);
      SumPermutation(s', t', k);
      SumRemove(t, i, k);
    }
  }

  /**
   * The centre of mass does not depend on the order in which the bodies are
   * folded in: it is total moment over total mass.
   */
  lemma CentrePermutation(s: seq<Body>, t: seq<Body>, a: Axis)
    requires multiset(s) == multiset(t) && PositiveMasses(s)
    ensures Centre(s, a) == Centre(t, a)
  {
    if s == [] {
      assert t == [] by { assert |t| == |multiset(t)|; }
    } else {
      PositivePermutation(s, t);
      SumPermutation(s, t, Mass);
      SumPermutation(s, t, Moment(a));
      CentreFromSums(s, t, a);
    }
  }

  /** Two non-empty sequences of positive masses with equal total mass and moment have the same centre. */
  lemma CentreFromSums(s: seq<Body>, t: seq<Body>, a: Axis)
    requires s != [] && PositiveMasses(s) && PositiveMasses(t)
    requires Sum(s, Mass) == Sum(t, Mass) && Sum(s, Moment(a)) == Sum(t, Moment(a))
    ensures Centre(s, a) == Centre(t, a)
  {
    MassPositive(s);
    CentreIsQuotient(s, a);
    CentreIsQuotient(t, a);
  }

  /** For a non-empty sequence of positive masses, the centre is total moment over total mass. */
  lemma CentreIsQuotient(s: seq<Body>, a: Axis)
    requires PositiveMasses(s) && 0.0 < Sum(s, Mass)
    ensures Centre(s, a) == Sum(s, Moment(a)) / Sum(s, Mass)
  {
    CentreIsWeightedMean(s, a);
    Divide(Sum(s, Mass), Centre(s, a), Sum(s, Moment(a)));
  }

  lemma Divide(m: real, c: real, moment: real)
    requires m > 0.0 && m * c == moment
    ensures c == moment / m
  {
  }

  lemma PositivePermutation(s: seq<Body>, t: seq<Body>)
    requires multiset(s) == multiset(t) && PositiveMasses(s)
    ensures PositiveMasses(t)
  {
    forall b | b in t
      ensures 0.0 < b.mass
    {
      assert b in multiset(t);
    }
  }
}
