/**
 * The quadtree of graviton/tree: nodes that aggregate the mass and centre of
 * mass of the bodies inserted through them, with four quadrant slots each,
 * and the tree object whose root slot the insertions update.
 *
 * A node is a value here: inserting into a node yields the node as it is
 * after the insertion (its aggregate folded, one slot rewritten, possibly a
 * new half-size node in that slot).  The tree object holds the root slot and
 * replaces it on every insertion.
 */
module Tree {
  import opened Bodies
  import opened Moments

  /** Insertions deeper than this are abandoned. */
  const MAX_DEPTH: int := 1000

  /** A child slot: empty, holding one body, or holding a nested node. */
  datatype Slot = Empty | Leaf(body: Body) | Inner(node: Node)

  /**
   * A node over the rectangle with origin (startX, startY) and the given
   * extent; its aggregate mass and centre of mass; and the slots of its four
   * quadrants in the order NW, NE, SW, SE.
   */
  datatype Node = Node(
    width: real, height: real, startX: real, startY: real,
    halfWidth: real, halfHeight: real, midX: real, midY: real,
    mass: real, x: real, y: real,
    children: seq<Slot>)

  /**
   * The quadrant index of a point relative to a midpoint: bit 0 says east of
   * the vertical midline, bit 1 says south of the horizontal one.  A point on
   * a midline goes to the west or north half.
   */
  function QuadrantIndex(px: real, py: real, midX: real, midY: real): (q: nat)
    ensures q < 4
    ensures (q == 1 || q == 3) <==> px > midX
    ensures 2 <= q <==> py > midY
  {
    (if px > midX then 1 else 0) + (if py > midY then 2 else 0)
  }

  /** The quadrant of node `n` that a point falls in. */
  function Quadrant(n: Node, px: real, py: real): nat
  {
    QuadrantIndex(px, py, n.midX, n.midY)
  }

  /** The origin of quadrant q's sub-rectangle. */
  function QuadrantX(n: Node, q: nat): real
  {
    if q == 1 || q == 3 then n.midX else n.startX
  }

  function QuadrantY(n: Node, q: nat): real
  {
    if 2 <= q then n.midY else n.startY
  }

  /** The extents and midpoint are derived from the rectangle as the constructor derives them. */
  ghost predicate Geometry(n: Node)
  {
    && n.halfWidth == n.width / 2.0 && n.halfHeight == n.height / 2.0
    && n.midX == n.startX + n.halfWidth && n.midY == n.startY + n.halfHeight
  }

  /** A point inside a node's rectangle lies inside the sub-rectangle of its quadrant. */
  lemma QuadrantContains(n: Node, px: real, py: real)
    requires Geometry(n)
    requires n.startX <= px <= n.startX + n.width && n.startY <= py <= n.startY + n.height
    ensures var q := Quadrant(n, px, py);
      && QuadrantX(n, q) <= px <= QuadrantX(n, q) + n.halfWidth
      && QuadrantY(n, q) <= py <= QuadrantY(n, q) + n.halfHeight
  {
  }

  /**
   * The structural invariant of every node the tree builds: four slots, each
   * fitting its quadrant, and an aggregate mass that is not negative.
   */
  ghost predicate WellFormed(n: Node)
    decreases n
  {
    && Geometry(n)
    && 0.0 <= n.mass
    && |n.children| == 4
    && forall q :: 0 <= q < 4 ==> SlotFits(n, q, n.children[q])
  }

  /**
   * What slot q of node `n` may hold: a body that sits in the quadrant its
   * position selects and has positive mass, or a well-formed node over the
   * quadrant's half-size sub-rectangle.
   */
  ghost predicate SlotFits(n: Node, q: nat, s: Slot)
    decreases s
  {
    match s
    case Empty => true
    case Leaf(e) => Quadrant(n, e.x, e.y) == q && 0.0 < e.mass
    case Inner(c) =>
      && c.width == n.halfWidth && c.height == n.halfHeight
      && c.startX == QuadrantX(n, q) && c.startY == QuadrantY(n, q)
      && WellFormed(c)
  }

  /** Rewriting one slot of a well-formed node with a fitting slot, and growing its mass, keeps it well formed. */
  lemma PutSlot(n: Node, r: Node, q: nat, s: Slot)
    requires WellFormed(n) && q < 4 && SlotFits(n, q, s)
    requires r == n.(mass := r.mass, x := r.x, y := r.y, children := n.children[q := s])
    requires 0.0 <= r.mass
    ensures WellFormed(r)
  {
    forall p | 0 <= p < 4
      ensures SlotFits(r, p, r.children[p])
    {
      if p != q {
        assert SlotFits(n, p, n.children[p]);
      }
    }
  }

  /** A new node: no mass, centre at the origin, all four slots empty. */
  function NewNode(width: real, height: real, startX: real, startY: real): (n: Node)
    ensures WellFormed(n) && Consistent(n)
    ensures n.width == width && n.height == height && n.startX == startX && n.startY == startY
    ensures n.midX == startX + width / 2.0 && n.midY == startY + height / 2.0
    ensures n.mass == 0.0 && n.x == 0.0 && n.y == 0.0
    ensures n.children == [Empty, Empty, Empty, Empty]
  {
    var halfWidth := width / 2.0;
    var halfHeight := height / 2.0;
    Node(width, height, startX, startY, halfWidth, halfHeight,
         startX + halfWidth, startY + halfHeight, 0.0, 0.0, 0.0,
         [Empty, Empty, Empty, Empty])
  }

  /**
   * Folds one body into a node's aggregate: the mass grows by the body's
   * mass, and mass times centre grows by the body's mass times its position.
   */
  function UpdateMass(n: Node, b: Body): (r: Node)
    requires 0.0 <= n.mass && 0.0 < b.mass
    ensures r.mass == n.mass + b.mass
    ensures r.mass * r.x == n.mass * n.x + b.mass * b.x
    ensures r.mass * r.y == n.mass * n.y + b.mass * b.y
    ensures r.x == Blend(n.x, n.mass, b.x, b.mass) && r.y == Blend(n.y, n.mass, b.y, b.mass)
    ensures r == n.(mass := r.mass, x := r.x, y := r.y)
  {
    var newMass := n.mass + b.mass;
    var newX := (n.x * n.mass + b.x * b.mass) / newMass;
    var newY := (n.y * n.mass + b.y * b.mass) / newMass;
    FoldStep(n.mass, n.x, n.mass * n.x, b.mass, b.x);
    FoldStep(n.mass, n.y, n.mass * n.y, b.mass, b.y);
    n.(mass := newMass, x := newX, y := newY)
  }

  /**
   * Inserts a body into a node at the given depth (the root is at depth 1).
   * Past the depth ceiling the node is returned as it is.  Otherwise the
   * aggregate takes the body, and the body's quadrant slot is rewritten: an
   * empty slot takes the body; a nested node takes it one level down; a slot
   * holding a body becomes a new half-size node over the existing body's
   * sub-rectangle, into which the existing body and then the new one are
   * inserted one level down.
   */
  function Insert(n: Node, b: Body, depth: int): (r: Node)
    requires WellFormed(n) && 0.0 < b.mass
    decreases MAX_DEPTH + 1 - depth
    ensures WellFormed(r)
    ensures r.width == n.width && r.height == n.height && r.startX == n.startX && r.startY == n.startY
    ensures depth > MAX_DEPTH ==> r == n
    ensures depth <= MAX_DEPTH ==> r.mass == n.mass + b.mass
    ensures depth <= MAX_DEPTH ==>
      r.x == Blend(n.x, n.mass, b.x, b.mass) && r.y == Blend(n.y, n.mass, b.y, b.mass)
    ensures depth <= MAX_DEPTH ==>
      forall q :: 0 <= q < 4 && q != Quadrant(n, b.x, b.y) ==> r.children[q] == n.children[q]
    ensures depth <= MAX_DEPTH && n.children[Quadrant(n, b.x, b.y)].Empty? ==>
      r.children[Quadrant(n, b.x, b.y)] == Leaf(b)
    ensures depth <= MAX_DEPTH && !n.children[Quadrant(n, b.x, b.y)].Empty? ==>
      r.children[Quadrant(n, b.x, b.y)].Inner?
  {
    if depth > MAX_DEPTH then n
    else
      var m := UpdateMass(n, b);
      var q := Quadrant(m, b.x, b.y);
      assert SlotFits(n, q, n.children[q]);
      match m.children[q]
      case Inner(c) =>
        var r := m.(children := m.children[q := Inner(Insert(c, b, depth + 1))]);
        PutSlot(n, r, q, r.children[q]);
        r
      case Empty =>
        var r := m.(children := m.children[q := Leaf(b)]);
        PutSlot(n, r, q, r.children[q]);
        r
      case Leaf(existing) =>
        var quadX := if existing.x > m.midX then m.midX else m.startX;
        var quadY := if existing.y > m.midY then m.midY else m.startY;
        var node := NewNode(m.halfWidth, m.halfHeight, quadX, quadY);
        var withExisting := Insert(node, existing, depth + 1);
        var r := m.(children := m.children[q := Inner(Insert(withExisting, b, depth + 1))]);
        PutSlot(n, r, q, r.children[q]);
        r
  }

  /**
   * The bodies an insertion leaves unreachable because it reaches past the
   * depth ceiling: the body itself past the ceiling, and, for a split, what
   * the two insertions into the new node lose.
   */
  ghost function Lost(n: Node, b: Body, depth: int): seq<Body>
    requires WellFormed(n) && 0.0 < b.mass
    decreases MAX_DEPTH + 1 - depth
  {
    if depth > MAX_DEPTH then [b]
    else
      var q := Quadrant(n, b.x, b.y);
      assert SlotFits(n, q, n.children[q]);
      match n.children[q]
      case Inner(c) => Lost(c, b, depth + 1)
      case Empty => []
      case Leaf(existing) =>
        var node := NewNode(n.halfWidth, n.halfHeight, QuadrantX(n, q), QuadrantY(n, q));
        Lost(node, existing, depth + 1) + Lost(Insert(node, existing, depth + 1), b, depth + 1)
  }

  /** The bodies reachable through a slot, and through a node's four slots in order. */
  function SlotBodies(s: Slot): seq<Body>
    decreases s
  {
    match s
    case Empty => []
    case Leaf(e) => [e]
    case Inner(c) => Reachable(c)
  }

  function Reachable(n: Node): seq<Body>
    decreases n
  {
    if |n.children| != 4 then []
    else SlotBodies(n.children[0]) + SlotBodies(n.children[1]) + SlotBodies(n.children[2]) + SlotBodies(n.children[3])
  }

  /**
   * Every node's aggregate is that of the bodies reachable below it: its mass
   * is their total mass and its centre is their centre of mass.
   */
  ghost predicate Consistent(n: Node)
    decreases n
  {
    && n.mass == Sum(Reachable(n), Mass)
    && n.x == Centre(Reachable(n), X)
    && n.y == Centre(Reachable(n), Y)
    && forall q :: 0 <= q < |n.children| && n.children[q].Inner? ==> Consistent(n.children[q].node)
  }

  /** Rewriting slot q changes the reachable bodies by exactly what leaves and enters that slot. */
  lemma ReachablePut(n: Node, r: Node, q: nat)
    requires |n.children| == 4 && q < 4
    requires |r.children| == 4 && forall p :: 0 <= p < 4 && p != q ==> r.children[p] == n.children[p]
    ensures multiset(Reachable(r)) + multiset(SlotBodies(n.children[q]))
         == multiset(Reachable(n)) + multiset(SlotBodies(r.children[q]))
  {
    ReachableParts(n);
    ReachableParts(r);
    var m0, m1, m2, m3 := multiset(SlotBodies(n.children[0])), multiset(SlotBodies(n.children[1])),
                          multiset(SlotBodies(n.children[2])), multiset(SlotBodies(n.children[3]));
    var x := multiset(SlotBodies(r.children[q]));
    Exchange(m0, m1, m2, m3, x);
    if q == 0 {
      assert multiset(Reachable(r)) == x + m1 + m2 + m3;
    } else if q == 1 {
      assert multiset(Reachable(r)) == m0 + x + m2 + m3;
    } else if q == 2 {
      assert multiset(Reachable(r)) == m0 + m1 + x + m3;
    } else {
      assert multiset(Reachable(r)) == m0 + m1 + m2 + x;
    }
  }

  /** Exchanging one of four parts of a union. */
  lemma Exchange(a: multiset<Body>, b: multiset<Body>, c: multiset<Body>, d: multiset<Body>, x: multiset<Body>)
    ensures (x + b + c + d) + a == (a + b + c + d) + x
    ensures (a + x + c + d) + b == (a + b + c + d) + x
    ensures (a + b + x + d) + c == (a + b + c + d) + x
    ensures (a + b + c + x) + d == (a + b + c + d) + x
  {
  }

  /** The reachable bodies of a node, as a multiset, are the union of those of its four slots. */
  lemma ReachableParts(n: Node)
    requires |n.children| == 4
    ensures multiset(Reachable(n)) == multiset(SlotBodies(n.children[0])) + multiset(SlotBodies(n.children[1]))
                                    + multiset(SlotBodies(n.children[2])) + multiset(SlotBodies(n.children[3]))
  {
  }

  /**
   * An insertion neither loses nor invents bodies: what is reachable after
   * it, together with what it drops at the depth ceiling, is what was
   * reachable before plus the inserted body.
   */
  lemma {:induction false} InsertKeepsBodies(n: Node, b: Body, depth: int)
    requires WellFormed(n) && 0.0 < b.mass
    decreases MAX_DEPTH + 1 - depth, 1
    ensures multiset(Reachable(Insert(n, b, depth))) + multiset(Lost(n, b, depth))
         == multiset(Reachable(n)) + multiset{b}
  {
    if depth <= MAX_DEPTH {
      var q := Quadrant(n, b.x, b.y);
      var r := Insert(n, b, depth);
      assert SlotFits(n, q, n.children[q]);
      ReachablePut(n, r, q);
      match n.children[q]
      case Empty =>
        assert r.children[q] == Leaf(b);
        assert Lost(n, b, depth) == [];
        assert SlotBodies(r.children[q]) == [b];
      case Inner(c) =>
        KeepsBodiesDescend(n, b, depth, c);
      case Leaf(e) =>
        KeepsBodiesSplit(n, b, depth, e);
    } else {
      assert Lost(n, b, depth) == [b];
    }
  }

  /** The descent case: the body goes into the nested node of its quadrant. */
  lemma {:induction false} KeepsBodiesDescend(n: Node, b: Body, depth: int, c: Node)
    requires WellFormed(n) && 0.0 < b.mass && depth <= MAX_DEPTH
    requires n.children[Quadrant(n, b.x, b.y)] == Inner(c)
    decreases MAX_DEPTH + 1 - depth, 0
    ensures multiset(Reachable(Insert(n, b, depth))) + multiset(Lost(n, b, depth))
         == multiset(Reachable(n)) + multiset{b}
  {
    var q := Quadrant(n, b.x, b.y);
    var r := Insert(n, b, depth);
    assert SlotFits(n, q, n.children[q]);
    ReachablePut(n, r, q);
    var c' := Insert(c, b, depth + 1);
    assert r.children[q] == Inner(c');
    assert Lost(n, b, depth) == Lost(c, b, depth + 1);
    InsertKeepsBodies(c, b, depth + 1);
    InnerAccounts(multiset(Reachable(r)), multiset(Reachable(n)), multiset(Reachable(c)), multiset(Reachable(c')),
                  multiset(Lost(c, b, depth + 1)), multiset{b});
  }

  /** The split case: the quadrant held body `e`, which moves into a new node together with the body. */
  lemma {:induction false} KeepsBodiesSplit(n: Node, b: Body, depth: int, e: Body)
    requires WellFormed(n) && 0.0 < b.mass && depth <= MAX_DEPTH
    requires n.children[Quadrant(n, b.x, b.y)] == Leaf(e)
    decreases MAX_DEPTH + 1 - depth, 0
    ensures multiset(Reachable(Insert(n, b, depth))) + multiset(Lost(n, b, depth))
         == multiset(Reachable(n)) + multiset{b}
  {
    var q := Quadrant(n, b.x, b.y);
    var r := Insert(n, b, depth);
    SplitShape(n, b, depth, e);
    ReachablePut(n, r, q);
    var node := NewNode(n.halfWidth, n.halfHeight, QuadrantX(n, q), QuadrantY(n, q));
    var w1 := Insert(node, e, depth + 1);
    var w2 := Insert(w1, b, depth + 1);
    InsertKeepsBodies(node, e, depth + 1);
    InsertKeepsBodies(w1, b, depth + 1);
    SplitAccounts(multiset(Reachable(r)), multiset(Reachable(n)), multiset(Reachable(w1)), multiset(Reachable(w2)),
                  multiset(Lost(node, e, depth + 1)), multiset(Lost(w1, b, depth + 1)), multiset{e}, multiset{b});
  }

  /**
   * The shape of a split: the quadrant's slot becomes the new node after both
   * insertions, and the split drops what those two insertions drop.
   */
  lemma SplitShape(n: Node, b: Body, depth: int, e: Body)
    requires WellFormed(n) && 0.0 < b.mass && depth <= MAX_DEPTH
    requires n.children[Quadrant(n, b.x, b.y)] == Leaf(e)
    ensures 0.0 < e.mass
    ensures var q := Quadrant(n, b.x, b.y);
      var node := NewNode(n.halfWidth, n.halfHeight, QuadrantX(n, q), QuadrantY(n, q));
      && SlotBodies(n.children[q]) == [e]
      && Insert(n, b, depth).children[q] == Inner(Insert(Insert(node, e, depth + 1), b, depth + 1))
      && Lost(n, b, depth) == Lost(node, e, depth + 1) + Lost(Insert(node, e, depth + 1), b, depth + 1)
  {
    assert SlotFits(n, Quadrant(n, b.x, b.y), n.children[Quadrant(n, b.x, b.y)]);
  }

  /** The multiset bookkeeping of a descent: the nested node's gain is the parent's gain. */
  lemma InnerAccounts(r: multiset<Body>, n: multiset<Body>, c: multiset<Body>, c': multiset<Body>,
                      l: multiset<Body>, b: multiset<Body>)
    requires r + c == n + c'
    requires c' + l == c + b
    ensures r + l == n + b
  {
    forall x
      ensures (r + l)[x] == (n + b)[x]
    {
      assert (r + c)[x] == (n + c')[x];
      assert (c' + l)[x] == (c + b)[x];
    }
  }

  /** The multiset bookkeeping of a split: the displaced body re-enters below, the new one follows it. */
  lemma SplitAccounts(r: multiset<Body>, n: multiset<Body>, w1: multiset<Body>, w2: multiset<Body>,
                      l1: multiset<Body>, l2: multiset<Body>, e: multiset<Body>, b: multiset<Body>)
    requires r + e == n + w2
    requires w1 + l1 == e
    requires w2 + l2 == w1 + b
    ensures r + (l1 + l2) == n + b
  {
    forall x
      ensures (r + (l1 + l2))[x] == (n + b)[x]
    {
      assert (r + e)[x] == (n + w2)[x];
      assert (w1 + l1)[x] == e[x];
      assert (w2 + l2)[x] == (w1 + b)[x];
    }
  }

  /** When nothing is dropped, the reachable weights grow by exactly the inserted body's weight. */
  lemma InsertAddsWeight(n: Node, b: Body, depth: int, k: Quantity)
    requires WellFormed(n) && 0.0 < b.mass && Lost(n, b, depth) == []
    ensures Sum(Reachable(Insert(n, b, depth)), k) == Sum(Reachable(n), k) + Weight(b, k)
  {
    InsertKeepsBodies(n, b, depth);
    SumPermutation(Reachable(Insert(n, b, depth)), Reachable(n) + [b], k);
    SumSnoc(Reachable(n), b, k);
  }

  /**
   * An insertion that drops nothing keeps every node's aggregate equal to
   * the mass and centre of mass of the bodies reachable below it.
   */
  lemma {:induction false} InsertConsistent(n: Node, b: Body, depth: int)
    requires WellFormed(n) && Consistent(n) && 0.0 < b.mass && depth <= MAX_DEPTH
    requires Lost(n, b, depth) == []
    decreases MAX_DEPTH + 1 - depth, 3
    ensures Consistent(Insert(n, b, depth))
  {
    AggregateTakesBody(n, b, depth);
    ChildrenStayConsistent(n, b, depth);
  }

  lemma {:induction false} ChildrenStayConsistent(n: Node, b: Body, depth: int)
    requires WellFormed(n) && Consistent(n) && 0.0 < b.mass && depth <= MAX_DEPTH
    requires Lost(n, b, depth) == []
    decreases MAX_DEPTH + 1 - depth, 2
    ensures var r := Insert(n, b, depth);
      forall p :: 0 <= p < |r.children| && r.children[p].Inner? ==> Consistent(r.children[p].node)
  {
    var r := Insert(n, b, depth);
    var q := Quadrant(n, b.x, b.y);
    forall p | 0 <= p < |r.children| && r.children[p].Inner?
      ensures Consistent(r.children[p].node)
    {
      if p != q {
        assert r.children[p] == n.children[p];
      } else if n.children[q].Inner? {
        assert Consistent(n.children[q].node);
        DescendConsistent(n, b, depth, n.children[q].node);
      } else {
        SplitConsistent(n, b, depth, n.children[q].body);
      }
    }
  }

  lemma {:induction false} DescendConsistent(n: Node, b: Body, depth: int, c: Node)
    requires WellFormed(n) && 0.0 < b.mass && depth <= MAX_DEPTH
    requires Lost(n, b, depth) == []
    requires n.children[Quadrant(n, b.x, b.y)] == Inner(c) && Consistent(c)
    decreases MAX_DEPTH + 1 - depth, 1
    ensures WellFormed(c)
    ensures Insert(n, b, depth).children[Quadrant(n, b.x, b.y)] == Inner(Insert(c, b, depth + 1))
    ensures Consistent(Insert(c, b, depth + 1))
  {
    DescendFacts(n, b, depth, c);
    InsertConsistent(c, b, depth + 1);
  }

  lemma {:induction false} SplitConsistent(n: Node, b: Body, depth: int, e: Body)
    requires WellFormed(n) && 0.0 < b.mass && depth <= MAX_DEPTH
    requires Lost(n, b, depth) == []
    requires n.children[Quadrant(n, b.x, b.y)] == Leaf(e)
    decreases MAX_DEPTH + 1 - depth, 1
    ensures Insert(n, b, depth).children[Quadrant(n, b.x, b.y)].Inner?
    ensures Consistent(Insert(n, b, depth).children[Quadrant(n, b.x, b.y)].node)
  {
    var q := Quadrant(n, b.x, b.y);
    var node := NewNode(n.halfWidth, n.halfHeight, QuadrantX(n, q), QuadrantY(n, q));
    SplitFacts(n, b, depth, e);
    InsertTwoConsistent(node, e, b, depth + 1);
  }

  /** Two insertions in a row, neither dropping anything, keep a node consistent. */
  lemma {:induction false} InsertTwoConsistent(n: Node, e: Body, b: Body, depth: int)
    requires WellFormed(n) && Consistent(n) && 0.0 < e.mass && 0.0 < b.mass && depth <= MAX_DEPTH
    requires Lost(n, e, depth) == [] && Lost(Insert(n, e, depth), b, depth) == []
    decreases MAX_DEPTH + 1 - depth, 4
    ensures Consistent(Insert(Insert(n, e, depth), b, depth))
  {
    InsertConsistent(n, e, depth);
    InsertConsistent(Insert(n, e, depth), b, depth);
  }

  /** The node's own aggregate after an insertion that drops nothing is that of its reachable bodies. */
  lemma AggregateTakesBody(n: Node, b: Body, depth: int)
    requires WellFormed(n) && Consistent(n) && 0.0 < b.mass && depth <= MAX_DEPTH
    requires Lost(n, b, depth) == []
    ensures var r := Insert(n, b, depth);
      && r.mass == Sum(Reachable(r), Mass)
      && r.x == Centre(Reachable(r), X)
      && r.y == Centre(Reachable(r), Y)
  {
    var r := Insert(n, b, depth);
    InsertAddsWeight(n, b, depth, Mass);
    InsertKeepsBodies(n, b, depth);
    ReachablePositive(n);
    CentreSnoc(Reachable(n), b, X);
    CentreSnoc(Reachable(n), b, Y);
    CentrePermutation(Reachable(n) + [b], Reachable(r), X);
    CentrePermutation(Reachable(n) + [b], Reachable(r), Y);
  }

  /** Every body a well-formed node reaches has positive mass. */
  lemma {:induction false} ReachablePositive(n: Node)
    requires WellFormed(n)
    decreases n
    ensures PositiveMasses(Reachable(n))
  {
    forall q | 0 <= q < 4
      ensures PositiveMasses(SlotBodies(n.children[q]))
    {
      assert SlotFits(n, q, n.children[q]);
      if n.children[q].Inner? {
        ReachablePositive(n.children[q].node);
      }
    }
    assert PositiveMasses(SlotBodies(n.children[0]));
    assert PositiveMasses(SlotBodies(n.children[1]));
    assert PositiveMasses(SlotBodies(n.children[2]));
    assert PositiveMasses(SlotBodies(n.children[3]));
  }

  /** The descent case of an insertion that drops nothing: the nested node takes the body and drops nothing. */
  lemma DescendFacts(n: Node, b: Body, depth: int, c: Node)
    requires WellFormed(n) && 0.0 < b.mass && depth <= MAX_DEPTH
    requires Lost(n, b, depth) == []
    requires n.children[Quadrant(n, b.x, b.y)] == Inner(c)
    ensures WellFormed(c) && depth + 1 <= MAX_DEPTH && Lost(c, b, depth + 1) == []
    ensures Insert(n, b, depth).children[Quadrant(n, b.x, b.y)] == Inner(Insert(c, b, depth + 1))
  {
    assert SlotFits(n, Quadrant(n, b.x, b.y), n.children[Quadrant(n, b.x, b.y)]);
  }

  /** The split case of an insertion that drops nothing: neither insertion into the new node drops anything. */
  lemma SplitFacts(n: Node, b: Body, depth: int, e: Body)
    requires WellFormed(n) && 0.0 < b.mass && depth <= MAX_DEPTH
    requires Lost(n, b, depth) == []
    requires n.children[Quadrant(n, b.x, b.y)] == Leaf(e)
    ensures 0.0 < e.mass && depth + 1 <= MAX_DEPTH
    ensures var q := Quadrant(n, b.x, b.y);
      var node := NewNode(n.halfWidth, n.halfHeight, QuadrantX(n, q), QuadrantY(n, q));
      && Lost(node, e, depth + 1) == []
      && Lost(Insert(node, e, depth + 1), b, depth + 1) == []
      && Insert(n, b, depth).children[q] == Inner(Insert(Insert(node, e, depth + 1), b, depth + 1))
  {
    SplitShape(n, b, depth, e);
  }

  /** Past the depth ceiling an insertion changes nothing and the body is dropped. */
  lemma BeyondCeiling(n: Node, b: Body, depth: int)
    requires WellFormed(n) && 0.0 < b.mass && depth > MAX_DEPTH
    ensures Insert(n, b, depth) == n && Lost(n, b, depth) == [b]
  {
  }

  /**
   * A split at the ceiling depth: the node counts the body, but both the
   * displaced body and the new one reach past the ceiling inside the new
   * half-size node, which stays empty.
   */
  lemma CeilingSplit(n: Node, b: Body, e: Body)
    requires WellFormed(n) && 0.0 < b.mass
    requires n.children[Quadrant(n, b.x, b.y)] == Leaf(e)
    ensures var r := Insert(n, b, MAX_DEPTH);
      && r.mass == n.mass + b.mass
      && r.children[Quadrant(n, b.x, b.y)].Inner?
      && r.children[Quadrant(n, b.x, b.y)].node.mass == 0.0
      && Reachable(r.children[Quadrant(n, b.x, b.y)].node) == []
    ensures Lost(n, b, MAX_DEPTH) == [e, b]
  {
    var q := Quadrant(n, b.x, b.y);
    assert SlotFits(n, q, n.children[q]);
    var node := NewNode(n.halfWidth, n.halfHeight, QuadrantX(n, q), QuadrantY(n, q));
    BeyondCeiling(node, e, MAX_DEPTH + 1);
    BeyondCeiling(node, b, MAX_DEPTH + 1);
    assert Insert(n, b, MAX_DEPTH).children[q] == Inner(node);
  }

  /**
   * Two bodies at the same position can never be separated: inserting a body
   * where one already sits splits the quadrant at every level below, and both
   * bodies end up dropped at the depth ceiling.
   */
  lemma {:induction false} CoincidentBodiesDropped(n: Node, b: Body, e: Body, depth: int)
    requires WellFormed(n) && 0.0 < b.mass && depth <= MAX_DEPTH
    requires n.children[Quadrant(n, b.x, b.y)] == Leaf(e) && e.x == b.x && e.y == b.y
    decreases MAX_DEPTH - depth
    ensures Lost(n, b, depth) == [e, b]
  {
    var q := Quadrant(n, b.x, b.y);
    assert SlotFits(n, q, n.children[q]);
    var node := NewNode(n.halfWidth, n.halfHeight, QuadrantX(n, q), QuadrantY(n, q));
    var w1 := Insert(node, e, depth + 1);
    assert Lost(n, b, depth) == Lost(node, e, depth + 1) + Lost(w1, b, depth + 1);
    if depth == MAX_DEPTH {
      BeyondCeiling(node, e, depth + 1);
      BeyondCeiling(node, b, depth + 1);
    } else {
      assert Lost(node, e, depth + 1) == [];
      assert w1.children[Quadrant(w1, b.x, b.y)] == Leaf(e);
      CoincidentBodiesDropped(w1, b, e, depth + 1);
    }
  }

  /**
   * What the root node of a tree owes to the bodies inserted into the tree:
   * its aggregate is theirs, every one of them is reachable or was dropped
   * at the depth ceiling, and when none was dropped every node below agrees
   * with the bodies it reaches.
   */
  ghost predicate Accounts(n: Node, inserted: seq<Body>, dropped: seq<Body>)
  {
    && WellFormed(n)
    && Aggregated(inserted, n.mass, n.x, n.y)
    && multiset(Reachable(n)) + multiset(dropped) == multiset(inserted)
    && (dropped == [] ==> Consistent(n))
  }

  /** The multiset bookkeeping of an insertion into the root: its losses join the earlier ones. */
  lemma LossAccounts(r': multiset<Body>, l: multiset<Body>, r: multiset<Body>, d: multiset<Body>,
                     i: multiset<Body>, b: multiset<Body>)
    requires r + d == i
    requires r' + l == r + b
    ensures r' + (d + l) == i + b
  {
    forall x
      ensures (r' + (d + l))[x] == (i + b)[x]
    {
      assert (r + d)[x] == i[x];
      assert (r' + l)[x] == (r + b)[x];
    }
  }

  /** Inserting into an accounted root keeps it accounted, with the insertion's losses added to the dropped bodies. */
  lemma InsertAccounts(n: Node, inserted: seq<Body>, dropped: seq<Body>, b: Body)
    requires Accounts(n, inserted, dropped) && 0.0 < b.mass
    ensures Accounts(Insert(n, b, 1), inserted + [b], dropped + Lost(n, b, 1))
  {
    var r := Insert(n, b, 1);
    var lost := Lost(n, b, 1);
    FoldBody(inserted, b, n.mass, n.x, n.y);
    InsertKeepsBodies(n, b, 1);
    LossAccounts(multiset(Reachable(r)), multiset(lost), multiset(Reachable(n)), multiset(dropped),
                 multiset(inserted), multiset{b});
    if dropped + lost == [] {
      InsertConsistent(n, b, 1);
    }
  }

  /** Inserting into the root node of a tree keeps the root's invariant. */
  lemma InsertRootHolds(n: Node, inserted: seq<Body>, dropped: seq<Body>, b: Body,
                        width: real, height: real, startX: real, startY: real)
    requires RootHolds(Inner(n), inserted, dropped, width, height, startX, startY) && 0.0 < b.mass
    ensures RootHolds(Inner(Insert(n, b, 1)), inserted + [b], dropped + Lost(n, b, 1), width, height, startX, startY)
  {
    InsertAccounts(n, inserted, dropped, b);
  }

  /** An empty node accounts for no bodies. */
  lemma EmptyAccounts(n: Node)
    requires WellFormed(n) && Consistent(n) && Reachable(n) == []
    requires n.mass == 0.0 && n.x == 0.0 && n.y == 0.0
    ensures Accounts(n, [], [])
  {
  }

  /** The first split of a root that holds one body: an empty node takes that body and then the new one. */
  lemma SplitRootAccounts(n: Node, e: Body, b: Body)
    requires WellFormed(n) && Consistent(n) && Reachable(n) == []
    requires n.mass == 0.0 && n.x == 0.0 && n.y == 0.0
    requires 0.0 < e.mass && 0.0 < b.mass
    ensures Accounts(Insert(Insert(n, e, 1), b, 1), [e] + [b], Lost(n, e, 1) + Lost(Insert(n, e, 1), b, 1))
  {
    EmptyAccounts(n);
    InsertAccounts(n, [], [], e);
    InsertAccounts(Insert(n, e, 1), [] + [e], [] + Lost(n, e, 1), b);
  }

  /** The first split of a root that holds one body, with the new root node over the tree's extent. */
  lemma SplitRootHolds(n: Node, e: Body, b: Body, width: real, height: real, startX: real, startY: real)
    requires n == NewNode(width, height, startX, startY)
    requires 0.0 < e.mass && 0.0 < b.mass
    ensures RootHolds(Inner(Insert(Insert(n, e, 1), b, 1)), [e] + [b], Lost(n, e, 1) + Lost(Insert(n, e, 1), b, 1),
                      width, height, startX, startY)
  {
    SplitRootAccounts(n, e, b);
  }

  /**
   * The invariant of a tree's root slot over the given extent, given the
   * bodies inserted and dropped: empty before any insertion, one body after
   * the first, and after that a root node over the whole extent that
   * accounts for them.
   */
  ghost predicate RootHolds(root: Slot, inserted: seq<Body>, dropped: seq<Body>,
                            width: real, height: real, startX: real, startY: real)
  {
    match root
    case Empty => inserted == [] && dropped == []
    case Leaf(e) => inserted == [e] && dropped == [] && 0.0 < e.mass
    case Inner(n) =>
      && n.width == width && n.height == height && n.startX == startX && n.startY == startY
      && Accounts(n, inserted, dropped)
  }

  /**
   * The tree object: an extent and a root slot that is empty, holds a single
   * body, or holds the root node over the whole extent.  Inserted and Dropped
   * record, for the proofs, every body inserted since the last clear and the
   * ones insertions dropped at the depth ceiling.
   */
  class QuadTree {
    const width: real
    const height: real
    const startX: real
    const startY: real
    var root: Slot
    ghost var Inserted: seq<Body>
    ghost var Dropped: seq<Body>

    ghost predicate Valid()
      reads this
    {
      RootHolds(root, Inserted, Dropped, width, height, startX, startY)
    }

    /** A tree over the given extent with nothing in it. */
    constructor (width: real, height: real, startX: real, startY: real)
      ensures Valid()
      ensures this.width == width && this.height == height && this.startX == startX && this.startY == startY
      ensures root == Empty && Inserted == [] && Dropped == []
    {
      this.width := width;
      this.height := height;
      this.startX := startX;
      this.startY := startY;
      root := Empty;
      Inserted := [];
      Dropped := [];
    }

    /**
     * Inserts a body: into the root node when there is one; as the root
     * itself when the tree is empty; otherwise the body at the root moves
     * into a new root node over the whole extent, followed by the new body.
     */
    method AddBody(b: Body)
      requires Valid() && 0.0 < b.mass
      modifies this
      ensures Valid()
      ensures Inserted == old(Inserted) + [b]
      ensures old(root).Empty? ==> root == Leaf(b) && Dropped == []
      ensures old(root).Leaf? ==>
        var node := NewNode(width, height, startX, startY);
        var e := old(root).body;
        && root == Inner(Insert(Insert(node, e, 1), b, 1))
        && Dropped == Lost(node, e, 1) + Lost(Insert(node, e, 1), b, 1)
      ensures old(root).Inner? ==>
        && root == Inner(Insert(old(root).node, b, 1))
        && Dropped == old(Dropped) + Lost(old(root).node, b, 1)
    {
      match root
      case Inner(n) =>
        InsertRootHolds(n, Inserted, Dropped, b, width, height, startX, startY);
        root := Inner(Insert(n, b, 1));
        Dropped := Dropped + Lost(n, b, 1);
        Inserted := Inserted + [b];
      case Empty =>
        root := Leaf(b);
        Inserted := [b];
      case Leaf(e) =>
        var node := NewNode(width, height, startX, startY);
        SplitRootHolds(node, e, b, width, height, startX, startY);
        var withExisting := Insert(node, e, 1);
        root := Inner(Insert(withExisting, b, 1));
        Dropped := Lost(node, e, 1) + Lost(withExisting, b, 1);
        Inserted := [e] + [b];
    }

    /** Empties the tree. */
    method Clear()
      modifies this
      ensures Valid() && root == Empty && Inserted == [] && Dropped == []
    {
      root := Empty;
      Inserted := [];
      Dropped := [];
    }
  }

  /**
   * The root node's aggregate is the total mass of every body inserted, and
   * mass times centre is their total moment on each axis, dropped bodies
   * included.
   */
  lemma RootMoments(t: QuadTree, n: Node)
    requires t.Valid() && t.root == Inner(n)
    ensures n.mass == Sum(t.Inserted, Mass)
    ensures n.mass * n.x == Sum(t.Inserted, Moment(X)) && n.mass * n.y == Sum(t.Inserted, Moment(Y))
  {
    AccountedMoments(n, t.Inserted, t.Dropped);
  }

  lemma AccountedMoments(n: Node, inserted: seq<Body>, dropped: seq<Body>)
    requires Accounts(n, inserted, dropped)
    ensures n.mass == Sum(inserted, Mass)
    ensures n.mass * n.x == Sum(inserted, Moment(X)) && n.mass * n.y == Sum(inserted, Moment(Y))
  {
    AggregatedMoments(inserted, n.mass, n.x, n.y);
  }

  /** When nothing was dropped the root node reaches exactly the inserted bodies, and every node agrees with what it reaches. */
  lemma NothingLost(t: QuadTree)
    requires t.Valid() && t.root.Inner? && t.Dropped == []
    ensures multiset(Reachable(t.root.node)) == multiset(t.Inserted)
    ensures Consistent(t.root.node)
  {
    assert multiset(t.Dropped) == multiset{};
  }
}
