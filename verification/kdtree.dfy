/**
 * The atom KD-tree of the molecule viewer (PBRApp/src/AtomKDTree.cpp).
 *
 * The root constructor bounds every atom's sphere, then the recursive
 * builder picks the axis `depth % 3`, splits at the mean of the atoms'
 * centres on that axis, sends each atom left or right with an if / else-if
 * test, and either stores the atoms in a leaf (at most 12 of them) or builds
 * two children over the two half-boxes.
 *
 * The source recursion is not guaranteed to terminate, so `Build` carries a
 * fuel argument and answers `None` when the fuel runs out; `BuildCapped` is
 * the corrected builder that always terminates.
 */
module AtomKDTree {
  import opened Common

  /** An atom as the tree sees it: its centre and its template's radius. */
  datatype Atom = Atom(position: Vec3, radius: real) {

    /** `position[axis] - radius`: the low end of the sphere on an axis. */
    function Low(axis: nat): real
      requires axis < 3
    {
      position.Get(axis) - radius
    }

    /** `position[axis] + radius`: the high end of the sphere on an axis. */
    function High(axis: nat): real
      requires axis < 3
    {
      position.Get(axis) + radius
    }
  }

  /** The node's `m_BoxMin` / `m_BoxMax`. */
  datatype Box = Box(lo: Vec3, hi: Vec3)

  /**
   * A built node: a leaf keeps its atoms (`m_Atoms`), an internal node keeps
   * none and owns its two children.
   */
  datatype Tree =
    | Leaf(box: Box, atoms: seq<Atom>)
    | Node(box: Box, left: Tree, right: Tree)

  const AXIS_COUNT: nat := 3

  /** `minCount`: a node whose partition holds this many atoms or fewer is a leaf. */
  const LEAF_LIMIT: nat := 12

  /** `std::numeric_limits<float>::max()` */
  const MAX_FLOAT: real := 340282346638528859811704183484516925440.0

  /** `std::numeric_limits<float>::min()`: the smallest POSITIVE normal float, 2^-126. */
  const MIN_FLOAT: real := 1.0 / 85070591730234615865843651857942052864.0

  /** `std::numeric_limits<float>::lowest()`: the most negative finite float. */
  const LOWEST_FLOAT: real := -MAX_FLOAT

  /** Every atom's sphere lies inside the box on every axis. */
  ghost predicate Encloses(box: Box, atoms: seq<Atom>)
  {
    forall k, axis :: 0 <= k < |atoms| && 0 <= axis < 3 ==>
      box.lo.Get(axis) <= atoms[k].Low(axis) && atoms[k].High(axis) <= box.hi.Get(axis)
  }

  // ---------------------------------------------------------------------
  // Root box
  // ---------------------------------------------------------------------

  /**
   * The running minimum of the root constructor on one axis: the seed is
   * replaced by `pos - r` whenever that is strictly smaller.
   */
  function LowFold(atoms: seq<Atom>, axis: nat, seed: real): (r: real)
    requires axis < 3
    ensures r <= seed
    ensures forall k :: 0 <= k < |atoms| ==> r <= atoms[k].Low(axis)
    ensures r == seed || exists k :: 0 <= k < |atoms| && r == atoms[k].Low(axis)
    decreases |atoms|
  {
    if |atoms| == 0 then seed
    else
      var next := if atoms[0].Low(axis) < seed then atoms[0].Low(axis) else seed;
      var r := LowFold(atoms[1..], axis, next);
      assert r == next || exists k :: 0 <= k < |atoms[1..]| && r == atoms[1..][k].Low(axis);
      assert forall k :: 1 <= k < |atoms| ==> atoms[k] == atoms[1..][k - 1];
      r
  }

  /** The running maximum of the root constructor on one axis. */
  function HighFold(atoms: seq<Atom>, axis: nat, seed: real): (r: real)
    requires axis < 3
    ensures seed <= r
    ensures forall k :: 0 <= k < |atoms| ==> atoms[k].High(axis) <= r
    ensures r == seed || exists k :: 0 <= k < |atoms| && r == atoms[k].High(axis)
    decreases |atoms|
  {
    if |atoms| == 0 then seed
    else
      var next := if atoms[0].High(axis) > seed then atoms[0].High(axis) else seed;
      var r := HighFold(atoms[1..], axis, next);
      assert r == next || exists k :: 0 <= k < |atoms[1..]| && r == atoms[1..][k].High(axis);
      assert forall k :: 1 <= k < |atoms| ==> atoms[k] == atoms[1..][k - 1];
      r
  }

  /**
   * The box the root constructor's loop computes from the seeds of its two
   * corners: per axis, the running minimum of `pos - r` and the running
   * maximum of `pos + r`.
   */
  function SeededBox(atoms: seq<Atom>, loSeed: real, hiSeed: real): (box: Box)
    ensures Encloses(box, atoms)
    ensures forall axis :: 0 <= axis < 3 ==>
      box.lo.Get(axis) <= loSeed && hiSeed <= box.hi.Get(axis)
    ensures forall axis :: 0 <= axis < 3 ==>
      (box.lo.Get(axis) == loSeed || exists k :: 0 <= k < |atoms| && box.lo.Get(axis) == atoms[k].Low(axis))
    ensures forall axis :: 0 <= axis < 3 ==>
      (box.hi.Get(axis) == hiSeed || exists k :: 0 <= k < |atoms| && box.hi.Get(axis) == atoms[k].High(axis))
  {
    var lo := Vec3(LowFold(atoms, 0, loSeed), LowFold(atoms, 1, loSeed), LowFold(atoms, 2, loSeed));
    var hi := Vec3(HighFold(atoms, 0, hiSeed), HighFold(atoms, 1, hiSeed), HighFold(atoms, 2, hiSeed));
    FoldedCornersPerAxis(atoms, loSeed, hiSeed, lo, hi);
    Box(lo, hi)
  }

  /** The corners built from the three folds read back, axis by axis, as those folds. */
  lemma FoldedCornersPerAxis(atoms: seq<Atom>, loSeed: real, hiSeed: real, lo: Vec3, hi: Vec3)
    requires lo == Vec3(LowFold(atoms, 0, loSeed), LowFold(atoms, 1, loSeed), LowFold(atoms, 2, loSeed))
    requires hi == Vec3(HighFold(atoms, 0, hiSeed), HighFold(atoms, 1, hiSeed), HighFold(atoms, 2, hiSeed))
    ensures forall axis :: 0 <= axis < 3 ==> lo.Get(axis) == LowFold(atoms, axis, loSeed)
    ensures forall axis :: 0 <= axis < 3 ==> hi.Get(axis) == HighFold(atoms, axis, hiSeed)
  {
    forall axis | 0 <= axis < 3
      ensures lo.Get(axis) == LowFold(atoms, axis, loSeed) && hi.Get(axis) == HighFold(atoms, axis, hiSeed)
    {
      if axis == 0 {
      } else if axis == 1 {
      } else {
        assert axis == 2;
      }
    }
  }

  /**
   * The box of the root constructor: `m_BoxMin` seeded with the largest float,
   * `m_BoxMax` seeded with `numeric_limits<float>::min()`, the smallest
   * positive float.
   */
  function RootBox(atoms: seq<Atom>): (box: Box)
    ensures Encloses(box, atoms)
    ensures forall axis :: 0 <= axis < 3 ==>
      box.lo.Get(axis) <= MAX_FLOAT && MIN_FLOAT <= box.hi.Get(axis)
    ensures forall axis :: 0 <= axis < 3 ==>
      (box.lo.Get(axis) == MAX_FLOAT || exists k :: 0 <= k < |atoms| && box.lo.Get(axis) == atoms[k].Low(axis))
    ensures forall axis :: 0 <= axis < 3 ==>
      (box.hi.Get(axis) == MIN_FLOAT || exists k :: 0 <= k < |atoms| && box.hi.Get(axis) == atoms[k].High(axis))
  {
    SeededBox(atoms, MAX_FLOAT, MIN_FLOAT)
  }

  /**
   * The root box as evidently intended: `m_BoxMax` seeded with
   * `numeric_limits<float>::lowest()`, so that both corners come from the
   * atoms whenever there is at least one.
   */
  function CorrectedRootBox(atoms: seq<Atom>): (box: Box)
    ensures Encloses(box, atoms)
    ensures forall axis :: 0 <= axis < 3 ==>
      box.lo.Get(axis) <= MAX_FLOAT && LOWEST_FLOAT <= box.hi.Get(axis)
    ensures forall axis :: 0 <= axis < 3 ==>
      (box.lo.Get(axis) == MAX_FLOAT || exists k :: 0 <= k < |atoms| && box.lo.Get(axis) == atoms[k].Low(axis))
    ensures forall axis :: 0 <= axis < 3 ==>
      (box.hi.Get(axis) == LOWEST_FLOAT || exists k :: 0 <= k < |atoms| && box.hi.Get(axis) == atoms[k].High(axis))
  {
    SeededBox(atoms, MAX_FLOAT, LOWEST_FLOAT)
  }

  /**
   * For a non-empty atom list inside the float range, the corrected root
   * box's upper corner is exactly the largest `pos + r` on each axis, also
   * for a cloud lying entirely below zero.
   */
  lemma CorrectedRootBoxHighIsTight(atoms: seq<Atom>, axis: nat)
    requires 0 < |atoms| && axis < 3
    requires forall k :: 0 <= k < |atoms| ==> LOWEST_FLOAT <= atoms[k].High(axis)
    ensures exists k :: 0 <= k < |atoms| && CorrectedRootBox(atoms).hi.Get(axis) == atoms[k].High(axis)
  {
    var box := CorrectedRootBox(atoms);
    if box.hi.Get(axis) == LOWEST_FLOAT {
      assert atoms[0].High(axis) <= box.hi.Get(axis);
    }
  }

  /**
   * For a non-empty atom list inside the float range, the root box's lower
   * corner is exactly the smallest `pos - r` on each axis.
   */
  lemma RootBoxLowIsTight(atoms: seq<Atom>, axis: nat)
    requires 0 < |atoms| && axis < 3
    requires forall k :: 0 <= k < |atoms| ==> atoms[k].Low(axis) <= MAX_FLOAT
    ensures exists k :: 0 <= k < |atoms| && RootBox(atoms).lo.Get(axis) == atoms[k].Low(axis)
  {
    var box := RootBox(atoms);
    if box.lo.Get(axis) == MAX_FLOAT {
      assert box.lo.Get(axis) <= atoms[0].Low(axis);
    }
  }

  /** A running maximum whose seed beats every atom never moves. */
  lemma {:induction false} HighFoldKeepsLargerSeed(atoms: seq<Atom>, axis: nat, seed: real)
    requires axis < 3
    requires forall k :: 0 <= k < |atoms| ==> atoms[k].High(axis) <= seed
    ensures HighFold(atoms, axis, seed) == seed
    decreases |atoms|
  {
    if |atoms| > 0 {
      assert forall k :: 0 <= k < |atoms[1..]| ==> atoms[1..][k] == atoms[k + 1];
      HighFoldKeepsLargerSeed(atoms[1..], axis, seed);
    }
  }

  /**
   * Because `m_BoxMax` is seeded with the smallest positive float rather than
   * the lowest float, a cloud lying entirely below that value gets an upper
   * corner of `MIN_FLOAT` on every axis instead of its own largest `pos + r`.
   */
  lemma RootBoxHighIgnoresNegativeCloud(atoms: seq<Atom>)
    requires forall k, axis :: 0 <= k < |atoms| && 0 <= axis < 3 ==> atoms[k].High(axis) <= MIN_FLOAT
    ensures RootBox(atoms).hi == Vec3(MIN_FLOAT, MIN_FLOAT, MIN_FLOAT)
  {
    HighFoldKeepsLargerSeed(atoms, 0, MIN_FLOAT);
    HighFoldKeepsLargerSeed(atoms, 1, MIN_FLOAT);
    HighFoldKeepsLargerSeed(atoms, 2, MIN_FLOAT);
  }

  // ---------------------------------------------------------------------
  // Split value
  // ---------------------------------------------------------------------

  /** `totalAxisSum`: the sum of the atoms' centres on an axis. */
  function AxisSum(atoms: seq<Atom>, axis: nat): real
    requires axis < 3
    decreases |atoms|
  {
    if |atoms| == 0 then 0.0 else atoms[0].position.Get(axis) + AxisSum(atoms[1..], axis)
  }

  /** `half`: the mean of the atoms' centres on the split axis. */
  function Mean(atoms: seq<Atom>, axis: nat): real
    requires 0 < |atoms| && axis < 3
  {
    AxisSum(atoms, axis) / (|atoms| as real)
  }

  lemma {:induction false} AxisSumBounds(atoms: seq<Atom>, axis: nat, lo: real, hi: real)
    requires axis < 3
    requires forall k :: 0 <= k < |atoms| ==> lo <= atoms[k].position.Get(axis) <= hi
    ensures (|atoms| as real) * lo <= AxisSum(atoms, axis) <= (|atoms| as real) * hi
    decreases |atoms|
  {
    if |atoms| > 0 {
      assert forall k :: 0 <= k < |atoms[1..]| ==> atoms[1..][k] == atoms[k + 1];
      AxisSumBounds(atoms[1..], axis, lo, hi);
    }
  }

  /**
   * The split value is a mean of centres, so it lies within any bounds that
   * hold every centre on the axis; with all centres equal it is that centre.
   */
  lemma MeanWithinCentres(atoms: seq<Atom>, axis: nat, lo: real, hi: real)
    requires 0 < |atoms| && axis < 3
    requires forall k :: 0 <= k < |atoms| ==> lo <= atoms[k].position.Get(axis) <= hi
    ensures lo <= Mean(atoms, axis) <= hi
  {
    AxisSumBounds(atoms, axis, lo, hi);
    var n := |atoms| as real;
    assert n * lo <= AxisSum(atoms, axis) <= n * hi;
    assert AxisSum(atoms, axis) / n <= hi by {
      assert AxisSum(atoms, axis) / n * n == AxisSum(atoms, axis);
    }
    assert lo <= AxisSum(atoms, axis) / n by {
      assert AxisSum(atoms, axis) / n * n == AxisSum(atoms, axis);
    }
  }

  // ---------------------------------------------------------------------
  // Partition
  // ---------------------------------------------------------------------

  /** The `if` test: the sphere reaches down to the split value. */
  predicate GoesLeft(a: Atom, axis: nat, half: real)
    requires axis < 3
  {
    a.Low(axis) <= half
  }

  /** The `else if` test: not left, and the sphere reaches up to the split value. */
  predicate GoesRight(a: Atom, axis: nat, half: real)
    requires axis < 3
  {
    !GoesLeft(a, axis, half) && half <= a.High(axis)
  }

  /** The atoms passing the left test, in input order. */
  function LeftOf(atoms: seq<Atom>, axis: nat, half: real): (left: seq<Atom>)
    requires axis < 3
    ensures forall a :: a in left ==> a.Low(axis) <= half
    ensures |left| <= |atoms|
    decreases |atoms|
  {
    if |atoms| == 0 then []
    else (if GoesLeft(atoms[0], axis, half) then [atoms[0]] else []) + LeftOf(atoms[1..], axis, half)
  }

  /** The atoms passing the right test, in input order. */
  function RightOf(atoms: seq<Atom>, axis: nat, half: real): (right: seq<Atom>)
    requires axis < 3
    ensures forall a :: a in right ==> half < a.Low(axis) && half <= a.High(axis)
    ensures |right| <= |atoms|
    decreases |atoms|
  {
    if |atoms| == 0 then []
    else (if GoesRight(atoms[0], axis, half) then [atoms[0]] else []) + RightOf(atoms[1..], axis, half)
  }

  /**
   * The single pass of the source that fills `left` and `right`: the left
   * side is the atoms passing the `if` test and the right side the atoms
   * passing the `else if` test, each in input order.
   */
  function Partition(atoms: seq<Atom>, axis: nat, half: real): (p: (seq<Atom>, seq<Atom>))
    requires axis < 3
    ensures p.0 == LeftOf(atoms, axis, half) && p.1 == RightOf(atoms, axis, half)
    decreases |atoms|
  {
    if |atoms| == 0 then ([], [])
    else
      var rest := Partition(atoms[1..], axis, half);
      if atoms[0].Low(axis) <= half then ([atoms[0]] + rest.0, rest.1)
      else if atoms[0].High(axis) >= half then (rest.0, [atoms[0]] + rest.1)
      else rest
  }

  /** No atom is put on both sides, nor twice on one side. */
  lemma {:induction false} PartitionNeverDuplicates(atoms: seq<Atom>, axis: nat, half: real)
    requires axis < 3
    ensures multiset(LeftOf(atoms, axis, half)) + multiset(RightOf(atoms, axis, half)) <= multiset(atoms)
    ensures |LeftOf(atoms, axis, half)| + |RightOf(atoms, axis, half)| <= |atoms|
    decreases |atoms|
  {
    if |atoms| > 0 {
      PartitionNeverDuplicates(atoms[1..], axis, half);
      assert atoms == [atoms[0]] + atoms[1..];
      assert multiset(atoms) == multiset{atoms[0]} + multiset(atoms[1..]);
    }
  }

  /** With non-negative radii every atom passes one of the two tests. */
  lemma PartitionKeepsEveryAtom(atoms: seq<Atom>, axis: nat, half: real)
    requires axis < 3
    ensures (forall a :: a in atoms ==> 0.0 <= a.radius) ==>
      multiset(LeftOf(atoms, axis, half)) + multiset(RightOf(atoms, axis, half)) == multiset(atoms)
    ensures (forall a :: a in atoms ==> 0.0 <= a.radius) ==>
      |LeftOf(atoms, axis, half)| + |RightOf(atoms, axis, half)| == |atoms|
  {
    if forall a :: a in atoms ==> 0.0 <= a.radius {
      NonNegativePartitionKeepsEveryAtom(atoms, axis, half);
    }
  }

  /** The induction behind `PartitionKeepsEveryAtom`: the first atom lands on exactly one side. */
  lemma {:induction false} NonNegativePartitionKeepsEveryAtom(atoms: seq<Atom>, axis: nat, half: real)
    requires axis < 3
    requires forall k :: 0 <= k < |atoms| ==> 0.0 <= atoms[k].radius
    ensures multiset(LeftOf(atoms, axis, half)) + multiset(RightOf(atoms, axis, half)) == multiset(atoms)
    ensures |LeftOf(atoms, axis, half)| + |RightOf(atoms, axis, half)| == |atoms|
    decreases |atoms|
  {
    if |atoms| > 0 {
      var a := atoms[0];
      var rest := atoms[1..];
      NonNegativePartitionKeepsEveryAtom(rest, axis, half);
      var l, r := LeftOf(rest, axis, half), RightOf(rest, axis, half);
      assert multiset(atoms) == multiset{a} + multiset(rest) by {
        assert atoms == [a] + rest;
      }
      if GoesLeft(a, axis, half) {
        assert LeftOf(atoms, axis, half) == [a] + l;
        assert RightOf(atoms, axis, half) == r;
        assert multiset([a] + l) == multiset{a} + multiset(l);
      } else {
        assert GoesRight(a, axis, half) by {
          assert 0.0 <= a.radius;
        }
        assert LeftOf(atoms, axis, half) == l;
        assert RightOf(atoms, axis, half) == [a] + r;
        assert multiset([a] + r) == multiset{a} + multiset(r);
      }
    }
  }

  /** When every sphere reaches the split value from above, everything goes left. */
  lemma {:induction false} PartitionAllLeft(atoms: seq<Atom>, axis: nat, half: real)
    requires axis < 3
    requires forall a :: a in atoms ==> a.Low(axis) <= half
    ensures Partition(atoms, axis, half) == (atoms, [])
    decreases |atoms|
  {
    if |atoms| > 0 {
      PartitionAllLeft(atoms[1..], axis, half);
      assert atoms == [atoms[0]] + atoms[1..];
    }
  }

  /**
   * A negative radius can fail both tests: an atom centred on the split
   * value with radius -1 is put on neither side.
   */
  lemma NegativeRadiusDropsAtom(c: Vec3, axis: nat)
    requires axis < 3
    ensures Partition([Atom(c, -1.0)], axis, c.Get(axis)) == ([], [])
  {
  }

  /**
   * The left child's box ends at the split value, yet a left atom only has
   * its LOW end below it: an atom of radius 2 at x = 0 next to a small atom
   * at x = 2 goes left of the mean 1 although its sphere reaches x = 2.
   */
  lemma LeftAtomMayStickOut()
    ensures var atoms := [Atom(Vec3(0.0, 0.0, 0.0), 2.0), Atom(Vec3(2.0, 0.0, 0.0), 0.5)];
            var half := Mean(atoms, 0);
            half == 1.0 && atoms[0] in Partition(atoms, 0, half).0 && atoms[0].High(0) > half
  {
    var atoms := [Atom(Vec3(0.0, 0.0, 0.0), 2.0), Atom(Vec3(2.0, 0.0, 0.0), 0.5)];
    assert AxisSum(atoms, 0) == 2.0 by {
      assert atoms[1..] == [atoms[1]];
      assert atoms[1..][1..] == [];
    }
  }

  // ---------------------------------------------------------------------
  // Tree construction
  // ---------------------------------------------------------------------

  /** All atoms stored in the tree's leaves, left subtree first. */
  function TreeAtoms(t: Tree): seq<Atom>
  {
    match t
    case Leaf(_, atoms) => atoms
    case Node(_, l, r) => TreeAtoms(l) + TreeAtoms(r)
  }

  /** Every leaf holds at most `LEAF_LIMIT` atoms. */
  predicate LeavesWithinLimit(t: Tree)
  {
    match t
    case Leaf(_, atoms) => |atoms| <= LEAF_LIMIT
    case Node(_, l, r) => LeavesWithinLimit(l) && LeavesWithinLimit(r)
  }

  /**
   * Each internal node at depth d cuts its box on axis `d % 3` at one value:
   * the left child keeps the lower corner and ends there, the right child
   * keeps the upper corner and starts there; children sit at depth d + 1.
   */
  predicate SplitsCycleAxes(t: Tree, depth: nat)
  {
    match t
    case Leaf(_, _) => true
    case Node(box, l, r) =>
      var axis := depth % AXIS_COUNT;
      var cut := l.box.hi.Get(axis);
      && l.box == Box(box.lo, box.hi.With(axis, cut))
      && r.box == Box(box.lo.With(axis, cut), box.hi)
      && SplitsCycleAxes(l, depth + 1)
      && SplitsCycleAxes(r, depth + 1)
  }

  /** Both sides of a partition inherit non-negative radii from its input. */
  lemma PartitionSidesKeepRadii(atoms: seq<Atom>, axis: nat, half: real)
    requires axis < 3
    ensures NonNegativeRadii(atoms) ==>
      NonNegativeRadii(LeftOf(atoms, axis, half)) && NonNegativeRadii(RightOf(atoms, axis, half))
  {
    var left, right := LeftOf(atoms, axis, half), RightOf(atoms, axis, half);
    PartitionNeverDuplicates(atoms, axis, half);
    SubMultisetKeepsRadii(atoms, left, multiset(right));
    SubMultisetKeepsRadii(atoms, right, multiset(left));
  }

  /** A run that, with some other atoms, fits inside `atoms` as a multiset inherits their non-negative radii. */
  lemma SubMultisetKeepsRadii(atoms: seq<Atom>, part: seq<Atom>, other: multiset<Atom>)
    requires multiset(part) + other <= multiset(atoms)
    ensures NonNegativeRadii(atoms) ==> NonNegativeRadii(part)
  {
    if NonNegativeRadii(atoms) {
      forall a | a in part
        ensures 0.0 <= a.radius
      {
        assert a in multiset(part);
        assert a in multiset(atoms);
      }
    }
  }

  /** No atom has a negative radius (the precondition of "no atom is lost"). */
  predicate NonNegativeRadii(atoms: seq<Atom>)
  {
    forall a :: a in atoms ==> 0.0 <= a.radius
  }

  /** What one call of `AAtomKDTree` decides before it recurses. */
  datatype Plan =
    | Keep(kept: seq<Atom>)
    | Split(half: real, left: seq<Atom>, right: seq<Atom>)

  /**
   * The decision of a node at depth `depth`: axis `depth % 3`, split value
   * the mean, partition, and a leaf holding `left ++ right` when that is at
   * most 12 atoms. An empty atom list divides 0 by 0; every comparison with
   * the resulting NaN is false, so both sides stay empty and the node keeps
   * nothing.
   */
  function Decide(atoms: seq<Atom>, depth: nat): (d: Plan)
    ensures d.Keep? ==> |d.kept| <= LEAF_LIMIT && multiset(d.kept) <= multiset(atoms)
    ensures d.Keep? && 0 < |atoms| ==>
      var p := Partition(atoms, depth % AXIS_COUNT, Mean(atoms, depth % AXIS_COUNT));
      d.kept == p.0 + p.1
    ensures d.Keep? && NonNegativeRadii(atoms) ==> multiset(d.kept) == multiset(atoms)
    ensures d.Split? ==>
      && 0 < |atoms|
      && d.half == Mean(atoms, depth % AXIS_COUNT)
      && LEAF_LIMIT < |d.left| + |d.right| <= |atoms|
      && multiset(d.left) + multiset(d.right) <= multiset(atoms)
    ensures d.Split? && NonNegativeRadii(atoms) ==>
      && multiset(d.left) + multiset(d.right) == multiset(atoms)
      && NonNegativeRadii(d.left) && NonNegativeRadii(d.right)
    ensures |atoms| <= LEAF_LIMIT ==> d.Keep?
  {
    var axis := depth % AXIS_COUNT;
    if |atoms| == 0 then Keep([])
    else
      var half := Mean(atoms, axis);
      var p := Partition(atoms, axis, half);
      PartitionNeverDuplicates(atoms, axis, half);
      PartitionKeepsEveryAtom(atoms, axis, half);
      PartitionSidesKeepRadii(atoms, axis, half);
      if |p.0| + |p.1| <= LEAF_LIMIT then Keep(p.0 + p.1)
      else Split(half, p.0, p.1)
  }

  /** The left child's box: the parent's box cut down to the split value on `axis`. */
  function LowerHalf(box: Box, axis: nat, half: real): (b: Box)
    requires axis < 3
    ensures b.lo == box.lo && b.hi.Get(axis) == half
  {
    Box(box.lo, box.hi.With(axis, half))
  }

  /** The right child's box: the parent's box cut up from the split value on `axis`. */
  function UpperHalf(box: Box, axis: nat, half: real): (b: Box)
    requires axis < 3
    ensures b.hi == box.hi && b.lo.Get(axis) == half
  {
    Box(box.lo.With(axis, half), box.hi)
  }

  /**
   * `AAtomKDTree(atoms, depth)` on a node whose box is `box`. `None` means the
   * fuel ran out, i.e. the source would still be recursing.
   */
  function Build(atoms: seq<Atom>, box: Box, depth: nat, fuel: nat): (t: Option<Tree>)
    ensures t.Some? ==> t.value.box == box
    ensures t.Some? ==> LeavesWithinLimit(t.value)
    ensures t.Some? ==> SplitsCycleAxes(t.value, depth)
    ensures t.Some? ==> multiset(TreeAtoms(t.value)) <= multiset(atoms)
    ensures t.Some? && NonNegativeRadii(atoms) ==> multiset(TreeAtoms(t.value)) == multiset(atoms)
    ensures t.Some? && t.value.Node? ==>
      LEAF_LIMIT < |atoms| && t.value.left.box.hi.Get(depth % AXIS_COUNT) == Mean(atoms, depth % AXIS_COUNT)
    ensures |atoms| <= LEAF_LIMIT ==> t.Some? && t.value.Leaf?
    decreases fuel
  {
    match Decide(atoms, depth)
    case Keep(kept) => Some(Leaf(box, kept))
    case Split(half, left, right) =>
      if fuel == 0 then None
      else
        var axis := depth % AXIS_COUNT;
        var l := Build(left, LowerHalf(box, axis, half), depth + 1, fuel - 1);
        var r := Build(right, UpperHalf(box, axis, half), depth + 1, fuel - 1);
        if l.None? || r.None? then None
        else
          assert multiset(TreeAtoms(Node(box, l.value, r.value))) == multiset(TreeAtoms(l.value)) + multiset(TreeAtoms(r.value));
          Some(Node(box, l.value, r.value))
  }

  /** The public constructor: the root box, then the build at depth 0. */
  function BuildRoot(atoms: seq<Atom>, fuel: nat): (t: Option<Tree>)
    ensures t.Some? ==> Encloses(t.value.box, atoms)
    ensures t.Some? ==> LeavesWithinLimit(t.value) && SplitsCycleAxes(t.value, 0)
    ensures t.Some? && NonNegativeRadii(atoms) ==> multiset(TreeAtoms(t.value)) == multiset(atoms)
  {
    Build(atoms, RootBox(atoms), 0, fuel)
  }

  /** A single atom of negative radius is lost: the root is an empty leaf. */
  lemma SingleNegativeAtomIsLost(a: Atom, box: Box, depth: nat, fuel: nat)
    requires a.radius < 0.0
    ensures Build([a], box, depth, fuel) == Some(Leaf(box, []))
  {
    var axis := depth % AXIS_COUNT;
    assert [a][1..] == [];
    assert AxisSum([a], axis) == a.position.Get(axis);
  }

  /**
   * More than 12 atoms at one position with non-negative radii never finish:
   * the mean is their common centre, every atom goes left, and the left child
   * repeats the same atom list one level deeper, on any fuel.
   */
  lemma {:induction false} CoincidentAtomsNeverFinish(atoms: seq<Atom>, c: Vec3, box: Box, depth: nat, fuel: nat)
    requires LEAF_LIMIT < |atoms|
    requires forall a :: a in atoms ==> a.position == c && 0.0 <= a.radius
    ensures Build(atoms, box, depth, fuel) == None
    decreases fuel
  {
    var axis := depth % AXIS_COUNT;
    var half := c.Get(axis);
    CoincidentAtomsAllGoLeft(atoms, c, depth);
    if fuel > 0 {
      var rest: nat := fuel - 1;
      CoincidentAtomsNeverFinish(atoms, c, LowerHalf(box, axis, half), depth + 1, rest);
      SplitWithUnfinishedHalfNeverFinishes(atoms, box, depth, rest, half, atoms, []);
    }
  }

  /** A split whose lower half does not finish does not finish either. */
  lemma SplitWithUnfinishedHalfNeverFinishes(atoms: seq<Atom>, box: Box, depth: nat, rest: nat,
                                             half: real, left: seq<Atom>, right: seq<Atom>)
    requires Decide(atoms, depth) == Split(half, left, right)
    requires Build(left, LowerHalf(box, depth % AXIS_COUNT, half), depth + 1, rest) == None
    ensures Build(atoms, box, depth, rest + 1) == None
  {
  }


  /** One level of `CoincidentAtomsNeverFinish`: the plan splits at the common centre with nothing on the right. */
  lemma CoincidentAtomsAllGoLeft(atoms: seq<Atom>, c: Vec3, depth: nat)
    requires LEAF_LIMIT < |atoms|
    requires forall a :: a in atoms ==> a.position == c && 0.0 <= a.radius
    ensures Decide(atoms, depth) == Split(c.Get(depth % AXIS_COUNT), atoms, [])
  {
    var axis := depth % AXIS_COUNT;
    MeanWithinCentres(atoms, axis, c.Get(axis), c.Get(axis));
    var half := Mean(atoms, axis);
    assert half == c.Get(axis);
    PartitionAllLeft(atoms, axis, half);
  }


  /**
   * The corrected builder: identical to `Build`, except that a node which
   * would split once `levels` more levels have been built becomes one
   * (possibly oversized) leaf holding both sides. It terminates on every input.
   */
  function BuildCapped(atoms: seq<Atom>, box: Box, depth: nat, levels: nat): (t: Tree)
    ensures t.box == box
    ensures SplitsCycleAxes(t, depth)
    ensures multiset(TreeAtoms(t)) <= multiset(atoms)
    ensures NonNegativeRadii(atoms) ==> multiset(TreeAtoms(t)) == multiset(atoms)
    decreases levels
  {
    match Decide(atoms, depth)
    case Keep(kept) => Leaf(box, kept)
    case Split(half, left, right) =>
      if levels == 0 then Leaf(box, left + right)
      else
        var axis := depth % AXIS_COUNT;
        var l := BuildCapped(left, LowerHalf(box, axis, half), depth + 1, levels - 1);
        var r := BuildCapped(right, UpperHalf(box, axis, half), depth + 1, levels - 1);
        assert multiset(TreeAtoms(Node(box, l, r))) == multiset(TreeAtoms(l)) + multiset(TreeAtoms(r));
        Node(box, l, r)
  }

  /**
   * The corrected public constructor: the corrected root box, then the capped
   * build. It always yields a tree over that box that keeps every atom of
   * non-negative radius, coincident clouds included.
   */
  function BuildRootCapped(atoms: seq<Atom>, levels: nat): (t: Tree)
    ensures t.box == CorrectedRootBox(atoms)
    ensures Encloses(t.box, atoms)
    ensures SplitsCycleAxes(t, 0)
    ensures NonNegativeRadii(atoms) ==> multiset(TreeAtoms(t)) == multiset(atoms)
  {
    BuildCapped(atoms, CorrectedRootBox(atoms), 0, levels)
  }

  /** Whenever the source's build finishes within `fuel` levels with tree `t`, the capped build gives `t` too. */
  lemma {:induction false} BuildCappedAgreesWithBuild(atoms: seq<Atom>, box: Box, depth: nat, fuel: nat, t: Tree)
    requires Build(atoms, box, depth, fuel) == Some(t)
    ensures BuildCapped(atoms, box, depth, fuel) == t
    decreases fuel
  {
    match Decide(atoms, depth)
    case Keep(_) =>
    case Split(half, left, right) =>
      var axis := depth % AXIS_COUNT;
      FinishedSplitHadFuel(atoms, box, depth, fuel, t);
      var rest: nat := fuel - 1;
      FinishedSplitHasFinishedHalves(atoms, box, depth, rest, t, half, left, right);
      BuildCappedAgreesWithBuild(left, LowerHalf(box, axis, half), depth + 1, rest, t.left);
      BuildCappedAgreesWithBuild(right, UpperHalf(box, axis, half), depth + 1, rest, t.right);
      CappedSplitWithAgreeingHalves(atoms, box, depth, rest, t, half, left, right);
  }

  /** A split that finished had fuel left. */
  lemma FinishedSplitHadFuel(atoms: seq<Atom>, box: Box, depth: nat, fuel: nat, t: Tree)
    requires Decide(atoms, depth).Split?
    requires Build(atoms, box, depth, fuel) == Some(t)
    ensures 0 < fuel
  {
  }

  /** A split that finished is a node whose children are its two finished halves. */
  lemma FinishedSplitHasFinishedHalves(atoms: seq<Atom>, box: Box, depth: nat, rest: nat, t: Tree,
                                       half: real, left: seq<Atom>, right: seq<Atom>)
    requires Decide(atoms, depth) == Split(half, left, right)
    requires Build(atoms, box, depth, rest + 1) == Some(t)
    ensures t.Node? && t.box == box
    ensures Build(left, LowerHalf(box, depth % AXIS_COUNT, half), depth + 1, rest) == Some(t.left)
    ensures Build(right, UpperHalf(box, depth % AXIS_COUNT, half), depth + 1, rest) == Some(t.right)
  {
  }

  /** A capped split whose halves give a node's children gives that node. */
  lemma CappedSplitWithAgreeingHalves(atoms: seq<Atom>, box: Box, depth: nat, rest: nat, t: Tree,
                                      half: real, left: seq<Atom>, right: seq<Atom>)
    requires Decide(atoms, depth) == Split(half, left, right)
    requires t.Node? && t.box == box
    requires BuildCapped(left, LowerHalf(box, depth % AXIS_COUNT, half), depth + 1, rest) == t.left
    requires BuildCapped(right, UpperHalf(box, depth % AXIS_COUNT, half), depth + 1, rest) == t.right
    ensures BuildCapped(atoms, box, depth, rest + 1) == t
  {
  }




}
