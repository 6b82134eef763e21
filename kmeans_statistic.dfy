/**
 * The per-node statistic of dual-tree k-means (`DualTreeKMeansStatistic`):
 * distance bounds, owner and pruning bookkeeping, the node's centroid, and
 * the node's "true" parent and children.
 *
 * A tree node is seen only through what the statistic's constructor reads
 * from it (`NodeView`): its point indices, its children's descendant counts
 * and already-built centroids, its own descendant count, and the identities
 * of its parent and children.  Raw `void*` back-references become `NodeRef`.
 */
module KMeansStatistic {

  import opened Vectors
  import opened TreeTraits

  /** `DBL_MAX`, the largest finite double, (2 - 2^-52) * 2^1023, exactly. */
  const DBL_MAX: real := 179769313486231570814527423731704356798070567525844996598917476803157260780028538760589558632766878171540458953514382464234321326889464182768467546703537516986049910576551282076245490090389328944075868508455133942304583236903222948165808559332123348274797826204144723168738177180919299881250404026184124858368.0

  /** A 64-bit `size_t`. */
  type SizeT = x: int | 0 <= x < 0x1_0000_0000_0000_0000

  /** `size_t(-1)`, used as "no owner" and "not pruned". */
  const SIZE_MAX: SizeT := 0xFFFF_FFFF_FFFF_FFFF

  /** An untyped node pointer: null, or the node with the given identity. */
  datatype NodeRef = Null | Ref(id: nat)

  /** What the statistic's constructor reads from one child of the node. */
  datatype ChildView = ChildView(
    id: nat,               // identity of `node.Child(i)`
    numDescendants: nat,   // `node.Child(i).NumDescendants()`
    centroid: Vector)      // `node.Child(i).Stat().Centroid()`

  /** What the statistic's constructor reads from the node itself. */
  datatype NodeView = NodeView(
    parent: NodeRef,          // `node.Parent()`
    points: seq<nat>,         // `node.Point(0)`, ..., `node.Point(NumPoints() - 1)`
    children: seq<ChildView>,
    numDescendants: nat)      // `node.NumDescendants()`

  /**
   * The constructor skips the i-th point of a node only for a tree type
   * with self-children, only for i == 0, and only when the node has children:
   * that point also appears in the children.
   */
  predicate SkipsPoint(traits: Traits, numChildren: nat, i: nat)
  {
    traits.hasSelfChildren && i == 0 && numChildren > 0
  }

  /** The points that the first n iterations of the point loop add. */
  function CountedPrefix(traits: Traits, points: seq<nat>, numChildren: nat, n: nat): seq<nat>
    requires n <= |points|
  {
    if n == 0 then []
    else CountedPrefix(traits, points, numChildren, n - 1)
         + (if SkipsPoint(traits, numChildren, n - 1) then [] else [points[n - 1]])
  }

  /** The node's own points that its centroid sums directly. */
  function CountedPoints(traits: Traits, points: seq<nat>, numChildren: nat): seq<nat>
  {
    CountedPrefix(traits, points, numChildren, |points|)
  }

  lemma {:induction false} CountedPrefixIsRun(traits: Traits, points: seq<nat>, numChildren: nat, n: nat)
    requires n <= |points|
    ensures CountedPrefix(traits, points, numChildren, n)
         == if n > 0 && SkipsPoint(traits, numChildren, 0) then points[1..n] else points[..n]
  {
    if n > 0 {
      CountedPrefixIsRun(traits, points, numChildren, n - 1);
      if n - 1 > 0 && SkipsPoint(traits, numChildren, 0) {
        assert points[1..n] == points[1..n - 1] + [points[n - 1]];
      } else if !SkipsPoint(traits, numChildren, 0) {
        assert points[..n] == points[..n - 1] + [points[n - 1]];
      }
    }
  }

  /**
   * Exactly one point is left out of the direct sum, point 0, and only when
   * the tree type has self-children and the node has children; every other
   * point is summed once, in order.
   */
  lemma CountedPointsExactlyOnce(traits: Traits, points: seq<nat>, numChildren: nat)
    ensures CountedPoints(traits, points, numChildren)
         == if |points| > 0 && traits.hasSelfChildren && numChildren > 0 then points[1..] else points
  {
    CountedPrefixIsRun(traits, points, numChildren, |points|);
  }

  /** A tree type without self-children sums every point a node holds. */
  lemma BinarySpaceTreeCountsEveryPoint(points: seq<nat>, numChildren: nat)
    ensures CountedPoints(BinarySpaceTree(), points, numChildren) == points
  {
    CountedPointsExactlyOnce(BinarySpaceTree(), points, numChildren);
  }

  /** Every child's centroid has one entry per dataset row. */
  predicate ChildrenSized(rows: nat, children: seq<ChildView>)
  {
    forall i :: 0 <= i < |children| ==> |children[i].centroid| == rows
  }

  /** `sum over children of NumDescendants() * Centroid()`, first child first. */
  function ChildSum(rows: nat, children: seq<ChildView>): (v: Vector)
    requires ChildrenSized(rows, children)
    ensures |v| == rows
  {
    if children == [] then Zeros(rows)
    else
      var last := children[|children| - 1];
      Add(ChildSum(rows, children[..|children| - 1]), Scale(last.numDescendants as real, last.centroid))
  }

  /** What the node constructor needs of its node and dataset. */
  predicate Constructible(ds: Dataset, node: NodeView)
  {
    && ds.Valid()
    && ds.Indexes(node.points)
    && ChildrenSized(ds.rows, node.children)
    && node.numDescendants > 0
  }

  /**
   * The centroid the node constructor computes: the counted direct points
   * plus each child's centroid weighted by its descendant count, divided by
   * the node's descendant count.  It has one entry per dataset row.
   */
  function NodeCentroid(traits: Traits, node: NodeView, ds: Dataset): (c: Vector)
    requires Constructible(ds, node)
    ensures |c| == ds.rows
  {
    var direct := CountedPoints(traits, node.points, |node.children|);
    CountedPrefixIsRun(traits, node.points, |node.children|, |node.points|);
    Div(Add(PointSum(ds, direct), ChildSum(ds.rows, node.children)), node.numDescendants as real)
  }

  /** The statistic's fields, as one value. */
  datatype StatState = StatState(
    upperBound: real,
    lowerBound: real,
    owner: SizeT,
    pruned: SizeT,
    staticPruned: bool,
    staticUpperBoundMovement: real,
    staticLowerBoundMovement: real,
    centroid: Vector,
    trueParent: NodeRef,
    trueChildren: seq<NodeRef>)

  class DualTreeKMeansStatistic {
    var upperBound: real
    var lowerBound: real
    var owner: SizeT
    var pruned: SizeT
    var staticPruned: bool
    var staticUpperBoundMovement: real
    var staticLowerBoundMovement: real
    var centroid: Vector
    var trueParent: NodeRef
    var trueChildren: seq<NodeRef>

    /** The whole state, so that an update can say what it leaves alone. */
    function State(): StatState
      reads this
    {
      StatState(upperBound, lowerBound, owner, pruned, staticPruned,
                staticUpperBoundMovement, staticLowerBoundMovement,
                centroid, trueParent, trueChildren)
    }

    /**
     * The bookkeeping both constructors start from: bounds unknown (DBL_MAX),
     * no owner, not pruned, not statically pruned, no movement.
     */
    predicate InitialBookkeeping()
      reads this
    {
      && upperBound == DBL_MAX && lowerBound == DBL_MAX
      && owner == SIZE_MAX && pruned == SIZE_MAX
      && !staticPruned
      && staticUpperBoundMovement == 0.0 && staticLowerBoundMovement == 0.0
    }

    /** The statistic of a node that has not been attached to a tree. */
    constructor ()
      ensures InitialBookkeeping()
      ensures centroid == []
      ensures TrueParent() == Null && NumTrueChildren() == 0
    {
      upperBound, lowerBound := DBL_MAX, DBL_MAX;
      owner, pruned := SIZE_MAX, SIZE_MAX;
      staticPruned := false;
      staticUpperBoundMovement, staticLowerBoundMovement := 0.0, 0.0;
      centroid := [];
      trueParent := Null;
      trueChildren := [];
    }

    /**
     * The statistic of `node`, built after its children's statistics: the
     * centroid is computed bottom-up and the true parent and children are
     * the node's parent and children.
     */
    constructor FromNode(traits: Traits, node: NodeView, ds: Dataset)
      requires Constructible(ds, node)
      ensures InitialBookkeeping()
      ensures centroid == NodeCentroid(traits, node, ds)
      ensures TrueParent() == node.parent
      ensures NumTrueChildren() == |node.children|
      ensures forall i :: 0 <= i < |node.children| ==> TrueChild(i) == Ref(node.children[i].id)
    {
      var numChildren := |node.children|;
      var c := Zeros(ds.rows);
      for i := 0 to |node.points|
        invariant ds.Indexes(CountedPrefix(traits, node.points, numChildren, i))
        invariant c == PointSum(ds, CountedPrefix(traits, node.points, numChildren, i))
      {
        CountedPrefixIsRun(traits, node.points, numChildren, i);
        if traits.hasSelfChildren && i == 0 && numChildren > 0 {
          continue;
        }
        PointSumAppend(ds, CountedPrefix(traits, node.points, numChildren, i), node.points[i]);
        c := Add(c, ds.cols[node.points[i]]);
      }
      ghost var direct := PointSum(ds, CountedPoints(traits, node.points, numChildren));
      for i := 0 to numChildren
        invariant c == Add(direct, ChildSum(ds.rows, node.children[..i]))
      {
        var child := node.children[i];
        assert node.children[..i + 1][..i] == node.children[..i];
        AddAssociative(direct, ChildSum(ds.rows, node.children[..i]), Scale(child.numDescendants as real, child.centroid));
        c := Add(c, Scale(child.numDescendants as real, child.centroid));
      }
      assert node.children[..numChildren] == node.children;
      c := Div(c, node.numDescendants as real);

      var tc: seq<NodeRef> := [];
      for i := 0 to numChildren
        invariant |tc| == i
        invariant forall j :: 0 <= j < i ==> tc[j] == Ref(node.children[j].id)
      {
        tc := tc + [Ref(node.children[i].id)];
      }

      upperBound, lowerBound := DBL_MAX, DBL_MAX;
      owner, pruned := SIZE_MAX, SIZE_MAX;
      staticPruned := false;
      staticUpperBoundMovement, staticLowerBoundMovement := 0.0, 0.0;
      centroid := c;
      trueParent := node.parent;
      trueChildren := tc;
    }

    function UpperBound(): real reads this { upperBound }
    function LowerBound(): real reads this { lowerBound }
    function Centroid(): Vector reads this { centroid }
    function Owner(): SizeT reads this { owner }
    function Pruned(): SizeT reads this { pruned }
    function StaticPruned(): bool reads this { staticPruned }
    function StaticUpperBoundMovement(): real reads this { staticUpperBoundMovement }
    function StaticLowerBoundMovement(): real reads this { staticLowerBoundMovement }
    function TrueParent(): NodeRef reads this { trueParent }
    function NumTrueChildren(): nat reads this { |trueChildren| }

    function TrueChild(i: nat): NodeRef
      reads this
      requires i < |trueChildren|
    {
      trueChildren[i]
    }

    // The non-const accessors hand out a reference to one field; a write
    // through that reference is modelled as a setter that changes that field
    // and nothing else.

    method SetUpperBound(v: real)
      modifies this`upperBound
      ensures UpperBound() == v
      ensures State() == old(State()).(upperBound := v)
    {
      upperBound := v;
    }

    method SetLowerBound(v: real)
      modifies this`lowerBound
      ensures LowerBound() == v
      ensures State() == old(State()).(lowerBound := v)
    {
      lowerBound := v;
    }

    method SetCentroid(v: Vector)
      modifies this`centroid
      ensures Centroid() == v
      ensures State() == old(State()).(centroid := v)
    {
      centroid := v;
    }

    method SetOwner(v: SizeT)
      modifies this`owner
      ensures Owner() == v
      ensures State() == old(State()).(owner := v)
    {
      owner := v;
    }

    method SetPruned(v: SizeT)
      modifies this`pruned
      ensures Pruned() == v
      ensures State() == old(State()).(pruned := v)
    {
      pruned := v;
    }

    method SetStaticPruned(v: bool)
      modifies this`staticPruned
      ensures StaticPruned() == v
      ensures State() == old(State()).(staticPruned := v)
    {
      staticPruned := v;
    }

    method SetStaticUpperBoundMovement(v: real)
      modifies this`staticUpperBoundMovement
      ensures StaticUpperBoundMovement() == v
      ensures State() == old(State()).(staticUpperBoundMovement := v)
    {
      staticUpperBoundMovement := v;
    }

    method SetStaticLowerBoundMovement(v: real)
      modifies this`staticLowerBoundMovement
      ensures StaticLowerBoundMovement() == v
      ensures State() == old(State()).(staticLowerBoundMovement := v)
    {
      staticLowerBoundMovement := v;
    }

    method SetTrueParent(v: NodeRef)
      modifies this`trueParent
      ensures TrueParent() == v
      ensures State() == old(State()).(trueParent := v)
    {
      trueParent := v;
    }

    method SetTrueChild(i: nat, v: NodeRef)
      requires i < |trueChildren|
      modifies this`trueChildren
      ensures NumTrueChildren() == old(NumTrueChildren()) && TrueChild(i) == v
      ensures State() == old(State()).(trueChildren := old(trueChildren)[i := v])
    {
      trueChildren := trueChildren[i := v];
    }
  }
}
