/**
 * Why the statistic's centroid is the mean of a node's descendant points.
 *
 * One level: if every child's centroid is the mean of that child's
 * descendant points and the node's descendant count is the number of points
 * the constructor sums directly plus the children's counts, the node's
 * centroid is the mean of the direct points followed by all the children's
 * points.  By induction over a whole tree whose statistics are built bottom-up
 * as the constructor builds them, every node's centroid is the mean of its
 * descendants.  For trees that conform to the binary space tree's traits, no
 * point is among a node's descendants twice, so that mean counts every
 * physical point once.
 */
module CentroidComposition {

  import opened Vectors
  import opened TreeTraits
  import opened KMeansStatistic

  /** The children's weighted centroids add up to the sum of all their points. */
  lemma {:induction false} ChildSumOfMeans(ds: Dataset, children: seq<ChildView>, childDesc: seq<seq<nat>>)
    requires ds.Valid() && |childDesc| == |children|
    requires forall i :: 0 <= i < |childDesc| ==> ds.Indexes(childDesc[i]) && |childDesc[i]| > 0
    requires forall i :: 0 <= i < |children| ==>
      children[i].numDescendants == |childDesc[i]| && children[i].centroid == Mean(ds, childDesc[i])
    ensures ChildrenSized(ds.rows, children)
    ensures ds.Indexes(Flatten(childDesc))
    ensures ChildSum(ds.rows, children) == PointSum(ds, Flatten(childDesc))
  {
    if children == [] {
    } else {
      var n := |children| - 1;
      ChildSumOfMeans(ds, children[..n], childDesc[..n]);
      assert childDesc[..n] == childDesc[..|childDesc| - 1];
      var last := children[n];
      ScaleDiv(|childDesc[n]| as real, PointSum(ds, childDesc[n]));
      assert Scale(last.numDescendants as real, last.centroid) == PointSum(ds, childDesc[n]);
      PointSumConcat(ds, Flatten(childDesc[..n]), childDesc[n]);
    }
  }

  /**
   * One level of the bottom-up construction: children whose centroids are
   * the means of their descendants give a node whose centroid is the mean
   * of its counted points followed by its children's descendants.
   */
  lemma CentroidIsMean(traits: Traits, node: NodeView, ds: Dataset, childDesc: seq<seq<nat>>)
    requires ds.Valid() && ds.Indexes(node.points) && |childDesc| == |node.children|
    requires forall i :: 0 <= i < |childDesc| ==> ds.Indexes(childDesc[i]) && |childDesc[i]| > 0
    requires forall i :: 0 <= i < |node.children| ==>
      node.children[i].numDescendants == |childDesc[i]|
      && node.children[i].centroid == Mean(ds, childDesc[i])
    requires node.numDescendants
          == |CountedPoints(traits, node.points, |node.children|)| + Total(childDesc)
    requires node.numDescendants > 0
    ensures Constructible(ds, node)
    ensures ds.Indexes(CountedPoints(traits, node.points, |node.children|) + Flatten(childDesc))
    ensures NodeCentroid(traits, node, ds)
         == Mean(ds, CountedPoints(traits, node.points, |node.children|) + Flatten(childDesc))
  {
    var direct := CountedPoints(traits, node.points, |node.children|);
    var below := Flatten(childDesc);
    CountedPointsExactlyOnce(traits, node.points, |node.children|);
    assert ds.Indexes(direct);
    ChildSumOfMeans(ds, node.children, childDesc);
    assert ChildSum(ds.rows, node.children) == PointSum(ds, below);
    PointSumConcat(ds, direct, below);
    FlattenLength(childDesc);
    assert node.numDescendants == |direct + below|;
    calc {
      NodeCentroid(traits, node, ds);
      Div(Add(PointSum(ds, direct), ChildSum(ds.rows, node.children)), node.numDescendants as real);
      Div(PointSum(ds, direct + below), |direct + below| as real);
      Mean(ds, direct + below);
    }
  }

  /** A leaf's centroid is the mean of all the points it holds. */
  lemma LeafCentroidIsMean(traits: Traits, node: NodeView, ds: Dataset)
    requires ds.Valid() && ds.Indexes(node.points)
    requires node.children == [] && node.numDescendants == |node.points| > 0
    ensures Constructible(ds, node)
    ensures NodeCentroid(traits, node, ds) == Mean(ds, node.points)
  {
    CountedPointsExactlyOnce(traits, node.points, 0);
    assert node.points + Flatten<nat>([]) == node.points;
    CentroidIsMean(traits, node, ds, []);
  }

  /** A tree as its construction leaves it: point indices at every node. */
  datatype Tree = Tree(id: nat, points: seq<nat>, children: seq<Tree>)

  /**
   * The descendant points the centroid stands for: the points the node sums
   * directly, then each child's descendants in child order.
   */
  function Descendants(traits: Traits, t: Tree): seq<nat>
  {
    CountedPoints(traits, t.points, |t.children|)
      + Flatten(seq(|t.children|, i requires 0 <= i < |t.children| => Descendants(traits, t.children[i])))
  }

  /** The descendant sequences of a list of children. */
  function ChildDescendants(traits: Traits, children: seq<Tree>): (r: seq<seq<nat>>)
    ensures |r| == |children|
    ensures forall i :: 0 <= i < |children| ==> r[i] == Descendants(traits, children[i])
  {
    seq(|children|, i requires 0 <= i < |children| => Descendants(traits, children[i]))
  }

  /** Every index is in range and every node has at least one descendant. */
  predicate WellFormed(traits: Traits, ds: Dataset, t: Tree)
  {
    && ds.Indexes(t.points)
    && |Descendants(traits, t)| > 0
    && forall i :: 0 <= i < |t.children| ==> WellFormed(traits, ds, t.children[i])
  }

  /** The view of `t` that its statistic's constructor reads. */
  function ViewOf(traits: Traits, ds: Dataset, t: Tree, parent: NodeRef): NodeView
    requires ds.Valid() && WellFormed(traits, ds, t)
    decreases t, 0
  {
    NodeView(
      parent,
      t.points,
      seq(|t.children|, i requires 0 <= i < |t.children| =>
        ChildView(t.children[i].id, |Descendants(traits, t.children[i])|,
                  TreeCentroid(traits, ds, t.children[i], Ref(t.id)))),
      |Descendants(traits, t)|)
  }

  /**
   * The centroid the statistic of `t` holds once every statistic of the tree
   * has been built bottom-up, each node's descendant count being the number
   * of its descendant points.
   */
  function TreeCentroid(traits: Traits, ds: Dataset, t: Tree, parent: NodeRef): (c: Vector)
    requires ds.Valid() && WellFormed(traits, ds, t)
    ensures |c| == ds.rows
    decreases t, 1
  {
    NodeCentroid(traits, ViewOf(traits, ds, t, parent), ds)
  }

  /** Every node's centroid is the mean of all its descendant points. */
  lemma {:induction false} TreeCentroidIsMean(traits: Traits, ds: Dataset, t: Tree, parent: NodeRef)
    requires ds.Valid() && WellFormed(traits, ds, t)
    ensures ds.Indexes(Descendants(traits, t))
    ensures TreeCentroid(traits, ds, t, parent) == Mean(ds, Descendants(traits, t))
  {
    var view := ViewOf(traits, ds, t, parent);
    var cd := ChildDescendants(traits, t.children);
    forall i | 0 <= i < |t.children|
      ensures ds.Indexes(cd[i])
      ensures view.children[i].centroid == Mean(ds, cd[i])
    {
      TreeCentroidIsMean(traits, ds, t.children[i], Ref(t.id));
    }
    FlattenLength(cd);
    assert cd == seq(|t.children|, i requires 0 <= i < |t.children| => Descendants(traits, t.children[i]));
    CentroidIsMean(traits, view, ds, cd);
  }

  /** No element occurs twice. */
  predicate Distinct(s: seq<nat>)
  {
    forall i, j :: 0 <= i < j < |s| ==> s[i] != s[j]
  }

  /** The two sequences share no element. */
  predicate Disjoint(a: seq<nat>, b: seq<nat>)
  {
    forall x :: x in a ==> x !in b
  }

  /**
   * `t` has the shape `traits` promises: two children or none for a binary
   * tree, sibling subtrees without common points when children do not
   * overlap, and a node's own points not held again below it when there are
   * no self-children.  `Distinct(t.points)` is not a trait: it holds because
   * a tree is built by splitting a set of distinct point indices.  The
   * `binaryTree` clause records what that flag means; single counting
   * (`BinarySpaceTreeCountsOnce`) does not need it.
   */
  predicate Conforms(traits: Traits, t: Tree)
  {
    && Distinct(t.points)
    && (traits.binaryTree ==> |t.children| == 0 || |t.children| == 2)
    && (!traits.hasOverlappingChildren ==>
          forall i, j :: 0 <= i < j < |t.children| ==>
            Disjoint(Descendants(traits, t.children[i]), Descendants(traits, t.children[j])))
    && (!traits.hasSelfChildren ==>
          Disjoint(t.points, Flatten(ChildDescendants(traits, t.children))))
    && forall i :: 0 <= i < |t.children| ==> Conforms(traits, t.children[i])
  }

  lemma DistinctAppend(a: seq<nat>, b: seq<nat>)
    requires Distinct(a) && Distinct(b) && Disjoint(a, b)
    ensures Distinct(a + b)
  {
    forall i, j | 0 <= i < j < |a + b|
      ensures (a + b)[i] != (a + b)[j]
    {
      if i < |a| && j >= |a| {
        assert (a + b)[i] in a;
        assert (a + b)[j] in b;
      }
    }
  }

  lemma {:induction false} FlattenDistinct(xs: seq<seq<nat>>)
    requires forall i :: 0 <= i < |xs| ==> Distinct(xs[i])
    requires forall i, j :: 0 <= i < j < |xs| ==> Disjoint(xs[i], xs[j])
    ensures Distinct(Flatten(xs))
  {
    if xs != [] {
      var n := |xs| - 1;
      FlattenDistinct(xs[..n]);
      forall x | x in Flatten(xs[..n])
        ensures x !in xs[n]
      {
        FlattenMembers(xs[..n], x);
      }
      DistinctAppend(Flatten(xs[..n]), xs[n]);
    }
  }

  /**
   * In a tree shaped as the binary space tree's traits promise, a node's
   * descendant points hold no index twice: its centroid weighs every
   * physical point exactly once.
   */
  lemma {:induction false} BinarySpaceTreeCountsOnce(t: Tree)
    requires Conforms(BinarySpaceTree(), t)
    ensures Distinct(Descendants(BinarySpaceTree(), t))
  {
    var cd := ChildDescendants(BinarySpaceTree(), t.children);
    forall i | 0 <= i < |t.children|
      ensures Distinct(cd[i])
    {
      BinarySpaceTreeCountsOnce(t.children[i]);
    }
    FlattenDistinct(cd);
    BinarySpaceTreeCountsEveryPoint(t.points, |t.children|);
    assert cd == seq(|t.children|, i requires 0 <= i < |t.children| => Descendants(BinarySpaceTree(), t.children[i]));
    DistinctAppend(t.points, Flatten(cd));
  }
}
