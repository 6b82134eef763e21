/**
 * The capability descriptor a tree type offers to tree-independent
 * algorithms (mlpack's `TreeTraits<TreeType>`), and its value for the binary
 * space tree (kd-tree, ball tree and their relatives).
 */
module TreeTraits {

  /** Structural facts about one kind of tree, fixed per tree type. */
  datatype Traits = Traits(
    // Children of one node may cover intersecting parts of the space.
    hasOverlappingChildren: bool,
    // The first point held by a node is guaranteed to be that node's centroid.
    firstPointIsCentroid: bool,
    // A point held by a node is held again by one of its descendants.
    hasSelfChildren: bool,
    // Building the tree permutes the columns of the dataset.
    rearrangesDataset: bool,
    // Every internal node has exactly two children.
    binaryTree: bool)

  /**
   * The binary space tree: two non-overlapping children per internal node,
   * each point held at exactly one level, the first point not guaranteed to
   * be the centroid, and the dataset
   * reordered during construction.
   */
  function BinarySpaceTree(): (t: Traits)
    ensures !t.hasOverlappingChildren && !t.firstPointIsCentroid && !t.hasSelfChildren
    ensures t.rearrangesDataset && t.binaryTree
  {
    Traits(
      hasOverlappingChildren := false,
      firstPointIsCentroid := false,
      hasSelfChildren := false,
      rearrangesDataset := true,
      binaryTree := true)
  }
}
