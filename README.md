# Dual-tree k-means statistic, binary space tree traits and Epanechnikov kernel

This project is a Dafny model of three pieces of mlpack 2.0's tree machinery.

- **`DualTreeKMeansStatistic`** is the statistic attached to every tree node in dual-tree k-means. It holds:
  - the upper and lower distance bounds;
  - the owner and pruned markers;
  - the static pruning flag and the two static movement values;
  - the node's centroid;
  - the node's "true" parent and children.

  Both constructors start from fixed sentinels: `DBL_MAX` bounds, `size_t(-1)` owner and pruned, not pruned, zero movement. The node constructor builds the centroid bottom-up. It sums the node's own points, leaving out point 0 when the tree type has self-children and the node has children. It adds each child's centroid weighted by that child's descendant count, then divides by the node's descendant count. The model proves that this centroid is the mean of all the node's descendant points, for one level and for a whole tree built bottom-up.
- **`TreeTraits<BinarySpaceTree>`** is the binary space tree's capability descriptor. It is modelled as a `Traits` record value, which the statistic takes as a parameter. Its `hasSelfChildren` flag switches the counting rule above.
- **`EpanechnikovKernel`** is modelled on a scalar distance:
  - the kernel value `max(0, 1 - d^2 * inverseBandwidthSquared)`;
  - its gradient in the distance;
  - its gradient in the squared distance.

  Both gradients report NaN exactly at the bandwidth, and the model represents that NaN as an explicit `Value.NaN` case.

Files:
- `vectors.dfy`: the exact-real vector operations the centroid uses (`zeros`, `+=`, scaling, `/=`), the dataset, point sums and means.
- `tree_traits.dfy`: the `Traits` record and the binary space tree's value of it, `BinarySpaceTree()`.
- `kmeans_statistic.dfy`: the counting rule, the centroid function `NodeCentroid`, and the class `DualTreeKMeansStatistic` with its two constructors, accessors and setters.
- `centroid_composition.dfy`: the mean lemmas over a recursive `Tree`, and the no-double-counting lemma for trees shaped as the binary space tree's traits promise.
- `epanechnikov_kernel.dfy`: the kernel.

A node is modelled only through what the constructor reads from it (`NodeView`, `ChildView`):
- its point indices;
- each child's identity, descendant count and already-built centroid;
- its own descendant count;
- its parent.

The dataset is `Dataset(rows, cols)`, where `cols` holds one `seq<real>` per point. The untyped `void*` parent and child pointers become `NodeRef` values (`Null` or `Ref(id)`).

## Model

| member | source | states |
|---|---|---|
| `KMeansStatistic.DualTreeKMeansStatistic.constructor` | src/mlpack/methods/kmeans/dual_tree_kmeans_statistic.hpp:34-47 | the default statistic has bounds `DBL_MAX`, owner and pruned `size_t(-1)`, `staticPruned` false, both movements 0, an empty centroid, a null true parent and `NumTrueChildren() == 0` |
| `KMeansStatistic.DualTreeKMeansStatistic.FromNode` | src/mlpack/methods/kmeans/dual_tree_kmeans_statistic.hpp:49-83 | same sentinels as the default constructor; the centroid is `NodeCentroid` of the node; `TrueParent()` is the node's parent, `NumTrueChildren()` is the number of children and `TrueChild(i)` refers to the i-th child; the loops carry invariants tying the running sum to the counted prefix and to the children added so far |
| `KMeansStatistic.CountedPrefixIsRun` | src/mlpack/methods/kmeans/dual_tree_kmeans_statistic.hpp:63-71 | after n iterations of the point loop, the points summed are `points[1..n]` when point 0 is skipped, and `points[..n]` otherwise |
| `KMeansStatistic.CountedPointsExactlyOnce` | src/mlpack/methods/kmeans/dual_tree_kmeans_statistic.hpp:63-71 | point 0 is left out of the direct sum exactly when the tree type has self-children and the node has children; every other point is summed once, in order |
| `KMeansStatistic.BinarySpaceTreeCountsEveryPoint` | src/mlpack/core/tree/binary_space_tree/traits.hpp:58-61 | with the binary space tree's traits (`HasSelfChildren` false), the direct sum counts every point of the node and never skips point 0 |
| `KMeansStatistic.NodeCentroid` | src/mlpack/methods/kmeans/dual_tree_kmeans_statistic.hpp:62-77 | the centroid has one entry per dataset row, for any node with a positive descendant count |
| `TreeTraits.BinarySpaceTree` | src/mlpack/core/tree/binary_space_tree/traits.hpp:46-71 | the binary space tree's traits: children do not overlap, the first point is not guaranteed to be the centroid, no self-children, the dataset is rearranged, and the tree is binary |
| `KMeansStatistic.DualTreeKMeansStatistic.SetUpperBound` | src/mlpack/methods/kmeans/dual_tree_kmeans_statistic.hpp:85-86 | after writing v through `UpperBound()`, `UpperBound()` returns v; the upper bound changes and no other field does |
| `KMeansStatistic.DualTreeKMeansStatistic.SetLowerBound` | src/mlpack/methods/kmeans/dual_tree_kmeans_statistic.hpp:88-89 | after writing v through `LowerBound()`, `LowerBound()` returns v; the lower bound changes and no other field does |
| `KMeansStatistic.DualTreeKMeansStatistic.SetCentroid` | src/mlpack/methods/kmeans/dual_tree_kmeans_statistic.hpp:91-92 | after writing v through `Centroid()`, `Centroid()` returns v; the centroid changes and no other field does |
| `KMeansStatistic.DualTreeKMeansStatistic.SetOwner` | src/mlpack/methods/kmeans/dual_tree_kmeans_statistic.hpp:94-95 | after writing v through `Owner()`, `Owner()` returns v; the owner changes and no other field does |
| `KMeansStatistic.DualTreeKMeansStatistic.SetPruned` | src/mlpack/methods/kmeans/dual_tree_kmeans_statistic.hpp:97-98 | after writing v through `Pruned()`, `Pruned()` returns v; the pruned marker changes and no other field does |
| `KMeansStatistic.DualTreeKMeansStatistic.SetStaticPruned` | src/mlpack/methods/kmeans/dual_tree_kmeans_statistic.hpp:100-101 | after writing v through `StaticPruned()`, `StaticPruned()` returns v; the static pruning flag changes and no other field does |
| `KMeansStatistic.DualTreeKMeansStatistic.SetStaticUpperBoundMovement` | src/mlpack/methods/kmeans/dual_tree_kmeans_statistic.hpp:103-104 | after writing v through `StaticUpperBoundMovement()`, `StaticUpperBoundMovement()` returns v; the static upper bound movement changes and no other field does |
| `KMeansStatistic.DualTreeKMeansStatistic.SetStaticLowerBoundMovement` | src/mlpack/methods/kmeans/dual_tree_kmeans_statistic.hpp:106-107 | after writing v through `StaticLowerBoundMovement()`, `StaticLowerBoundMovement()` returns v; the static lower bound movement changes and no other field does |
| `KMeansStatistic.DualTreeKMeansStatistic.SetTrueParent` | src/mlpack/methods/kmeans/dual_tree_kmeans_statistic.hpp:109-110 | after writing v through `TrueParent()`, `TrueParent()` returns v; the true parent changes and no other field does |
| `KMeansStatistic.DualTreeKMeansStatistic.SetTrueChild` | src/mlpack/methods/kmeans/dual_tree_kmeans_statistic.hpp:112-115 | after writing v through `TrueChild(i)`, for i below `NumTrueChildren()`, `TrueChild(i)` returns v and `NumTrueChildren()` is unchanged; only the i-th true child changes and no other field does |
| `CentroidComposition.ChildSumOfMeans` | src/mlpack/methods/kmeans/dual_tree_kmeans_statistic.hpp:73-75 | when each child's centroid is the mean of its descendants and its count is their number, the weighted sum of child centroids is the sum of all the children's points |
| `CentroidComposition.CentroidIsMean` | src/mlpack/methods/kmeans/dual_tree_kmeans_statistic.hpp:63-77 | when every child's centroid is the mean of its descendants and the node's descendant count is the number of counted direct points plus the children's counts, the node's centroid is the mean of the counted direct points followed by all the children's descendants |
| `CentroidComposition.LeafCentroidIsMean` | src/mlpack/methods/kmeans/dual_tree_kmeans_statistic.hpp:63-77 | a leaf whose descendant count is its number of points has as its centroid the mean of all its points |
| `CentroidComposition.TreeCentroid` | src/mlpack/methods/kmeans/dual_tree_kmeans_statistic.hpp:73-77 | the centroid a statistic holds when the whole tree is built bottom-up has one entry per dataset row |
| `CentroidComposition.TreeCentroidIsMean` | src/mlpack/methods/kmeans/dual_tree_kmeans_statistic.hpp:61-77 | in a tree built bottom-up, every node's centroid is the mean of all its descendant points (induction over the tree) |
| `CentroidComposition.BinarySpaceTreeCountsOnce` | src/mlpack/core/tree/binary_space_tree/traits.hpp:46-71 | in a tree whose sibling subtrees share no point (`HasOverlappingChildren` false), whose nodes do not hold their own points again below (`HasSelfChildren` false), and whose nodes each list distinct point indices (a property of tree building, not of the traits), a node's descendant points contain no index twice, so the centroid weighs each physical point once; the `BinaryTree` clause of `Conforms` is not needed for this |
| `EpanechnikovKernel.Kernel.Evaluate` | src/mlpack/core/kernels/epanechnikov_kernel.cpp:44-47 | the kernel value is never negative; it is 0 exactly when `d^2 * inverseBandwidthSquared >= 1`, and otherwise it is `1 - d^2 * inverseBandwidthSquared`; it is at most 1 when `inverseBandwidthSquared >= 0` |
| `EpanechnikovKernel.Kernel.Gradient` | src/mlpack/core/kernels/epanechnikov_kernel.cpp:53-62 | the result is NaN exactly when `abs(d) == abs(bandwidth)`; it is 0 beyond the bandwidth and `-2 * inverseBandwidthSquared * d` inside it; a numeric result never has the sign of d when `inverseBandwidthSquared >= 0` |
| `EpanechnikovKernel.Kernel.GradientForSquaredDistance` | src/mlpack/core/kernels/epanechnikov_kernel.cpp:68-80 | the result is NaN exactly when `s == bandwidth^2` (so the `s >= 0` test never decides anything); it is `-inverseBandwidthSquared` below and 0 above; a numeric result is never positive when `inverseBandwidthSquared >= 0` |
| `EpanechnikovKernel.EvaluateAtZero` | src/mlpack/core/kernels/epanechnikov_kernel.cpp:46 | `Evaluate(0) == 1` for every kernel |
| `EpanechnikovKernel.EvaluateSymmetric` | src/mlpack/core/kernels/epanechnikov_kernel.cpp:46 | `Evaluate(-d) == Evaluate(d)` |
| `EpanechnikovKernel.GradientAtZero` | src/mlpack/core/kernels/epanechnikov_kernel.cpp:56-57 | `Gradient(0) == 0` for a non-zero bandwidth |
| `EpanechnikovKernel.GradientChainRule` | src/mlpack/core/kernels/epanechnikov_kernel.cpp:53-80 | for every d, `Gradient(d)` equals `2d * GradientForSquaredDistance(d^2)` (NaN mapping to NaN), so one gradient is NaN exactly when the other is |
| `EpanechnikovKernel.GradientsVanishTogether` | src/mlpack/core/kernels/epanechnikov_kernel.cpp:53-80 | `Gradient` takes its beyond-the-bandwidth branch exactly when `GradientForSquaredDistance(d^2)` takes its own, and both then return 0 |
| `EpanechnikovKernel.SupportMatchesGradient` | src/mlpack/core/kernels/epanechnikov_kernel.cpp:44-62 | if `inverseBandwidthSquared * bandwidth^2 == 1` for a non-zero bandwidth, the kernel value is 0 exactly when `abs(d) >= abs(bandwidth)`, that is, exactly where the gradient is NaN or is 0 for a non-zero d |

## Left out

- `EpanechnikovKernel::Normalizer` is not modelled. It uses `pow`, pi and the gamma function, which have no exact counterpart over `real`.
- IEEE-754 arithmetic is not modelled: no rounding, no overflow, and no infinities or NaN arising from arithmetic. Distances, bounds, centroids and kernel values are exact `real`s. The gradients' NaN is the explicit case `Value.NaN`. `DBL_MAX` and `size_t(-1)` appear only as named sentinel constants.
- `std::pow(distance, 2.0)` is modelled as `distance * distance`.
- How `inverseBandwidthSquared` is derived from the bandwidth is set in the kernel's header, which is not part of this model. It is a free field of `Kernel`. Only `SupportMatchesGradient` assumes the relation `inverseBandwidthSquared * bandwidth^2 == 1`, as a hypothesis.
- The single-tree traverser for the cover tree (src/mlpack/core/tree/cover_tree/single_tree_traverser.hpp) is not modelled: the traverser's body (`single_tree_traverser_impl.hpp`) is outside this model, so the traversal, its prune and base-case calls, child order and prune counting are not modelled; the `NumPrunes()` getter and setter are left out with it.
- The statistic has no bound-update, movement or pruning operations; it exposes only raw field accessors, and no property is claimed about how bounds evolve.
- The `NeighborSearchStat` base class and its fields are not part of this model.
- The tree classes (`BinarySpaceTree`, `CoverTree`) and tree building are not modelled. A node is seen through `NodeView`. A whole tree is seen as `Tree` (point indices and children), whose descendant count is taken to be the number of its descendant points.
- Pointers are node identities. The model does not capture aliasing between a statistic's `trueChildren` and the live tree, and setting a true child to an arbitrary value is modelled by `NodeRef`.
- The source has undefined behaviour or exceptions when an index is out of range, when vector sizes differ, or when a node has zero descendants (a division by zero). These are preconditions in the model: `Constructible` requires point indices below the column count, child centroids of the dataset's row count, and a positive descendant count. `TrueChild` and `SetTrueChild` require an index below `NumTrueChildren()`.
- `FirstPointIsCentroid` and `RearrangesDataset` are recorded as values of `BinarySpaceTree()` only; nothing in the modelled code consults them. `HasOverlappingChildren`, `HasSelfChildren` and `BinaryTree` are given a meaning in `CentroidComposition.Conforms`.
- CentroidComposition.BinarySpaceTreeCountsOnce: proves single counting only for tree types without self-children. For a tree with self-children such as the cover tree, the model proves that the centroid is the mean of the descendant sequence it defines. It does not prove that this sequence holds each physical point once, because the cover tree's structure is not part of this model.
