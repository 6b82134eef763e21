/**
 * Dense column vectors over exact reals, and a dataset stored column by column.
 *
 * These are the few pieces of Armadillo (`arma::vec`, `arma::mat`) that the
 * k-means statistic relies on: a zero vector, `+=`, scaling by a count, `/=`
 * by a count, and reading a column of the dataset.  Floating-point rounding
 * is not modelled; every operation is exact.
 */
module Vectors {

  type Vector = seq<real>

  /** `zeros(n)`: the vector of n zeros. */
  function Zeros(n: nat): (v: Vector)
    ensures |v| == n
  {
    seq(n, _ => 0.0)
  }

  /** Element-wise sum, as `u += v` leaves `u`. */
  function Add(u: Vector, v: Vector): (w: Vector)
    requires |u| == |v|
    ensures |w| == |u|
  {
    seq(|u|, k requires 0 <= k < |u| => u[k] + v[k])
  }

  /** `c * v`. */
  function Scale(c: real, v: Vector): (w: Vector)
    ensures |w| == |v|
  {
    seq(|v|, k requires 0 <= k < |v| => c * v[k])
  }

  /** `v / c`, as `v /= c` leaves `v`. */
  function Div(v: Vector, c: real): (w: Vector)
    requires c != 0.0
    ensures |w| == |v|
  {
    seq(|v|, k requires 0 <= k < |v| => v[k] / c)
  }

  lemma AddZeros(v: Vector)
    ensures Add(Zeros(|v|), v) == v && Add(v, Zeros(|v|)) == v
  {
  }

  lemma AddAssociative(u: Vector, v: Vector, w: Vector)
    requires |u| == |v| == |w|
    ensures Add(Add(u, v), w) == Add(u, Add(v, w))
  {
  }

  /** Scaling a quotient back by its divisor gives the original vector. */
  lemma ScaleDiv(c: real, v: Vector)
    requires c != 0.0
    ensures Scale(c, Div(v, c)) == v
  {
    forall k | 0 <= k < |v|
      ensures Scale(c, Div(v, c))[k] == v[k]
    {
      assert Div(v, c)[k] == v[k] / c;
    }
  }

  /**
   * A dataset with `rows` dimensions; `cols[j]` is point j (one column of
   * the matrix, as `Dataset().col(j)` gives it).
   */
  datatype Dataset = Dataset(rows: nat, cols: seq<Vector>) {

    /** Every column has `rows` entries. */
    predicate Valid() {
      forall j :: 0 <= j < |cols| ==> |cols[j]| == rows
    }

    /** Every index in `ps` names a column of the dataset. */
    predicate Indexes(ps: seq<nat>) {
      forall i :: 0 <= i < |ps| ==> ps[i] < |cols|
    }
  }

  /** The sum of the points `ps` names, added in order to a zero vector. */
  function PointSum(ds: Dataset, ps: seq<nat>): (v: Vector)
    requires ds.Valid() && ds.Indexes(ps)
    ensures |v| == ds.rows
  {
    if ps == [] then Zeros(ds.rows)
    else Add(PointSum(ds, ps[..|ps| - 1]), ds.cols[ps[|ps| - 1]])
  }

  /** The mean of the points `ps` names, counting each occurrence. */
  function Mean(ds: Dataset, ps: seq<nat>): (v: Vector)
    requires ds.Valid() && ds.Indexes(ps) && |ps| > 0
    ensures |v| == ds.rows
  {
    Div(PointSum(ds, ps), |ps| as real)
  }

  lemma PointSumAppend(ds: Dataset, ps: seq<nat>, p: nat)
    requires ds.Valid() && ds.Indexes(ps) && p < |ds.cols|
    ensures ds.Indexes(ps + [p])
    ensures PointSum(ds, ps + [p]) == Add(PointSum(ds, ps), ds.cols[p])
  {
  }

  /** Summing two runs of points one after the other adds their sums. */
  lemma {:induction false} PointSumConcat(ds: Dataset, a: seq<nat>, b: seq<nat>)
    requires ds.Valid() && ds.Indexes(a) && ds.Indexes(b)
    ensures ds.Indexes(a + b)
    ensures PointSum(ds, a + b) == Add(PointSum(ds, a), PointSum(ds, b))
    decreases |b|
  {
    if b == [] {
      assert a + b == a;
      AddZeros(PointSum(ds, a));
    } else {
      var b', q := b[..|b| - 1], b[|b| - 1];
      assert b == b' + [q];
      assert a + b == (a + b') + [q];
      PointSumConcat(ds, a, b');
      PointSumAppend(ds, a + b', q);
      AddAssociative(PointSum(ds, a), PointSum(ds, b'), ds.cols[q]);
    }
  }

  /** The concatenation of a sequence of runs, first run first. */
  function Flatten<T>(xs: seq<seq<T>>): (r: seq<T>)
  {
    if xs == [] then [] else Flatten(xs[..|xs| - 1]) + xs[|xs| - 1]
  }

  lemma {:induction false} FlattenLength<T>(xs: seq<seq<T>>)
    ensures |Flatten(xs)| == Total(xs)
  {
    if xs != [] {
      FlattenLength(xs[..|xs| - 1]);
    }
  }

  /** The total length of a sequence of runs. */
  function Total<T>(xs: seq<seq<T>>): nat
  {
    if xs == [] then 0 else Total(xs[..|xs| - 1]) + |xs[|xs| - 1]|
  }

  lemma {:induction false} FlattenMembers<T>(xs: seq<seq<T>>, x: T)
    ensures x in Flatten(xs) <==> exists i :: 0 <= i < |xs| && x in xs[i]
  {
    if xs != [] {
      var init := xs[..|xs| - 1];
      FlattenMembers(init, x);
      if x in Flatten(xs) && x !in xs[|xs| - 1] {
        var i :| 0 <= i < |init| && x in init[i];
        assert x in xs[i];
      }
      if i :| 0 <= i < |xs| && x in xs[i] {
        if i < |xs| - 1 {
          assert x in init[i];
        }
      }
    }
  }
}
