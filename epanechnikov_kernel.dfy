/**
 * The Epanechnikov kernel evaluated on a scalar distance: the kernel value
 * `max(0, 1 - d^2 * inverseBandwidthSquared)`, its gradient with respect to the distance, and its
 * gradient with respect to the squared distance.  The gradient does not exist
 * at the bandwidth; the kernel reports NaN there, and `Value` makes that NaN
 * an explicit case.
 */
module EpanechnikovKernel {

  /** A double as the gradients return it: a number, or NaN. */
  datatype Value = Num(value: real) | NaN

  function Abs(x: real): real
  {
    if x < 0.0 then -x else x
  }

  /** `std::max(0.0, x)`: the second argument only when it is larger. */
  function MaxZero(x: real): real
  {
    if 0.0 < x then x else 0.0
  }

  /** `k * v`, NaN staying NaN. */
  function Times(k: real, v: Value): Value
  {
    match v
    case Num(x) => Num(k * x)
    case NaN => NaN
  }

  lemma SquareLessIffAbsLess(a: real, b: real)
    ensures a * a < b * b <==> Abs(a) < Abs(b)
  {
    var x, y := Abs(a), Abs(b);
    assert a * a == x * x && b * b == y * y;
    if x < y {
      calc {
        a * a;
      ==
        x * x;
      <=  { assert x >= 0.0; }
        x * y;
      <
        y * y;
      ==
        b * b;
      }
    } else {
      calc {
        b * b;
      ==
        y * y;
      <=  { assert y >= 0.0; }
        y * x;
      <=
        x * x;
      ==
        a * a;
      }
    }
  }

  lemma SquareEqIffAbsEq(a: real, b: real)
    ensures a * a == b * b <==> Abs(a) == Abs(b)
  {
    SquareLessIffAbsLess(a, b);
    SquareLessIffAbsLess(b, a);
  }

  /**
   * A kernel with its bandwidth h and the stored `inverseBandwidthSquared`.
   * How the latter is derived from h is set where the kernel is constructed,
   * which is not part of this model, so it is a free parameter here.
   */
  datatype Kernel = Kernel(bandwidth: real, inverseBandwidthSquared: real) {

    /** The kernel value at `distance`: never negative, zero at and beyond the support. */
    function Evaluate(distance: real): (r: real)
      ensures r >= 0.0
      ensures r == 0.0 <==> distance * distance * inverseBandwidthSquared >= 1.0
      ensures r != 0.0 ==> r == 1.0 - distance * distance * inverseBandwidthSquared
      ensures inverseBandwidthSquared >= 0.0 ==> r <= 1.0
    {
      MaxZero(1.0 - distance * distance * inverseBandwidthSquared)
    }

    /**
     * The derivative of the kernel with respect to the distance: zero beyond
     * the bandwidth, proportional to the distance inside it, NaN exactly at it.
     */
    function Gradient(distance: real): (r: Value)
      ensures r.NaN? <==> Abs(distance) == Abs(bandwidth)
      ensures Abs(bandwidth) < Abs(distance) ==> r == Num(0.0)
      ensures Abs(distance) < Abs(bandwidth) ==> r == Num(-2.0 * inverseBandwidthSquared * distance)
      ensures r.Num? && inverseBandwidthSquared >= 0.0 ==> r.value * distance <= 0.0
    {
      if Abs(bandwidth) < Abs(distance) then
        Num(0.0)
      else if Abs(bandwidth) > Abs(distance) then
        Num(-2.0 * inverseBandwidthSquared * distance)
      else
        NaN
    }

    /**
     * The derivative of the kernel with respect to the squared distance:
     * constant inside the bandwidth, zero beyond it, NaN exactly at it.  The
     * extra `distanceSquared >= 0` test in the second branch never decides
     * anything, since a squared bandwidth is not negative.
     */
    function GradientForSquaredDistance(distanceSquared: real): (r: Value)
      ensures r.NaN? <==> distanceSquared == bandwidth * bandwidth
      ensures distanceSquared < bandwidth * bandwidth ==> r == Num(-inverseBandwidthSquared)
      ensures distanceSquared > bandwidth * bandwidth ==> r == Num(0.0)
      ensures r.Num? && inverseBandwidthSquared >= 0.0 ==> r.value <= 0.0
    {
      var bandwidthSquared := bandwidth * bandwidth;
      if distanceSquared < bandwidthSquared then
        Num(-1.0 * inverseBandwidthSquared)
      else if distanceSquared > bandwidthSquared && distanceSquared >= 0.0 then
        Num(0.0)
      else
        NaN
    }
  }

  /** The kernel peaks at distance zero, whatever the bandwidth. */
  lemma EvaluateAtZero(k: Kernel)
    ensures k.Evaluate(0.0) == 1.0
  {
  }

  /** The kernel depends on the distance only through its magnitude. */
  lemma EvaluateSymmetric(k: Kernel, d: real)
    ensures k.Evaluate(-d) == k.Evaluate(d)
  {
  }

  /** The gradient vanishes at distance zero when the bandwidth is not zero. */
  lemma GradientAtZero(k: Kernel)
    requires k.bandwidth != 0.0
    ensures k.Gradient(0.0) == Num(0.0)
  {
  }

  /**
   * The two gradients agree everywhere by the chain rule: the gradient in the
   * distance is 2d times the gradient in the squared distance at d^2, and
   * both are NaN at the same distances.
   */
  lemma GradientChainRule(k: Kernel, d: real)
    ensures k.Gradient(d) == Times(2.0 * d, k.GradientForSquaredDistance(d * d))
    ensures k.Gradient(d).NaN? <==> k.GradientForSquaredDistance(d * d).NaN?
  {
    SquareLessIffAbsLess(d, k.bandwidth);
    SquareLessIffAbsLess(k.bandwidth, d);
    SquareEqIffAbsEq(d, k.bandwidth);
  }

  /**
   * The distance gradient takes its beyond-the-bandwidth branch exactly when
   * the squared-distance gradient does; both are then zero.
   */
  lemma GradientsVanishTogether(k: Kernel, d: real)
    ensures Abs(k.bandwidth) < Abs(d) <==> d * d > k.bandwidth * k.bandwidth
    ensures Abs(k.bandwidth) < Abs(d) ==>
      k.Gradient(d) == Num(0.0) && k.GradientForSquaredDistance(d * d) == Num(0.0)
  {
    SquareLessIffAbsLess(k.bandwidth, d);
  }

  /**
   * When the stored inverse is 1/h^2 for a non-zero bandwidth h, the kernel
   * value is zero exactly where the gradient is zero from beyond the
   * bandwidth or does not exist.
   */
  lemma SupportMatchesGradient(k: Kernel, d: real)
    requires k.bandwidth != 0.0
    requires k.inverseBandwidthSquared * (k.bandwidth * k.bandwidth) == 1.0
    ensures k.Evaluate(d) == 0.0 <==> Abs(d) >= Abs(k.bandwidth)
    ensures k.Evaluate(d) == 0.0 <==> k.Gradient(d).NaN? || (k.Gradient(d) == Num(0.0) && d != 0.0)
  {
    var h2, ibs := k.bandwidth * k.bandwidth, k.inverseBandwidthSquared;
    assert h2 > 0.0;
    assert ibs == 1.0 / h2;
    assert d * d * ibs == d * d / h2;
    assert d * d * ibs >= 1.0 <==> d * d >= h2;
    SquareLessIffAbsLess(d, k.bandwidth);
  }
}
