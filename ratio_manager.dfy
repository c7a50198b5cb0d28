/** The exponentially decaying average used to smooth the busy and hot counts
    (autoscaler-py/ratio_manager.py). */
module RatioManager {

  /** True of the weights `0.5 ** (m * t)` can take for a non-negative decay rate `m` and
      elapsed time `t`. The power itself is left to the caller (see README). */
  predicate IsDecayWeight(w: real) { 0.0 < w <= 1.0 }

  /** `weight * prevAvg + (1 - weight) * newAvg`: a convex combination of the previous average and
      the new observation. */
  function RollingAverage(prevAvg: real, newAvg: real, weight: real): (x: real)
    requires IsDecayWeight(weight)
    ensures (if prevAvg <= newAvg then prevAvg else newAvg) <= x <= (if prevAvg <= newAvg then newAvg else prevAvg)
    ensures x - newAvg == weight * (prevAvg - newAvg)
    ensures prevAvg == newAvg ==> x == prevAvg
    ensures weight == 1.0 ==> x == prevAvg
  {
    ConvexCombination(prevAvg, newAvg, weight);
    weight * prevAvg + (1.0 - weight) * newAvg
  }

  /** The convex combination is the new value moved towards the old by `weight` of the gap. */
  lemma ConvexCombination(prevAvg: real, newAvg: real, weight: real)
    requires IsDecayWeight(weight)
    ensures var x := weight * prevAvg + (1.0 - weight) * newAvg;
            && x - newAvg == weight * (prevAvg - newAvg)
            && (if prevAvg <= newAvg then prevAvg else newAvg) <= x <= (if prevAvg <= newAvg then newAvg else prevAvg)
  {
    var d := prevAvg - newAvg;
    var x := weight * prevAvg + (1.0 - weight) * newAvg;
    assert x - newAvg == weight * d;
    if d >= 0.0 {
      ScaledGap(weight, d);
    } else {
      ScaledGap(weight, -d);
      assert weight * -d == -(weight * d);
    }
  }

  /** Scaling a non-negative gap by a weight in (0,1] keeps it between 0 and the gap. */
  lemma ScaledGap(weight: real, d: real)
    requires IsDecayWeight(weight) && d >= 0.0
    ensures 0.0 <= weight * d <= d
  {
    assert d - weight * d == (1.0 - weight) * d;
  }

  /** Repeated observation of the same value keeps the average at that value: the steady state. */
  function Repeated(prevAvg: real, newAvg: real, weight: real, n: nat): (x: real)
    requires IsDecayWeight(weight)
  {
    if n == 0 then prevAvg else RollingAverage(Repeated(prevAvg, newAvg, weight, n - 1), newAvg, weight)
  }

  lemma {:induction false} SteadyStateIsFixed(v: real, weight: real, n: nat)
    requires IsDecayWeight(weight)
    ensures Repeated(v, v, weight, n) == v
  {
    if n > 0 {
      SteadyStateIsFixed(v, weight, n - 1);
    }
  }

  /** After any number of observations of `newAvg`, the average lies between `prevAvg` and `newAvg`. */
  lemma {:induction false} RepeatedStaysBetween(prevAvg: real, newAvg: real, weight: real, n: nat)
    requires IsDecayWeight(weight)
    ensures var x := Repeated(prevAvg, newAvg, weight, n);
            (if prevAvg <= newAvg then prevAvg else newAvg) <= x <= (if prevAvg <= newAvg then newAvg else prevAvg)
  {
    if n > 0 {
      RepeatedStaysBetween(prevAvg, newAvg, weight, n - 1);
    }
  }
}
