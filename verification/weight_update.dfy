/** The weight update of Khachiyan's iteration, over exact reals. The weights
    start uniform; each step shrinks every weight by the factor 1 - step and
    gives the step back to the point of largest leverage. The step size itself
    comes from the inverted moment matrix and is an input here. */
module WeightUpdate {
  import SolverHelpers

  datatype Option<T> = None | Some(value: T)

  /** The sum of all weights. */
  function Sum(u: seq<real>): real
  {
    if |u| == 0 then 0.0 else u[0] + Sum(u[1..])
  }

  /** Every weight multiplied by c. */
  function Scale(u: seq<real>, c: real): seq<real>
  {
    seq(|u|, k requires 0 <= k < |u| => u[k] * c)
  }

  /** The weights of a point on the probability simplex: non-negative, sum one. */
  predicate OnSimplex(u: seq<real>)
  {
    (forall k :: 0 <= k < |u| ==> u[k] >= 0.0) && Sum(u) == 1.0
  }

  /** The starting weights: n entries of 1/n. */
  function Uniform(n: nat): (u: seq<real>)
    requires n > 0
    ensures |u| == n
    ensures OnSimplex(u)
  {
    var u := seq(n, k => 1.0 / n as real);
    SumOfConstant(n, 1.0 / n as real);
    u
  }

  lemma {:induction false} SumOfConstant(n: nat, c: real)
    ensures Sum(seq(n, k => c)) == n as real * c
  {
    if n > 0 {
      assert seq(n, k => c)[1..] == seq(n - 1, k => c);
      SumOfConstant(n - 1, c);
    }
  }

  lemma {:induction false} SumOfScale(u: seq<real>, c: real)
    ensures Sum(Scale(u, c)) == c * Sum(u)
  {
    if |u| > 0 {
      var t := Scale(u, c);
      assert t[1..] == Scale(u[1..], c) by {
        forall i | 0 <= i < |u| - 1
          ensures t[1..][i] == Scale(u[1..], c)[i]
        {
          assert t[1..][i] == t[i + 1] == u[i + 1] * c;
        }
      }
      SumOfScale(u[1..], c);
      assert Sum(t) == u[0] * c + c * Sum(u[1..]);
    }
  }

  lemma {:induction false} SumOfAddAt(u: seq<real>, j: nat, d: real)
    requires j < |u|
    ensures Sum(u[j := u[j] + d]) == Sum(u) + d
  {
    if j == 0 {
      assert u[j := u[j] + d][1..] == u[1..];
    } else {
      assert u[j := u[j] + d][1..] == u[1..][j - 1 := u[j] + d];
      SumOfAddAt(u[1..], j - 1, d);
    }
  }

  /** One update: scale all weights by 1 - step, then add step at index j. */
  function UpdateWeights(u: seq<real>, step: real, j: nat): (r: seq<real>)
    requires j < |u|
    ensures |r| == |u|
  {
    var scaled := Scale(u, 1.0 - step);
    scaled[j := scaled[j] + step]
  }

  /** Only the weight at j receives the step; every other weight is just
      scaled by 1 - step. */
  lemma UpdateWeightsEntries(u: seq<real>, step: real, j: nat)
    requires j < |u|
    ensures var r := UpdateWeights(u, step, j);
      && (forall k :: 0 <= k < |u| && k != j ==> r[k] == u[k] * (1.0 - step))
      && r[j] == u[j] * (1.0 - step) + step
  {
  }

  /** The update adds exactly the step to the sum of the scaled weights. */
  lemma SumOfUpdateParts(u: seq<real>, step: real, j: nat)
    requires j < |u|
    ensures Sum(UpdateWeights(u, step, j)) == Sum(Scale(u, 1.0 - step)) + step
  {
    var scaled := Scale(u, 1.0 - step);
    SumOfAddAt(scaled, j, step);
  }

  /** The update redistributes mass: the new total is the old one scaled by
      1 - step plus the step that was added back. */
  lemma {:induction false} SumAfterUpdate(u: seq<real>, step: real, j: nat)
    requires j < |u|
    ensures Sum(UpdateWeights(u, step, j)) == (1.0 - step) * Sum(u) + step
  {
    SumOfUpdateParts(u, step, j);
    SumOfScale(u, 1.0 - step);
  }

  /** Weights summing to one still sum to one after an update, for any step. */
  lemma {:induction false} UpdatePreservesUnitSum(u: seq<real>, step: real, j: nat)
    requires j < |u| && Sum(u) == 1.0
    ensures Sum(UpdateWeights(u, step, j)) == 1.0
  {
    SumAfterUpdate(u, step, j);
    var total := Sum(u);
    assert total * (1.0 - step) + step == 1.0;
  }

  lemma ProductOfNonNegatives(a: real, b: real)
    requires a >= 0.0 && b >= 0.0
    ensures a * b >= 0.0
  {
  }

  lemma ProductOfNonZeros(a: real, b: real)
    requires a != 0.0 && b != 0.0
    ensures a * b != 0.0
  {
  }

  /** With a step in [0, 1] the update keeps the weights on the simplex. */
  lemma {:induction false} UpdateStaysOnSimplex(u: seq<real>, step: real, j: nat)
    requires j < |u| && OnSimplex(u)
    requires 0.0 <= step <= 1.0
    ensures OnSimplex(UpdateWeights(u, step, j))
  {
    var r := UpdateWeights(u, step, j);
    assert Sum(r) == 1.0 by {
      UpdatePreservesUnitSum(u, step, j);
    }
    assert forall k :: 0 <= k < |r| ==> r[k] >= 0.0 by {
      UpdateWeightsEntries(u, step, j);
      forall k | 0 <= k < |r|
        ensures r[k] >= 0.0
      {
        ProductOfNonNegatives(u[k], 1.0 - step);
      }
    }
  }

  /** The step size from the largest leverage value max in dimension d. The
      formula divides by (d + 1) * (max - 1), which is zero at max == 1. */
  function StepSize(max: real, d: nat): (r: Option<real>)
    ensures r.None? <==> max == 1.0
  {
    if max == 1.0 then None
    else
      ProductOfNonZeros(d as real + 1.0, max - 1.0);
      Some((max - d as real - 1.0) / ((d as real + 1.0) * (max - 1.0)))
  }

  /** In dimension one or more, a largest leverage value of at least d + 1
      gives a step in [0, 1), so the update stays on the simplex. */
  lemma StepSizeInUnitInterval(max: real, d: nat)
    requires d >= 1 && max >= d as real + 1.0
    ensures StepSize(max, d).Some?
    ensures 0.0 <= StepSize(max, d).value < 1.0
  {
    var num := max - d as real - 1.0;
    var den := (d as real + 1.0) * (max - 1.0);
    assert den > 0.0;
    assert num >= 0.0;
    assert num < den by {
      assert den == num + d as real * max;
      assert d as real * max > 0.0;
    }
    assert num / den < 1.0 by {
      assert num / den * den == num;
    }
  }

  /** j holds the first largest entry of a. */
  predicate IsFirstMax(a: seq<real>, j: nat)
    requires j < |a|
  {
    (forall k :: 0 <= k < |a| ==> a[k] <= a[j]) && (forall k :: 0 <= k < j ==> a[k] < a[j])
  }

  /** One pass of the solver's loop once the leverage values diagM (the
      diagonal of the projected inverse moment matrix) are known: pick the
      first largest leverage value, compute the step from it and update the
      weights. There is no step when the largest value is exactly one. jdx
      is the index that receives the step. */
  method KhachiyanStep(u: seq<real>, diagM: seq<real>, d: nat) returns (next: Option<seq<real>>, jdx: nat)
    requires |diagM| == |u| > 0
    ensures jdx < |diagM| && IsFirstMax(diagM, jdx)
    ensures next.None? <==>
      (forall k :: 0 <= k < |diagM| ==> diagM[k] <= 1.0) && (exists k :: 0 <= k < |diagM| && diagM[k] == 1.0)
    ensures next.Some? ==> |next.value| == |u|
    ensures next.Some? <==> StepSize(diagM[jdx], d).Some?
    ensures next.Some? ==> next.value == UpdateWeights(u, StepSize(diagM[jdx], d).value, jdx)
    ensures next.Some? && Sum(u) == 1.0 ==> Sum(next.value) == 1.0
    ensures OnSimplex(u) && d >= 1 && (exists k :: 0 <= k < |diagM| && diagM[k] >= d as real + 1.0)
      ==> next.Some? && OnSimplex(next.value)
  {
    jdx := SolverHelpers.GetMaxIndex(diagM);
    var max := diagM[jdx];
    var step := StepSize(max, d);
    if step.None? {
      return None, jdx;
    }
    var newU := UpdateWeights(u, step.value, jdx);
    SumAfterUpdate(u, step.value, jdx);
    if d >= 1 && max >= d as real + 1.0 {
      StepSizeInUnitInterval(max, d);
      if OnSimplex(u) {
        UpdateStaysOnSimplex(u, step.value, jdx);
      }
    }
    next := Some(newU);
  }
}
