/** What the quantiser quantises is the RMS norm (app/kernels/rmsnorm_int8.py:82-90): with an exact `rsqrt`, each value
    times its weight over the root of the row's mean square plus epsilon. */
module RmsNorm {
  import opened Quantizer

  /** The mean square that the norm divides by, kept off zero by epsilon. */
  function MeanSquare(x: seq<real>, eps: real): real
    requires x != []
  {
    SumSquares(x) / |x| as real + eps
  }

  /** `rsqrt` is exact at `v`. */
  predicate Exact(rsqrt: Kernel, v: real) {
    0.0 < rsqrt(v) && rsqrt(v) * rsqrt(v) * v == 1.0
  }

  lemma TimesTheRoot(rsqrt: Kernel, x: seq<real>, weight: seq<real>, v: real) returns (root: real)
    requires |x| == |weight| && Exact(rsqrt, v)
    ensures 0.0 < root && root * root == v
    ensures forall i :: 0 <= i < |x| ==> Normalized(x, weight, rsqrt(v))[i] * root == x[i] * weight[i]
  {
    var inverse := rsqrt(v);
    root := inverse * v;
    RootIsPositive(inverse, v);
    assert inverse * root == 1.0;
    assert root * root == v by {
      assert root * root == (inverse * inverse * v) * v;
    }
    var row := Normalized(x, weight, inverse);
    forall i | 0 <= i < |x| ensures row[i] * root == x[i] * weight[i] {
      assert row[i] == x[i] * inverse * weight[i];
      Regroup(x[i], inverse, weight[i], root);
    }
  }

  /** Every normalised value times the row's root mean square is the value times its weight. */
  lemma NormalisedByTheRoot(rsqrt: Kernel, x: seq<real>, weight: seq<real>, eps: real) returns (root: real)
    requires 0 < |x| == |weight| && Exact(rsqrt, MeanSquare(x, eps))
    ensures 0.0 < root && root * root == MeanSquare(x, eps)
    ensures forall i :: 0 <= i < |x| ==>
      Normalized(x, weight, InverseRms(rsqrt, SumSquares(x), |x|, eps))[i] * root == x[i] * weight[i]
  {
    root := TimesTheRoot(rsqrt, x, weight, MeanSquare(x, eps));
  }

  lemma RootIsPositive(inverse: real, v: real)
    requires 0.0 < inverse && inverse * inverse * v == 1.0
    ensures 0.0 < inverse * v
  {
    if v <= 0.0 {
      ProductNotNegative(inverse * inverse, -v);
      assert false;
    }
    ProductGrows(0.0, inverse, v);
  }

  lemma Regroup(x: real, inverse: real, weight: real, root: real)
    requires inverse * root == 1.0
    ensures x * inverse * weight * root == x * weight
  {
    assert x * inverse * weight * root == x * weight * (inverse * root);
  }

  function Ones(n: nat): (r: seq<real>)
    ensures |r| == n
  {
    seq(n, _ => 1.0)
  }

  /** The row's sum of squares is that of `x` over `square`, and so is its mean square. */
  predicate SquaresOver(row: seq<real>, x: seq<real>, square: real) {
    SumSquares(row) * square == SumSquares(x)
  }

  predicate ScaledBy(row: seq<real>, x: seq<real>, root: real) {
    |row| == |x| && forall i :: 0 <= i < |x| ==> row[i] * root == x[i]
  }

  lemma {:induction false} ScaledSquares(x: seq<real>, row: seq<real>, root: real, square: real)
    requires ScaledBy(row, x, root) && root * root == square
    ensures SquaresOver(row, x, square)
    decreases |x|
  {
    if x != [] {
      var n := |x| - 1;
      ScaledSquares(x[..n], row[..n], root, square);
      OneMoreSquare(SumSquares(row[..n]), row[n], root, square);
    }
  }

  lemma OneMoreSquare(before: real, v: real, root: real, square: real)
    requires root * root == square
    ensures (before + v * v) * square == before * square + (v * root) * (v * root)
  {
    assert (v * v) * (root * root) == (v * root) * (v * root);
  }

  lemma WithoutWeights(rsqrt: Kernel, x: seq<real>, v: real) returns (root: real)
    requires Exact(rsqrt, v)
    ensures root * root == v && ScaledBy(Normalized(x, Ones(|x|), rsqrt(v)), x, root)
  {
    root := TimesTheRoot(rsqrt, x, Ones(|x|), v);
    assert forall i :: 0 <= i < |x| ==> x[i] * Ones(|x|)[i] == x[i] * 1.0;
  }

  /** With weights of one, the normalised row's mean square is the row's own over itself plus epsilon. */
  lemma NormHasUnitMeanSquare(rsqrt: Kernel, x: seq<real>, eps: real)
    requires x != [] && Exact(rsqrt, MeanSquare(x, eps))
    ensures SquaresOver(Normalized(x, Ones(|x|), InverseRms(rsqrt, SumSquares(x), |x|, eps)), x, MeanSquare(x, eps))
  {
    var root := WithoutWeights(rsqrt, x, MeanSquare(x, eps));
    ScaledSquares(x, Normalized(x, Ones(|x|), rsqrt(MeanSquare(x, eps))), root, MeanSquare(x, eps));
  }
}
