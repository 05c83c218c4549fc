/** RMS normalisation followed by INT8 quantisation, one scale per row (app/kernels/rmsnorm_int8.py), over the reals.

    The inverse root mean square is the value of a function parameter, so no property depends on its accuracy.  A row
    has at least one column; with none the reference's maximum is an exception. */
module Quantizer {
  const MIN_SCALE := 0.00000001

  type Kernel = real -> real

  // ----- arithmetic

  function Abs(x: real): real { if x < 0.0 then -x else x }

  function AbsInt(x: int): int { if x < 0 then -x else x }

  function Larger(a: real, b: real): real { if a < b then b else a }

  function Ceiling(x: real): int { -((-x).Floor) }

  /** `_round_half_away_from_zero` */
  function RoundHalfAway(v: real): int {
    if v >= 0.0 then (v + 0.5).Floor else Ceiling(v - 0.5)
  }

  function Clip(n: int): int { if n < -127 then -127 else if 127 < n then 127 else n }

  function SumSquares(s: seq<real>): real {
    if s == [] then 0.0 else SumSquares(s[..|s| - 1]) + s[|s| - 1] * s[|s| - 1]
  }

  function MaxAbs(s: seq<real>): real {
    if s == [] then 0.0 else Larger(MaxAbs(s[..|s| - 1]), Abs(s[|s| - 1]))
  }

  // ----- the reference

  function InverseRms(rsqrt: Kernel, sumSquares: real, n: nat, eps: real): real
    requires 0 < n
  {
    rsqrt(sumSquares / n as real + eps)
  }

  function Weighted(x: real, inverse: real, weight: real): real { x * inverse * weight }

  function Normalized(x: seq<real>, weight: seq<real>, inverse: real): (r: seq<real>)
    requires |x| == |weight|
    ensures |r| == |x|
  {
    seq(|x|, i requires 0 <= i < |x| => Weighted(x[i], inverse, weight[i]))
  }

  /** One value in steps of `scale`. */
  function Steps(v: real, scale: real): int
    requires 0.0 < scale
  {
    Clip(RoundHalfAway(v / scale))
  }

  function Quantized(row: seq<real>, scale: real): (r: seq<int>)
    requires 0.0 < scale
    ensures |r| == |row| && forall i :: 0 <= i < |row| ==> -127 <= r[i] <= 127
  {
    seq(|row|, i requires 0 <= i < |row| => Steps(row[i], scale))
  }

  function ReferenceScale(row: seq<real>): (scale: real)
    ensures 0.0 < scale
  {
    Larger(MaxAbs(row), MIN_SCALE) / 127.0
  }

  datatype Row = Row(quantized: seq<int>, scale: real)

  /** One row of `rmsnorm_int8_reference`. */
  function Reference(rsqrt: Kernel, x: seq<real>, weight: seq<real>, eps: real): Row
    requires 0 < |x| == |weight|
  {
    var row := Normalized(x, weight, InverseRms(rsqrt, SumSquares(x), |x|, eps));
    Row(Quantized(row, ReferenceScale(row)), ReferenceScale(row))
  }

  function Value(q: int, scale: real): real { q as real * scale }

  /** `dequantize_per_row_int8`, one row. */
  function Dequantized(r: Row): seq<real> {
    seq(|r.quantized|, i requires 0 <= i < |r.quantized| => Value(r.quantized[i], r.scale))
  }

  // ----- the kernel

  function KernelScale(row: seq<real>): (scale: real)
    ensures 0.0 < scale
  {
    Larger(MaxAbs(row) / 127.0, MIN_SCALE)
  }

  /** What the kernel is to store for a row: as the reference, but with its own floor under the scale. */
  function Fused(rsqrt: Kernel, x: seq<real>, weight: seq<real>, eps: real): Row
    requires 0 < |x| == |weight|
  {
    var row := Normalized(x, weight, InverseRms(rsqrt, SumSquares(x), |x|, eps));
    Row(Quantized(row, KernelScale(row)), KernelScale(row))
  }

  /** A masked load of a block: what is beyond the mask reads as zero. */
  function Loaded(memory: seq<real>, start: nat, hidden: nat, block: nat): (r: seq<real>)
    requires hidden <= block && start + hidden <= |memory|
    ensures |r| == block
  {
    seq(block, k requires 0 <= k < block => if k < hidden then memory[start + k] else 0.0)
  }

  function Zeros(n: nat): seq<real> { seq(n, _ => 0.0) }

  lemma LoadedIsPadded(memory: seq<real>, start: nat, hidden: nat, block: nat)
    requires hidden <= block && start + hidden <= |memory|
    ensures Loaded(memory, start, hidden, block) == memory[start..start + hidden] + Zeros(block - hidden)
  {
  }

  /** Padding does not change a row's sum of squares or its largest magnitude. */
  lemma {:induction false} PaddingIsNeutral(s: seq<real>, n: nat)
    ensures SumSquares(s + Zeros(n)) == SumSquares(s)
    ensures MaxAbs(s + Zeros(n)) == MaxAbs(s)
    decreases n
  {
    MaxAbsIsLeastBound(s);
    if n == 0 {
      assert s + Zeros(0) == s;
    } else {
      var t := s + Zeros(n);
      assert t[..|t| - 1] == s + Zeros(n - 1) && t[|t| - 1] == 0.0;
      PaddingIsNeutral(s, n - 1);
    }
  }

  lemma PaddedNormalized(x: seq<real>, weight: seq<real>, n: nat, inverse: real)
    requires |x| == |weight|
    ensures Normalized(x + Zeros(n), weight + Zeros(n), inverse) == Normalized(x, weight, inverse) + Zeros(n)
  {
    var padded := Normalized(x + Zeros(n), weight + Zeros(n), inverse);
    forall i | 0 <= i < |x| + n ensures padded[i] == (Normalized(x, weight, inverse) + Zeros(n))[i] {
      if i >= |x| {
        assert Weighted(0.0, inverse, 0.0) == 0.0;
      }
    }
  }

  lemma QuantizedPrefix(row: seq<real>, n: nat, scale: real)
    requires 0.0 < scale
    ensures Quantized(row + Zeros(n), scale)[..|row|] == Quantized(row, scale)
  {
  }

  /** What a program computes from its two blocks, whole blocks at a time. */
  function OnBlocks(rsqrt: Kernel, values: seq<real>, weights: seq<real>, hidden: nat, eps: real): (r: Row)
    requires 0 < hidden <= |values| == |weights|
    ensures |r.quantized| == |values|
  {
    var normalized := Normalized(values, weights, InverseRms(rsqrt, SumSquares(values), hidden, eps));
    Row(Quantized(normalized, KernelScale(normalized)), KernelScale(normalized))
  }

  /** The part that the mask lets through is the row's own result. */
  lemma BlocksComputeTheRow(rsqrt: Kernel, x: seq<real>, weight: seq<real>, eps: real, n: nat)
    requires 0 < |x| == |weight|
    ensures var r := OnBlocks(rsqrt, x + Zeros(n), weight + Zeros(n), |x|, eps);
      Row(r.quantized[..|x|], r.scale) == Fused(rsqrt, x, weight, eps)
  {
    PaddingIsNeutral(x, n);
    var inverse := InverseRms(rsqrt, SumSquares(x), |x|, eps);
    var row := Normalized(x, weight, inverse);
    PaddedNormalized(x, weight, n, inverse);
    PaddingIsNeutral(row, n);
    QuantizedPrefix(row, n, KernelScale(row));
  }

  /** `_rmsnorm_int8_kernel`: one program, one row.  Nothing but the row's own outputs is written. */
  method KernelRow(
    rsqrt: Kernel, x: seq<real>, weight: seq<real>, quantized: array<int>, scales: array<real>,
    row: nat, start: nat, hidden: nat, eps: real, block: nat)
    requires 0 < hidden <= block && hidden == |weight|
    requires start + hidden <= |x| && start + hidden <= quantized.Length && row < scales.Length
    modifies quantized, scales
    ensures Row(quantized[start..start + hidden], scales[row]) == Fused(rsqrt, x[start..start + hidden], weight, eps)
    ensures forall k :: 0 <= k < quantized.Length && !(start <= k < start + hidden) ==>
      quantized[k] == old(quantized[k])
    ensures forall k :: 0 <= k < scales.Length && k != row ==> scales[k] == old(scales[k])
  {
    var values := Loaded(x, start, hidden, block);
    var weights := Loaded(weight, 0, hidden, block);
    var result := OnBlocks(rsqrt, values, weights, hidden, eps);
    assert Row(result.quantized[..hidden], result.scale) == Fused(rsqrt, x[start..start + hidden], weight, eps) by {
      LoadedIsPadded(x, start, hidden, block);
      LoadedIsPadded(weight, 0, hidden, block);
      assert weight[0..0 + hidden] == weight;
      BlocksComputeTheRow(rsqrt, x[start..start + hidden], weight, eps, block - hidden);
    }
    Store(quantized, start, hidden, result.quantized);
    scales[row] := result.scale;
  }

  /** A masked store. */
  method Store(memory: array<int>, start: nat, hidden: nat, values: seq<int>)
    requires hidden <= |values| && start + hidden <= memory.Length
    modifies memory
    ensures memory[start..start + hidden] == values[..hidden]
    ensures forall k :: 0 <= k < memory.Length && !(start <= k < start + hidden) ==> memory[k] == old(memory[k])
  {
    forall k | 0 <= k < hidden {
      memory[start + k] := values[k];
    }
    assert forall k :: 0 <= k < hidden ==> memory[start..start + hidden][k] == values[k];
  }

  /** Where row `r` of a contiguous matrix begins. */
  function Start(r: nat, hidden: nat): nat {
    if r == 0 then 0 else Start(r - 1, hidden) + hidden
  }

  lemma {:induction false} StartsAreMultiples(r: nat, hidden: nat)
    ensures Start(r, hidden) == r * hidden
  {
    if r > 0 {
      StartsAreMultiples(r - 1, hidden);
    }
  }

  lemma {:induction false} RowsApart(r: nat, s: nat, hidden: nat)
    requires r < s
    ensures Start(r, hidden) + hidden <= Start(s, hidden)
  {
    if r < s - 1 {
      RowsApart(r, s - 1, hidden);
    }
  }

  /** Row `r` holds the kernel's results. */
  ghost predicate RowDone(
      rsqrt: Kernel, x: seq<real>, weight: seq<real>, eps: real, quantized: seq<int>, scales: seq<real>, r: nat)
    requires 0 < |weight|
  {
    var start, end := Start(r, |weight|), Start(r, |weight|) + |weight|;
    && end <= |x| && end <= |quantized| && r < |scales|
    && Row(quantized[start..end], scales[r]) == Fused(rsqrt, x[start..end], weight, eps)
  }

  predicate SameRow(q: seq<int>, s: seq<real>, q': seq<int>, s': seq<real>, start: nat, end: nat, r: nat) {
    && start <= end <= |q| == |q'| && r < |s| == |s'|
    && q'[start..end] == q[start..end] && s'[r] == s[r]
  }

  lemma EarlierRowsStay(q: seq<int>, s: seq<real>, q': seq<int>, s': seq<real>, hidden: nat, row: nat, r: nat)
    requires r < row < |s| == |s'| && Start(row, hidden) <= |q| == |q'|
    requires forall k :: 0 <= k < Start(row, hidden) ==> q'[k] == q[k]
    requires forall k :: 0 <= k < |s| && k != row ==> s'[k] == s[k]
    ensures SameRow(q, s, q', s', Start(r, hidden), Start(r, hidden) + hidden, r)
  {
    RowsApart(r, row, hidden);
  }

  lemma SameRowIsDone(
      rsqrt: Kernel, x: seq<real>, weight: seq<real>, eps: real, q: seq<int>, s: seq<real>, q': seq<int>, s': seq<real>,
      r: nat)
    requires 0 < |weight| && RowDone(rsqrt, x, weight, eps, q, s, r)
    requires SameRow(q, s, q', s', Start(r, |weight|), Start(r, |weight|) + |weight|, r)
    ensures RowDone(rsqrt, x, weight, eps, q', s', r)
  {
  }

  /** Row `r` of the outputs, which begins at `r` times the row length, is what the kernel computes from row `r` of
      `x`. */
  ghost predicate RowStored(
      rsqrt: Kernel, x: seq<real>, weight: seq<real>, eps: real, quantized: seq<int>, scales: seq<real>, r: nat)
    requires 0 < |weight|
  {
    var start := r * |weight|;
    && 0 <= start && start + |weight| <= |x| && start + |weight| <= |quantized| && r < |scales|
    && Row(quantized[start..start + |weight|], scales[r]) == Fused(rsqrt, x[start..start + |weight|], weight, eps)
  }

  lemma DoneIsStored(
      rsqrt: Kernel, x: seq<real>, weight: seq<real>, eps: real, quantized: seq<int>, scales: seq<real>, r: nat)
    requires 0 < |weight| && RowDone(rsqrt, x, weight, eps, quantized, scales, r)
    ensures RowStored(rsqrt, x, weight, eps, quantized, scales, r)
  {
    StartsAreMultiples(r, |weight|);
  }

  /** The launch: one kernel program for every row, each on its own outputs. */
  method LaunchRows(
      rsqrt: Kernel, x: seq<real>, weight: seq<real>, quantized: array<int>, scales: array<real>, rows: nat,
      eps: real, block: nat)
    requires 0 < |weight| <= block
    requires |x| == rows * |weight| == quantized.Length && scales.Length == rows
    modifies quantized, scales
    ensures forall r: nat :: r < rows ==> RowStored(rsqrt, x, weight, eps, quantized[..], scales[..], r)
  {
    StartsAreMultiples(rows, |weight|);
    for row := 0 to rows
      invariant forall r: nat :: r < row ==> RowDone(rsqrt, x, weight, eps, quantized[..], scales[..], r)
    {
      RowsApart(row, rows, |weight|);
      ghost var q, s := quantized[..], scales[..];
      LaunchRow(rsqrt, x, weight, quantized, scales, row, eps, block);
      forall r: nat | r < row ensures RowDone(rsqrt, x, weight, eps, quantized[..], scales[..], r) {
        SameRowIsDone(rsqrt, x, weight, eps, q, s, quantized[..], scales[..], r);
      }
    }
    forall r: nat | r < rows ensures RowStored(rsqrt, x, weight, eps, quantized[..], scales[..], r) {
      DoneIsStored(rsqrt, x, weight, eps, quantized[..], scales[..], r);
    }
  }

  method LaunchRow(
      rsqrt: Kernel, x: seq<real>, weight: seq<real>, quantized: array<int>, scales: array<real>, row: nat,
      eps: real, block: nat)
    requires 0 < |weight| <= block && row < scales.Length
    requires Start(row, |weight|) + |weight| <= |x| == quantized.Length
    modifies quantized, scales
    ensures RowDone(rsqrt, x, weight, eps, quantized[..], scales[..], row)
    ensures forall r: nat :: r < row ==>
      SameRow(old(quantized[..]), old(scales[..]), quantized[..], scales[..], Start(r, |weight|),
        Start(r, |weight|) + |weight|, r)
  {
    var start := Start(row, |weight|);
    ghost var q, s := quantized[..], scales[..];
    KernelRow(rsqrt, x, weight, quantized, scales, row, start, |weight|, eps, block);
    ghost var q', s' := quantized[..], scales[..];
    assert RowDone(rsqrt, x, weight, eps, q', s', row) by {
      assert q'[start..start + |weight|] == quantized[start..start + |weight|];
    }
    EarlierStay(q, s, q', s', |weight|, row);
  }

  lemma EarlierStay(q: seq<int>, s: seq<real>, q': seq<int>, s': seq<real>, hidden: nat, row: nat)
    requires row < |s| == |s'| && Start(row, hidden) <= |q| == |q'|
    requires forall k :: 0 <= k < Start(row, hidden) ==> q'[k] == q[k]
    requires forall k :: 0 <= k < |s| && k != row ==> s'[k] == s[k]
    ensures forall r: nat :: r < row ==> SameRow(q, s, q', s', Start(r, hidden), Start(r, hidden) + hidden, r)
  {
    forall r: nat | r < row ensures SameRow(q, s, q', s', Start(r, hidden), Start(r, hidden) + hidden, r) {
      EarlierRowsStay(q, s, q', s', hidden, row, r);
    }
  }

  // ----- rounding

  /** The nearest integer, and of two equally near the one further from zero. */
  lemma RoundIsNearest(v: real, k: int)
    ensures Abs(RoundHalfAway(v) as real - v) <= 0.5
    ensures Abs(RoundHalfAway(v) as real - v) <= Abs(k as real - v)
    ensures Abs(k as real - v) == Abs(RoundHalfAway(v) as real - v) ==> AbsInt(k) <= AbsInt(RoundHalfAway(v))
  {
    var r := RoundHalfAway(v);
    if v >= 0.0 {
      assert r as real <= v + 0.5 < r as real + 1.0;
    } else {
      assert r as real >= v - 0.5 > r as real - 1.0;
    }
    if k < r {
      assert k as real <= r as real - 1.0;
    } else if k > r {
      assert k as real >= r as real + 1.0;
    }
  }

  lemma RoundStaysInRange(v: real, n: int)
    requires 0 <= n && -(n as real) <= v <= n as real
    ensures -n <= RoundHalfAway(v) <= n
  {
    RoundIsNearest(v, n);
    RoundIsNearest(v, -n);
    assert Abs(RoundHalfAway(v) as real - v) <= 0.5;
  }

  lemma RoundOfWhole(n: int)
    ensures RoundHalfAway(n as real) == n
  {
    RoundIsNearest(n as real, n);
  }

  // ----- error

  /** MaxAbs bounds every magnitude, and nothing smaller does. */
  lemma {:induction false} MaxAbsIsLeastBound(s: seq<real>)
    ensures 0.0 <= MaxAbs(s)
    ensures forall i :: 0 <= i < |s| ==> Abs(s[i]) <= MaxAbs(s)
    ensures s != [] ==> exists i :: 0 <= i < |s| && Abs(s[i]) == MaxAbs(s)
    decreases |s|
  {
    if s != [] {
      var t := s[..|s| - 1];
      MaxAbsIsLeastBound(t);
      if MaxAbs(t) <= Abs(s[|s| - 1]) {
        assert Abs(s[|s| - 1]) == MaxAbs(s);
      } else {
        var i :| 0 <= i < |t| && Abs(t[i]) == MaxAbs(t);
        assert Abs(s[i]) == MaxAbs(s);
      }
    }
  }

  lemma ProductGrows(a: real, b: real, c: real)
    requires a < b && 0.0 < c
    ensures a * c < b * c
  {
    assert b * c - a * c == (b - a) * c;
  }

  lemma QuotientInRange(v: real, scale: real, n: nat)
    requires 0.0 < scale && Abs(v) <= n as real * scale
    ensures -(n as real) <= v / scale <= n as real
  {
    var q := v / scale;
    assert q * scale == v;
    if q > n as real {
      ProductGrows(n as real, q, scale);
      assert false;
    }
    if q < -(n as real) {
      ProductGrows(q, -(n as real), scale);
      assert false;
    }
  }

  lemma ErrorScales(v: real, scale: real, r: int)
    requires 0.0 < scale && Abs(r as real - v / scale) <= 0.5
    ensures Abs(Value(r, scale) - v) <= scale / 2.0
  {
    var e := r as real - v / scale;
    assert v / scale * scale == v;
    assert e * scale == r as real * scale - v;
    assert -0.5 <= e <= 0.5;
    assert (0.5 - e) * scale == 0.5 * scale - e * scale && (e + 0.5) * scale == e * scale + 0.5 * scale;
    ProductNotNegative(0.5 - e, scale);
    ProductNotNegative(e + 0.5, scale);
  }

  lemma ProductNotNegative(a: real, b: real)
    requires 0.0 <= a && 0.0 <= b
    ensures 0.0 <= a * b
  {
  }

  lemma StepsError(v: real, scale: real)
    requires 0.0 < scale && Abs(v) <= 127.0 * scale
    ensures Steps(v, scale) == RoundHalfAway(v / scale)
    ensures Abs(Value(Steps(v, scale), scale) - v) <= scale / 2.0
  {
    QuotientInRange(v, scale, 127);
    RoundStaysInRange(v / scale, 127);
    RoundIsNearest(v / scale, 0);
    ErrorScales(v, scale, RoundHalfAway(v / scale));
  }

  /** Within the range of `int8`, not clipped, and within half a step of the value. */
  predicate CloseTo(r: Row, row: seq<real>, i: nat)
    requires i < |row| == |r.quantized| && 0.0 < r.scale
  {
    && -127 <= r.quantized[i] <= 127
    && r.quantized[i] == RoundHalfAway(row[i] / r.scale)
    && Abs(Dequantized(r)[i] - row[i]) <= r.scale / 2.0
  }

  /** With any scale that maps the row into the range nothing is clipped, so every value comes back within half a
      step. */
  lemma HalfStepError(row: seq<real>, scale: real, i: nat)
    requires i < |row| && 0.0 < scale && MaxAbs(row) <= 127.0 * scale
    ensures CloseTo(Row(Quantized(row, scale), scale), row, i)
  {
    MaxAbsIsLeastBound(row);
    var v, q := row[i], Quantized(row, scale);
    assert Abs(v) <= 127.0 * scale;
    StepsError(v, scale);
    assert q[i] == Steps(v, scale);
    assert Dequantized(Row(q, scale))[i] == Value(q[i], scale);
  }

  lemma ScalesFit(row: seq<real>)
    ensures MaxAbs(row) <= 127.0 * ReferenceScale(row)
    ensures MaxAbs(row) <= 127.0 * KernelScale(row)
  {
  }

  /** Both forms have such a scale. */
  lemma BothFormsAreWithinHalfAStep(rsqrt: Kernel, x: seq<real>, weight: seq<real>, eps: real, i: nat)
    requires i < |x| && |x| == |weight|
    ensures var row := Normalized(x, weight, InverseRms(rsqrt, SumSquares(x), |x|, eps));
      CloseTo(Reference(rsqrt, x, weight, eps), row, i) && CloseTo(Fused(rsqrt, x, weight, eps), row, i)
  {
    var row := Normalized(x, weight, InverseRms(rsqrt, SumSquares(x), |x|, eps));
    ScalesFit(row);
    HalfStepError(row, ReferenceScale(row), i);
    HalfStepError(row, KernelScale(row), i);
  }

  /** Quantising what was dequantised gives the same integers. */
  lemma RequantisingIsStable(quantized: seq<int>, scale: real)
    requires 0.0 < scale && forall i :: 0 <= i < |quantized| ==> -127 <= quantized[i] <= 127
    ensures Quantized(Dequantized(Row(quantized, scale)), scale) == quantized
  {
    var values := Dequantized(Row(quantized, scale));
    forall i | 0 <= i < |quantized| ensures Quantized(values, scale)[i] == quantized[i] {
      WholeQuotient(scale, quantized[i] as real);
      assert values[i] / scale == quantized[i] as real;
      RoundOfWhole(quantized[i]);
    }
  }

  // ----- the kernel against the reference

  lemma ScalesAgreeExactlyWhen(row: seq<real>)
    ensures KernelScale(row) == ReferenceScale(row) <==> 127.0 * MIN_SCALE <= MaxAbs(row)
    ensures ReferenceScale(row) <= KernelScale(row)
  {
  }

  /** The fused kernel computes what the reference does exactly when the normalised row reaches 127 * MIN_SCALE: below
      that the two floors under the scale differ. */
  lemma FusedEqualsReferenceExactlyWhen(rsqrt: Kernel, x: seq<real>, weight: seq<real>, eps: real)
    requires 0 < |x| == |weight|
    ensures var row := Normalized(x, weight, InverseRms(rsqrt, SumSquares(x), |x|, eps));
      Fused(rsqrt, x, weight, eps) == Reference(rsqrt, x, weight, eps) <==> 127.0 * MIN_SCALE <= MaxAbs(row)
  {
    ScalesAgreeExactlyWhen(Normalized(x, weight, InverseRms(rsqrt, SumSquares(x), |x|, eps)));
  }

  lemma AbsOfQuotient(v: real, scale: real)
    requires 0.0 < scale
    ensures Abs(v) == Abs(v / scale) * scale
  {
    var q := v / scale;
    assert q * scale == v;
    if q < 0.0 {
      assert (-q) * scale == -v;
      ProductNotNegative(-q, scale);
    } else {
      ProductNotNegative(q, scale);
    }
  }

  lemma QuotientBelow(v: real, scale: real, bound: real)
    requires 0.0 < scale
    ensures Abs(v / scale) < bound <==> Abs(v) < bound * scale
  {
    AbsOfQuotient(v, scale);
    var q := Abs(v / scale);
    if q < bound {
      ProductGrows(q, bound, scale);
    } else if bound < q {
      ProductGrows(bound, q, scale);
    }
  }

  lemma RoundBelow(q: real, low: nat)
    ensures Abs(q) < low as real + 0.5 <==> AbsInt(RoundHalfAway(q)) <= low
  {
  }

  /** A value takes at most `low` steps exactly when it is less than `low` steps and a half. */
  lemma StepsAtMost(v: real, scale: real, low: nat)
    requires 0.0 < scale && low < 127
    ensures AbsInt(Steps(v, scale)) <= low <==> Abs(v) < (low as real + 0.5) * scale
  {
    QuotientBelow(v, scale, low as real + 0.5);
    RoundBelow(v / scale, low);
  }

  /** When only the integers matter.  Leave aside the half step just below the limit, rows that reach 126.5 * MIN_SCALE
      but not 127 * MIN_SCALE.  Then kernel and reference quantise a row alike exactly when it reaches 127 * MIN_SCALE,
      or when it is so small that both make it all zeros. */
  lemma QuantisedAlikeExactlyWhen(row: seq<real>)
    requires row != [] && !(126.5 * MIN_SCALE <= MaxAbs(row) < 127.0 * MIN_SCALE)
    ensures Quantized(row, KernelScale(row)) == Quantized(row, ReferenceScale(row))
      <==> 127.0 * MIN_SCALE <= MaxAbs(row) || MaxAbs(row) * 254.0 < MIN_SCALE
  {
    MaxAbsIsLeastBound(row);
    var m := MaxAbs(row);
    if m * 254.0 < MIN_SCALE {
      forall i | 0 <= i < |row| ensures Quantized(row, KernelScale(row))[i] == Quantized(row, ReferenceScale(row))[i] {
        StepsAtMost(row[i], KernelScale(row), 0);
        StepsAtMost(row[i], ReferenceScale(row), 0);
      }
    } else if m < 127.0 * MIN_SCALE {
      var i :| 0 <= i < |row| && Abs(row[i]) == m;
      LargestDiffers(row, i);
    }
  }

  /** Where the floors differ, the largest value of a row that is not all zeros tells the two forms apart. */
  lemma LargestDiffers(row: seq<real>, i: nat)
    requires i < |row| && Abs(row[i]) == MaxAbs(row)
    requires MIN_SCALE <= MaxAbs(row) * 254.0 && MaxAbs(row) < 126.5 * MIN_SCALE
    ensures Quantized(row, KernelScale(row))[i] != Quantized(row, ReferenceScale(row))[i]
  {
    var v, m := row[i], MaxAbs(row);
    assert KernelScale(row) == MIN_SCALE;
    if MIN_SCALE <= m {
      ReferenceUsesWholeRange(row, i);
      StepsAtMost(v, MIN_SCALE, 126);
    } else {
      assert ReferenceScale(row) == MIN_SCALE / 127.0;
      SmallLargestDiffers(v);
    }
  }

  lemma SmallLargestDiffers(v: real)
    requires MIN_SCALE <= Abs(v) * 254.0 && Abs(v) < MIN_SCALE
    ensures Steps(v, MIN_SCALE) != Steps(v, MIN_SCALE / 127.0)
  {
    var low := if Abs(v) * 2.0 < MIN_SCALE then 0 else 1;
    StepsAtMost(v, MIN_SCALE, low);
    StepsAtMost(v, MIN_SCALE / 127.0, low);
  }

  /** The reference uses the whole range: a row's largest magnitude becomes 127 or -127, unless it is below the
      floor. */
  lemma ReferenceUsesWholeRange(row: seq<real>, i: nat)
    requires i < |row| && Abs(row[i]) == MaxAbs(row) && MIN_SCALE <= MaxAbs(row)
    ensures Quantized(row, ReferenceScale(row))[i] == (if row[i] < 0.0 then -127 else 127)
  {
    var scale := ReferenceScale(row);
    assert Abs(row[i]) == 127.0 * scale;
    WholeQuotient(scale, if row[i] < 0.0 then -127.0 else 127.0);
    RoundOfWhole(if row[i] < 0.0 then -127 else 127);
  }

  lemma WholeQuotient(scale: real, q: real)
    requires 0.0 < scale
    ensures q * scale / scale == q
  {
  }

  /** The kernel does not: a row of one value at the floor is 127 for the reference and 1 for the kernel. */
  lemma SmallRowsDiffer()
    ensures Quantized([MIN_SCALE], ReferenceScale([MIN_SCALE])) == [127]
    ensures Quantized([MIN_SCALE], KernelScale([MIN_SCALE])) == [1]
  {
    var row := [MIN_SCALE];
    assert row[..0] == [];
    assert MaxAbs(row) == MIN_SCALE;
    ReferenceUsesWholeRange(row, 0);
    WholeQuotient(MIN_SCALE, 1.0);
    assert RoundHalfAway(1.0) == 1 by { RoundOfWhole(1); }
  }
}
