/**
 * The kNN uniformity loss (IPythonWorkflow/uniformgradientboosting.py, KnnLossFunction and
 * the constructors of SimpleKnnLossFunction and PairwiseKnnLossFunction).
 *
 * The loss keeps a coefficient matrix M (rows x N), its transpose, and one initial weight
 * per row. Labels y in {0, 1} are signed as 2y - 1. With e = w * exp(-M (y_signed * pred)),
 * the loss is sum(e), the negative gradient is y_signed * (M^T e), and the leaf update of a
 * boosting stage is one Newton step sum(e z) / (sum(e z z) + 1e-10) with z = M (indicator * y_signed).
 *
 * The exponential is not modelled: it is a parameter `negExp` standing for x |-> exp(-x),
 * of which only positivity is used. Floating-point numbers are modelled as exact reals.
 */
module KnnLoss {
  import opened Outcomes
  import opened NeighbourGroups
  import opened CoefficientMatrices

  datatype LossError =
    | UnsupportedClassCount(nClasses: int)   // NotImplementedError("Only 2 classes supported!")
    | WeightSizeMismatch(given: nat, rows: nat)   // AssertionError "Different size"
    | SizeMismatch   // AssertionError "something is wrong with sizes"

  /** The guard added to the Newton-step denominator. */
  const Epsilon: real := 0.0000000001

  /** Every row of `m` has `cols` entries. */
  ghost predicate IsMatrix(m: seq<seq<nat>>, cols: nat)
  {
    forall r :: 0 <= r < |m| ==> |m[r]| == cols
  }

  function Transpose(m: seq<seq<nat>>, cols: nat): (t: seq<seq<nat>>)
    requires IsMatrix(m, cols)
  {
    seq(cols, c requires 0 <= c < cols => seq(|m|, r requires 0 <= r < |m| => m[r][c]))
  }

  /** The cached transpose is a matrix of the swapped shape, and transposing it again gives M back. */
  lemma TransposeTwice(m: seq<seq<nat>>, cols: nat)
    requires IsMatrix(m, cols)
    ensures IsMatrix(Transpose(m, cols), |m|) && |Transpose(m, cols)| == cols
    ensures Transpose(Transpose(m, cols), |m|) == m
  {
    var t := Transpose(m, cols);
    var tt := Transpose(t, |m|);
    assert |tt| == |m|;
    forall r | 0 <= r < |m|
      ensures tt[r] == m[r]
    {
      assert |tt[r]| == |m[r]|;
      forall c | 0 <= c < cols
        ensures tt[r][c] == m[r][c]
      {
      }
    }
  }

  /** The weights a new loss starts with, or the reason construction fails. */
  function InitialWeights(nClasses: int, rows: nat, given: Option<seq<real>>): (r: Result<seq<real>, LossError>)
    ensures nClasses != 2 ==> r == Failure(UnsupportedClassCount(nClasses))
    ensures nClasses == 2 && given.Some? && |given.value| != rows ==> r == Failure(WeightSizeMismatch(|given.value|, rows))
    ensures r.Success? <==> nClasses == 2 && (given.Some? ==> |given.value| == rows)
    ensures r.Success? && given.None? ==> |r.value| == rows && forall i :: 0 <= i < rows ==> r.value[i] == 1.0
    ensures r.Success? && given.Some? ==> r.value == given.value
  {
    if nClasses != 2 then Failure(UnsupportedClassCount(nClasses))
    else match given
      case None => Success(seq(rows, i => 1.0))
      case Some(w) => if |w| == rows then Success(w) else Failure(WeightSizeMismatch(|w|, rows))
  }

  /** `y_signed = 2 * y - 1`. */
  function SignLabels(y: seq<int>): (s: seq<int>)
    ensures |s| == |y|
    ensures forall i :: 0 <= i < |y| && 0 <= y[i] <= 1 ==> (s[i] == 1 <==> y[i] == 1) && (s[i] == -1 <==> y[i] == 0)
  {
    seq(|y|, i requires 0 <= i < |y| => 2 * y[i] - 1)
  }

  /** Signing loses nothing: the label is recovered as (s + 1) / 2. */
  lemma SignLabelsRoundTrip(y: seq<int>)
    ensures forall i :: 0 <= i < |y| ==> (SignLabels(y)[i] + 1) / 2 == y[i]
  {
  }

  /** All labels are 0 or 1, so all signed labels are -1 or +1. */
  ghost predicate Binary(y: seq<int>)
  {
    forall i :: 0 <= i < |y| ==> 0 <= y[i] <= 1
  }

  ghost predicate Signs(s: seq<int>)
  {
    forall i :: 0 <= i < |s| ==> s[i] == -1 || s[i] == 1
  }

  function SumReal(s: seq<real>): real
  {
    if |s| == 0 then 0.0 else SumReal(s[..|s| - 1]) + s[|s| - 1]
  }

  /** Row of integer counts times a real vector. */
  function DotReal(row: seq<nat>, v: seq<real>): real
    requires |row| == |v|
  {
    if |row| == 0 then 0.0
    else DotReal(row[..|row| - 1], v[..|v| - 1]) + (row[|row| - 1] as real) * v[|v| - 1]
  }

  /** Row of integer counts times an integer vector. */
  function DotInt(row: seq<nat>, v: seq<int>): int
    requires |row| == |v|
  {
    if |row| == 0 then 0
    else DotInt(row[..|row| - 1], v[..|v| - 1]) + row[|row| - 1] * v[|v| - 1]
  }

  /** `M.dot(y_signed * pred)`: the row-aggregated, sign-adjusted margins. */
  function Margins(m: seq<seq<nat>>, cols: nat, ySigned: seq<int>, pred: seq<real>): (g: seq<real>)
    requires IsMatrix(m, cols) && |ySigned| == |pred| == cols
    ensures |g| == |m|
  {
    var v := seq(cols, c requires 0 <= c < cols => (ySigned[c] as real) * pred[c]);
    seq(|m|, r requires 0 <= r < |m| => DotReal(m[r], v))
  }

  /** `initial_weights * exp(-M.dot(y_signed * pred))`, the per-row exponents. */
  function Exponents(m: seq<seq<nat>>, cols: nat, w: seq<real>, y: seq<int>, pred: seq<real>, negExp: real -> real): (e: seq<real>)
    requires IsMatrix(m, cols) && |w| == |m| && |y| == |pred| == cols
    ensures |e| == |m|
  {
    var g := Margins(m, cols, SignLabels(y), pred);
    seq(|m|, r requires 0 <= r < |m| => w[r] * negExp(g[r]))
  }

  /** `(terminal_regions == leaf) * y_signed`: the signed labels of the leaf's samples, zero elsewhere. */
  function LeafSigns(regions: seq<int>, leaf: int, ySigned: seq<int>): (v: seq<int>)
    requires |regions| == |ySigned|
    ensures |v| == |regions|
  {
    seq(|regions|, c requires 0 <= c < |regions| => if regions[c] == leaf then ySigned[c] else 0)
  }

  /** `z = M.dot((terminal_regions == leaf) * y_signed)`. */
  function LeafVector(m: seq<seq<nat>>, cols: nat, regions: seq<int>, leaf: int, ySigned: seq<int>): (z: seq<int>)
    requires IsMatrix(m, cols) && |regions| == |ySigned| == cols
    ensures |z| == |m|
  {
    var v := LeafSigns(regions, leaf, ySigned);
    seq(|m|, r requires 0 <= r < |m| => DotInt(m[r], v))
  }

  function Numerator(e: seq<real>, z: seq<int>): real
    requires |e| == |z|
  {
    SumReal(seq(|e|, r requires 0 <= r < |e| => e[r] * (z[r] as real)))
  }

  function Denominator(e: seq<real>, z: seq<int>): real
    requires |e| == |z|
  {
    SumReal(seq(|e|, r requires 0 <= r < |e| => e[r] * (z[r] as real) * (z[r] as real))) + Epsilon
  }

  ghost predicate NonNegative(e: seq<real>)
  {
    forall r :: 0 <= r < |e| ==> e[r] >= 0.0
  }

  /**
   * The leaf value alpha: one Newton step for the constant that minimises the coupled loss
   * on the leaf. With non-negative exponents the denominator is positive (DenominatorPositive).
   */
  function Alpha(e: seq<real>, z: seq<int>): real
    requires |e| == |z| && NonNegative(e)
  {
    DenominatorPositive(e, z);
    Numerator(e, z) / Denominator(e, z)
  }

  // ---------------------------------------------------------------------------------------
  // Properties of the leaf vector and the Newton step

  /** A row entry of the leaf vector is at most the row sum in absolute value. */
  lemma {:induction false} DotIntBound(row: seq<nat>, v: seq<int>)
    requires |row| == |v|
    requires forall c :: 0 <= c < |v| ==> -1 <= v[c] <= 1
    ensures -(Sum(row) as int) <= DotInt(row, v) <= Sum(row)
  {
    if |row| > 0 {
      var p := |row| - 1;
      DotIntBound(row[..p], v[..p]);
    }
  }

  /** A row that touches no sample of the leaf gives a zero entry. */
  lemma {:induction false} DotIntVanishes(row: seq<nat>, v: seq<int>)
    requires |row| == |v|
    requires forall c :: 0 <= c < |v| && row[c] > 0 ==> v[c] == 0
    ensures DotInt(row, v) == 0
  {
    if |row| > 0 {
      var p := |row| - 1;
      DotIntVanishes(row[..p], v[..p]);
    }
  }

  /**
   * Leaf vector bounds: with binary labels, |z_r| is at most the row sum of M, and z_r is 0
   * on every row that touches no sample of the leaf.
   */
  lemma LeafVectorBounds(m: seq<seq<nat>>, cols: nat, regions: seq<int>, leaf: int, y: seq<int>)
    requires IsMatrix(m, cols) && |regions| == |y| == cols && Binary(y)
    ensures forall r :: 0 <= r < |m| ==>
      -(Sum(m[r]) as int) <= LeafVector(m, cols, regions, leaf, SignLabels(y))[r] <= Sum(m[r])
    ensures forall r :: 0 <= r < |m| && (forall c :: 0 <= c < cols && m[r][c] > 0 ==> regions[c] != leaf) ==>
      LeafVector(m, cols, regions, leaf, SignLabels(y))[r] == 0
  {
    var v := LeafSigns(regions, leaf, SignLabels(y));
    forall r | 0 <= r < |m|
      ensures -(Sum(m[r]) as int) <= DotInt(m[r], v) <= Sum(m[r])
    {
      DotIntBound(m[r], v);
    }
    forall r | 0 <= r < |m| && (forall c :: 0 <= c < cols && m[r][c] > 0 ==> regions[c] != leaf)
      ensures DotInt(m[r], v) == 0
    {
      DotIntVanishes(m[r], v);
    }
  }

  lemma {:induction false} SumRealNonNegative(s: seq<real>)
    requires forall i :: 0 <= i < |s| ==> s[i] >= 0.0
    ensures SumReal(s) >= 0.0
  {
    if |s| > 0 {
      SumRealNonNegative(s[..|s| - 1]);
    }
  }

  lemma {:induction false} SumRealZero(s: seq<real>)
    requires forall i :: 0 <= i < |s| ==> s[i] == 0.0
    ensures SumReal(s) == 0.0
  {
    if |s| > 0 {
      SumRealZero(s[..|s| - 1]);
    }
  }

  /** With non-negative exponents the Newton-step denominator is strictly positive. */
  lemma DenominatorPositive(e: seq<real>, z: seq<int>)
    requires |e| == |z| && NonNegative(e)
    ensures Denominator(e, z) >= Epsilon > 0.0
  {
    var s := seq(|e|, r requires 0 <= r < |e| => e[r] * (z[r] as real) * (z[r] as real));
    forall r | 0 <= r < |e|
      ensures s[r] >= 0.0
    {
      assert (z[r] as real) * (z[r] as real) >= 0.0;
    }
    SumRealNonNegative(s);
  }

  /** A leaf whose vector z is zero (it touches no row) gets the value 0. */
  lemma AlphaOfUntouchedLeaf(e: seq<real>, z: seq<int>)
    requires |e| == |z| && NonNegative(e)
    requires forall r :: 0 <= r < |z| ==> z[r] == 0
    ensures Alpha(e, z) == 0.0
  {
    SumRealZero(seq(|e|, r requires 0 <= r < |e| => e[r] * (z[r] as real)));
    DenominatorPositive(e, z);
    assert Numerator(e, z) == 0.0;
  }

  /** Exponents built from non-negative weights and a positive exponential are non-negative. */
  lemma ExponentsNonNegative(m: seq<seq<nat>>, cols: nat, w: seq<real>, y: seq<int>, pred: seq<real>, negExp: real -> real)
    requires IsMatrix(m, cols) && |w| == |m| && |y| == |pred| == cols
    requires forall r :: 0 <= r < |w| ==> w[r] >= 0.0
    requires forall x :: negExp(x) > 0.0
    ensures NonNegative(Exponents(m, cols, w, y, pred, negExp))
  {
  }

  lemma {:induction false} DotRealNonNegative(row: seq<nat>, v: seq<real>)
    requires |row| == |v|
    requires forall c :: 0 <= c < |v| ==> v[c] >= 0.0
    ensures DotReal(row, v) >= 0.0
  {
    if |row| > 0 {
      DotRealNonNegative(row[..|row| - 1], v[..|v| - 1]);
    }
  }

  lemma {:induction false} SumRealPositive(s: seq<real>)
    requires |s| > 0 && forall i :: 0 <= i < |s| ==> s[i] > 0.0
    ensures SumReal(s) > 0.0
  {
    SumRealNonNegative(s[..|s| - 1]);
  }

  /** The loss itself: the weighted sum of the row exponents. */
  function LossValue(m: seq<seq<nat>>, cols: nat, w: seq<real>, y: seq<int>, pred: seq<real>, negExp: real -> real): real
    requires IsMatrix(m, cols) && |w| == |m| && |y| == |pred| == cols
  {
    SumReal(Exponents(m, cols, w, y, pred, negExp))
  }

  /** `M^T.dot(initial_weights * exponents) * y_signed`. */
  function GradientValue(m: seq<seq<nat>>, cols: nat, w: seq<real>, y: seq<int>, pred: seq<real>, negExp: real -> real): (g: seq<real>)
    requires IsMatrix(m, cols) && |w| == |m| && |y| == |pred| == cols
    ensures |g| == cols
  {
    var e := Exponents(m, cols, w, y, pred, negExp);
    var t := Transpose(m, cols);
    var ySigned := SignLabels(y);
    seq(cols, i requires 0 <= i < cols => DotReal(t[i], e) * (ySigned[i] as real))
  }

  /** With positive weights the loss is positive whenever the matrix has a row. */
  lemma LossPositive(m: seq<seq<nat>>, cols: nat, w: seq<real>, y: seq<int>, pred: seq<real>, negExp: real -> real)
    requires IsMatrix(m, cols) && |w| == |m| && |y| == |pred| == cols && |m| > 0
    requires forall r :: 0 <= r < |w| ==> w[r] > 0.0
    requires forall x :: negExp(x) > 0.0
    ensures LossValue(m, cols, w, y, pred, negExp) > 0.0
  {
    var e := Exponents(m, cols, w, y, pred, negExp);
    assert forall r :: 0 <= r < |e| ==> e[r] > 0.0;
    SumRealPositive(e);
  }

  /**
   * The negative gradient never points away from a sample's label: with binary labels,
   * non-negative weights and a positive exponential, y_signed_i * grad_i >= 0.
   */
  lemma GradientFollowsLabels(m: seq<seq<nat>>, cols: nat, w: seq<real>, y: seq<int>, pred: seq<real>, negExp: real -> real)
    requires IsMatrix(m, cols) && |w| == |m| && |y| == |pred| == cols && Binary(y)
    requires forall r :: 0 <= r < |w| ==> w[r] >= 0.0
    requires forall x :: negExp(x) > 0.0
    ensures forall i :: 0 <= i < cols ==>
      (SignLabels(y)[i] as real) * GradientValue(m, cols, w, y, pred, negExp)[i] >= 0.0
  {
    var e := Exponents(m, cols, w, y, pred, negExp);
    var t := Transpose(m, cols);
    ExponentsNonNegative(m, cols, w, y, pred, negExp);
    forall i | 0 <= i < cols
      ensures (SignLabels(y)[i] as real) * GradientValue(m, cols, w, y, pred, negExp)[i] >= 0.0
    {
      var s := SignLabels(y)[i] as real;
      DotRealNonNegative(t[i], e);
      assert s * s == 1.0;
      assert s * (DotReal(t[i], e) * s) == DotReal(t[i], e) * (s * s);
    }
  }

  // ---------------------------------------------------------------------------------------
  // The loss object

  class KnnLossFunction {
    const coefficients: seq<seq<nat>>
    const cols: nat
    const coefficientsT: seq<seq<nat>>
    const initialWeights: seq<real>
    /** Refreshed once per boosting stage by UpdateTerminalRegions, read by every leaf update of that stage. */
    var updateExponents: Option<seq<real>>

    ghost predicate Valid()
      reads this
    {
      IsMatrix(coefficients, cols) &&
      coefficientsT == Transpose(coefficients, cols) &&
      |initialWeights| == |coefficients| &&
      (updateExponents.Some? ==> |updateExponents.value| == |coefficients|)
    }

    constructor (coefficients: seq<seq<nat>>, cols: nat, initialWeights: seq<real>)
      requires IsMatrix(coefficients, cols) && |initialWeights| == |coefficients|
      ensures Valid()
      ensures this.coefficients == coefficients && this.cols == cols && this.initialWeights == initialWeights
      ensures updateExponents == None
    {
      this.coefficients := coefficients;
      this.cols := cols;
      this.coefficientsT := Transpose(coefficients, cols);
      this.initialWeights := initialWeights;
      this.updateExponents := None;
    }

    /** `__call__`: the loss value, after the size assertion. */
    function Loss(y: seq<int>, pred: seq<real>, negExp: real -> real): (r: Result<real, LossError>)
      requires Valid()
      reads this
      ensures r.Failure? <==> !(|y| == |pred| == cols)
      ensures r.Failure? ==> r.error == SizeMismatch
      ensures r.Success? ==> r.value == LossValue(coefficients, cols, initialWeights, y, pred, negExp)
    {
      if |y| == |pred| == cols then Success(LossValue(coefficients, cols, initialWeights, y, pred, negExp))
      else Failure(SizeMismatch)
    }

    /** `negative_gradient`: computed with the cached transpose, after the size assertion. */
    function NegativeGradient(y: seq<int>, pred: seq<real>, negExp: real -> real): (r: Result<seq<real>, LossError>)
      requires Valid()
      reads this
      ensures r.Failure? <==> !(|y| == |pred| == cols)
      ensures r.Failure? ==> r.error == SizeMismatch
      ensures r.Success? ==> r.value == GradientValue(coefficients, cols, initialWeights, y, pred, negExp)
    {
      if |y| == |pred| == cols then
        var e := Exponents(coefficients, cols, initialWeights, y, pred, negExp);
        var ySigned := SignLabels(y);
        Success(seq(cols, i requires 0 <= i < cols => DotReal(coefficientsT[i], e) * (ySigned[i] as real)))
      else Failure(SizeMismatch)
    }

    /** `_update_terminal_region`: writes one Newton step into the leaf's stored value. */
    method UpdateTerminalRegion(regions: seq<int>, leaf: nat, y: seq<int>, tree: array<real>)
      requires Valid() && updateExponents.Some? && NonNegative(updateExponents.value)
      requires |regions| == |y| == cols && leaf < tree.Length
      modifies tree
      ensures Denominator(updateExponents.value, LeafVector(coefficients, cols, regions, leaf, SignLabels(y))) > 0.0
      ensures tree[leaf] == Alpha(updateExponents.value, LeafVector(coefficients, cols, regions, leaf, SignLabels(y)))
      ensures forall t :: 0 <= t < tree.Length && t != leaf ==> tree[t] == old(tree[t])
    {
      var z := LeafVector(coefficients, cols, regions, leaf, SignLabels(y));
      DenominatorPositive(updateExponents.value, z);
      tree[leaf] := Alpha(updateExponents.value, z);
    }

    /**
     * `update_terminal_regions`: refreshes the per-stage exponents from the predictions made
     * before this stage's tree, then updates every leaf (the loop over leaves stands for the
     * base class's driver, which calls the per-leaf update once per leaf).
     */
    method UpdateTerminalRegions(y: seq<int>, yPred: seq<real>, negExp: real -> real,
                                 regions: seq<int>, leaves: seq<nat>, tree: array<real>)
      requires Valid() && |y| == |yPred| == |regions| == cols
      requires forall r :: 0 <= r < |initialWeights| ==> initialWeights[r] >= 0.0
      requires forall x :: negExp(x) > 0.0
      requires forall p :: 0 <= p < |leaves| ==> leaves[p] < tree.Length
      modifies this, tree
      ensures Valid()
      ensures updateExponents == Some(Exponents(coefficients, cols, initialWeights, y, yPred, negExp))
      ensures forall t :: 0 <= t < tree.Length ==>
        tree[t] == if t in leaves
                   then Alpha(updateExponents.value, LeafVector(coefficients, cols, regions, t, SignLabels(y)))
                   else old(tree[t])
    {
      var e := Exponents(coefficients, cols, initialWeights, y, yPred, negExp);
      ExponentsNonNegative(coefficients, cols, initialWeights, y, yPred, negExp);
      updateExponents := Some(e);
      var p := 0;
      while p < |leaves|
        invariant 0 <= p <= |leaves|
        invariant Valid() && updateExponents == Some(e)
        invariant forall t :: 0 <= t < tree.Length ==>
          tree[t] == if t in leaves[..p]
                     then Alpha(e, LeafVector(coefficients, cols, regions, t, SignLabels(y)))
                     else old(tree[t])
      {
        UpdateTerminalRegion(regions, leaves[p], y, tree);
        assert leaves[..p + 1] == leaves[..p] + [leaves[p]];
        p := p + 1;
      }
      assert leaves[..p] == leaves;
    }
  }

  /** `KnnLossFunction.__init__`: checks the class count, then the weights, then stores the matrix. */
  method NewKnnLoss(nClasses: int, coefficients: seq<seq<nat>>, cols: nat, initialWeights: Option<seq<real>>)
    returns (r: Result<KnnLossFunction, LossError>)
    requires IsMatrix(coefficients, cols)
    ensures r.Failure? <==> InitialWeights(nClasses, |coefficients|, initialWeights).Failure?
    ensures r.Failure? ==> r.error == InitialWeights(nClasses, |coefficients|, initialWeights).error
    ensures r.Success? ==> (fresh(r.value) && r.value.Valid() && r.value.updateExponents == None &&
      r.value.coefficients == coefficients && r.value.cols == cols &&
      r.value.initialWeights == InitialWeights(nClasses, |coefficients|, initialWeights).value)
  {
    var w := InitialWeights(nClasses, |coefficients|, initialWeights);
    if w.Failure? {
      return Failure(w.error);
    }
    var loss := new KnnLossFunction(coefficients, cols, w.value);
    return Success(loss);
  }

  /** The Simple matrix of a neighbour table: row i counts sample i's neighbours. */
  function SimpleMatrix(t: seq<seq<nat>>, n: nat): (m: seq<seq<nat>>)
    ensures |m| == |t| && IsMatrix(m, n)
  {
    seq(|t|, i requires 0 <= i < |t| => SimpleRow(t[i], n))
  }

  /**
   * `SimpleKnnLossFunction.__init__`, given the two neighbour tables of the unmodelled search:
   * overrides the signal rows, builds the N x N Simple matrix, and wraps it with unit weights.
   */
  method NewSimpleKnnLoss(trainY: seq<int>, knnSignal: array2<nat>, knnBg: array2<nat>) returns (loss: KnnLossFunction)
    requires knnBg != knnSignal
    requires knnBg.Length0 == knnSignal.Length0 == |trainY| && knnBg.Length1 == knnSignal.Length1
    requires ValidNeighbours(knnSignal) && ValidNeighbours(knnBg)
    modifies knnBg
    ensures Table(knnBg) == Overridden(old(Table(knnBg)), Table(knnSignal), IsSignal(trainY))
    ensures fresh(loss) && loss.Valid() && loss.updateExponents == None
    ensures loss.cols == |trainY| && loss.coefficients == SimpleMatrix(Table(knnBg), |trainY|)
    ensures forall r :: 0 <= r < |loss.initialWeights| ==> loss.initialWeights[r] == 1.0
  {
    var n := |trainY|;
    ghost var before := Table(knnBg);
    assert forall i, j :: 0 <= i < n && 0 <= j < knnBg.Length1 ==> before[i][j] == knnBg[i, j];
    OverrideSignalRows(knnBg, knnSignal, IsSignal(trainY));
    OverriddenValid(knnBg, knnSignal, IsSignal(trainY), before);
    var m := BuildSimple(knnBg);
    var table := Table(m);
    assert table == SimpleMatrix(Table(knnBg), n);
    loss := new KnnLossFunction(table, n, seq(n, i => 1.0));
  }

  /** The Pairwise matrix of a neighbour table: row i*k + j couples sample i with its j-th neighbour. */
  ghost predicate IsPairwiseMatrix(m: seq<seq<nat>>, t: seq<seq<nat>>, n: nat, k: nat)
  {
    |m| == |t| * k && IsMatrix(m, n) &&
    forall i, j :: 0 <= i < |t| && 0 <= j < k && j < |t[i]| ==>
      PairRow(i, j, k) < |m| && m[PairRow(i, j, k)] == PairwiseRow(i, t[i][j], n)
  }

  /** For the Simple loss every entry of the leaf vector lies in [-k, k]. */
  lemma SimpleLeafBound(t: seq<seq<nat>>, n: nat, k: nat, regions: seq<int>, leaf: int, y: seq<int>)
    requires forall i :: 0 <= i < |t| ==> |t[i]| == k && forall j :: 0 <= j < k ==> t[i][j] < n
    requires |regions| == |y| == n && Binary(y)
    ensures forall r :: 0 <= r < |t| ==> -(k as int) <= LeafVector(SimpleMatrix(t, n), n, regions, leaf, SignLabels(y))[r] <= k
  {
    var m := SimpleMatrix(t, n);
    LeafVectorBounds(m, n, regions, leaf, y);
    forall r | 0 <= r < |t|
      ensures Sum(m[r]) == k
    {
      SimpleRowSum(t[r], n);
    }
  }

  /** `PairwiseKnnLossFunction.__init__`: as the Simple one, with the (N*k) x N Pairwise matrix. */
  method NewPairwiseKnnLoss(trainY: seq<int>, knnSignal: array2<nat>, knnBg: array2<nat>) returns (loss: KnnLossFunction)
    requires knnBg != knnSignal
    requires knnBg.Length0 == knnSignal.Length0 == |trainY| && knnBg.Length1 == knnSignal.Length1
    requires ValidNeighbours(knnSignal) && ValidNeighbours(knnBg)
    modifies knnBg
    ensures Table(knnBg) == Overridden(old(Table(knnBg)), Table(knnSignal), IsSignal(trainY))
    ensures fresh(loss) && loss.Valid() && loss.updateExponents == None
    ensures loss.cols == |trainY| && IsPairwiseMatrix(loss.coefficients, Table(knnBg), |trainY|, knnBg.Length1)
    ensures forall r :: 0 <= r < |loss.initialWeights| ==> loss.initialWeights[r] == 1.0
  {
    var n := |trainY|;
    ghost var before := Table(knnBg);
    assert forall i, j :: 0 <= i < n && 0 <= j < knnBg.Length1 ==> before[i][j] == knnBg[i, j];
    OverrideSignalRows(knnBg, knnSignal, IsSignal(trainY));
    OverriddenValid(knnBg, knnSignal, IsSignal(trainY), before);
    var m := BuildPairwise(knnBg);
    var table := Table(m);
    assert IsPairwiseMatrix(table, Table(knnBg), n, knnBg.Length1);
    loss := new KnnLossFunction(table, n, seq(|table|, i => 1.0));
  }

  /** The override keeps every neighbour index a valid sample index. */
  lemma OverriddenValid(knnBg: array2<nat>, knnSignal: array2<nat>, isSignal: seq<bool>, before: seq<seq<nat>>)
    requires knnBg.Length0 == knnSignal.Length0 == |isSignal| == |before| && knnBg.Length1 == knnSignal.Length1
    requires ValidNeighbours(knnSignal)
    requires forall i, j :: 0 <= i < |before| && 0 <= j < |before[i]| ==> before[i][j] < knnBg.Length0
    requires Table(knnBg) == Overridden(before, Table(knnSignal), isSignal)
    ensures ValidNeighbours(knnBg)
  {
    forall i, j | 0 <= i < knnBg.Length0 && 0 <= j < knnBg.Length1
      ensures knnBg[i, j] < knnBg.Length0
    {
      assert knnBg[i, j] == Table(knnBg)[i][j];
      if isSignal[i] {
        assert Table(knnSignal)[i][j] == knnSignal[i, j];
      }
    }
  }

  /** For the Pairwise loss every entry of the leaf vector lies in [-2, 2]. */
  lemma PairwiseLeafBound(m: seq<seq<nat>>, t: seq<seq<nat>>, k: nat, regions: seq<int>, leaf: int, y: seq<int>)
    requires forall i :: 0 <= i < |t| ==> |t[i]| == k && forall j :: 0 <= j < k ==> t[i][j] < |t|
    requires IsPairwiseMatrix(m, t, |t|, k)
    requires |regions| == |y| == |t| && Binary(y)
    ensures forall r :: 0 <= r < |m| ==> -2 <= LeafVector(m, |t|, regions, leaf, SignLabels(y))[r] <= 2
  {
    var n := |t|;
    LeafVectorBounds(m, n, regions, leaf, y);
    forall r | 0 <= r < |m|
      ensures Sum(m[r]) == 2
    {
      var i, j := PairRowCovers(r, n, k);
      PairwiseRowSum(i, t[i][j], n);
    }
  }
}
