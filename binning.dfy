/**
 * Binning shape rules of the evaluation reports
 * (IPythonWorkflow/reports.py, Predictions._compute_bin_indices, _compute_bin_centers and
 * the dimension check of Predictions.efficiency).
 *
 * For every chosen variable the range [min, max] of the masked samples is split into
 * n_bins equal-width bins: the n_bins - 1 interior edges go to the (unmodelled) bin
 * assignment, and the n_bins centres are used for plotting. Floating-point numbers are
 * modelled as exact reals; the NaN that min and max give for an empty selection, and that
 * then fills every edge and centre, is a `Float`.
 */
module Binning {
  import opened Outcomes
  import opened ReportChecks

  /** `numpy.linspace(lo, hi, num)`: num evenly spaced values from lo to hi, both included. */
  function Linspace(lo: real, hi: real, num: nat): (l: seq<real>)
    ensures |l| == num
    ensures num >= 1 ==> l[0] == lo
    ensures num >= 2 ==> l[num - 1] == hi
  {
    if num <= 1 then seq(num, i => lo)
    else seq(num, i requires 0 <= i < num => lo + (hi - lo) * (i as real) / ((num - 1) as real))
  }

  /** Boundary j (0 <= j <= nBins) of the equal-width bins of [lo, hi]. */
  function BinEdge(lo: real, hi: real, nBins: nat, j: nat): real
    requires nBins > 0
  {
    lo + (hi - lo) * (j as real) / (nBins as real)
  }

  /** `linspace(lo, hi, n_bins + 1)[1:-1]`: the boundaries between neighbouring bins. */
  function InteriorEdges(lo: real, hi: real, nBins: nat): (e: seq<real>)
    ensures |e| == if nBins == 0 then 0 else nBins - 1
    ensures forall j :: 0 <= j < |e| ==> e[j] == BinEdge(lo, hi, nBins, j + 1)
  {
    var l := Linspace(lo, hi, nBins + 1);
    if |l| <= 2 then [] else l[1..|l| - 1]
  }

  /** `linspace(lo, hi, 2 * n_bins + 1)[1::2]`: the value in the middle of every bin. */
  function Centres(lo: real, hi: real, nBins: nat): (c: seq<real>)
    ensures |c| == nBins
  {
    var l := Linspace(lo, hi, 2 * nBins + 1);
    seq(nBins, j requires 0 <= j < nBins => l[2 * j + 1])
  }

  /** Dividing a product by n is multiplying by the n-th part. */
  lemma DivAsPart(d: real, a: real, n: real)
    requires n > 0.0
    ensures d * a / n == (d / n) * a
  {
  }

  /** The centre of bin j, computed on the grid of 2 * nBins steps, is the mean of its two boundaries. */
  lemma MidpointOfBin(lo: real, hi: real, nBins: nat, j: nat)
    requires nBins > 0
    ensures lo + (hi - lo) * ((2 * j + 1) as real) / ((2 * nBins) as real)
      == (BinEdge(lo, hi, nBins, j) + BinEdge(lo, hi, nBins, j + 1)) / 2.0
  {
    var n, d, x := nBins as real, hi - lo, j as real;
    var u := d / n;
    DivAsPart(d, x, n);
    DivAsPart(d, x + 1.0, n);
    DivAsPart(d, 2.0 * x + 1.0, 2.0 * n);
    assert d / (2.0 * n) == u / 2.0;
    assert u * (x + 1.0) == u * x + u;
    assert (u / 2.0) * (2.0 * x + 1.0) == u * x + u / 2.0;
  }

  /** There are exactly n_bins centres (so the length assertion of the source always holds), each the midpoint of its bin. */
  lemma CentresAreMidpoints(lo: real, hi: real, nBins: nat)
    ensures |Centres(lo, hi, nBins)| == nBins
    ensures forall j :: 0 <= j < nBins ==>
      Centres(lo, hi, nBins)[j] == (BinEdge(lo, hi, nBins, j) + BinEdge(lo, hi, nBins, j + 1)) / 2.0
  {
    forall j | 0 <= j < nBins
      ensures Centres(lo, hi, nBins)[j] == (BinEdge(lo, hi, nBins, j) + BinEdge(lo, hi, nBins, j + 1)) / 2.0
    {
      MidpointOfBin(lo, hi, nBins, j);
    }
  }

  lemma MulMonotone(d: real, a: real, b: real)
    requires d >= 0.0 && a <= b
    ensures d * a <= d * b
  {
    assert d * b - d * a == d * (b - a);
  }

  lemma DivMonotone(a: real, b: real, n: real)
    requires n > 0.0 && a <= b
    ensures a / n <= b / n
  {
    assert b / n - a / n == (b - a) / n;
  }

  /** A fraction j / n (0 <= j <= n) of a non-negative width d lies between 0 and d. */
  lemma ScaledFraction(d: real, j: nat, n: nat)
    requires n > 0 && j <= n && d >= 0.0
    ensures 0.0 <= d * (j as real) / (n as real) <= d
  {
    MulMonotone(d, 0.0, j as real);
    DivMonotone(0.0, d * (j as real), n as real);
    MulMonotone(d, j as real, n as real);
    DivMonotone(d * (j as real), d * (n as real), n as real);
    assert d * (n as real) / (n as real) == d;
  }

  /** The fraction grows with its numerator. */
  lemma ScaledMonotone(d: real, i: nat, j: nat, n: nat)
    requires n > 0 && i <= j && d >= 0.0
    ensures d * (i as real) / (n as real) <= d * (j as real) / (n as real)
  {
    MulMonotone(d, i as real, j as real);
    DivMonotone(d * (i as real), d * (j as real), n as real);
  }

  /** With lo <= hi every bin boundary lies in [lo, hi]. */
  lemma BinEdgeInRange(lo: real, hi: real, nBins: nat, j: nat)
    requires lo <= hi && 0 < nBins && j <= nBins
    ensures lo <= BinEdge(lo, hi, nBins, j) <= hi
  {
    ScaledFraction(hi - lo, j, nBins);
  }

  /** With lo <= hi the bin boundaries do not decrease. */
  lemma BinEdgeMonotone(lo: real, hi: real, nBins: nat, i: nat, j: nat)
    requires lo <= hi && 0 < nBins && i <= j
    ensures BinEdge(lo, hi, nBins, i) <= BinEdge(lo, hi, nBins, j)
  {
    ScaledMonotone(hi - lo, i, j, nBins);
  }

  /** With lo <= hi every interior edge lies in [lo, hi], and the edges do not decrease. */
  lemma InteriorEdgesInRange(lo: real, hi: real, nBins: nat)
    requires lo <= hi
    ensures forall j :: 0 <= j < |InteriorEdges(lo, hi, nBins)| ==> lo <= InteriorEdges(lo, hi, nBins)[j] <= hi
    ensures forall i, j :: 0 <= i < j < |InteriorEdges(lo, hi, nBins)| ==>
      InteriorEdges(lo, hi, nBins)[i] <= InteriorEdges(lo, hi, nBins)[j]
  {
    var e := InteriorEdges(lo, hi, nBins);
    forall j | 0 <= j < |e|
      ensures lo <= e[j] <= hi
    {
      BinEdgeInRange(lo, hi, nBins, j + 1);
    }
    forall i, j | 0 <= i < j < |e|
      ensures e[i] <= e[j]
    {
      BinEdgeMonotone(lo, hi, nBins, i + 1, j + 1);
    }
  }

  /** `var_data = X.loc[mask, var]`: the values of the masked samples, in order. */
  function Masked(col: seq<real>, mask: seq<bool>): (r: seq<real>)
    requires |col| == |mask|
    ensures |r| <= |col|
  {
    if |col| == 0 then []
    else
      var p := |col| - 1;
      Masked(col[..p], mask[..p]) + (if mask[p] then [col[p]] else [])
  }

  /** The selection is empty exactly when the mask selects nothing, and holds only selected values. */
  lemma {:induction false} MaskedValues(col: seq<real>, mask: seq<bool>)
    requires |col| == |mask|
    ensures |Masked(col, mask)| > 0 <==> exists i :: 0 <= i < |mask| && mask[i]
    ensures forall v :: v in Masked(col, mask) ==> exists i :: 0 <= i < |mask| && mask[i] && col[i] == v
    ensures forall i :: 0 <= i < |mask| && mask[i] ==> col[i] in Masked(col, mask)
  {
    if |col| > 0 {
      var p := |col| - 1;
      MaskedValues(col[..p], mask[..p]);
      forall i | 0 <= i < |mask| && mask[i]
        ensures col[i] in Masked(col, mask)
      {
        if i < p {
          assert mask[..p][i] && col[..p][i] == col[i];
        }
      }
      if mask[p] {
        assert Masked(col, mask)[|Masked(col, mask)| - 1] == col[p];
      }
      forall v | v in Masked(col, mask)
        ensures exists i :: 0 <= i < |mask| && mask[i] && col[i] == v
      {
        if v in Masked(col[..p], mask[..p]) {
          var i :| 0 <= i < p && mask[..p][i] && col[..p][i] == v;
          assert mask[i] && col[i] == v;
        } else {
          assert mask[p] && col[p] == v;
        }
      }
      if exists i :: 0 <= i < |mask| && mask[i] {
        var i :| 0 <= i < |mask| && mask[i];
        if i < p {
          assert mask[..p][i];
        }
      }
    }
  }

  function Min(s: seq<real>): (m: real)
    requires |s| > 0
    ensures m in s && forall v :: v in s ==> m <= v
  {
    if |s| == 1 then s[0]
    else
      var rest := Min(s[1..]);
      assert forall v :: v in s ==> v == s[0] || v in s[1..];
      if s[0] <= rest then s[0] else rest
  }

  function Max(s: seq<real>): (m: real)
    requires |s| > 0
    ensures m in s && forall v :: v in s ==> v <= m
  {
    if |s| == 1 then s[0]
    else
      var rest := Max(s[1..]);
      assert forall v :: v in s ==> v == s[0] || v in s[1..];
      if s[0] >= rest then s[0] else rest
  }

  /** Every selected sample lies between the minimum and the maximum of the selection, so inside the binned range. */
  lemma MaskedSamplesInRange(col: seq<real>, mask: seq<bool>)
    requires |col| == |mask| && exists i :: 0 <= i < |mask| && mask[i]
    ensures |Masked(col, mask)| > 0
    ensures forall i :: 0 <= i < |mask| && mask[i] ==>
      Min(Masked(col, mask)) <= col[i] <= Max(Masked(col, mask))
  {
    MaskedValues(col, mask);
  }

  /** Every column of the table has one value per sample. */
  ghost predicate WellFormed(x: Frame, n: nat)
  {
    forall c :: c in x ==> |x[c]| == n
  }

  /** The first chosen variable that is not a column of the table. */
  function FirstMissing(x: Frame, names: seq<string>): (r: Option<string>)
    ensures r.None? <==> forall v :: 0 <= v < |names| ==> names[v] in x
    ensures r.Some? ==> exists v :: (0 <= v < |names| && names[v] == r.value && names[v] !in x &&
      forall w :: 0 <= w < v ==> names[w] in x)
  {
    if |names| == 0 then None
    else if names[0] !in x then Some(names[0])
    else FirstMissing(x, names[1..])
  }

  /**
   * The column check of `_compute_bin_indices` as intended: the first chosen variable
   * that is not a column is reported. It is also the KeyError that `X.loc` raises in the
   * loop of `_compute_bin_centers` at the first variable that is not a column.
   */
  function ColumnCheck(x: Frame, names: seq<string>): (r: Option<ReportError>)
    ensures r.None? <==> forall v :: 0 <= v < |names| ==> names[v] in x
    ensures r.Some? ==> (r.value.MissingColumn? &&
      exists v :: 0 <= v < |names| && names[v] == r.value.name && names[v] !in x &&
        forall w :: 0 <= w < v ==> names[w] in x)
  {
    match FirstMissing(x, names)
    case None => None
    case Some(v) => Some(MissingColumn(v))
  }

  /**
   * The column check of `_compute_bin_indices` as written: the assertion message formats a
   * column name with "%i", so for the string names of the table the failing assertion
   * raises a formatting TypeError instead of reporting the variable.
   */
  function ColumnCheckAsWritten(x: Frame, names: seq<string>): (r: Option<ReportError>)
    ensures r.None? <==> forall v :: 0 <= v < |names| ==> names[v] in x
    ensures r.Some? ==> r.value == MessageFormatError
  {
    if FirstMissing(x, names).Some? then Some(MessageFormatError) else None
  }

  /** A missing variable is reported by a message-format error, not by its name. */
  lemma MissingColumnIsNotReported()
    ensures ColumnCheckAsWritten(map["column0" := []], ["column1"]) == Some(MessageFormatError)
    ensures ColumnCheck(map["column0" := []], ["column1"]) == Some(MissingColumn("column1"))
  {
    assert FirstMissing(map["column0" := []], ["column1"]) == Some("column1");
  }

  /** A floating-point result: a number, or NaN. */
  datatype Float = Num(value: real) | NaN

  /** Every value as a number. */
  function Numbers(s: seq<real>): (r: seq<Float>)
    ensures |r| == |s| && forall i :: 0 <= i < |s| ==> r[i] == Num(s[i])
  {
    seq(|s|, i requires 0 <= i < |s| => Num(s[i]))
  }

  /** `numpy.min` of a column selection (pandas `Series.min`): NaN when nothing is selected. */
  function SeriesMin(data: seq<real>): (m: Float)
    ensures m.NaN? <==> |data| == 0
    ensures m.Num? ==> m.value in data && forall v :: v in data ==> m.value <= v
  {
    if |data| == 0 then NaN else Num(Min(data))
  }

  /** `numpy.max` of a column selection (pandas `Series.max`): NaN when nothing is selected. */
  function SeriesMax(data: seq<real>): (m: Float)
    ensures m.NaN? <==> |data| == 0
    ensures m.Num? ==> m.value in data && forall v :: v in data ==> v <= m.value
  {
    if |data| == 0 then NaN else Num(Max(data))
  }

  /** `linspace(lo, hi, n_bins + 1)[1:-1]` on possibly-NaN ends: a NaN end makes every point NaN. */
  function EdgesOf(lo: Float, hi: Float, nBins: nat): (e: seq<Float>)
    ensures |e| == if nBins == 0 then 0 else nBins - 1
  {
    if lo.Num? && hi.Num? then Numbers(InteriorEdges(lo.value, hi.value, nBins))
    else seq(if nBins == 0 then 0 else nBins - 1, j => NaN)
  }

  /** `linspace(lo, hi, 2 * n_bins + 1)[1::2]` on possibly-NaN ends. */
  function CentresOf(lo: Float, hi: Float, nBins: nat): (c: seq<Float>)
    ensures |c| == nBins
  {
    if lo.Num? && hi.Num? then Numbers(Centres(lo.value, hi.value, nBins))
    else seq(nBins, j => NaN)
  }

  /** The interior edges of one variable's masked range. */
  function VariableEdges(x: Frame, n: nat, name: string, bits: seq<bool>, nBins: nat): (e: seq<Float>)
    requires WellFormed(x, n) && |bits| == n && name in x
    ensures |e| == if nBins == 0 then 0 else nBins - 1
  {
    var data := Masked(x[name], bits);
    EdgesOf(SeriesMin(data), SeriesMax(data), nBins)
  }

  /** The centres of one variable's masked range. */
  function VariableCentres(x: Frame, n: nat, name: string, bits: seq<bool>, nBins: nat): (c: seq<Float>)
    requires WellFormed(x, n) && |bits| == n && name in x
    ensures |c| == nBins
  {
    var data := Masked(x[name], bits);
    CentresOf(SeriesMin(data), SeriesMax(data), nBins)
  }

  /**
   * A mask that selects no sample gives NaN edges. Otherwise every edge is a number inside
   * the range of the selected samples, the edges do not decrease, and every selected sample
   * lies in that range too.
   */
  lemma VariableEdgesOfSelection(x: Frame, n: nat, name: string, bits: seq<bool>, nBins: nat)
    requires WellFormed(x, n) && |bits| == n && name in x
    ensures (forall i :: 0 <= i < n ==> !bits[i]) ==>
      forall j :: 0 <= j < |VariableEdges(x, n, name, bits, nBins)| ==> VariableEdges(x, n, name, bits, nBins)[j] == NaN
    ensures (exists i :: 0 <= i < n && bits[i]) ==>
      var data := Masked(x[name], bits);
      var e := VariableEdges(x, n, name, bits, nBins);
      |data| > 0 &&
      (forall j :: 0 <= j < |e| ==> e[j].Num? && Min(data) <= e[j].value <= Max(data)) &&
      (forall i, j :: 0 <= i < j < |e| ==> e[i].value <= e[j].value) &&
      (forall i :: 0 <= i < n && bits[i] ==> Min(data) <= x[name][i] <= Max(data))
  {
    MaskedValues(x[name], bits);
    var data := Masked(x[name], bits);
    if |data| > 0 {
      InteriorEdgesInRange(Min(data), Max(data), nBins);
      MaskedSamplesInRange(x[name], bits);
    }
  }

  /**
   * A mask that selects no sample gives n_bins NaN centres. Otherwise every centre is the
   * number in the middle of its equal-width bin of the range of the selected samples.
   */
  lemma VariableCentresOfSelection(x: Frame, n: nat, name: string, bits: seq<bool>, nBins: nat)
    requires WellFormed(x, n) && |bits| == n && name in x
    ensures (forall i :: 0 <= i < n ==> !bits[i]) ==>
      forall j :: 0 <= j < nBins ==> VariableCentres(x, n, name, bits, nBins)[j] == NaN
    ensures (exists i :: 0 <= i < n && bits[i]) ==>
      var data := Masked(x[name], bits);
      var c := VariableCentres(x, n, name, bits, nBins);
      |data| > 0 &&
      forall j :: 0 <= j < nBins ==>
        c[j] == Num((BinEdge(Min(data), Max(data), nBins, j) + BinEdge(Min(data), Max(data), nBins, j + 1)) / 2.0)
  {
    MaskedValues(x[name], bits);
    var data := Masked(x[name], bits);
    if |data| > 0 {
      CentresAreMidpoints(Min(data), Max(data), nBins);
    }
  }

  /**
   * `_compute_bin_indices` up to the (unmodelled) bin assignment: checks every variable is a
   * column, then the mask, then computes n_bins - 1 interior edges per variable.
   */
  method ComputeBinLimits(x: Frame, n: nat, names: seq<string>, nBins: nat, mask: Option<MaskArg>)
    returns (r: Result<seq<seq<Float>>, ReportError>)
    requires WellFormed(x, n)
    ensures ColumnCheck(x, names).Some? ==> r == Failure(ColumnCheck(x, names).value)
    ensures ColumnCheck(x, names).None? && CheckMask(mask, n).Failure? ==> r == Failure(CheckMask(mask, n).error)
    ensures ColumnCheck(x, names).None? && CheckMask(mask, n).Success? ==>
      r.Success? && |r.value| == |names| &&
      forall v :: 0 <= v < |names| ==>
        names[v] in x && r.value[v] == VariableEdges(x, n, names[v], CheckMask(mask, n).value, nBins)
  {
    var missing := ColumnCheck(x, names);
    if missing.Some? {
      return Failure(missing.value);
    }
    var checked := CheckMask(mask, n);
    if checked.Failure? {
      return Failure(checked.error);
    }
    var limits := EdgesOfVariables(x, n, names, checked.value, nBins);
    return Success(limits);
  }

  /** The loop of `_compute_bin_indices` over the variables, once they are known to be columns. */
  method EdgesOfVariables(x: Frame, n: nat, names: seq<string>, bits: seq<bool>, nBins: nat)
    returns (limits: seq<seq<Float>>)
    requires WellFormed(x, n) && |bits| == n && forall v :: 0 <= v < |names| ==> names[v] in x
    ensures |limits| == |names|
    ensures forall v :: 0 <= v < |names| ==> limits[v] == VariableEdges(x, n, names[v], bits, nBins)
  {
    limits := [];
    var v := 0;
    while v < |names|
      invariant 0 <= v <= |names|
      invariant |limits| == v
      invariant forall w :: 0 <= w < v ==> limits[w] == VariableEdges(x, n, names[w], bits, nBins)
    {
      var data := Masked(x[names[v]], bits);
      limits := limits + [EdgesOf(SeriesMin(data), SeriesMax(data), nBins)];
      v := v + 1;
    }
  }

  /** `_compute_bin_centers`: checks the mask, then computes exactly n_bins centres per variable. */
  method ComputeBinCenters(x: Frame, n: nat, names: seq<string>, nBins: nat, mask: Option<MaskArg>)
    returns (r: Result<seq<seq<Float>>, ReportError>)
    requires WellFormed(x, n)
    ensures CheckMask(mask, n).Failure? ==> r == Failure(CheckMask(mask, n).error)
    ensures CheckMask(mask, n).Success? && ColumnCheck(x, names).Some? ==> r == Failure(ColumnCheck(x, names).value)
    ensures CheckMask(mask, n).Success? && ColumnCheck(x, names).None? ==>
      r.Success? && |r.value| == |names| &&
      forall v :: 0 <= v < |names| ==>
        names[v] in x && |r.value[v]| == nBins && r.value[v] == VariableCentres(x, n, names[v], CheckMask(mask, n).value, nBins)
  {
    var checked := CheckMask(mask, n);
    if checked.Failure? {
      return Failure(checked.error);
    }
    r := CentresOfVariables(x, n, names, checked.value, nBins);
  }

  /** The loop of `_compute_bin_centers` over the variables, for a checked mask. */
  method CentresOfVariables(x: Frame, n: nat, names: seq<string>, bits: seq<bool>, nBins: nat)
    returns (r: Result<seq<seq<Float>>, ReportError>)
    requires WellFormed(x, n) && |bits| == n
    ensures ColumnCheck(x, names).Some? ==> r == Failure(ColumnCheck(x, names).value)
    ensures ColumnCheck(x, names).None? ==>
      r.Success? && |r.value| == |names| &&
      forall v :: 0 <= v < |names| ==> names[v] in x && r.value[v] == VariableCentres(x, n, names[v], bits, nBins)
  {
    var centres: seq<seq<Float>> := [];
    var v := 0;
    while v < |names|
      invariant 0 <= v <= |names|
      invariant |centres| == v
      invariant forall w :: 0 <= w < v ==> names[w] in x
      invariant forall w :: 0 <= w < v ==> centres[w] == VariableCentres(x, n, names[w], bits, nBins)
    {
      if names[v] !in x {
        return Failure(MissingColumn(names[v]));
      }
      var data := Masked(x[names[v]], bits);
      centres := centres + [CentresOf(SeriesMin(data), SeriesMax(data), nBins)];
      v := v + 1;
    }
    return Success(centres);
  }

  function Pow(b: nat, e: nat): nat
  {
    if e == 0 then 1 else b * Pow(b, e - 1)
  }

  /** One and two variables give n_bins and n_bins squared bins. */
  lemma PowOneTwo(b: nat)
    ensures Pow(b, 1) == b && Pow(b, 2) == b * b
  {
    assert Pow(b, 1) == b * Pow(b, 0) == b * 1;
    assert Pow(b, 2) == b * Pow(b, 1);
  }

  /** The samples whose label is `wanted` (`self.y == label`). */
  function LabelMask(y: seq<int>, wanted: int): (m: seq<bool>)
    ensures |m| == |y| && forall i :: 0 <= i < |y| ==> (m[i] <==> y[i] == wanted)
  {
    seq(|y|, i requires 0 <= i < |y| => y[i] == wanted)
  }

  /**
   * The shape part of `efficiency`: only one or two variables are accepted; the bins are
   * those of the samples with the given label, and there are n_bins ** d of them.
   */
  method EfficiencyBins(x: Frame, y: seq<int>, names: seq<string>, nBins: nat, classLabel: int)
    returns (r: Result<(seq<seq<Float>>, nat), ReportError>)
    requires WellFormed(x, |y|)
    ensures !(|names| == 1 || |names| == 2) ==> r == Failure(UnsupportedDimension(|names|))
    ensures (|names| == 1 || |names| == 2) && ColumnCheck(x, names).Some? ==>
      r == Failure(ColumnCheck(x, names).value)
    ensures (|names| == 1 || |names| == 2) && ColumnCheck(x, names).None? ==> r.Success?
    ensures r.Success? ==> (|names| == 1 || |names| == 2) && |r.value.0| == |names|
    ensures r.Success? ==>
      forall v :: 0 <= v < |names| ==>
        names[v] in x && r.value.0[v] == VariableEdges(x, |y|, names[v], LabelMask(y, classLabel), nBins)
    ensures r.Success? ==> r.value.1 == Pow(nBins, |names|) == if |names| == 1 then nBins else nBins * nBins
  {
    if !(|names| == 1 || |names| == 2) {
      return Failure(UnsupportedDimension(|names|));
    }
    var mask := LabelMask(y, classLabel);
    assert CheckMask(Some(BoolMask(mask)), |y|) == Success(mask);
    var limits := ComputeBinLimits(x, |y|, names, nBins, Some(BoolMask(mask)));
    if limits.Failure? {
      return Failure(limits.error);
    }
    PowOneTwo(nBins);
    return Success((limits.value, Pow(nBins, |names|)));
  }

  /** A label that no sample carries still gives edges for every variable, all of them NaN. */
  lemma UnseenLabelGivesNaNEdges(x: Frame, y: seq<int>, name: string, nBins: nat, classLabel: int)
    requires WellFormed(x, |y|) && name in x && forall i :: 0 <= i < |y| ==> y[i] != classLabel
    ensures forall j :: 0 <= j < |VariableEdges(x, |y|, name, LabelMask(y, classLabel), nBins)| ==>
      VariableEdges(x, |y|, name, LabelMask(y, classLabel), nBins)[j] == NaN
  {
    VariableEdgesOfSelection(x, |y|, name, LabelMask(y, classLabel), nBins);
  }
}
