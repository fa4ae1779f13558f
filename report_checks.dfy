/**
 * Argument normalisers of the evaluation reports
 * (IPythonWorkflow/reports.py, Predictions._check_efficiencies and Predictions._check_mask).
 */
module ReportChecks {
  import opened Outcomes

  /** A feature table: column name to column values, every column one value per sample. */
  type Frame = map<string, seq<real>>

  /** A mask argument: a boolean array, or an array of some other element type with its length. */
  datatype MaskArg = BoolMask(bits: seq<bool>) | OtherMask(length: nat)

  datatype ReportError =
    | WrongMaskSize            // AssertionError 'wrong size of mask'
    | MaskNotBoolean           // AssertionError 'the mask should be boolean'
    | MissingColumn(name: string)  // a chosen variable that is not a column
    | MessageFormatError       // TypeError raised while formatting an assertion message
    | UnsupportedDimension(d: nat)   // ValueError for more than two (or no) variables

  function MaskLength(m: MaskArg): nat
  {
    match m
    case BoolMask(bits) => |bits|
    case OtherMask(length) => length
  }

  /** The target efficiencies used when none are given, or the given ones. */
  function CheckEfficiencies(efficiencies: Option<seq<real>>): (r: seq<real>)
    ensures efficiencies.Some? ==> r == efficiencies.value
    ensures efficiencies.None? ==> r == [0.6, 0.7, 0.8, 0.9]
    ensures efficiencies.None? ==>
      (forall i :: 0 <= i < |r| ==> 0.0 < r[i] < 1.0) && (forall i, j :: 0 <= i < j < |r| ==> r[i] < r[j])
  {
    match efficiencies
    case None => [0.6, 0.7, 0.8, 0.9]
    case Some(e) => e
  }

  /**
   * The mask used for `n` samples: all true when none is given; otherwise the given
   * mask, after checking first its length and then its element type.
   */
  function CheckMask(mask: Option<MaskArg>, n: nat): (r: Result<seq<bool>, ReportError>)
    ensures mask.None? ==> r.Success? && |r.value| == n && forall i :: 0 <= i < n ==> r.value[i]
    ensures mask.Some? && MaskLength(mask.value) != n ==> r == Failure(WrongMaskSize)
    ensures mask.Some? && MaskLength(mask.value) == n && mask.value.OtherMask? ==> r == Failure(MaskNotBoolean)
    ensures mask.Some? && MaskLength(mask.value) == n && mask.value.BoolMask? ==> r == Success(mask.value.bits)
    ensures r.Success? ==> |r.value| == n
  {
    match mask
    case None => Success(seq(n, i => true))
    case Some(m) =>
      if MaskLength(m) != n then Failure(WrongMaskSize)
      else if m.OtherMask? then Failure(MaskNotBoolean)
      else Success(m.bits)
  }
}
