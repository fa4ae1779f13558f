/**
 * Neighbour tables of the kNN uniformity losses
 * (IPythonWorkflow/uniformgradientboosting.py, PairwiseKnnLossFunction and SimpleKnnLossFunction).
 *
 * A table has one row per training sample holding the indices of its k nearest
 * neighbours. Two tables come from the (unmodelled) neighbour search: neighbours
 * among signal samples and neighbours among background samples. For every signal
 * sample the background row is overwritten, in place, by the signal row.
 */
module NeighbourGroups {

  /** Row `r` of a two-dimensional table, as a sequence. */
  function RowAt(a: array2<nat>, r: nat): (row: seq<nat>)
    requires r < a.Length0
    reads a
  {
    seq(a.Length1, (c: int) requires 0 <= c < a.Length1 reads a => a[r, c])
  }

  /** The whole table as a sequence of rows. */
  function Table(a: array2<nat>): (t: seq<seq<nat>>)
    reads a
  {
    seq(a.Length0, (r: int) requires 0 <= r < a.Length0 reads a => RowAt(a, r))
  }

  /** `is_signal = trainY > 0.5`, for integer labels. */
  function IsSignal(y: seq<int>): (isSignal: seq<bool>)
    ensures |isSignal| == |y|
    ensures forall i :: 0 <= i < |y| ==> (isSignal[i] <==> y[i] >= 1)
  {
    seq(|y|, i requires 0 <= i < |y| => 2 * y[i] > 1)
  }

  /** The neighbour table after the override: signal rows come from `signal`, the others from `background`. */
  function Overridden(background: seq<seq<nat>>, signal: seq<seq<nat>>, isSignal: seq<bool>): (t: seq<seq<nat>>)
    requires |background| == |signal| == |isSignal|
  {
    seq(|background|, i requires 0 <= i < |background| => if isSignal[i] then signal[i] else background[i])
  }

  /** Every neighbour listed in row `i` of `t` is a sample whose label is `side`. */
  ghost predicate NeighboursLabelled(t: seq<seq<nat>>, i: nat, isSignal: seq<bool>, side: bool)
    requires i < |t|
  {
    forall j :: 0 <= j < |t[i]| ==> t[i][j] < |isSignal| && isSignal[t[i][j]] == side
  }

  /**
   * `knn_bg[is_signal, :] = knn_signal[is_signal, :]`: copies the signal-neighbour row
   * over the background-neighbour row of every signal sample; background rows are unchanged.
   */
  method OverrideSignalRows(knnBg: array2<nat>, knnSignal: array2<nat>, isSignal: seq<bool>)
    requires knnBg != knnSignal
    requires knnBg.Length0 == knnSignal.Length0 == |isSignal|
    requires knnBg.Length1 == knnSignal.Length1
    modifies knnBg
    ensures Table(knnBg) == Overridden(old(Table(knnBg)), Table(knnSignal), isSignal)
  {
    ghost var before := Table(knnBg);
    var i := 0;
    while i < knnBg.Length0
      invariant 0 <= i <= knnBg.Length0
      invariant forall r, c :: 0 <= r < i && 0 <= c < knnBg.Length1 ==>
        knnBg[r, c] == if isSignal[r] then knnSignal[r, c] else before[r][c]
      invariant forall r, c :: i <= r < knnBg.Length0 && 0 <= c < knnBg.Length1 ==> knnBg[r, c] == before[r][c]
    {
      if isSignal[i] {
        var j := 0;
        while j < knnBg.Length1
          invariant 0 <= j <= knnBg.Length1
          invariant forall r, c :: 0 <= r < i && 0 <= c < knnBg.Length1 ==>
            knnBg[r, c] == if isSignal[r] then knnSignal[r, c] else before[r][c]
          invariant forall c :: 0 <= c < j ==> knnBg[i, c] == knnSignal[i, c]
          invariant forall r, c :: (i < r < knnBg.Length0 || (r == i && j <= c)) && 0 <= c < knnBg.Length1 ==>
            knnBg[r, c] == before[r][c]
        {
          knnBg[i, j] := knnSignal[i, j];
          j := j + 1;
        }
      }
      i := i + 1;
    }
    assert forall r | 0 <= r < knnBg.Length0 ::
      RowAt(knnBg, r) == if isSignal[r] then RowAt(knnSignal, r) else before[r];
  }

  /**
   * Label purity of the neighbour groups: when the signal search returns only signal
   * samples and the background search only background samples, every sample ends up
   * with neighbours of its own label.
   */
  lemma LabelPurity(background: seq<seq<nat>>, signal: seq<seq<nat>>, isSignal: seq<bool>)
    requires |background| == |signal| == |isSignal|
    requires forall i :: 0 <= i < |signal| ==> NeighboursLabelled(signal, i, isSignal, true)
    requires forall i :: 0 <= i < |background| ==> NeighboursLabelled(background, i, isSignal, false)
    ensures forall i :: 0 <= i < |isSignal| ==>
      NeighboursLabelled(Overridden(background, signal, isSignal), i, isSignal, isSignal[i])
  {
    var t := Overridden(background, signal, isSignal);
    forall i | 0 <= i < |isSignal|
      ensures NeighboursLabelled(t, i, isSignal, isSignal[i])
    {
      if isSignal[i] {
        assert NeighboursLabelled(signal, i, isSignal, true);
      } else {
        assert NeighboursLabelled(background, i, isSignal, false);
      }
    }
  }
}
