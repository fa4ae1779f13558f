/**
 * Coefficient matrices of the kNN uniformity losses
 * (IPythonWorkflow/uniformgradientboosting.py, lines 106-131).
 *
 * Both builders start from an all-zero count matrix with one column per training
 * sample and increment entries in place inside nested loops over samples i and
 * neighbour slots j:
 *  - Simple: N x N, entry (i, knn[i, j]) is incremented;
 *  - Pairwise: (N*k) x N, row i*k + j gets +1 at column i and +1 at column knn[i, j].
 */
module CoefficientMatrices {
  import opened NeighbourGroups

  /** Number of positions of `s` that hold `c`. */
  function Occurrences(s: seq<nat>, c: nat): (r: nat)
    ensures r <= |s|
  {
    if |s| == 0 then 0 else Occurrences(s[..|s| - 1], c) + (if s[|s| - 1] == c then 1 else 0)
  }

  /** Sum of the entries of a row. */
  function Sum(s: seq<nat>): nat
  {
    if |s| == 0 then 0 else Sum(s[..|s| - 1]) + s[|s| - 1]
  }

  function Indicator(b: bool): nat
  {
    if b then 1 else 0
  }

  /** Entry at column `c` of the Pairwise row coupling sample `i` with neighbour `x`. */
  function PairEntry(i: nat, x: nat, c: nat): nat
  {
    Indicator(c == i) + Indicator(c == x)
  }

  /** Row of the Simple matrix for a sample with neighbours `neighbours`: column c counts c among them. */
  function SimpleRow(neighbours: seq<nat>, n: nat): seq<nat>
  {
    seq(n, c requires 0 <= c < n => Occurrences(neighbours, c))
  }

  /** Row of the Pairwise matrix coupling sample `i` with its neighbour `x`. */
  function PairwiseRow(i: nat, x: nat, n: nat): seq<nat>
  {
    seq(n, c requires 0 <= c < n => PairEntry(i, x, c))
  }

  /**
   * The row of the Pairwise matrix that belongs to sample `i` and neighbour slot `j`,
   * `i * k + j` (PairRowIsProduct), written recursively so that the solver does not
   * have to reason about the product.
   */
  function PairRow(i: nat, j: nat, k: nat): nat
  {
    if i == 0 then j else PairRow(i - 1, j, k) + k
  }

  lemma {:induction false} PairRowIsProduct(i: nat, j: nat, k: nat)
    ensures PairRow(i, j, k) == i * k + j
  {
    if i > 0 {
      PairRowIsProduct(i - 1, j, k);
    }
  }

  lemma {:induction false} PairRowShift(i: nat, j: nat, k: nat)
    ensures PairRow(i, j, k) == PairRow(i, 0, k) + j
  {
    if i > 0 {
      PairRowShift(i - 1, j, k);
    }
  }

  /** Rows of later samples come after all rows of sample `i`. */
  lemma {:induction false} PairRowBelow(i: nat, j: nat, k: nat, n: nat)
    requires i < n && j < k
    ensures PairRow(i, j, k) < PairRow(i + 1, 0, k) <= PairRow(n, 0, k)
  {
    PairRowShift(i, j, k);
    if n > i + 1 {
      PairRowBelow(i, j, k, n - 1);
    }
  }

  /** Row r < n*k is row PairRow(r / k, r % k, k). */
  lemma PairRowAt(r: nat, n: nat, k: nat) returns (i: nat, j: nat)
    requires r < n * k
    ensures i < n && j < k && PairRow(i, j, k) == r
  {
    i, j := r / k, r % k;
    PairRowIsProduct(i, j, k);
  }

  /** Distinct (sample, slot) pairs get distinct Pairwise rows. */
  lemma {:induction false} PairRowInjective(i: nat, j: nat, i2: nat, j2: nat, k: nat)
    requires j < k && j2 < k && PairRow(i, j, k) == PairRow(i2, j2, k)
    ensures i == i2 && j == j2
  {
    if i > 0 && i2 > 0 {
      PairRowInjective(i - 1, j, i2 - 1, j2, k);
    }
  }

  /** The Pairwise rows cover the matrix: every row r < n*k is row PairRow(i, j, k) of exactly one sample i and slot j. */
  lemma PairRowCovers(r: nat, n: nat, k: nat) returns (i: nat, j: nat)
    requires r < n * k
    ensures i < n && j < k && PairRow(i, j, k) == r
    ensures forall i2: nat, j2: nat :: j2 < k && PairRow(i2, j2, k) == r ==> i2 == i && j2 == j
  {
    i, j := PairRowAt(r, n, k);
    forall i2: nat, j2: nat | j2 < k && PairRow(i2, j2, k) == r
      ensures i2 == i && j2 == j
    {
      PairRowInjective(i, j, i2, j2, k);
    }
  }

  /** Adding one to a single entry adds one to the sum. */
  lemma {:induction false} SumIncrement(s: seq<nat>, x: nat)
    requires x < |s|
    ensures Sum(s[x := s[x] + 1]) == Sum(s) + 1
  {
    var t := s[x := s[x] + 1];
    var p := |s| - 1;
    if x == p {
      assert t[..p] == s[..p];
    } else {
      assert t[..p] == s[..p][x := s[x] + 1];
      SumIncrement(s[..p], x);
    }
  }

  lemma {:induction false} SumZeros(n: nat)
    ensures Sum(seq(n, c => 0)) == 0
  {
    if n > 0 {
      assert seq(n, c => 0)[..n - 1] == seq(n - 1, c => 0);
      SumZeros(n - 1);
    }
  }

  /**
   * Every row of the Simple matrix sums to the number of neighbours k: each neighbour
   * slot contributes exactly one count, repeated neighbours being counted with multiplicity.
   */
  lemma {:induction false} SimpleRowSum(neighbours: seq<nat>, n: nat)
    requires forall j :: 0 <= j < |neighbours| ==> neighbours[j] < n
    ensures Sum(SimpleRow(neighbours, n)) == |neighbours|
  {
    if |neighbours| == 0 {
      assert SimpleRow(neighbours, n) == seq(n, c => 0);
      SumZeros(n);
    } else {
      var p := |neighbours| - 1;
      var prefix, x := neighbours[..p], neighbours[p];
      var before := SimpleRow(prefix, n);
      assert forall c :: 0 <= c < n ==> Occurrences(neighbours, c) == Occurrences(prefix, c) + Indicator(x == c);
      assert SimpleRow(neighbours, n) == before[x := before[x] + 1];
      SimpleRowSum(prefix, n);
      SumIncrement(before, x);
    }
  }

  /** Every row of the Pairwise matrix sums to 2, also when the neighbour is the sample itself. */
  lemma PairwiseRowSum(i: nat, x: nat, n: nat)
    requires i < n && x < n
    ensures Sum(PairwiseRow(i, x, n)) == 2
  {
    var zeros: seq<nat> := seq(n, c => 0);
    var once := zeros[i := 1];
    SumZeros(n);
    SumIncrement(zeros, i);
    SumIncrement(once, x);
    assert PairwiseRow(i, x, n) == once[x := once[x] + 1];
  }

  /** Every neighbour index is a valid sample index. */
  ghost predicate ValidNeighbours(knn: array2<nat>)
    reads knn
  {
    forall i, j :: 0 <= i < knn.Length0 && 0 <= j < knn.Length1 ==> knn[i, j] < knn.Length0
  }

  /**
   * SimpleKnnLossFunction's matrix: N x N, row i counts sample i's neighbours,
   * a neighbour listed twice being counted twice.
   */
  method BuildSimple(knn: array2<nat>) returns (m: array2<nat>)
    requires ValidNeighbours(knn)
    ensures fresh(m)
    ensures m.Length0 == knn.Length0 && m.Length1 == knn.Length0
    ensures forall i :: 0 <= i < m.Length0 ==> RowAt(m, i) == SimpleRow(RowAt(knn, i), knn.Length0)
  {
    var n, k := knn.Length0, knn.Length1;
    m := new nat[n, n]((r, c) => 0);
    var i := 0;
    while i < n
      invariant 0 <= i <= n
      invariant forall r, c :: 0 <= r < i && 0 <= c < n ==> m[r, c] == Occurrences(RowAt(knn, r), c)
      invariant forall r, c :: i <= r < n && 0 <= c < n ==> m[r, c] == 0
    {
      ghost var row := RowAt(knn, i);
      var j := 0;
      while j < k
        invariant 0 <= j <= k
        invariant forall r, c :: 0 <= r < i && 0 <= c < n ==> m[r, c] == Occurrences(RowAt(knn, r), c)
        invariant forall r, c :: i < r < n && 0 <= c < n ==> m[r, c] == 0
        invariant forall c :: 0 <= c < n ==> m[i, c] == Occurrences(row[..j], c)
      {
        assert row[..j + 1][..j] == row[..j];
        m[i, knn[i, j]] := m[i, knn[i, j]] + 1;
        j := j + 1;
      }
      assert row[..k] == row;
      i := i + 1;
    }
    forall r | 0 <= r < n
      ensures RowAt(m, r) == SimpleRow(RowAt(knn, r), n)
    {
    }
  }

  /**
   * PairwiseKnnLossFunction's matrix: (N*k) x N, row i*k + j has a 1 at column i and a 1
   * at column knn[i, j] (a single 2 when they coincide).
   */
  method BuildPairwise(knn: array2<nat>) returns (m: array2<nat>)
    requires ValidNeighbours(knn)
    ensures fresh(m)
    ensures m.Length0 == knn.Length0 * knn.Length1 && m.Length1 == knn.Length0
    ensures forall i, j :: 0 <= i < knn.Length0 && 0 <= j < knn.Length1 ==>
      PairRow(i, j, knn.Length1) < m.Length0 &&
      RowAt(m, PairRow(i, j, knn.Length1)) == PairwiseRow(i, knn[i, j], knn.Length0)
  {
    var n, k := knn.Length0, knn.Length1;
    PairRowIsProduct(n, 0, k);
    m := new nat[n * k, n]((r, c) => 0);
    var i := 0;
    while i < n
      invariant 0 <= i <= n
      invariant PairRow(i, 0, k) <= m.Length0
      invariant forall a, b :: 0 <= a < i && 0 <= b < k ==> PairRow(a, b, k) < PairRow(i, 0, k)
      invariant forall a, b, c :: 0 <= a < i && 0 <= b < k && 0 <= c < n ==>
        m[PairRow(a, b, k), c] == PairEntry(a, knn[a, b], c)
      invariant forall r, c :: PairRow(i, 0, k) <= r < m.Length0 && 0 <= c < n ==> m[r, c] == 0
    {
      if k > 0 {
        PairRowBelow(i, 0, k, n);
      } else {
        PairRowShift(i + 1, 0, k);
        PairRowBelow(i, 0, 1, n);
      }
      AddPairRows(knn, m, i);
      i := i + 1;
    }
    forall a, b | 0 <= a < n && 0 <= b < k
      ensures PairRow(a, b, k) < m.Length0 && RowAt(m, PairRow(a, b, k)) == PairwiseRow(a, knn[a, b], n)
    {
      var r := PairRow(a, b, k);
      assert forall c :: 0 <= c < n ==> RowAt(m, r)[c] == PairwiseRow(a, knn[a, b], n)[c];
    }
  }

  /** The inner loop of the Pairwise builder: fills the k rows of sample `i`, which start all zero. */
  method AddPairRows(knn: array2<nat>, m: array2<nat>, i: nat)
    requires ValidNeighbours(knn) && knn != m
    requires i < knn.Length0 && m.Length1 == knn.Length0
    requires PairRow(i + 1, 0, knn.Length1) <= m.Length0
    requires forall r, c :: PairRow(i, 0, knn.Length1) <= r < m.Length0 && 0 <= c < m.Length1 ==> m[r, c] == 0
    modifies m
    ensures forall b :: 0 <= b <= knn.Length1 ==> PairRow(i, b, knn.Length1) == PairRow(i, 0, knn.Length1) + b
    ensures forall b, c :: 0 <= b < knn.Length1 && 0 <= c < m.Length1 ==>
      m[PairRow(i, b, knn.Length1), c] == PairEntry(i, knn[i, b], c)
    ensures forall r, c :: 0 <= r < PairRow(i, 0, knn.Length1) && 0 <= c < m.Length1 ==> m[r, c] == old(m[r, c])
    ensures forall r, c :: PairRow(i + 1, 0, knn.Length1) <= r < m.Length0 && 0 <= c < m.Length1 ==> m[r, c] == 0
  {
    var n, k := knn.Length0, knn.Length1;
    var j, row := 0, PairRow(i, 0, k);
    forall b | 0 <= b <= k
      ensures PairRow(i, b, k) == PairRow(i, 0, k) + b
    {
      PairRowShift(i, b, k);
    }
    while j < k
      invariant 0 <= j <= k
      invariant row == PairRow(i, j, k) == PairRow(i, 0, k) + j <= m.Length0
      invariant forall b, c :: 0 <= b < j && 0 <= c < n ==> m[PairRow(i, b, k), c] == PairEntry(i, knn[i, b], c)
      invariant forall r, c :: 0 <= r < PairRow(i, 0, k) && 0 <= c < n ==> m[r, c] == old(m[r, c])
      invariant forall r, c :: row <= r < m.Length0 && 0 <= c < n ==> m[r, c] == 0
    {
      PairRowBelow(i, j, k, knn.Length0);
      var x := knn[i, j];
      m[row, i] := m[row, i] + 1;
      m[row, x] := m[row, x] + 1;
      assert forall c :: 0 <= c < n ==> m[row, c] == PairEntry(i, x, c);
      row := row + 1;
      j := j + 1;
    }
  }
}
