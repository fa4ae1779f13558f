/**
 * The prediction store of the evaluation reports (IPythonWorkflow/reports.py, class
 * Predictions): the final and staged class-probability predictions of several named
 * classifiers on one test set, and the mappers that select stages and apply a metric to them.
 *
 * A classifier is represented by what it would predict on the test set: its final
 * probabilities and, when it supports staged prediction, the sequence of per-stage
 * probabilities. An ordered dictionary is a sequence of (name, value) pairs.
 */
module PredictionStore {
  import opened Outcomes
  import opened ReportChecks

  /** Class probabilities, one row per sample. */
  type Proba = seq<seq<real>>

  /** A trained classifier seen through its predictions: `staged` is None when it has no staged prediction. */
  datatype Classifier = Classifier(proba: Proba, staged: Option<seq<Proba>>)

  /** An ordered dictionary keyed by classifier name. */
  type Entries<V> = seq<(string, V)>

  /** The index of a pandas Series built by the mappers: "result" or a stage number. */
  datatype StageKey = ResultKey | Stage(index: nat)

  type Series<V> = seq<(StageKey, V)>

  datatype StoreError =
    | EmptyStaged(name: string)    // `[-1]` of an empty staged list (IndexError)
    | NonPositiveStep(step: int)   // islice with a step below 1 (ValueError)

  function Names<V>(e: Entries<V>): (r: seq<string>)
    ensures |r| == |e| && forall i :: 0 <= i < |e| ==> r[i] == e[i].0
  {
    seq(|e|, i requires 0 <= i < |e| => e[i].0)
  }

  /** The staged predictions of the classifiers that have them, in dictionary order. */
  function StagedEntries(clfs: Entries<Classifier>): Entries<seq<Proba>>
  {
    if |clfs| == 0 then []
    else
      var p := |clfs| - 1;
      StagedEntries(clfs[..p]) +
        (if clfs[p].1.staged.Some? then [(clfs[p].0, clfs[p].1.staged.value)] else [])
  }

  /** A pair is a staged entry exactly when some classifier of that name has those staged predictions. */
  lemma {:induction false} StagedEntriesMembership(clfs: Entries<Classifier>, name: string, st: seq<Proba>)
    ensures (name, st) in StagedEntries(clfs) <==>
      exists i :: 0 <= i < |clfs| && clfs[i].0 == name && clfs[i].1.staged == Some(st)
  {
    if |clfs| > 0 {
      var p := |clfs| - 1;
      StagedEntriesMembership(clfs[..p], name, st);
      if (name, st) in StagedEntries(clfs[..p]) {
        var i :| 0 <= i < p && clfs[..p][i].0 == name && clfs[..p][i].1.staged == Some(st);
        assert clfs[i] == clfs[..p][i];
      }
      if exists i :: 0 <= i < |clfs| && clfs[i].0 == name && clfs[i].1.staged == Some(st) {
        var i :| 0 <= i < |clfs| && clfs[i].0 == name && clfs[i].1.staged == Some(st);
        if i < p {
          assert clfs[..p][i] == clfs[i];
        }
      }
    }
  }

  /** The first classifier, in dictionary order, whose staged predictions are empty. */
  function FirstEmptyStaged(clfs: Entries<Classifier>): (r: Option<string>)
    ensures r.Some? ==> exists i :: 0 <= i < |clfs| && clfs[i].0 == r.value && clfs[i].1.staged == Some([])
  {
    if |clfs| == 0 then None
    else
      var p := |clfs| - 1;
      var before := FirstEmptyStaged(clfs[..p]);
      if before.Some? then
        assert clfs[..p][0] == clfs[0];
        before
      else if clfs[p].1.staged == Some([]) then Some(clfs[p].0)
      else None
  }

  /** No classifier has an empty staged list exactly when the search finds none. */
  lemma {:induction false} FirstEmptyStagedNone(clfs: Entries<Classifier>)
    ensures FirstEmptyStaged(clfs).None? <==> forall i :: 0 <= i < |clfs| ==> clfs[i].1.staged != Some([])
  {
    if |clfs| > 0 {
      var p := |clfs| - 1;
      FirstEmptyStagedNone(clfs[..p]);
      assert forall i :: 0 <= i < p ==> clfs[..p][i] == clfs[i];
    }
  }

  /** A reported name belongs to the first classifier, in order, whose staged list is empty. */
  lemma {:induction false} FirstEmptyStagedFirst(clfs: Entries<Classifier>)
    ensures FirstEmptyStaged(clfs).Some? ==>
      exists i :: 0 <= i < |clfs| && clfs[i].0 == FirstEmptyStaged(clfs).value && clfs[i].1.staged == Some([]) &&
        forall j :: 0 <= j < i ==> clfs[j].1.staged != Some([])
  {
    if |clfs| > 0 {
      var p := |clfs| - 1;
      var prefix := clfs[..p];
      FirstEmptyStagedFirst(prefix);
      if FirstEmptyStaged(prefix).Some? {
        var i :| 0 <= i < p && prefix[i].0 == FirstEmptyStaged(prefix).value && prefix[i].1.staged == Some([]) &&
          forall j :: 0 <= j < i ==> prefix[j].1.staged != Some([]);
        assert forall j :: 0 <= j <= i ==> prefix[j] == clfs[j];
      } else {
        FirstEmptyStagedNone(prefix);
        assert forall j :: 0 <= j < p ==> prefix[j] == clfs[j];
      }
    }
  }

  /** Low-memory mode: every classifier's final probabilities. */
  function LowMemoryPredictions(clfs: Entries<Classifier>): (r: Entries<Proba>)
    ensures Names(r) == Names(clfs)
  {
    seq(|clfs|, i requires 0 <= i < |clfs| => (clfs[i].0, clfs[i].1.proba))
  }

  /** The prediction kept in full mode: the last stage when staged, else the final probabilities. */
  function FullPrediction(c: Classifier): Proba
    requires c.staged != Some([])
  {
    if c.staged.Some? then c.staged.value[|c.staged.value| - 1] else c.proba
  }

  /** Full mode: the last stage of each staged classifier, the final probabilities of the others. */
  function FullPredictions(clfs: Entries<Classifier>): (r: Entries<Proba>)
    requires forall i :: 0 <= i < |clfs| ==> clfs[i].1.staged != Some([])
    ensures Names(r) == Names(clfs)
  {
    seq(|clfs|, i requires 0 <= i < |clfs| => (clfs[i].0, FullPrediction(clfs[i].1)))
  }

  /** When every staged classifier's last stage is its final prediction, both modes keep the same predictions. */
  lemma ModesAgree(clfs: Entries<Classifier>)
    requires forall i :: 0 <= i < |clfs| ==> clfs[i].1.staged != Some([])
    requires forall i :: 0 <= i < |clfs| && clfs[i].1.staged.Some? ==>
      clfs[i].1.staged.value[|clfs[i].1.staged.value| - 1] == clfs[i].1.proba
    ensures FullPredictions(clfs) == LowMemoryPredictions(clfs)
  {
  }

  /** The stages t < |staged| with t in `wanted`, each with its prediction, in stage order. */
  function SelectStages<V>(staged: seq<V>, wanted: set<int>): Series<V>
  {
    if |staged| == 0 then []
    else
      var p := |staged| - 1;
      SelectStages(staged[..p], wanted) + (if p in wanted then [(Stage(p), staged[p])] else [])
  }

  /** Every wanted stage appears, nothing else does, in increasing order, with its own prediction. */
  lemma {:induction false} SelectStagesSpec<V>(staged: seq<V>, wanted: set<int>)
    ensures forall k :: 0 <= k < |SelectStages(staged, wanted)| ==>
      var key := SelectStages(staged, wanted)[k].0;
      key.Stage? && key.index < |staged| && key.index in wanted &&
      SelectStages(staged, wanted)[k].1 == staged[key.index]
    ensures forall k, l :: 0 <= k < l < |SelectStages(staged, wanted)| ==>
      SelectStages(staged, wanted)[k].0.index < SelectStages(staged, wanted)[l].0.index
    ensures forall t: nat :: t < |staged| && t in wanted ==>
      exists k :: 0 <= k < |SelectStages(staged, wanted)| && SelectStages(staged, wanted)[k].0 == Stage(t)
  {
    if |staged| > 0 {
      var p := |staged| - 1;
      SelectStagesSpec(staged[..p], wanted);
      var before := SelectStages(staged[..p], wanted);
      var r := SelectStages(staged, wanted);
      assert r[..|before|] == before;
      forall t: nat | t < |staged| && t in wanted
        ensures exists k :: 0 <= k < |r| && r[k].0 == Stage(t)
      {
        if t < p {
          var k :| 0 <= k < |before| && before[k].0 == Stage(t);
          assert r[k] == before[k];
        } else {
          assert r[|r| - 1].0 == Stage(t);
        }
      }
    }
  }

  /** Applies a metric to every value of a Series, keeping the index. */
  function ApplySeries<V, R>(s: Series<V>, f: V -> R): (r: Series<R>)
    ensures |r| == |s|
    ensures forall k :: 0 <= k < |s| ==> r[k].0 == s[k].0 && r[k].1 == f(s[k].1)
  {
    seq(|s|, k requires 0 <= k < |s| => (s[k].0, f(s[k].1)))
  }

  /** The stages picked by islice(enumerate(staged), step - 1, None, step): every step-th one. */
  function EveryStep<R>(staged: seq<Proba>, f: Proba -> R, step: int): Series<R>
    requires step >= 1
  {
    if |staged| == 0 then []
    else
      var p := |staged| - 1;
      EveryStep(staged[..p], f, step) + (if (p + 1) % step == 0 then [(Stage(p), f(staged[p]))] else [])
  }

  /** Stage t is the last of a block of `step` stages. */
  predicate EndsBlock(t: int, step: int)
  {
    step >= 1 && (t + 1) % step == 0
  }

  /** The stages that islice picks, as a set. */
  function StepStages(n: nat, step: int): (s: set<int>)
    requires step >= 1
    ensures forall t :: t in s <==> 0 <= t < n && (t + 1) % step == 0
  {
    set t | 0 <= t < n && EndsBlock(t, step)
  }

  /** The stages picked are exactly step - 1, 2 * step - 1, ... below n, as `islice(stages, step - 1, None, step)` picks them. */
  lemma StepStagesAreSlice(n: nat, step: int, t: int)
    requires step >= 1
    ensures t in StepStages(n, step) <==> 0 <= t < n && exists k: nat :: t == step - 1 + k * step
  {
    if t in StepStages(n, step) {
      var q := (t + 1) / step;
      assert t + 1 == q * step;
      if q == 0 {
        assert false;
      }
      var k: nat := q - 1;
      assert t == step - 1 + k * step;
    }
    if 0 <= t < n && exists k: nat :: t == step - 1 + k * step {
      var k: nat :| t == step - 1 + k * step;
      DivUnique(t + 1, step, k + 1, 0);
    }
  }

  /** Mapping every step-th stage is mapping the stages selected by the stage mapper for those indices. */
  lemma {:induction false} EveryStepIsSelection<R>(staged: seq<Proba>, f: Proba -> R, step: int)
    requires step >= 1
    ensures EveryStep(staged, f, step) == ApplySeries(SelectStages(staged, StepStages(|staged|, step)), f)
  {
    if |staged| > 0 {
      var p := |staged| - 1;
      EveryStepIsSelection(staged[..p], f, step);
      SelectionIgnoresLaterStages(staged[..p], StepStages(p, step), StepStages(|staged|, step));
    }
  }

  lemma MulAtLeast(k: int, d: int)
    requires k >= 1 && d >= 1
    ensures k * d >= d
  {
    assert k * d == (k - 1) * d + d;
  }

  /** Quotient and remainder are the only q, r with a == q * d + r and 0 <= r < d. */
  lemma DivUnique(a: int, d: int, q: int, r: int)
    requires d >= 1 && 0 <= r < d && a == q * d + r
    ensures a / d == q && a % d == r
  {
    var q0, r0 := a / d, a % d;
    assert (q - q0) * d == r0 - r;
    if q > q0 {
      MulAtLeast(q - q0, d);
    } else if q < q0 {
      MulAtLeast(q0 - q, d);
    }
  }

  /** One more stage adds one block exactly when it closes a block of `step` stages. */
  lemma BlockCountStep(n: nat, step: int)
    requires step >= 1
    ensures (n + 1) / step == n / step + (if (n + 1) % step == 0 then 1 else 0)
  {
    var q, r := n / step, n % step;
    if r + 1 < step {
      DivUnique(n + 1, step, q, r + 1);
    } else {
      assert n + 1 == (q + 1) * step + 0;
      DivUnique(n + 1, step, q + 1, 0);
    }
  }

  /** A classifier with n stages yields n / step mapped stages. */
  lemma {:induction false} EveryStepCount<R>(staged: seq<Proba>, f: Proba -> R, step: int)
    requires step >= 1
    ensures |EveryStep(staged, f, step)| == |staged| / step
  {
    if |staged| > 0 {
      var p := |staged| - 1;
      EveryStepCount(staged[..p], f, step);
      BlockCountStep(p, step);
    }
  }

  /** Only the stages below |staged| of the wanted set matter. */
  lemma {:induction false} SelectionIgnoresLaterStages<V>(staged: seq<V>, a: set<int>, b: set<int>)
    requires forall t :: 0 <= t < |staged| ==> (t in a <==> t in b)
    ensures SelectStages(staged, a) == SelectStages(staged, b)
  {
    if |staged| > 0 {
      var p := |staged| - 1;
      SelectionIgnoresLaterStages(staged[..p], a, b);
    }
  }

  class Predictions {
    /** The test sample: its feature table and its integer labels. */
    const x: Frame
    const y: seq<int>
    /** Final predictions of every classifier, in dictionary order. */
    const predictions: Entries<Proba>
    /** Full mode only: every staged classifier's list of stage predictions. */
    const stagedPredictions: Option<Entries<seq<Proba>>>
    /** Low-memory mode only: the classifiers, asked again for staged predictions on demand. */
    const classifiers: Option<Entries<Classifier>>
    /** The classifiers the store was built from. */
    ghost const source: Entries<Classifier>

    ghost predicate Valid()
      reads this
    {
      (stagedPredictions.None? <==> classifiers.Some?) &&
      (classifiers.Some? ==> classifiers.value == source && predictions == LowMemoryPredictions(source)) &&
      (stagedPredictions.Some? ==>
        (forall i :: 0 <= i < |source| ==> source[i].1.staged != Some([])) &&
        stagedPredictions.value == StagedEntries(source) && predictions == FullPredictions(source))
    }

    constructor(x: Frame, y: seq<int>, predictions: Entries<Proba>, stagedPredictions: Option<Entries<seq<Proba>>>,
                classifiers: Option<Entries<Classifier>>, ghost source: Entries<Classifier>)
      requires stagedPredictions.None? <==> classifiers.Some?
      requires classifiers.Some? ==> classifiers.value == source && predictions == LowMemoryPredictions(source)
      requires stagedPredictions.Some? ==>
        (forall i :: 0 <= i < |source| ==> source[i].1.staged != Some([])) &&
        stagedPredictions.value == StagedEntries(source) && predictions == FullPredictions(source)
      ensures Valid()
      ensures this.x == x && this.y == y && this.predictions == predictions
      ensures this.stagedPredictions == stagedPredictions && this.classifiers == classifiers && this.source == source
    {
      this.x := x;
      this.y := y;
      this.predictions := predictions;
      this.stagedPredictions := stagedPredictions;
      this.classifiers := classifiers;
      this.source := source;
    }

    /**
     * `Predictions.__init__`. Low-memory mode keeps the final predictions and the classifiers;
     * full mode keeps every staged list and the last stage as the prediction, and fails on the
     * first classifier whose staged list is empty.
     */
    static method Build(clfs: Entries<Classifier>, x: Frame, y: seq<int>, lowMemory: bool)
      returns (r: Result<Predictions, StoreError>)
      ensures lowMemory ==> (r.Success? && r.value.predictions == LowMemoryPredictions(clfs) &&
        r.value.stagedPredictions.None? && r.value.classifiers == Some(clfs))
      ensures !lowMemory && FirstEmptyStaged(clfs).Some? ==> r == Failure(EmptyStaged(FirstEmptyStaged(clfs).value))
      ensures !lowMemory && FirstEmptyStaged(clfs).None? ==>
        r.Success? && r.value.stagedPredictions == Some(StagedEntries(clfs)) && r.value.classifiers.None? &&
        (forall i :: 0 <= i < |clfs| ==> clfs[i].1.staged != Some([])) &&
        r.value.predictions == FullPredictions(clfs)
      ensures r.Success? ==> (fresh(r.value) && r.value.Valid() && r.value.source == clfs &&
        r.value.x == x && r.value.y == y)
    {
      if lowMemory {
        var store := new Predictions(x, y, LowMemoryPredictions(clfs), None, Some(clfs), clfs);
        return Success(store);
      }
      var predictions: Entries<Proba> := [];
      var staged: Entries<seq<Proba>> := [];
      var i := 0;
      while i < |clfs|
        invariant 0 <= i <= |clfs|
        invariant FirstEmptyStaged(clfs[..i]).None?
        invariant forall j :: 0 <= j < i ==> clfs[j].1.staged != Some([])
        invariant staged == StagedEntries(clfs[..i])
        invariant predictions == FullPredictions(clfs[..i])
      {
        assert clfs[..i + 1][..i] == clfs[..i];
        var name := clfs[i].0;
        var c := clfs[i].1;
        if c.staged.Some? {
          if |c.staged.value| == 0 {
            FirstEmptyStagedPrefix(clfs, i);
            return Failure(EmptyStaged(name));
          }
          staged := staged + [(name, c.staged.value)];
          predictions := predictions + [(name, c.staged.value[|c.staged.value| - 1])];
        } else {
          predictions := predictions + [(name, c.proba)];
        }
        i := i + 1;
      }
      assert clfs[..i] == clfs;
      var store := new Predictions(x, y, predictions, Some(staged), None, clfs);
      return Success(store);
    }

    /** `_get_staged_proba`: the staged predictions of the classifiers that have them, in order. */
    method GetStagedProba() returns (r: Entries<seq<Proba>>)
      requires Valid()
      ensures r == StagedEntries(source)
    {
      if stagedPredictions.Some? {
        return stagedPredictions.value;
      }
      var clfs := classifiers.value;
      r := [];
      var i := 0;
      while i < |clfs|
        invariant 0 <= i <= |clfs|
        invariant r == StagedEntries(clfs[..i])
      {
        assert clfs[..i + 1][..i] == clfs[..i];
        if clfs[i].1.staged.Some? {
          r := r + [(clfs[i].0, clfs[i].1.staged.value)];
        }
        i := i + 1;
      }
      assert clfs[..i] == clfs;
    }

    /**
     * `_get_stages`: without stages, each final prediction under the key "result"; with
     * stages, each staged classifier's predictions at exactly the listed stages.
     */
    method GetStages(stages: Option<seq<int>>) returns (r: Entries<Series<Proba>>)
      requires Valid()
      ensures stages.None? ==> (|r| == |predictions| &&
        forall i :: 0 <= i < |r| ==> r[i] == (predictions[i].0, [(ResultKey, predictions[i].1)]))
      ensures stages.Some? ==>
        var staged := StagedEntries(source);
        |r| == |staged| &&
        forall i :: 0 <= i < |r| ==>
          r[i] == (staged[i].0, SelectStages(staged[i].1, set t | t in stages.value))
    {
      r := [];
      if stages.None? {
        var i := 0;
        while i < |predictions|
          invariant 0 <= i <= |predictions|
          invariant |r| == i
          invariant forall j :: 0 <= j < i ==> r[j] == (predictions[j].0, [(ResultKey, predictions[j].1)])
        {
          r := r + [(predictions[i].0, [(ResultKey, predictions[i].1)])];
          i := i + 1;
        }
        return;
      }
      var wanted := set t | t in stages.value;
      var staged := GetStagedProba();
      var i := 0;
      while i < |staged|
        invariant 0 <= i <= |staged|
        invariant |r| == i
        invariant forall j :: 0 <= j < i ==> r[j] == (staged[j].0, SelectStages(staged[j].1, wanted))
      {
        var series := CollectStages(staged[i].1, wanted);
        r := r + [(staged[i].0, series)];
        i := i + 1;
      }
    }

    /**
     * `_map_on_staged_proba`: applies the metric to every step-th stage of every staged
     * classifier; a step below 1 is an error as soon as one classifier is staged.
     */
    method MapOnStagedProba<R>(f: Proba -> R, step: int) returns (r: Result<Entries<Series<R>>, StoreError>)
      requires Valid()
      ensures r.Failure? <==> step < 1 && |StagedEntries(source)| > 0
      ensures r.Failure? ==> r.error == NonPositiveStep(step)
      ensures r.Success? ==>
        var staged := StagedEntries(source);
        |r.value| == |staged| &&
        forall i :: 0 <= i < |staged| ==>
          r.value[i].0 == staged[i].0 &&
          (step >= 1 ==> r.value[i].1 == EveryStep(staged[i].1, f, step))
    {
      var staged := GetStagedProba();
      if |staged| > 0 && step < 1 {
        return Failure(NonPositiveStep(step));
      }
      var result: Entries<Series<R>> := [];
      var i := 0;
      while i < |staged|
        invariant 0 <= i <= |staged|
        invariant |result| == i
        invariant forall j :: 0 <= j < i ==> result[j].0 == staged[j].0 && result[j].1 == EveryStep(staged[j].1, f, step)
      {
        var series: Series<R> := [];
        var t := 0;
        while t < |staged[i].1|
          invariant 0 <= t <= |staged[i].1|
          invariant series == EveryStep(staged[i].1[..t], f, step)
        {
          assert staged[i].1[..t + 1][..t] == staged[i].1[..t];
          if (t + 1) % step == 0 {
            series := series + [(Stage(t), f(staged[i].1[t]))];
          }
          t := t + 1;
        }
        assert staged[i].1[..t] == staged[i].1;
        result := result + [(staged[i].0, series)];
        i := i + 1;
      }
      return Success(result);
    }

    /** `_map_on_stages`: applies the metric to every selected stage (or final prediction), keeping names and keys. */
    method MapOnStages<R>(f: Proba -> R, stages: Option<seq<int>>) returns (r: Entries<Series<R>>)
      requires Valid()
      ensures stages.None? ==> (|r| == |predictions| &&
        forall i :: 0 <= i < |r| ==> r[i] == (predictions[i].0, [(ResultKey, f(predictions[i].1))]))
      ensures stages.Some? ==>
        var staged := StagedEntries(source);
        |r| == |staged| &&
        forall i :: 0 <= i < |r| ==>
          r[i] == (staged[i].0, ApplySeries(SelectStages(staged[i].1, set t | t in stages.value), f))
    {
      var selected := GetStages(stages);
      r := [];
      var i := 0;
      while i < |selected|
        invariant 0 <= i <= |selected|
        invariant |r| == i
        invariant forall j :: 0 <= j < i ==> r[j] == (selected[j].0, ApplySeries(selected[j].1, f))
      {
        r := r + [(selected[i].0, ApplySeries(selected[i].1, f))];
        i := i + 1;
      }
      if stages.None? {
        forall i | 0 <= i < |r|
          ensures r[i] == (predictions[i].0, [(ResultKey, f(predictions[i].1))])
        {
          assert ApplySeries(selected[i].1, f) == [(ResultKey, f(predictions[i].1))];
        }
      }
    }
  }

  /** The inner loop of `_get_stages`: walks the stages in order and keeps the wanted ones. */
  method CollectStages(staged: seq<Proba>, wanted: set<int>) returns (series: Series<Proba>)
    ensures series == SelectStages(staged, wanted)
  {
    series := [];
    var t := 0;
    while t < |staged|
      invariant 0 <= t <= |staged|
      invariant series == SelectStages(staged[..t], wanted)
    {
      assert staged[..t + 1][..t] == staged[..t];
      if t in wanted {
        series := series + [(Stage(t), staged[t])];
      }
      t := t + 1;
    }
    assert staged[..t] == staged;
  }

  /** The first empty staged list of a prefix ending at an empty one is found in that prefix. */
  lemma FirstEmptyStagedPrefix(clfs: Entries<Classifier>, i: nat)
    requires i < |clfs| && clfs[i].1.staged == Some([])
    requires FirstEmptyStaged(clfs[..i]).None?
    ensures FirstEmptyStaged(clfs) == Some(clfs[i].0)
  {
    assert clfs[..i + 1][..i] == clfs[..i];
    FirstEmptyStagedExtends(clfs, i + 1);
  }

  /** Once the search finds an empty staged list in a prefix, longer prefixes report the same one. */
  lemma {:induction false} FirstEmptyStagedExtends(clfs: Entries<Classifier>, i: nat)
    requires i <= |clfs| && FirstEmptyStaged(clfs[..i]).Some?
    ensures FirstEmptyStaged(clfs) == FirstEmptyStaged(clfs[..i])
    decreases |clfs| - i
  {
    if i < |clfs| {
      assert clfs[..i + 1][..i] == clfs[..i];
      FirstEmptyStagedExtends(clfs, i + 1);
    } else {
      assert clfs[..i] == clfs;
    }
  }
}
