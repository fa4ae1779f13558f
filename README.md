# kNN-uniform gradient boosting and staged-prediction reports, in Dafny

This project models two parts of the `lhcb_trigger_ml` IPython workflow and proves properties of them.

**The kNN "uniformity" loss plug-in** (`IPythonWorkflow/uniformgradientboosting.py`):
- The neighbour-table override copies the signal-neighbour rows over the background table for signal samples (module `NeighbourGroups`).
- Two builders turn the neighbour table into a count matrix, as in-place increments over a 2-D array (module `CoefficientMatrices`):
  - the Simple builder gives an N×N matrix;
  - the Pairwise builder gives an (N·k)×N matrix.
- `KnnLossFunction` (module `KnnLoss`):
  - its constructor checks the class count and the weights;
  - the loss and the negative gradient check sizes and sign the labels;
  - a per-stage cache of update exponents is written by `update_terminal_regions`;
  - the Newton step per leaf, `α = Σ e·z / (Σ e·z² + 1e-10)`, is written into the tree.
- The ordered guards of `MyGradientBoostingClassifier._check_params` live in module `BoostingParams`.

**The `Predictions` store of the evaluation report** (`IPythonWorkflow/reports.py`):
- construction in low-memory and full mode;
- the staged-prediction accessor, stage selection, and mapping a metric over every step-th stage or over selected stages (module `PredictionStore`);
- the efficiency and mask normalisers (module `ReportChecks`);
- the binning shape rules: masked min/max (NaN for an empty selection), `n_bins − 1` interior edges, `n_bins` centres, and the 1-or-2-variable limit with `n_bins ** d` bins (module `Binning`).

How the source is represented:
- Floating-point values are exact `real`s. Where the binning can produce NaN (the min and max of an empty selection), the result is a `Float`, either `Num(value)` or `NaN`.
- `numpy.exp(-x)` is a parameter `negExp`, assumed positive.
- Neighbour tables and count matrices are `array2<nat>`; their specification views are `seq<seq<nat>>`.
- An ordered dictionary is a sequence of (name, value) pairs.
- A classifier is represented by its final and (optional) staged predictions on the test set.
- Errors the source raises become `Failure` values, or an `Option` error for `_check_params`.

## Model

| member | source | states |
|---|---|---|
| NeighbourGroups.IsSignal | IPythonWorkflow/uniformgradientboosting.py:108 | a sample is signal exactly when its integer label is at least 1 (`y > 0.5`) |
| NeighbourGroups.OverrideSignalRows | IPythonWorkflow/uniformgradientboosting.py:111 | afterwards every signal row of the background table equals the signal-neighbour row, every background row is unchanged, and nothing else changes |
| NeighbourGroups.LabelPurity | IPythonWorkflow/uniformgradientboosting.py:108-111 | if each search returns neighbours of its own label, then after the override every sample's neighbours share that sample's label |
| CoefficientMatrices.PairRowIsProduct | IPythonWorkflow/uniformgradientboosting.py:115 | the pairwise row index of (i, j) is `i * knn + j` |
| CoefficientMatrices.PairRowBelow | IPythonWorkflow/uniformgradientboosting.py:113-115 | the rows of sample i come before those of sample i + 1, and all lie below `N * knn` |
| CoefficientMatrices.PairRowAt | IPythonWorkflow/uniformgradientboosting.py:112-115 | every row below `N * knn` is written for some (i, j) with i < N and j < knn |
| CoefficientMatrices.PairRowInjective | IPythonWorkflow/uniformgradientboosting.py:115 | two (i, j) pairs with j below knn that give the same row are the same pair |
| CoefficientMatrices.PairRowCovers | IPythonWorkflow/uniformgradientboosting.py:112-115 | every row below `N * knn` is written for exactly one (i, j) with i < N and j < knn, and no other pair with j < knn writes it |
| CoefficientMatrices.SumIncrement | IPythonWorkflow/uniformgradientboosting.py:130 | one `+= 1` raises the row sum by exactly one |
| CoefficientMatrices.SimpleRowSum | IPythonWorkflow/uniformgradientboosting.py:128-130 | a Simple row sums to the number of neighbours k, repeated neighbours counted with multiplicity |
| CoefficientMatrices.PairwiseRowSum | IPythonWorkflow/uniformgradientboosting.py:116-117 | a Pairwise row sums to 2: +1 at i and +1 at the neighbour, a single 2 when they coincide |
| CoefficientMatrices.BuildSimple | IPythonWorkflow/uniformgradientboosting.py:127-130 | a fresh N×N matrix whose entry (i, c) is the number of j with `knn[i, j] == c` |
| CoefficientMatrices.BuildPairwise | IPythonWorkflow/uniformgradientboosting.py:112-117 | a fresh (N·knn)×N matrix whose row `i * knn + j` is +1 at column i and +1 at column `knn[i, j]` |
| CoefficientMatrices.AddPairRows | IPythonWorkflow/uniformgradientboosting.py:114-117 | the inner loop for sample i fills its knn rows and leaves the earlier rows unchanged and the later rows zero |
| KnnLoss.TransposeTwice | IPythonWorkflow/uniformgradientboosting.py:67 | the stored transpose has one row per column, and transposing it back gives the matrix |
| KnnLoss.InitialWeights | IPythonWorkflow/uniformgradientboosting.py:62-72 | fails for a class count other than 2, then for supplied weights whose length differs from the row count; otherwise all-ones of the row count, or the supplied weights |
| KnnLoss.SignLabels | IPythonWorkflow/uniformgradientboosting.py:77 | `2y − 1` maps label 1 to +1 and label 0 to −1 |
| KnnLoss.SignLabelsRoundTrip | IPythonWorkflow/uniformgradientboosting.py:77 | `(s + 1) / 2` recovers every label from its signed value |
| KnnLoss.Exponents | IPythonWorkflow/uniformgradientboosting.py:94 | one update exponent per matrix row |
| KnnLoss.ExponentsNonNegative | IPythonWorkflow/uniformgradientboosting.py:94 | with non-negative weights the update exponents are non-negative |
| KnnLoss.LeafVector | IPythonWorkflow/uniformgradientboosting.py:101 | `z` has one entry per matrix row |
| KnnLoss.DotIntBound | IPythonWorkflow/uniformgradientboosting.py:101 | a count row times a vector with entries in [−1, 1] is bounded by the row sum |
| KnnLoss.DotIntVanishes | IPythonWorkflow/uniformgradientboosting.py:101 | a row whose nonzero columns all meet zero entries gives 0 |
| KnnLoss.LeafVectorBounds | IPythonWorkflow/uniformgradientboosting.py:101 | for 0/1 labels each `z_r` lies within ± its row sum and is 0 on rows touching no sample of the leaf |
| KnnLoss.SimpleLeafBound | IPythonWorkflow/uniformgradientboosting.py:101 | for the Simple matrix every `|z_r| <= k` |
| KnnLoss.PairwiseLeafBound | IPythonWorkflow/uniformgradientboosting.py:101 | for the Pairwise matrix every `|z_r| <= 2` |
| KnnLoss.DenominatorPositive | IPythonWorkflow/uniformgradientboosting.py:102 | with non-negative exponents the α denominator is at least 1e-10, so it is positive |
| KnnLoss.AlphaOfUntouchedLeaf | IPythonWorkflow/uniformgradientboosting.py:102 | a leaf whose `z` is all zero gets α = 0 |
| KnnLoss.GradientValue | IPythonWorkflow/uniformgradientboosting.py:85 | the negative gradient has one entry per sample |
| KnnLoss.LossPositive | IPythonWorkflow/uniformgradientboosting.py:78-79 | with positive weights and a non-empty matrix the loss is positive |
| KnnLoss.GradientFollowsLabels | IPythonWorkflow/uniformgradientboosting.py:84-85 | with non-negative weights each negative-gradient entry has the sign of its signed label (or is 0) |
| KnnLoss.KnnLossFunction.constructor | IPythonWorkflow/uniformgradientboosting.py:65-72 | stores the matrix, its transpose and the weights; the exponent cache starts empty |
| KnnLoss.KnnLossFunction.Loss | IPythonWorkflow/uniformgradientboosting.py:74-79 | fails exactly when `len(y) == len(pred) == columns` does not hold; otherwise the weighted sum of exponents |
| KnnLoss.KnnLossFunction.NegativeGradient | IPythonWorkflow/uniformgradientboosting.py:81-86 | fails exactly on the same size mismatch; otherwise the stored transpose gives the transpose-times-exponents gradient, signed by the labels |
| KnnLoss.KnnLossFunction.UpdateTerminalRegion | IPythonWorkflow/uniformgradientboosting.py:97-103 | writes α of the cached exponents and the leaf's `z` into the leaf's tree value, with a positive denominator, and changes no other value |
| KnnLoss.KnnLossFunction.UpdateTerminalRegions | IPythonWorkflow/uniformgradientboosting.py:91-95 | refreshes the cache to this stage's exponents once, then every listed leaf holds its α and every other tree value is unchanged |
| KnnLoss.NewKnnLoss | IPythonWorkflow/uniformgradientboosting.py:61-72 | fails exactly when the class-count or weight-length check fails, before a loss object is returned; otherwise a valid loss with those weights |
| KnnLoss.SimpleMatrix | IPythonWorkflow/uniformgradientboosting.py:127-130 | one row per sample, each N wide |
| KnnLoss.OverriddenValid | IPythonWorkflow/uniformgradientboosting.py:111 | after the override every neighbour index is still a sample index |
| KnnLoss.NewSimpleKnnLoss | IPythonWorkflow/uniformgradientboosting.py:121-131 | overrides the signal rows, builds the Simple matrix of the overridden table and uses unit weights |
| KnnLoss.NewPairwiseKnnLoss | IPythonWorkflow/uniformgradientboosting.py:106-118 | overrides the signal rows, builds the Pairwise matrix of the overridden table and uses unit weights |
| BoostingParams.ResolveLoss | IPythonWorkflow/uniformgradientboosting.py:143-159 | a custom loss object is used as-is; 'deviance' becomes multinomial exactly when there are more than two classes; 'huber' and 'quantile' alone also receive alpha |
| BoostingParams.Validate | IPythonWorkflow/uniformgradientboosting.py:135-173 | the error is the first failing guard in source order; the loss is assigned exactly when the first three guards pass; init is assigned exactly when the next two guards also pass, as the supplied estimator or the loss's default |
| BoostingParams.Classifier.constructor | IPythonWorkflow/uniformgradientboosting.py:134 | starts with no resolved loss and no resolved init |
| BoostingParams.Classifier.CheckParams | IPythonWorkflow/uniformgradientboosting.py:135-173 | returns that first error and assigns `loss_` and `init_` exactly as far as the guards got |
| ReportChecks.CheckEfficiencies | IPythonWorkflow/reports.py:113-118 | None gives [0.6, 0.7, 0.8, 0.9], which is increasing and inside (0, 1); given values are returned unchanged |
| ReportChecks.CheckMask | IPythonWorkflow/reports.py:120-126 | None gives an all-true mask of len(y); a wrong length is reported before a non-boolean type; otherwise the mask is returned unchanged |
| Binning.Linspace | IPythonWorkflow/reports.py:215 | num values starting at lo and, for num ≥ 2, ending at hi |
| Binning.InteriorEdges | IPythonWorkflow/reports.py:215 | `n_bins − 1` edges (none for 0 bins); edge j is the boundary between bins j and j + 1 |
| Binning.BinEdgeInRange | IPythonWorkflow/reports.py:215 | with lo ≤ hi every bin boundary lies in [lo, hi] |
| Binning.BinEdgeMonotone | IPythonWorkflow/reports.py:215 | with lo ≤ hi the boundaries do not decrease |
| Binning.InteriorEdgesInRange | IPythonWorkflow/reports.py:215 | the interior edges lie in [min, max] and are sorted |
| Binning.Centres | IPythonWorkflow/reports.py:224 | exactly n_bins centres |
| Binning.MidpointOfBin | IPythonWorkflow/reports.py:224 | point 2j + 1 of the grid of 2·n_bins steps is the mean of the boundaries of bin j |
| Binning.CentresAreMidpoints | IPythonWorkflow/reports.py:224-225 | there are n_bins centres, so the length assertion always holds, and each is the midpoint of its equal-width bin |
| Binning.Masked | IPythonWorkflow/reports.py:214 | the selection is no longer than the column |
| Binning.MaskedValues | IPythonWorkflow/reports.py:214 | the selection is empty exactly when the mask selects nothing, holds only values of selected samples, and holds the value of every selected sample |
| Binning.MaskedSamplesInRange | IPythonWorkflow/reports.py:213-214 | when some sample is selected, every selected sample's value lies between the minimum and the maximum of the selection |
| Binning.Min | IPythonWorkflow/reports.py:215 | the minimum is one of the values and no value is below it |
| Binning.Max | IPythonWorkflow/reports.py:215 | the maximum is one of the values and no value is above it |
| Binning.FirstMissing | IPythonWorkflow/reports.py:208-210 | None exactly when every variable is a column; otherwise the first variable in list order that is not a column |
| Binning.ColumnCheck | IPythonWorkflow/reports.py:208-210 | passes exactly when every variable is a column, else names the first variable in list order that is missing (the intended check; see Findings) |
| Binning.ColumnCheckAsWritten | IPythonWorkflow/reports.py:209-210 | passes exactly when every variable is a column, else fails with a message-format error |
| Binning.MissingColumnIsNotReported | IPythonWorkflow/reports.py:210 | for a missing column "column1" the check as written raises a format error, while the intended check names "column1" |
| Binning.SeriesMin | IPythonWorkflow/reports.py:215 | NaN exactly when nothing is selected; otherwise a selected value that no selected value is below |
| Binning.SeriesMax | IPythonWorkflow/reports.py:215 | NaN exactly when nothing is selected; otherwise a selected value that no selected value is above |
| Binning.EdgesOf | IPythonWorkflow/reports.py:215 | `n_bins − 1` points (none for 0 bins), whatever the ends |
| Binning.CentresOf | IPythonWorkflow/reports.py:224 | exactly n_bins points, whatever the ends |
| Binning.VariableEdges | IPythonWorkflow/reports.py:213-215 | `n_bins − 1` edges for one variable, also when its selection is empty |
| Binning.VariableCentres | IPythonWorkflow/reports.py:222-224 | n_bins centres for one variable, also when its selection is empty |
| Binning.VariableEdgesOfSelection | IPythonWorkflow/reports.py:213-215 | a mask selecting no sample gives all-NaN edges; otherwise every edge is a number in the [min, max] of the selected samples, the edges do not decrease, and every selected sample lies in that range |
| Binning.VariableCentresOfSelection | IPythonWorkflow/reports.py:222-225 | a mask selecting no sample gives n_bins NaN centres; otherwise centre j is the number midway between the boundaries of bin j of the selected samples' [min, max] |
| Binning.ComputeBinLimits | IPythonWorkflow/reports.py:206-215 | checks the columns first (the intended column check; see Findings), then the mask; otherwise succeeds and gives each variable its edges, NaN ones for an empty selection |
| Binning.EdgesOfVariables | IPythonWorkflow/reports.py:212-215 | the loop gives each variable, in order, the edges of its masked range |
| Binning.ComputeBinCenters | IPythonWorkflow/reports.py:218-226 | checks the mask first, then fails at the first variable that is not a column (KeyError); otherwise gives each variable its n_bins centres, NaN ones for an empty selection |
| Binning.CentresOfVariables | IPythonWorkflow/reports.py:221-225 | the loop fails at the first variable that is not a column, whatever the earlier selections; otherwise each variable gets the centres of its masked range |
| Binning.PowOneTwo | IPythonWorkflow/reports.py:341 | `n_bins ** 1 == n_bins` and `n_bins ** 2 == n_bins * n_bins` |
| Binning.LabelMask | IPythonWorkflow/reports.py:339 | the mask selects exactly the samples whose label is the chosen one |
| Binning.EfficiencyBins | IPythonWorkflow/reports.py:333-341 | rejects any variable count other than 1 or 2; otherwise fails exactly when some variable is not a column, naming the first (the intended column check; see Findings), and else gives each variable the edges of its label-masked range and counts `n_bins ** d` bins |
| Binning.UnseenLabelGivesNaNEdges | IPythonWorkflow/reports.py:339-340 | a label that no sample carries gives all-NaN edges rather than an error |
| PredictionStore.StagedEntriesMembership | IPythonWorkflow/reports.py:131-141 | a (name, stages) pair is a staged entry exactly when that classifier supports staged prediction and gave those stages |
| PredictionStore.FirstEmptyStaged | IPythonWorkflow/reports.py:105-107 | a reported name belongs to a classifier whose staged list is empty |
| PredictionStore.FirstEmptyStagedFirst | IPythonWorkflow/reports.py:105-108 | a reported name belongs to the first classifier, in order, whose staged list is empty |
| PredictionStore.FirstEmptyStagedNone | IPythonWorkflow/reports.py:105-107 | nothing is reported exactly when no staged list is empty |
| PredictionStore.LowMemoryPredictions | IPythonWorkflow/reports.py:98-99 | one final prediction per classifier, with the classifier names in input order |
| PredictionStore.FullPredictions | IPythonWorkflow/reports.py:102-110 | one prediction per classifier, with the classifier names in input order |
| PredictionStore.ModesAgree | IPythonWorkflow/reports.py:97-110 | when every last stage equals the final prediction, both modes keep the same predictions |
| PredictionStore.SelectStagesSpec | IPythonWorkflow/reports.py:152-155 | exactly the requested stages that exist appear, in increasing order, each with its own prediction |
| PredictionStore.ApplySeries | IPythonWorkflow/reports.py:180 | `Series.apply` keeps every index entry and maps each value on its own |
| PredictionStore.StepStages | IPythonWorkflow/reports.py:166 | the stages picked are those t < n with `(t + 1) % step == 0` |
| PredictionStore.StepStagesAreSlice | IPythonWorkflow/reports.py:166 | a stage is picked exactly when it is below n and is step − 1 + k·step for some k ≥ 0, the indices `islice(…, step − 1, None, step)` visits |
| PredictionStore.EveryStepIsSelection | IPythonWorkflow/reports.py:158-167 | mapping every step-th stage equals selecting stages step − 1, 2·step − 1, … and applying the metric to them |
| PredictionStore.EveryStepCount | IPythonWorkflow/reports.py:166-167 | a classifier with n stages yields `n / step` mapped stages |
| PredictionStore.Predictions.constructor | IPythonWorkflow/reports.py:93-110 | stores the test sample and exactly one of the staged store (full mode) or the classifiers (low-memory mode) |
| PredictionStore.Predictions.Build | IPythonWorkflow/reports.py:85-110 | low-memory mode keeps one final prediction per classifier and no staged store; full mode keeps every staged list and takes each last stage as the final prediction, falls back to the final prediction for classifiers without staging, and fails on the first empty staged list |
| PredictionStore.Predictions.GetStagedProba | IPythonWorkflow/reports.py:131-141 | in both modes, the staged predictions of exactly the staged classifiers, in input order |
| PredictionStore.Predictions.GetStages | IPythonWorkflow/reports.py:143-156 | without stages, each prediction under the single key 'result'; with stages, each staged classifier's requested stages that exist, in increasing order |
| PredictionStore.Predictions.MapOnStagedProba | IPythonWorkflow/reports.py:158-169 | fails exactly when step < 1 and some classifier is staged; otherwise it maps every step-th stage of each staged classifier, keyed by stage |
| PredictionStore.Predictions.MapOnStages | IPythonWorkflow/reports.py:171-180 | applies the metric to every selected stage or final prediction, keeping names and index keys |
| PredictionStore.CollectStages | IPythonWorkflow/reports.py:152-155 | the inner stage loop builds exactly the stage selection |

## Left out

- Floating point is modelled as exact reals. `numpy.exp(-x)` is a parameter `negExp` assumed positive. The numeric values of the loss, gradient and α are not compared with the source's rounding.
- The finite-difference gradient test (`IPythonWorkflow/uniformgradientboosting.py:177-194`) is a numerical experiment and is not modelled.
- The kNN search `commonutils.computeSignalKnnIndices` is not part of this model. Its two tables are inputs. `LabelPurity` takes the labels of its results as a hypothesis.
- The sparse-matrix constructor at `uniformgradientboosting.py:112` and `:127` passes rows and columns as two positional arguments rather than one shape tuple. The builders create the intended shape, (N·knn)×N and N×N.
- The sklearn boosting driver is not modelled: `LossFunction.update_terminal_regions`, the tree fitting and the `y_pred += learning_rate * ...` update. `UpdateTerminalRegions` covers the exponent refresh and one α per listed leaf.
- `KnnLossFunction.init_estimator` (lines 88-89) returns sklearn's `LogOddsEstimator`. The default init appears only symbolically, as `DefaultOf(loss)`.
- The `LossFunction.__init__(self, 1)` call is not modelled. The class-count checks inside the sklearn deviance classes are not modelled either.
- KnnLoss.KnnLossFunction.UpdateTerminalRegions requires non-negative initial weights and a positive `negExp`. The source does not check these, but the guarantee of a positive α denominator needs them.
- KnnLoss.KnnLossFunction.UpdateTerminalRegion requires non-negative cached exponents, for the same reason.
- `sample_weight` and `check_sample_weight` are not modelled. They are stored by `Predictions` but do not affect any modelled operation.
- The `isinstance(classifiers_dict, OrderedDict)` assertion is not modelled: the model's input type is always an ordered sequence of pairs.
- `numpy.copy` of staged predictions is not modelled: predictions are values, so aliasing does not arise.
- In low-memory mode the source asks each classifier for staged predictions again on every call. The model treats that answer as a fixed part of the classifier.
- `compute_bin_indices` assigns samples to bins from the edges. It is not part of this model. `ComputeBinLimits` returns the edges it would receive.
- The rest of `efficiency` (BDT cuts, per-bin efficiencies, plotting) is not modelled. Neither is any other metric, plot or printing helper of `reports.py`.
- `ClassifiersDict.fit` and `train_classifier` (cluster fan-out, timing, printing) are not modelled.
- A NaN value inside a column is not modelled: columns hold numbers. Only the NaN that `min`/`max` of an empty selection produce is.
- The mask's numpy dtype is reduced to two cases: a boolean mask, or a mask of another type with a given length.
- The error message at `reports.py:337` speaks of more than two variables, but the condition at `reports.py:336` also rejects an empty variable list; the model follows the condition.
- Integers are unbounded. numpy's fixed-width integer overflow is not modelled, since counts stay far below it.

## Findings

| source | as written | input that shows it | evidently intended | confidence | as-written member | corrected member |
|---|---|---|---|---|---|---|
| IPythonWorkflow/reports.py:210 | the assertion message formats the variable with `"%i" % var`, but column names are strings, so a missing column raises a formatting `TypeError` instead of an `AssertionError` naming the variable | a table with the single column "column0" and `var_names = ["column1"]` | the failure reports the missing variable "column1" | not executed | Binning.ColumnCheckAsWritten (shown by Binning.MissingColumnIsNotReported) | Binning.ColumnCheck (used by Binning.ComputeBinLimits and Binning.EfficiencyBins) |
