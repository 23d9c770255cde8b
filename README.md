# nrobust OLSRobust, modelled in Dafny

This project models the estimation core of the `nrobust` package. That core is the `OLSRobust` estimator and the
`OLSResult` object it produces, both in `src/nrobust/models.py`.

`OLSRobust` holds three things:

- the outcome names `y`;
- the predictors of interest `x`;
- a data table.

`fit` enumerates every subset of the candidate controls; each subset is a *specification*. For each specification it:

1. builds a table of the outcome, the predictors, the optional group column and the specification's controls;
2. drops every row with a missing value;
3. demeans the table by group when a group is given;
4. fits OLS on the whole table, with an optional k-fold cross-validated RMSE;
5. fits OLS again on `draws` bootstrap resamples of the table.

The results go into row `index` of preallocated `space_n × draws` arrays and of per-specification lists.

When several outcomes are given, `multiple_y` first turns every subset of more than one outcome into a composite outcome
(the row-wise mean of the z-scored columns). `fit` then runs the specification loop once per composite and stacks the
blocks. `OLSResult` computes two things from what `fit` stored:

- a per-row summary of the bootstrap draws: median, min, max and the nearest-rank 2.5%/97.5% quantiles;
- Bayesian model averaging with BIC-implied weights.

The modules follow that structure:

| module | file | contents |
|---|---|---|
| `Common` | common.dfy | `Option`, `Result` and the error kinds the Python code raises; `AllOk`, which collects a sequence of results and stops at the first error; sums and masks |
| `Frames` | frames.dfy | a pandas table as names, row labels and rows of cells (`Value` or `Missing`); selection by name, by position and by label (`.loc`); `dropna`; column drop |
| `Collaborators` | collaborators.dfy | the routines imported from modules outside this model, held as function values |
| `Summary` | summary.dfy | `_compute_summary` |
| `Bma` | bma.dfy | `compute_bma`, with its loop over controls as a method |
| `FullSample` | fullsample.dfy | `_predict`, `_full_sample_OLS`, its k-fold loop as a method |
| `Bootstrap` | bootstrap.dfy | `_strap_OLS`: shuffle, row sampling and group sampling |
| `Specs` | specs.dfy | one specification's table and fit, and the specification loop writing into `array2`/`array` buffers |
| `Robust` | robust.dfy | `multiple_y`, the per-outcome loop, the stacking of the several-outcome path, `OLSResult`, and the class `OLSRobust` with its mutable fields and its `Fit` method |

Conventions:

- **Collaborators.** The OLS routines (`simple_ols`, `stripped_ols`), `all_subsets`, `space_size`, `group_demean`,
  the composite z-scoring and sklearn's RMSE are fields of a `Collaborators` value. Every statement therefore holds for
  any implementation of them.
- **Randomness.** Randomness is an oracle `rng(outcome, specification, draw)`. It supplies the permutation of
  `np.random.permutation`, the row positions of `DataFrame.sample` and the keys of `np.random.choice`. A draw the oracle
  could not have produced, such as a non-permutation, is the error `BadDraw`.
- **Errors.** The Python exceptions the core raises on the inputs it is given are `Err` values of `Result`, and `fit`
  reports them as its return value, so the model covers the error paths as well as the normal ones. They include:
  - a missing column;
  - a missing label under `.loc`;
  - too few rows to sample without replacement;
  - no bootstrap draws (`zip(*[])`);
  - `self.y[0]` on no outcome;
  - `b_all` read before it was bound;
  - the several-outcome summary's `y` column set from fewer names than the table has rows.

## Model

| member | source | states |
|---|---|---|
| Frames.Select | src/nrobust/models.py:440-445 | `data[cols]` succeeds iff every named column exists, otherwise a `MissingColumn` error naming an absent column; the result has exactly those columns in that order, the same labels and rows, and each cell is the named column's cell |
| Frames.DropNa | src/nrobust/models.py:447 | `dropna` keeps exactly the rows with no missing cell, in their original order, with their labels; every complete row survives |
| Frames.DropNamed | src/nrobust/models.py:613 | dropping the group column succeeds iff it exists; the result keeps the labels and the row count, and its columns are exactly the other columns in their order (positions `OtherColumns`), each cell being the cell of that column |
| Frames.LocRows | src/nrobust/models.py:547-550 | `.loc[labels]` succeeds iff every wanted label is present, otherwise a `LabelNotFound` error naming an absent one; the result carries exactly the wanted labels |
| Summary.SortedCopy | src/nrobust/models.py:171-178 | the sorted copy of a row of draws is sorted and is a permutation of the row |
| Summary.QuantileRanksBracketMiddle | src/nrobust/models.py:174-177 | the nearest-rank positions of q = 0.025 and q = 0.975 stay within the row and bracket its middle position(s) |
| Summary.SortedStatsOrdered | src/nrobust/models.py:171-177 | in a sorted row, first ≤ 2.5% quantile ≤ median ≤ 97.5% quantile ≤ last |
| Summary.SortedCopyBounds | src/nrobust/models.py:172-173 | the first and last of the sorted row are the row's minimum and maximum, and every sorted value occurs in the row |
| Summary.RowSummary | src/nrobust/models.py:169-178 | a row has statistics iff it has draws; then min ≤ ci_down ≤ median ≤ ci_up ≤ max, min/max bound every draw, and min, max, ci_down and ci_up are draws that occur in the row |
| Summary.ComputeSummary | src/nrobust/models.py:162-178 | one summary row per specification row; the order min ≤ ci_down ≤ median ≤ ci_up ≤ max holds for each, and ci_up/ci_down occur among that row's draws |
| Bma.Weights | src/nrobust/models.py:189-191 | one weight per model, each in (0, 1], and every model with the smallest BIC gets weight exactly 1 |
| Bma.ControlSums | src/nrobust/models.py:198-206 | a control's likelihood is the sum of the weights of the specifications that contain it (the `idx` mask, `InSpec`); the row-count mismatch between the weights and the specifications is the error `ShapeMismatch` |
| Bma.CompressOne | src/nrobust/models.py:203-204 | within one specification the entries named after the control are its own coefficient when the specification has it, and none otherwise |
| Bma.OwnCoefficientsUpTo | src/nrobust/models.py:203-204 | over the first n specifications, with the control named at most once in each predictor list, the coefficients the `var_name == ele` mask keeps are the control's own coefficients, one per specification naming it, in specification order |
| Bma.HeldCountUpTo | src/nrobust/models.py:199-204 | when a specification's predictors name the control exactly when its control set holds it, there are as many own coefficients as weights of specifications holding it |
| Bma.ControlSumsInX | src/nrobust/models.py:198-206 | a control that is also in `x` is named in every predictor list, so with two or more specifications and one without it in its control set the coefficients outnumber the weights and the product fails (`ShapeMismatch`) |
| Bma.ControlSumsWeighs | src/nrobust/models.py:198-206 | with coefficients stored beside predictor names and the control named at most once, exactly in the specifications holding it, the weighted sum is Σ own coefficient × weight over those specifications |
| Bma.ControlTable | src/nrobust/models.py:197-206 | `likelihood_per_var`/`weigthed_coefs` have one entry per control, entry c being control c's sums; it fails iff some control's sums fail |
| Bma.BmaTable | src/nrobust/models.py:180-213 | succeeds iff coefficients are stored per specification, the flattened coefficients and predictor names match in length and every control's sums succeed; one output row per control, in the order of `controls`; `probs` is that control's weight share and `average_coefs` its `ControlSums` coefficient sum over the total weight (NaN without models) |
| Bma.BmaAveragesCoefficients | src/nrobust/models.py:180-213 | under the same storage conditions `compute_bma` succeeds and every control's `average_coefs` is Σ own coefficient × weight over the specifications holding it, divided by the total weight |
| Bma.ProbsInUnitInterval | src/nrobust/models.py:207 | with at least one model, every inclusion probability lies in [0, 1] |
| Bma.ProbsZeroOutsideSpecs | src/nrobust/models.py:199-207 | a control in no specification has inclusion probability 0 |
| Bma.ProbsOneInEverySpec | src/nrobust/models.py:199-207 | a control in every specification has inclusion probability 1 |
| Bma.ControlTableExtend | src/nrobust/models.py:197-206 | appending one control appends its two sums to the two lists |
| Bma.ControlLoop | src/nrobust/models.py:197-206 | the loop over controls computes exactly `ControlTable` |
| Bma.ComputeBma | src/nrobust/models.py:180-213 | `compute_bma` returns exactly `BmaTable` over the stored BIC values, specifications, coefficients and predictors |
| Bootstrap.GatherPermutation | src/nrobust/models.py:595-596 | `iloc[positions]` (`Gather`) by a permutation of positions yields a permutation of the gathered values |
| Bootstrap.RearrangedPositions | src/nrobust/models.py:595-596 | a permutation of labels 0..n-1 is a list of n valid positions |
| Bootstrap.ShuffledTable | src/nrobust/models.py:593-598 | the shuffled table keeps the labels; `concat([y, x], axis=1)` puts the y column reordered by the permutation first and keeps the predictors unchanged after it |
| Bootstrap.Shuffle | src/nrobust/models.py:593-598 | shuffling succeeds iff the table has a column, the labels are 0..n-1 and the draw is a permutation of them; then the new y column is a permutation of the old one and the predictor columns are unchanged |
| Bootstrap.RowSample | src/nrobust/models.py:600-601 | `sample(n, replace)` fails when n exceeds the rows without replacement; otherwise it yields exactly n rows, row j being the drawn row with its label, and draws without replacement are distinct |
| Bootstrap.KeptRows | src/nrobust/models.py:610-612 | the kept positions are exactly those whose key was drawn and occurs more than once among the selected rows, in table order |
| Bootstrap.NoSingletonSurvives | src/nrobust/models.py:612 | every kept row shares its key with another kept row |
| Bootstrap.RepeatedKeysDoNotDuplicate | src/nrobust/models.py:610-611 | drawing a key several times selects its rows once: the kept positions depend only on the set of drawn keys and have no repeats |
| Bootstrap.GroupSample | src/nrobust/models.py:609-615 | a missing group column, an empty pool of keys and a draw that is not `sample_size` existing keys are errors, and it succeeds otherwise; then the kept rows are exactly `KeptRows` of the drawn keys, with their labels, and the group column is removed while every other column stays |
| Bootstrap.GroupSampleCells | src/nrobust/models.py:610-613 | cell (j, m) of a group sample is the table's cell at kept row j and at the m-th column other than the group column; the column names follow the same order |
| Bootstrap.Resample | src/nrobust/models.py:591-615 | the resampled table is rectangular, has no group column in group mode, and has `sample_size` rows (original rows unless shuffled) in row mode |
| Bootstrap.StrapOls | src/nrobust/models.py:562-619 | a resampling error propagates; otherwise it succeeds iff the resample has a column and `stripped_ols` fits it with a non-empty b and p, and the draw is then the first coefficient and first p-value of `stripped_ols` on the resample's y and x; a singular fit is `UnfitModel`, an empty b or p `NoCoefficients` |
| FullSample.SplitXY | src/nrobust/models.py:538-539 | y is the first column alone; x is every column not named like the first, in order, with each cell of that column; both keep the labels and rows |
| FullSample.Predict | src/nrobust/models.py:494-510 | `np.dot` succeeds iff the coefficient count equals the column count; prediction i is row i dotted with the coefficients |
| FullSample.FoldStartMonotone | src/nrobust/models.py:544-546 | fold boundaries of `KFold` never decrease |
| FullSample.FoldWithinRows | src/nrobust/models.py:544-546 | with 2 ≤ k ≤ n every fold is non-empty and inside the table |
| FullSample.MakeFold | src/nrobust/models.py:544-546 | a fold's test positions are the contiguous block from its start to the next fold's start, its train positions are exactly the other positions in increasing order, all inside the table, and the test part is non-empty |
| FullSample.KFoldSplit | src/nrobust/models.py:544-546 | `KFold(k).split` yields exactly k folds, fold f being the f-th contiguous block |
| FullSample.InTestBlock | src/nrobust/models.py:544-546 | a position is in fold f's test block iff it lies between fold f's start and fold f+1's start |
| FullSample.TestBlocksCover | src/nrobust/models.py:544-546 | every row position is in the test block of some fold |
| FullSample.TestBlocksDisjoint | src/nrobust/models.py:544-546 | no row position is in the test blocks of two different folds |
| FullSample.FoldRows | src/nrobust/models.py:547-550 | a fold's rows are taken by position in the model; the as-written `.loc` selection is kept beside it for the finding below |
| FullSample.FoldMetricsMeaning | src/nrobust/models.py:546-552 | `metrics` holds one RMSE per fold, entry f being fold f's RMSE; it fails iff some fold fails |
| FullSample.CrossValidation | src/nrobust/models.py:543-553 | k < 2 or k larger than the row count is an error; otherwise it succeeds iff every fold's metric succeeds, passes on the failing fold's error, and the metric is the mean of exactly k per-fold RMSE values |
| FullSample.ByPositionFindsEveryRow | src/nrobust/models.py:546-552 | selecting fold rows by position never raises a missing-label error |
| FullSample.FoldLoop | src/nrobust/models.py:545-552 | the loop over folds computes exactly the per-fold metrics, stopping at the first failing fold |
| FullSample.CrossValidate | src/nrobust/models.py:543-553 | the k-fold method computes exactly `CrossValidation` with positional rows |
| FullSample.FullSampleFit | src/nrobust/models.py:512-560 | succeeds iff `simple_ols` fits the table's y and x and, when kfold is truthy, cross-validation succeeds (whose error it passes on); b, p, ll, aic, bic and hqic are those of `simple_ols`; `av_k_metric` is present iff kfold is truthy, and is then the cross-validated mean |
| FullSample.FullSampleOls | src/nrobust/models.py:512-560 | the method computes exactly `FullSampleFit` |
| FullSample.ListwiseDeletionLeavesGap | src/nrobust/models.py:447 | after `dropna`, a three-row table with a missing middle value has labels 0 and 2 |
| FullSample.FirstOfTwoFoldsTrainsOnOne | src/nrobust/models.py:544-546 | with two rows and two folds, the first fold trains on position 1 |
| FullSample.LabelOneIsGone | src/nrobust/models.py:547 | `.loc[[1]]` on labels 0 and 2 raises a missing-label error |
| FullSample.FirstFoldFails | src/nrobust/models.py:546-552 | an error in the first fold is the error of the whole loop |
| FullSample.FoldMetricsByLabelFail | src/nrobust/models.py:546-552 | on labels 0 and 2 with two folds, label-based fold selection fails with `LabelNotFound(1)` |
| FullSample.CrossValidationByLabelFails | src/nrobust/models.py:543-553 | as written, 2-fold cross-validation of any table labelled 0 and 2 fails with `LabelNotFound(1)` |
| FullSample.CrossValidationByPositionFindsRows | src/nrobust/models.py:543-553 | the corrected cross-validation never fails for a missing label |
| Specs.ModelColumnsLayout | src/nrobust/models.py:440-445 | the table's columns are y ++ x ++ spec, or y ++ x ++ [group] ++ spec when a group is given (the empty specification gives the same list) |
| Specs.KeptPositions | src/nrobust/models.py:447 | the kept positions are exactly the rows complete in the specification's own columns (and composite), in table order |
| Specs.Selected | src/nrobust/models.py:440-447 | selection succeeds iff every specification column exists; its columns are the composite name (when there is one) followed by the specification columns; a selected row is complete iff that row is kept for this specification |
| Specs.SelectedCells | src/nrobust/models.py:440-444 | cell (i, m) of the selection is data row i's cell in specification column m, shifted one place right when the composite outcome is put in front, whose cell is composite value i |
| Specs.DeletionIsPerSpecification | src/nrobust/models.py:440-447 | after `dropna` the table has exactly the kept rows of this specification, in order: row j is the selected row at kept position j, with its label |
| Specs.SpecTable | src/nrobust/models.py:438-450 | the table exists iff its columns exist; without a group it has exactly the specification's columns and exactly its complete rows, in order, row j being the selected row at kept position j; with a group it is rectangular |
| Specs.DrawSeriesMeaning | src/nrobust/models.py:455-463 | draw d is `_strap_OLS` on the table with the oracle's choice for draw d; the series fails iff some draw fails |
| Specs.FitSpecMeaning | src/nrobust/models.py:440-463 | a specification's fit succeeds iff its table exists with a column, there is at least one draw, and the full-sample fit and every draw succeed; it is then the full-sample fit of its table plus the unzipped draws |
| Specs.FitSpec | src/nrobust/models.py:440-463 | a fit holds exactly `draws` coefficients and `draws` p-values |
| Specs.SpecFitsMeaning | src/nrobust/models.py:438-475 | fit i of the loop is specification i's fit, in enumeration order; the loop fails iff some specification fails |
| Specs.RunDraws | src/nrobust/models.py:455-463 | the sequential stand-in for the parallel draws collects exactly the draws, stopping at the first error |
| Specs.FitOneSpec | src/nrobust/models.py:440-463 | the method computes exactly `FitSpec` |
| Specs.StoreFit | src/nrobust/models.py:467-473 | writing a fit at row `index` fills that row of every buffer with its `draws` values and criteria and leaves the rows written before unchanged |
| Specs.FillRow | src/nrobust/models.py:440-473 | one loop step computes specification `index`'s fit and, on success, writes it into row `index` |
| Specs.FillRows | src/nrobust/models.py:438-475 | the loop computes exactly the fits of all specifications and writes fit i into row i of every buffer |
| Specs.SpecLoop | src/nrobust/models.py:426-475 | allocates fresh `space_n × draws` and `space_n` buffers and fills them with exactly `SpecFits`, row i holding specification i |
| Robust.LongSpecs | src/nrobust/models.py:290-296 | `multiple_y` keeps at most as many subsets as it enumerates |
| Robust.LongSpecsMembers | src/nrobust/models.py:292 | a subset is kept iff it is enumerated and has more than one outcome |
| Robust.LongSpecsAppend | src/nrobust/models.py:290-296 | the filter keeps enumeration order: filtering a concatenation concatenates the filtered parts |
| Robust.LongSpecsNext | src/nrobust/models.py:290-296 | one loop step appends the subset iff it is long, and the kept prefix is a prefix of the final list |
| Robust.CompositeStep | src/nrobust/models.py:293-295 | a composite succeeds iff all its outcome columns exist, and is the composite of exactly those columns |
| Robust.Composites | src/nrobust/models.py:290-296 | one composite per kept subset, each one value per data row; it fails iff some subset names an absent column |
| Robust.SingleResult | src/nrobust/models.py:477-490 | the single-outcome `OLSResult` holds, per specification i, `frozenset(spec_i)`, `x ++ spec_i ++ ['const']`, the full-sample b/p and row i of the draws (`pd.DataFrame(array)`, one row per array row) and criteria, with `space_n` rows of exactly `draws` values |
| Robust.FitSingleOutcome | src/nrobust/models.py:425-492 | the single-outcome path succeeds iff every specification fits and there is an outcome; it passes on the first error; on success it yields `SingleOutcomeResult` over all fits |
| Robust.OutcomeFitsMeaning | src/nrobust/models.py:347-404 | block o is the specification loop on composite o; it fails iff some outcome's loop fails |
| Robust.PushOutcome | src/nrobust/models.py:386-404 | appending an outcome's block keeps every earlier block and adds one holding its labels `frozenset(y_name ∪ spec)`, predictors and rows |
| Robust.StackedRowWidths | src/nrobust/models.py:414-415 | every stacked row has `draws` entries |
| Robust.StacksLabels | src/nrobust/models.py:386-388 | the stacked `y_names`/`specs` have `len(y_specs) × m` entries, entry (o, i) labelled by outcome subset o and specification i |
| Robust.StacksDraws | src/nrobust/models.py:414-415 | `np.vstack` puts outcome o's row i at row o·space_n + i |
| Robust.StacksCriteria | src/nrobust/models.py:416-420 | `np.hstack` of the criteria follows the same layout |
| Robust.MultiResult | src/nrobust/models.py:406-421 | the several-outcome `OLSResult` satisfies `MultiOutcomeResult`, with `all_b`/`all_p` the last specification's vectors |
| Robust.PushNextOutcome | src/nrobust/models.py:347-404 | one outcome step runs the specification loop on composite o and appends its block |
| Robust.OutcomeLoop | src/nrobust/models.py:347-404 | the outcome loop computes exactly the per-outcome fits, stopping at the first error, and its stacks hold every block in order |
| Robust.FitMultiOutcome | src/nrobust/models.py:335-423 | the several-outcome path succeeds iff every outcome fits, there is at least one outcome subset and one specification (else `b_all` is unbound), and the enumerated subsets fill all `space_n` rows (else the summary's `y` column gets too few names, models.py:104, `ShapeMismatch`); on success it yields `len(y_specs) × space_n` stacked rows |
| Robust.CompositeOf | src/nrobust/models.py:293-295 | one composite is computed for one kept subset; it has one value per data row and fails iff a column is absent |
| Robust.CompositeLoop | src/nrobust/models.py:290-296 | the loop appends the kept subsets and their composites in order; on the first error it stops, with a prefix of the kept subsets appended |
| Robust.OLSRobust.constructor | src/nrobust/models.py:250-270 | stores y, x and data, with no results yet |
| Robust.OLSRobust.MultipleY | src/nrobust/models.py:283-296 | `y_specs` becomes exactly the long outcome subsets, in order, and `y_composites` their composites, of equal length; a missing column stops it after a prefix |
| Robust.OLSRobust.FitSingle | src/nrobust/models.py:425-492 | on success `results` becomes the single-outcome result; on an error `results` is unchanged; `y_specs`/`y_composites` are never touched |
| Robust.OLSRobust.FitMulti | src/nrobust/models.py:335-423 | runs `multiple_y`, then the several-outcome path over `y_specs` and `y_composites`, succeeding under the same conditions as `FitMultiOutcome`; `results` changes only on success |
| Robust.OLSRobust.Fit | src/nrobust/models.py:298-492 | one outcome takes the single path, more than one the several-outcome path, with `sample_size` defaulted to the number of data rows (`Options`); each path succeeds exactly when its own contract says; `results` changes only on success |

## Left out

- `OLSResult.save`/`load`: pickle file I/O.
- `OLSResult.summary`, `merge` and `plot`: a stub, a type check and plotting.
- `get_results`: an accessor of the `results` field, which the model exposes directly.
- `src/nrobust/figures.py` and `setup.py` are not part of this model.
- OLS numerics, p-values, `exp`, z-scoring with `std` and RMSE are collaborators.
  - `exp` is only assumed to satisfy exp(0) = 1 and 0 < exp(t) ≤ 1 for t ≤ 0.
  - Values are exact `real`s, not floating point; NaN appears only as `Missing` cells and as `None` for `av_k_metric`.
- The joblib `Parallel` fan-out over draws is a sequential loop. Each draw writes its own slot.
- `tqdm` progress, `print` and the missing-value warning of the constructor are output only.
- The model takes `y` to be a list of names. A bare string `y` would make `len(self.y) > 1` count characters.
- On the single-outcome path, unwritten rows of the `np.empty` buffers (when `all_subsets` yields fewer than `space_n`
  subsets) hold arbitrary values in the model too. The contracts say nothing about them. On the several-outcome path
  the same situation ends in the `ShapeMismatch` error above.
- Robust.LongSpecs: its own contract gives only the length bound. The membership and order facts are the lemmas
  `LongSpecsMembers` and `LongSpecsAppend`.
- Specs.SpecTable: with a group, the contract says only that the demeaned table is rectangular.
  - `group_demean` is a collaborator.
  - The column and row facts are stated for the table before demeaning, in `DeletionIsPerSpecification`.
- FullSample.FullSampleFit and FullSample.FullSampleOls: the k-fold folds are selected by position, the corrected
  behaviour of the finding below. The label-based `.loc` selection as written is modelled only by `FoldRows` with
  `ByLabel`, `CrossValidationByLabelFails` and the members beside it; the rest of the pipeline does not fail where the
  source raises that `KeyError`.
- Duplicate row labels and duplicate column names resolve to the first match (`LocRows`, `IndexOf`). pandas would
  return every match; the model does not capture that.
- The composite outcome's column is named `0` (`CompositeName`). A data column with the same name would make pandas
  select both; the model selects the first.
- Bootstrap.Shuffle: succeeds only when the labels are exactly 0..n-1 in table order. A table labelled 0..n-1 in
  another order is an `IndexMisaligned` error in the model, where pandas would shuffle it and `concat` would realign
  the predictors by label. Tables reach `_strap_OLS` after `dropna`, whose labels keep the data's order.
- Robust.OLSRobust.FitMulti and Robust.OLSRobust.Fit: when the composites fail, the contract says the error is
  returned and `results` is unchanged. Which prefix of `y_specs` was appended is stated only as "a prefix".

## Findings

| source | as written | input that shows it | evidently intended | confidence | as-written member | corrected member |
|---|---|---|---|---|---|---|
| src/nrobust/models.py:546-550 | the k-fold loop selects train and test rows with `y.loc[train]`/`x.loc[test]`, but `KFold.split` yields row positions, not labels | a table whose middle row had a missing value: after `dropna` its labels are 0 and 2, and `kfold=2` asks `.loc` for label 1 | select the fold rows by position (`iloc`) | not executed | FullSample.CrossValidationByLabelFails | FullSample.CrossValidate |
