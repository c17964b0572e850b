# Cross-validation fold schedules of `ionyx.experiment.cross_validation`

This project models, in Dafny, the two cross-validation loops of
`ionyx/experiment/cross_validation.py` and proves what they guarantee.

- `sequence_cross_validate` evaluates a model on an ordered series. For each
  fold `i` it computes three row indices: `fold_start`, `fold_train_end` and
  `fold_end`. It trains on `X[fold_start:fold_train_end]`, predicts
  `X[fold_train_end:fold_end]` and appends one score. The indices depend on
  the strategy (`traditional`: the caller's fold count, with a fold size of
  `len(X) / n_folds` rounded down; `walk-forward`: one-row steps, with a
  derived fold count), on the window type (`cumulative`: training starts at
  row 0; `fixed`: training starts at `i * fold_size`), on `min_window` and on
  `forecast_range`.
- `cross_validate` walks the folds of a k-fold partition. For each fold it
  refits on the training rows and records a training score. It appends the
  evaluation predictions to `y_pred` and the evaluation labels to `y_true`.
  It then scores once over everything appended.

Files:

- `python_semantics.dfy` (module `PySemantics`): Python 2 floor division of
  integers, and the rows a slice `s[a:b]` selects. Negative bounds count
  back from the end, bounds are clamped to `[0, len]`, and the slice is
  empty when the stop does not lie past the start.
- `fold_schedule.dfy` (module `FoldSchedule`): the options, the fold
  count and fold size (`FoldPlan`), the indices of fold `i` (`Bounds`), the
  whole schedule (`Schedule`), and the training and evaluation rows of a
  fold after slicing.
- `schedule_properties.dfy` (module `ScheduleProperties`): lemmas about
  the schedule.
- `sequence_cross_validate.dfy` (module `SequenceCrossValidation`): the
  driver loop as a method, proved equal to a specification function.
- `cross_validate.dfy` (module `CrossValidation`): the accumulation loop as
  a method, and lemmas about what it accumulates.

The collaborators the source calls become function parameters. `fit(state,
X_train, y_train)` stands for `fit_transforms`, `apply_transforms` and
`model.fit`. `predict(state, rows)` stands for applying the fitted transforms
and calling `model.predict`. `score(labels, predictions)` is the metric. The
state is threaded from fold to fold because the source rebinds `transforms`
on every fold and the model object keeps whatever `fit` leaves in it.

Behaviour of the code that the lemmas make explicit:

- Line 81 scores each fold's predictions against the whole label vector `y`,
  not against `y_eval`. The model keeps this as written: `Scores` passes `y`
  to `score`.
- Under the traditional strategy, when `0 <= forecast_range <= fold_size +
  min_window`, rows from `n - n % n_folds + min_window` onwards are never
  used (`TraditionalRowsUsed`). The last fold's `fold_end` lies past the
  data exactly when `min_window > n % n_folds`. When, in addition, `forecast_range > 0`
  and the last fold's `fold_train_end` is not negative, its evaluation range
  is cut short (`TraditionalLastFold`).
- Under walk-forward, when `0 <= forecast_range <= min_window + 1`, the last
  fold ends at `n - forecast_range`, so the final `forecast_range` rows are
  never evaluated (`WalkForwardInsideData`).
- When `fold_size + min_window < forecast_range < len(X)` and
  `min_window >= 0`, the first training stop is negative. The slice then
  wraps to `len(X) + fold_train_end`, so training covers rows at and after
  `fold_end`, which come after the evaluation point
  (`NegativeTrainEndReachesPastEval`; `NegativeTrainEndWraps` is one
  instance). A larger `forecast_range` can instead shorten or empty the
  training slice.
- `cross_validate` refits on each fold starting from the state the previous
  fold left behind (line 27 passes the previous `transforms` to
  `fit_transforms`). When the refit ignores that state, swapping two
  adjacent folds swaps the matching blocks of `y_true`, `y_pred` and the
  training scores, and nothing else changes (`SwapAdjacentFolds`). The
  final score then sees the same (label, prediction) pairs in another
  order.
- For 10 rows, 5 traditional cumulative folds, `min_window = 0` and
  `forecast_range = 1`, fold 4 trains on `[0, 9)` and evaluates `[9, 10)`
  (`TraditionalExample`).

## Model

| member | source | states |
|---|---|---|
| PySemantics.FloorDiv | ionyx/experiment/cross_validation.py:60 | The quotient is the floor of `a / b`, for a divisor of either sign: `q * b <= a < q * b + b` when `b > 0`, and the mirrored bounds when `b < 0`. |
| PySemantics.SliceBound | ionyx/experiment/cross_validation.py:72-73 | A slice bound lands in `[0, n]`. A bound already in `[0, n]` is kept. A bound past the end becomes `n`. A negative bound with `k + n >= 0` becomes `k + n`. A bound below `-n` becomes 0. |
| PySemantics.Rows | ionyx/experiment/cross_validation.py:72-73 | Slicing a sequence by a window yields as many elements as the window is wide, and element `k` is the element at `lo + k`. |
| PySemantics.Slice | ionyx/experiment/cross_validation.py:72-73 | A slice always selects rows inside `[0, n]`, starting at the normalised start. It ends at the normalised stop when that lies past the start, and is empty otherwise. When both bounds lie in `[0, n]` and are in order, it selects exactly `[start, stop)`. |
| PySemantics.SliceBelowBounds | ionyx/experiment/cross_validation.py:72-73 | With non-negative bounds, a slice selects no row at or past the larger bound: nothing wraps to the end of the data. |
| FoldSchedule.StrategyOf | ionyx/experiment/cross_validation.py:56 | Walk-forward is chosen exactly when the option is the string `walk-forward`. Any other value runs the traditional branch. |
| FoldSchedule.WindowTypeOf | ionyx/experiment/cross_validation.py:64 | Fixed windows are chosen exactly when the option is `fixed`. Any other value is cumulative. |
| FoldSchedule.Iterations | ionyx/experiment/cross_validation.py:63 | `range(count)` runs `count` times when `count` is positive, and never otherwise. |
| FoldSchedule.FoldPlan | ionyx/experiment/cross_validation.py:54-60 | The plan fails exactly when the traditional strategy divides by a zero fold count. Under the traditional strategy with a positive fold count it keeps the caller's count, and the fold size is the floor of `n / n_folds`. |
| FoldSchedule.Bounds | ionyx/experiment/cross_validation.py:64-70 | Each fold's evaluation range `[fold_train_end, fold_end)` is `forecast_range` indices wide. With cumulative windows `fold_start` is 0. With fixed windows the training range is `fold_size + min_window - forecast_range` wide. |
| FoldSchedule.Schedule | ionyx/experiment/cross_validation.py:63-70 | The schedule fails exactly when the plan does. Otherwise it has one fold per loop iteration, and fold `i` has the indices that lines 64-70 compute for `i`. |
| FoldSchedule.TrainWindow | ionyx/experiment/cross_validation.py:72-73 | The training rows of a fold lie inside the data. |
| FoldSchedule.EvalWindow | ionyx/experiment/cross_validation.py:72-73 | The evaluation rows of a fold lie inside the data. |
| ScheduleProperties.WalkForwardFoldCount | ionyx/experiment/cross_validation.py:56-58 | Under walk-forward the caller's `n_folds` makes no difference. The loop runs `n - min_window - forecast_range` times, or none. Fold `i` ends at `i + 1 + min_window`, and its evaluation range is `forecast_range` wide. |
| ScheduleProperties.TraditionalRowsUsed | ionyx/experiment/cross_validation.py:59-60 | Under traditional, when `0 <= forecast_range <= fold_size + min_window`, there are `n_folds` folds. No training or evaluation slice reaches row `n - n % n_folds + min_window`, so with `min_window = 0` the trailing `n % n_folds` rows are never used. |
| ScheduleProperties.CumulativeStartsAtZero | ionyx/experiment/cross_validation.py:64-67 | With cumulative windows, every fold's `fold_start` is 0, and so is the first training row. |
| ScheduleProperties.FixedStartsIncrease | ionyx/experiment/cross_validation.py:64-65 | With fixed windows, `fold_start` strictly increases across folds. This holds under walk-forward, and under traditional when `0 < n_folds <= n`. |
| ScheduleProperties.EndsIncrease | ionyx/experiment/cross_validation.py:69 | Under the same condition, `fold_end` strictly increases across folds. |
| ScheduleProperties.EvalFollowsTrain | ionyx/experiment/cross_validation.py:70-73 | A fold whose indices lie in order inside `[0, n]` trains on exactly `[fold_start, fold_train_end)` and evaluates on exactly `[fold_train_end, fold_end)`. The evaluation range is `forecast_range` rows wide and starts where training stops. |
| ScheduleProperties.FixedTrainWidth | ionyx/experiment/cross_validation.py:64-70 | With fixed windows, every fold's training range is `fold_size + min_window - forecast_range` wide. |
| ScheduleProperties.CumulativeTrainGrows | ionyx/experiment/cross_validation.py:64-70 | With cumulative windows, each fold's training range is `fold_size` wider than the previous one. |
| ScheduleProperties.WalkForwardInsideData | ionyx/experiment/cross_validation.py:57-69 | Under walk-forward, when `0 <= forecast_range <= min_window + 1`, every fold lies inside the data. No evaluation slice reaches past `n - forecast_range`, and the last fold ends exactly there. |
| ScheduleProperties.TraditionalLastFold | ionyx/experiment/cross_validation.py:60-73 | Under traditional, the last fold ends at `n - n % n_folds + min_window`. Its `fold_end` lies within the data (`fold_end <= n`) if and only if `min_window <= n % n_folds`. When it does not, `forecast_range > 0` and the last fold's `fold_train_end` is not negative, its evaluation range is narrower than `forecast_range`. |
| ScheduleProperties.TraditionalExample | ionyx/experiment/cross_validation.py:53-73 | For 10 rows, 5 folds, `min_window = 0` and `forecast_range = 1`, the folds are `(0,1,2)`, `(0,3,4)`, `(0,5,6)`, `(0,7,8)` and `(0,9,10)`. The last one trains on `[0, 9)` and evaluates `[9, 10)`. |
| ScheduleProperties.NegativeTrainEndReachesPastEval | ionyx/experiment/cross_validation.py:64-73 | When `fold_size + min_window < forecast_range < n` and `min_window >= 0`, fold 0 starts at 0 and has a negative training stop. Its training slice is `[0, n + fold_train_end)`, which reaches past `fold_end`. |
| ScheduleProperties.NegativeTrainEndWraps | ionyx/experiment/cross_validation.py:69-73 | For 10 rows, 5 folds and a 3-row forecast, fold 0 has a training stop of -1. It trains on rows `[0, 9)` and evaluates no row. |
| SequenceCrossValidation.FitFold | ionyx/experiment/cross_validation.py:72-79 | For a fold inside the data, the model is refit on exactly `X[fold_start:fold_train_end]` and `y[fold_start:fold_train_end]`. |
| SequenceCrossValidation.Scores | ionyx/experiment/cross_validation.py:63-81 | Running a list of folds yields exactly one score per fold. |
| SequenceCrossValidation.SequenceCrossValidate | ionyx/experiment/cross_validation.py:53-81 | The loop fails exactly on the zero-division case and appends one score per loop iteration. The result equals the specification `Scores` over the schedule, threading the refitted state from fold to fold and scoring against the full `y`. |
| CrossValidation.Gather | ionyx/experiment/cross_validation.py:22-25 | Index-array selection yields one element per index. |
| CrossValidation.GatherAt | ionyx/experiment/cross_validation.py:22-25 | Position `k` of `s[idx]` is `s[idx[k]]`. |
| CrossValidation.EvalIndices | ionyx/experiment/cross_validation.py:20-35 | Every fold's evaluation indices occur, with their multiplicities, in the concatenated list. |
| CrossValidation.EvalLabels | ionyx/experiment/cross_validation.py:25-35 | `y_true` holds only labels taken from `y`. |
| CrossValidation.Run | ionyx/experiment/cross_validation.py:20-35 | Running the folds records exactly one training score per fold. |
| CrossValidation.CrossValidate | ionyx/experiment/cross_validation.py:15-45 | The method records one training score per fold. Its training scores and predictions are those of the specification `Run`. The returned score is computed once, over `y_true` (every fold's evaluation labels in fold order) and the concatenated predictions. |
| CrossValidation.EvalLabelsGather | ionyx/experiment/cross_validation.py:25-35 | The accumulated `y_true` equals `y` selected at all evaluation indices in fold order. |
| CrossValidation.PartitionCoversEveryLabel | ionyx/experiment/cross_validation.py:19-35 | When the evaluation indices are a permutation of `0 .. len(y)-1`, `y_true` holds every label of `y` exactly once. |
| CrossValidation.PredictionsMatchLabels | ionyx/experiment/cross_validation.py:34-35 | When the model returns one prediction per row, `y_pred` and `y_true` have the same length. |
| CrossValidation.GatherAppend | ionyx/experiment/cross_validation.py:34-35 | Selecting by concatenated index lists concatenates the selections. |
| CrossValidation.RunAppend | ionyx/experiment/cross_validation.py:20-35 | When the refit ignores the state it is given, running two lists of folds one after the other records the training scores and predictions of each list, concatenated. |
| CrossValidation.RunFromAnyState | ionyx/experiment/cross_validation.py:27-31 | When the refit ignores the state it is given, the outcome of the loop does not depend on the initial `transforms`. |
| CrossValidation.EvalLabelsAppend | ionyx/experiment/cross_validation.py:25-35 | `y_true` over two lists of folds is `y_true` over the first followed by `y_true` over the second. |
| CrossValidation.SwapAdjacentFolds | ionyx/experiment/cross_validation.py:20-35 | When the refit ignores the state it is given, swapping two adjacent folds swaps the matching blocks of `y_true`, `y_pred` and the training scores, and leaves the blocks before and after in place. |
| CrossValidation.GatherPermutation | ionyx/experiment/cross_validation.py:25-35 | Selecting by two index lists that are permutations of each other gives selections that are permutations of each other. |

## Left out

- CrossValidate: the aggregate score is not promised to be independent of the order of the folds. Each refit starts from the `transforms` the previous fold produced (line 27), so with a refit that depends on that state the (label, prediction) pairs can differ between two orders of the same folds. `SwapAdjacentFolds` gives the order independence only for a refit that ignores the state, and only up to the order of the pairs, which a metric may or may not care about.
- `KFold` partitioning (line 19) is an external library call. Its folds are an input to `CrossValidate`, with their indices in range. Its shuffling and seed are not modelled.
- `fit_transforms`, `apply_transforms`, `score`, `model.fit` and `model.predict` (lines 27-34, 75-81) are external. They appear only as the parameters `fit`, `predict` and `score`, with no contract of their own.
- `np.mean(scores)` (line 92) and the average training score (line 40) are floating-point computations. `SequenceCrossValidate` returns the list of scores, and `CrossValidate` returns the training scores instead of their average. The mean of an empty list, when no fold runs, is not modelled.
- `np.append` (lines 16-17, 34-35) flattens `y_pred` and `y_true` into one-dimensional float arrays. The model concatenates label and prediction values as they are, which is the same only when `y` is one-dimensional. The score is a parameter of the model, so no stated property depends on this.
- The per-fold error plot (lines 83-87), all timing and printing (lines 14, 21, 37-43, 62, 89-90) and the `plot` option are I/O.
- `plot_learning_curve` (lines 95-123) is a thin wrapper around an external learning-curve routine and plotting.
- `X` and `y` are assumed to have the same number of rows, as the data set requires. The source does not check this.
- Index arrays from the partitioner are non-negative (`nat`). Negative fancy indices, which numpy would wrap, are not modelled.
- The options are modelled as integers and the two string choices. Non-integer `n_folds`, `min_window` or `forecast_range` values, which Python would accept, are not modelled.
