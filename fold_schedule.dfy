/**
  The fold-window schedule of `sequence_cross_validate`: how many folds there
  are, how wide each fold step is, and for fold `i` the three row indices
  `fold_start`, `fold_train_end` and `fold_end`.  Training uses the rows
  `X[fold_start:fold_train_end]`, evaluation the rows
  `X[fold_train_end:fold_end]`.
*/
module FoldSchedule {
  import opened PySemantics

  /** The `strategy` option. */
  datatype Strategy = Traditional | WalkForward

  /** The `window_type` option. */
  datatype WindowType = Cumulative | Fixed

  /** The source compares `strategy` with the string 'walk-forward' only:
      every other value, misspellings included, runs the traditional branch. */
  function StrategyOf(name: string): (s: Strategy)
    ensures s == WalkForward <==> name == "walk-forward"
  {
    if name == "walk-forward" then WalkForward else Traditional
  }

  /** Likewise only 'fixed' selects sliding windows; anything else is cumulative. */
  function WindowTypeOf(name: string): (w: WindowType)
    ensures w == Fixed <==> name == "fixed"
  {
    if name == "fixed" then Fixed else Cumulative
  }

  /** The windowing options of a call, with the source's integer parameters. */
  datatype Config = Config(strategy: Strategy, windowType: WindowType, minWindow: int, forecastRange: int)

  /** The failure the schedule can raise: `len(X) / n_folds` with `n_folds == 0`. */
  datatype Error = ZeroDivision

  datatype Result<T> = Ok(value: T) | Err(error: Error)

  /** The loop bound `n_folds` after the strategy has been applied, and `fold_size`. */
  datatype Plan = Plan(count: int, size: int)

  /** The three indices of one fold. */
  datatype Fold = Fold(start: int, trainEnd: int, end: int)

  /** How many times `for i in range(count)` runs. */
  function Iterations(count: int): (k: nat)
    ensures k <= count || k == 0
    ensures count > 0 ==> k == count
  {
    if count > 0 then count else 0
  }

  /** Fold count and fold size. Walk-forward ignores the caller's `nFolds`:
      one-row steps over everything but `minWindow` and `forecastRange`.
      Traditional divides the row count by `nFolds`, rounding down, and
      raises when `nFolds` is zero. */
  function FoldPlan(n: nat, nFolds: int, cfg: Config): (r: Result<Plan>)
    ensures r.Err? <==> cfg.strategy == Traditional && nFolds == 0
    ensures cfg.strategy == Traditional && nFolds > 0 ==>
              r.Ok? && r.value.count == nFolds &&
              r.value.size * nFolds <= n < r.value.size * nFolds + nFolds
  {
    match cfg.strategy
    case WalkForward => Ok(Plan(n - cfg.minWindow - cfg.forecastRange, 1))
    case Traditional =>
      if nFolds == 0 then Err(ZeroDivision) else Ok(Plan(nFolds, FloorDiv(n, nFolds)))
  }

  /** The indices of fold `i` when each fold advances by `size` rows. */
  function Bounds(cfg: Config, size: int, i: nat): (f: Fold)
    ensures f.end - f.trainEnd == cfg.forecastRange
    ensures cfg.windowType == Cumulative ==> f.start == 0
    ensures cfg.windowType == Fixed ==> f.trainEnd - f.start == size + cfg.minWindow - cfg.forecastRange
  {
    var start := if cfg.windowType == Fixed then i * size else 0;
    var end := (i + 1) * size + cfg.minWindow;
    Fold(start, end - cfg.forecastRange, end)
  }

  /** Every fold the loop visits, in order, for a data set of `n` rows. */
  function Schedule(n: nat, nFolds: int, cfg: Config): (r: Result<seq<Fold>>)
    ensures r.Err? <==> FoldPlan(n, nFolds, cfg).Err?
    ensures r.Ok? ==> |r.value| == Iterations(FoldPlan(n, nFolds, cfg).value.count)
    ensures r.Ok? ==> forall i :: 0 <= i < |r.value| ==>
              r.value[i] == Bounds(cfg, FoldPlan(n, nFolds, cfg).value.size, i)
  {
    match FoldPlan(n, nFolds, cfg)
    case Err(e) => Err(e)
    case Ok(p) =>
      Ok(seq(Iterations(p.count), i requires 0 <= i < Iterations(p.count) => Bounds(cfg, p.size, i)))
  }

  /** The rows fold `f` trains on in a data set of `n` rows. */
  function TrainWindow(n: nat, f: Fold): (w: Window)
    ensures w.lo <= w.hi <= n
  {
    Slice(n, f.start, f.trainEnd)
  }

  /** The rows fold `f` is evaluated on in a data set of `n` rows. */
  function EvalWindow(n: nat, f: Fold): (w: Window)
    ensures w.lo <= w.hi <= n
  {
    Slice(n, f.trainEnd, f.end)
  }

  /** All three indices of `f` lie in [0, n] and in order, so no slice wraps or is clamped. */
  predicate InsideData(n: nat, f: Fold) {
    0 <= f.start <= f.trainEnd <= f.end <= n
  }
}
