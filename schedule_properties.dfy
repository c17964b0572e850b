/**
  What the fold schedule guarantees: fold counts, the shape of each window,
  monotonicity across folds, and which rows can ever be used.
*/
module ScheduleProperties {
  import opened PySemantics
  import opened FoldSchedule

  /** Under walk-forward the caller's fold count plays no part: the loop runs
      `n - minWindow - forecastRange` times (none when that is not positive),
      each fold one row further than the last, and every evaluation range is
      `forecastRange` indices wide. */
  lemma WalkForwardFoldCount(n: nat, nFolds: int, other: int, cfg: Config, folds: seq<Fold>)
    requires cfg.strategy == WalkForward
    requires Schedule(n, nFolds, cfg) == Ok(folds)
    ensures Schedule(n, other, cfg) == Ok(folds)
    ensures |folds| == Iterations(n - cfg.minWindow - cfg.forecastRange)
    ensures forall i :: 0 <= i < |folds| ==>
              folds[i].end == i + 1 + cfg.minWindow && folds[i].end - folds[i].trainEnd == cfg.forecastRange
  {
  }

  /** Under the traditional strategy the fold size is the row count divided
      by the fold count, rounded down, so folds only reach as far as
      `n - n % nFolds + minWindow`: with `minWindow == 0` the last
      `n % nFolds` rows are in no training and no evaluation window. */
  lemma {:induction false} TraditionalRowsUsed(n: nat, nFolds: int, cfg: Config, folds: seq<Fold>)
    requires cfg.strategy == Traditional && nFolds > 0
    requires Schedule(n, nFolds, cfg) == Ok(folds)
    requires 0 <= cfg.forecastRange <= n / nFolds + cfg.minWindow
    ensures |folds| == nFolds
    ensures forall i :: 0 <= i < |folds| ==>
              TrainWindow(n, folds[i]).hi <= n - n % nFolds + cfg.minWindow &&
              EvalWindow(n, folds[i]).hi <= n - n % nFolds + cfg.minWindow
  {
    var size := FoldPlan(n, nFolds, cfg).value.size;
    SizeIsQuotient(n, nFolds, cfg);
    forall i | 0 <= i < |folds|
      ensures TrainWindow(n, folds[i]).hi <= n - n % nFolds + cfg.minWindow
      ensures EvalWindow(n, folds[i]).hi <= n - n % nFolds + cfg.minWindow
    {
      var f := folds[i];
      assert f == Bounds(cfg, size, i);
      MulMono(i + 1, nFolds, size);
      MulMono(i, i + 1, size);
      MulMono(1, i + 1, size);
      assert 0 <= f.start <= (i + 1) * size;
      assert (i + 1) * size <= nFolds * size == n - n % nFolds;
      SliceBelowBounds(n, f.start, f.trainEnd);
      SliceBelowBounds(n, f.trainEnd, f.end);
    }
  }

  /** With cumulative windows every fold trains from row 0. */
  lemma CumulativeStartsAtZero(n: nat, nFolds: int, cfg: Config, folds: seq<Fold>)
    requires cfg.windowType == Cumulative
    requires Schedule(n, nFolds, cfg) == Ok(folds)
    ensures forall i :: 0 <= i < |folds| ==> folds[i].start == 0 && TrainWindow(n, folds[i]).lo == 0
  {
  }

  /** With fixed windows the training start moves strictly forward from fold
      to fold whenever the fold size is at least one: always under
      walk-forward, and under traditional when there are no more folds than rows. */
  lemma FixedStartsIncrease(n: nat, nFolds: int, cfg: Config, folds: seq<Fold>)
    requires cfg.windowType == Fixed
    requires cfg.strategy == WalkForward || 0 < nFolds <= n
    requires Schedule(n, nFolds, cfg) == Ok(folds)
    ensures forall i, j :: 0 <= i < j < |folds| ==> folds[i].start < folds[j].start
  {
    var size := FoldPlan(n, nFolds, cfg).value.size;
    SizeAtLeastOne(n, nFolds, cfg);
    forall i, j | 0 <= i < j < |folds| ensures folds[i].start < folds[j].start {
      assert folds[i] == Bounds(cfg, size, i) && folds[j] == Bounds(cfg, size, j);
      MulMonotone(i, j, size);
    }
  }

  /** Under the same condition `fold_end` strictly increases from fold to fold. */
  lemma EndsIncrease(n: nat, nFolds: int, cfg: Config, folds: seq<Fold>)
    requires cfg.strategy == WalkForward || 0 < nFolds <= n
    requires Schedule(n, nFolds, cfg) == Ok(folds)
    ensures forall i, j :: 0 <= i < j < |folds| ==> folds[i].end < folds[j].end
  {
    var size := FoldPlan(n, nFolds, cfg).value.size;
    SizeAtLeastOne(n, nFolds, cfg);
    forall i, j | 0 <= i < j < |folds| ensures folds[i].end < folds[j].end {
      assert folds[i] == Bounds(cfg, size, i) && folds[j] == Bounds(cfg, size, j);
      MulMonotone(i + 1, j + 1, size);
    }
  }

  /** A fold whose indices lie inside the data trains on exactly
      `[start, trainEnd)` and evaluates on exactly `[trainEnd, end)`: the
      evaluation range is `forecastRange` rows wide, begins where training
      stops, and the two share no row. */
  lemma EvalFollowsTrain(n: nat, nFolds: int, cfg: Config, folds: seq<Fold>, i: nat)
    requires Schedule(n, nFolds, cfg) == Ok(folds)
    requires i < |folds| && InsideData(n, folds[i])
    ensures TrainWindow(n, folds[i]) == Window(folds[i].start, folds[i].trainEnd)
    ensures EvalWindow(n, folds[i]) == Window(folds[i].trainEnd, folds[i].end)
    ensures Width(EvalWindow(n, folds[i])) == cfg.forecastRange
    ensures TrainWindow(n, folds[i]).hi == EvalWindow(n, folds[i]).lo
  {
  }

  /** With fixed windows every fold trains on the same number of indices,
      `size + minWindow - forecastRange`. */
  lemma FixedTrainWidth(n: nat, nFolds: int, cfg: Config, folds: seq<Fold>)
    requires cfg.windowType == Fixed
    requires Schedule(n, nFolds, cfg) == Ok(folds)
    ensures forall i :: 0 <= i < |folds| ==>
              folds[i].trainEnd - folds[i].start ==
              FoldPlan(n, nFolds, cfg).value.size + cfg.minWindow - cfg.forecastRange
  {
  }

  /** With cumulative windows each fold trains on `size` more indices than
      the one before. */
  lemma CumulativeTrainGrows(n: nat, nFolds: int, cfg: Config, folds: seq<Fold>)
    requires cfg.windowType == Cumulative
    requires Schedule(n, nFolds, cfg) == Ok(folds)
    ensures forall i :: 0 < i < |folds| ==>
              folds[i].trainEnd - folds[i].start ==
              folds[i - 1].trainEnd - folds[i - 1].start + FoldPlan(n, nFolds, cfg).value.size
  {
  }

  /** Under walk-forward, when the evaluation range is no wider than
      `minWindow + 1`, every fold lies inside the data, and the last fold
      ends at `n - forecastRange`: the final `forecastRange` rows are never
      evaluated. */
  lemma WalkForwardInsideData(n: nat, nFolds: int, cfg: Config, folds: seq<Fold>)
    requires cfg.strategy == WalkForward
    requires 0 <= cfg.forecastRange <= cfg.minWindow + 1
    requires Schedule(n, nFolds, cfg) == Ok(folds)
    ensures forall i :: 0 <= i < |folds| ==> InsideData(n, folds[i])
    ensures forall i :: 0 <= i < |folds| ==> EvalWindow(n, folds[i]).hi <= n - cfg.forecastRange
    ensures |folds| > 0 ==> folds[|folds| - 1].end == n - cfg.forecastRange
  {
  }

  /** Under the traditional strategy the last fold ends at
      `n - n % nFolds + minWindow`. It therefore runs past the data exactly
      when `minWindow` exceeds `n % nFolds`, and then its evaluation range
      is cut short to fewer than `forecastRange` rows. */
  lemma TraditionalLastFold(n: nat, nFolds: int, cfg: Config, folds: seq<Fold>)
    requires cfg.strategy == Traditional && nFolds > 0
    requires Schedule(n, nFolds, cfg) == Ok(folds)
    ensures |folds| == nFolds
    ensures folds[nFolds - 1].end == n - n % nFolds + cfg.minWindow
    ensures folds[nFolds - 1].end <= n <==> cfg.minWindow <= n % nFolds
    ensures cfg.minWindow > n % nFolds && 0 < cfg.forecastRange && 0 <= folds[nFolds - 1].trainEnd ==>
              Width(EvalWindow(n, folds[nFolds - 1])) < cfg.forecastRange
  {
  }

  /** A 10-row series in 5 traditional cumulative folds with one-row
      forecasts: fold 0 trains on row 0 and evaluates row 1, and fold 4
      trains on rows 0..8 and evaluates row 9. */
  lemma TraditionalExample()
    ensures Schedule(10, 5, Config(Traditional, Cumulative, 0, 1)) ==
            Ok([Fold(0, 1, 2), Fold(0, 3, 4), Fold(0, 5, 6), Fold(0, 7, 8), Fold(0, 9, 10)])
    ensures TrainWindow(10, Fold(0, 9, 10)) == Window(0, 9) && EvalWindow(10, Fold(0, 9, 10)) == Window(9, 10)
  {
    var cfg := Config(Traditional, Cumulative, 0, 1);
    assert FoldPlan(10, 5, cfg) == Ok(Plan(5, 2)) by {
      assert FloorDiv(10, 5) == 2;
    }
    assert Schedule(10, 5, cfg).Ok?;
    var folds := Schedule(10, 5, cfg).value;
    assert folds == [Bounds(cfg, 2, 0), Bounds(cfg, 2, 1), Bounds(cfg, 2, 2), Bounds(cfg, 2, 3), Bounds(cfg, 2, 4)] by {
      assert |folds| == 5 && forall i :: 0 <= i < 5 ==> folds[i] == Bounds(cfg, 2, i);
    }
    assert TrainWindow(10, Fold(0, 9, 10)) == Window(0, 9) by {
      assert SliceBound(0, 10) == 0 && SliceBound(9, 10) == 9;
    }
    assert EvalWindow(10, Fold(0, 9, 10)) == Window(9, 10) by {
      assert SliceBound(9, 10) == 9 && SliceBound(10, 10) == 10;
    }
  }

  /** When `forecastRange` exceeds `size + minWindow`, the first fold's
      training stop is negative and wraps: on 10 rows in 5 folds with a
      3-row forecast, fold 0 ends at row 2 yet trains on rows 0..8, and
      evaluates on no row at all. */
  lemma NegativeTrainEndWraps()
    ensures Schedule(10, 5, Config(Traditional, Cumulative, 0, 3)).value[0] == Fold(0, -1, 2)
    ensures TrainWindow(10, Fold(0, -1, 2)) == Window(0, 9)
    ensures Width(EvalWindow(10, Fold(0, -1, 2))) == 0
  {
  }

  /** In general: whenever `forecastRange` exceeds `size + minWindow` but
      not the row count, and `minWindow` is not negative, fold 0's training
      stop is negative, the slice wraps to `n + trainEnd`, and training
      reaches rows at and after `fold_end`, beyond the evaluation point. */
  lemma NegativeTrainEndReachesPastEval(n: nat, nFolds: int, cfg: Config, folds: seq<Fold>)
    requires Schedule(n, nFolds, cfg) == Ok(folds) && |folds| > 0
    requires cfg.minWindow >= 0
    requires FoldPlan(n, nFolds, cfg).value.size + cfg.minWindow < cfg.forecastRange < n
    ensures folds[0].start == 0 && folds[0].trainEnd < 0
    ensures TrainWindow(n, folds[0]).lo == 0 && TrainWindow(n, folds[0]).hi == n + folds[0].trainEnd
    ensures TrainWindow(n, folds[0]).hi > folds[0].end
  {
    var plan := FoldPlan(n, nFolds, cfg).value;
    assert plan.count > 0;
    assert plan.size >= 0 by {
      if cfg.strategy == Traditional {
        SizeIsQuotient(n, nFolds, cfg);
      }
    }
    var trainEnd := plan.size + cfg.minWindow - cfg.forecastRange;
    assert folds[0] == Fold(0, trainEnd, plan.size + cfg.minWindow) by {
      assert folds[0] == Bounds(cfg, plan.size, 0);
    }
    assert SliceBound(trainEnd, n) == n + trainEnd;
  }

  // Arithmetic helpers.

  lemma SizeIsQuotient(n: nat, nFolds: int, cfg: Config)
    requires cfg.strategy == Traditional && nFolds > 0
    ensures FoldPlan(n, nFolds, cfg).Ok?
    ensures var size := FoldPlan(n, nFolds, cfg).value.size;
            size == n / nFolds && size * nFolds == n - n % nFolds && size >= 0
  {
    assert n == (n / nFolds) * nFolds + n % nFolds;
  }

  lemma SizeAtLeastOne(n: nat, nFolds: int, cfg: Config)
    requires cfg.strategy == WalkForward || 0 < nFolds <= n
    ensures FoldPlan(n, nFolds, cfg).Ok? && FoldPlan(n, nFolds, cfg).value.size >= 1
  {
  }

  lemma MulMono(a: int, b: int, c: int)
    requires a <= b && c >= 0
    ensures a * c <= b * c
  {
    assert b * c - a * c == (b - a) * c;
  }

  lemma MulMonotone(a: int, b: int, c: int)
    requires a < b && c >= 1
    ensures a * c < b * c
  {
    assert b * c - a * c == (b - a) * c;
  }
}
