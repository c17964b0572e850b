/**
  The driver loop of `sequence_cross_validate`: for every fold of the
  schedule, refit on the training rows, predict the evaluation rows and
  append one score.

  The collaborators the source calls are parameters:
  - `fit(st, X_train, y_train)` is the refit of the transforms followed by
    `model.fit`; the state `st` carries both the transforms (which the source
    rebinds every fold) and the model, from one fold to the next;
  - `predict(st, X_eval)` applies the fitted transforms and calls `model.predict`;
  - `score(labels, predictions)` is the metric.
*/
module SequenceCrossValidation {
  import opened PySemantics
  import opened FoldSchedule

  /** The state after fold `f` has been fitted on its training rows. */
  function FitFold<Row, Label, State>(
    X: seq<Row>, y: seq<Label>, f: Fold, st: State,
    fit: (State, seq<Row>, seq<Label>) -> State): (r: State)
    requires |X| == |y|
    ensures InsideData(|X|, f) ==> r == fit(st, X[f.start..f.trainEnd], y[f.start..f.trainEnd])
  {
    var train := TrainWindow(|X|, f);
    fit(st, Rows(X, train), Rows(y, train))
  }

  /** The scores the loop appends when it runs `folds` in order starting
      from state `st`. Each fold's predictions are scored against the whole
      label vector `y`, not only its evaluation rows, as the source does. */
  function Scores<Row, Label, State, Pred, Score>(
    X: seq<Row>, y: seq<Label>, folds: seq<Fold>, st: State,
    fit: (State, seq<Row>, seq<Label>) -> State,
    predict: (State, seq<Row>) -> seq<Pred>,
    score: (seq<Label>, seq<Pred>) -> Score): (r: seq<Score>)
    requires |X| == |y|
    ensures |r| == |folds|
    decreases |folds|
  {
    if folds == [] then []
    else
      var fitted := FitFold(X, y, folds[0], st, fit);
      var pred := predict(fitted, Rows(X, EvalWindow(|X|, folds[0])));
      [score(y, pred)] + Scores(X, y, folds[1..], fitted, fit, predict, score)
  }

  /** The loop of `sequence_cross_validate`, returning the per-fold scores
      whose mean the source returns. It fails exactly when the traditional
      strategy divides by a zero fold count, appends one score per fold the
      loop visits, and each score is that of the fold in schedule order. */
  method SequenceCrossValidate<Row, Label, State, Pred, Score>(
    X: seq<Row>, y: seq<Label>, nFolds: int, cfg: Config, transforms: State,
    fit: (State, seq<Row>, seq<Label>) -> State,
    predict: (State, seq<Row>) -> seq<Pred>,
    score: (seq<Label>, seq<Pred>) -> Score)
    returns (r: Result<seq<Score>>)
    requires |X| == |y|
    ensures r.Err? <==> cfg.strategy == Traditional && nFolds == 0
    ensures r.Ok? ==> |r.value| == Iterations(FoldPlan(|X|, nFolds, cfg).value.count)
    ensures r.Ok? ==> Schedule(|X|, nFolds, cfg).Ok?
    ensures r.Ok? ==> r.value == Scores(X, y, Schedule(|X|, nFolds, cfg).value,
                                        transforms, fit, predict, score)
  {
    var plan := FoldPlan(|X|, nFolds, cfg);
    if plan.Err? {
      return Err(plan.error);
    }
    var count, size := plan.value.count, plan.value.size;
    ghost var folds := Schedule(|X|, nFolds, cfg).value;
    var scores: seq<Score> := [];
    var st := transforms;
    for i := 0 to Iterations(count)
      invariant |folds| == Iterations(count)
      invariant scores + Scores(X, y, folds[i..], st, fit, predict, score)
                == Scores(X, y, folds, transforms, fit, predict, score)
    {
      var f := Bounds(cfg, size, i);
      assert f == folds[i];
      ScoresStep(X, y, folds, i, st, scores, fit, predict, score);
      st := FitFold(X, y, f, st, fit);
      var pred := predict(st, Rows(X, EvalWindow(|X|, f)));
      scores := scores + [score(y, pred)];
    }
    assert folds[|folds|..] == [];
    r := Ok(scores);
  }

  /** Running the folds from position `i` on scores fold `i` first, then the rest
      from the state fold `i` leaves behind: appending fold `i`'s score to the
      scores so far keeps the total. */
  lemma ScoresStep<Row, Label, State, Pred, Score>(
    X: seq<Row>, y: seq<Label>, folds: seq<Fold>, i: nat, st: State, acc: seq<Score>,
    fit: (State, seq<Row>, seq<Label>) -> State,
    predict: (State, seq<Row>) -> seq<Pred>,
    score: (seq<Label>, seq<Pred>) -> Score)
    requires |X| == |y| && i < |folds|
    ensures var fitted := FitFold(X, y, folds[i], st, fit);
            acc + Scores(X, y, folds[i..], st, fit, predict, score) ==
            (acc + [score(y, predict(fitted, Rows(X, EvalWindow(|X|, folds[i]))))]) +
            Scores(X, y, folds[i + 1..], fitted, fit, predict, score)
  {
    assert folds[i..][0] == folds[i] && folds[i..][1..] == folds[i + 1..];
    var fitted := FitFold(X, y, folds[i], st, fit);
    var x := score(y, predict(fitted, Rows(X, EvalWindow(|X|, folds[i]))));
    var rest := Scores(X, y, folds[i + 1..], fitted, fit, predict, score);
    assert acc + ([x] + rest) == (acc + [x]) + rest;
  }
}
