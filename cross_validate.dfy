/**
  The accumulation loop of `cross_validate`. The folds come from the
  partitioner as pairs of index lists (training rows, evaluation rows); for
  each fold the transforms and the model are refit on the training rows,
  one training score is recorded, and the predictions and true labels of
  the evaluation rows are appended to `y_pred` and `y_true`. One score over
  everything appended is the result.

  As in the windowed variant, `fit`, `predict` and `score` stand for the
  transform pipeline with the model, and for the metric; the state passed
  from fold to fold carries the transforms the source rebinds each fold.
*/
module CrossValidation {

  /** One fold as the partitioner yields it. */
  datatype Split = Split(train: seq<nat>, eval: seq<nat>)

  predicate IndicesIn(idx: seq<nat>, n: nat) {
    forall k :: 0 <= k < |idx| ==> idx[k] < n
  }

  predicate SplitsIn(folds: seq<Split>, n: nat) {
    forall i :: 0 <= i < |folds| ==> IndicesIn(folds[i].train, n) && IndicesIn(folds[i].eval, n)
  }

  /** Index-array selection `s[idx]`: the elements at `idx`, in the order of `idx`. */
  function Gather<T>(s: seq<T>, idx: seq<nat>): (r: seq<T>)
    requires IndicesIn(idx, |s|)
    ensures |r| == |idx|
  {
    if idx == [] then [] else [s[idx[0]]] + Gather(s, idx[1..])
  }

  /** Position `k` of `s[idx]` holds the element of `s` at `idx[k]`. */
  lemma {:induction false} GatherAt<T>(s: seq<T>, idx: seq<nat>, k: nat)
    requires IndicesIn(idx, |s|) && k < |idx|
    ensures Gather(s, idx)[k] == s[idx[k]]
  {
    if k > 0 {
      GatherAt(s, idx[1..], k - 1);
    }
  }

  /** Every evaluation index of the folds, fold after fold. */
  function EvalIndices(folds: seq<Split>): (r: seq<nat>)
    ensures forall i :: 0 <= i < |folds| ==> multiset(folds[i].eval) <= multiset(r)
  {
    if folds == [] then [] else folds[0].eval + EvalIndices(folds[1..])
  }

  /** `y_true` once the loop is done: the labels of each fold's evaluation
      rows, appended fold after fold. */
  function EvalLabels<Label>(y: seq<Label>, folds: seq<Split>): (r: seq<Label>)
    requires SplitsIn(folds, |y|)
    ensures forall k :: 0 <= k < |r| ==> r[k] in y
  {
    if folds == [] then []
    else
      var head := Gather(y, folds[0].eval);
      assert forall k :: 0 <= k < |head| ==> head[k] in y by {
        forall k | 0 <= k < |head| ensures head[k] in y {
          GatherAt(y, folds[0].eval, k);
        }
      }
      head + EvalLabels(y, folds[1..])
  }

  /** What the loop records: one training score per fold, and the
      evaluation predictions of all folds appended in order. */
  datatype Outcome<Score, Pred> = Outcome(trainScores: seq<Score>, predictions: seq<Pred>)

  /** The outcome of running `folds` in order starting from state `st`. */
  function Run<Row, Label, State, Pred, Score>(
    X: seq<Row>, y: seq<Label>, folds: seq<Split>, st: State,
    fit: (State, seq<Row>, seq<Label>) -> State,
    predict: (State, seq<Row>) -> seq<Pred>,
    score: (seq<Label>, seq<Pred>) -> Score): (r: Outcome<Score, Pred>)
    requires |X| == |y| && SplitsIn(folds, |y|)
    ensures |r.trainScores| == |folds|
    decreases |folds|
  {
    if folds == [] then Outcome([], [])
    else
      var f := folds[0];
      var xTrain, yTrain := Gather(X, f.train), Gather(y, f.train);
      var fitted := fit(st, xTrain, yTrain);
      var rest := Run(X, y, folds[1..], fitted, fit, predict, score);
      Outcome([score(yTrain, predict(fitted, xTrain))] + rest.trainScores,
              predict(fitted, Gather(X, f.eval)) + rest.predictions)
  }

  /** The loop of `cross_validate`. It returns the aggregate score, computed
      once over the concatenated evaluation labels and predictions, together
      with the per-fold training scores the source averages for display. */
  method CrossValidate<Row, Label, State, Pred, Score>(
    X: seq<Row>, y: seq<Label>, folds: seq<Split>, transforms: State,
    fit: (State, seq<Row>, seq<Label>) -> State,
    predict: (State, seq<Row>) -> seq<Pred>,
    score: (seq<Label>, seq<Pred>) -> Score)
    returns (cvScore: Score, trainScores: seq<Score>)
    requires |X| == |y| && SplitsIn(folds, |y|)
    ensures |trainScores| == |folds|
    ensures trainScores == Run(X, y, folds, transforms, fit, predict, score).trainScores
    ensures cvScore == score(EvalLabels(y, folds), Run(X, y, folds, transforms, fit, predict, score).predictions)
  {
    ghost var whole := Run(X, y, folds, transforms, fit, predict, score);
    trainScores := [];
    var yPred: seq<Pred> := [];
    var yTrue: seq<Label> := [];
    var st := transforms;
    for i := 0 to |folds|
      invariant trainScores + Run(X, y, folds[i..], st, fit, predict, score).trainScores == whole.trainScores
      invariant yPred + Run(X, y, folds[i..], st, fit, predict, score).predictions == whole.predictions
      invariant yTrue + EvalLabels(y, folds[i..]) == EvalLabels(y, folds)
    {
      RunStep(X, y, folds, i, st, fit, predict, score);
      EvalLabelsStep(y, folds, i);
      var xTrain, yTrain := Gather(X, folds[i].train), Gather(y, folds[i].train);
      var xEval, yEval := Gather(X, folds[i].eval), Gather(y, folds[i].eval);
      st := fit(st, xTrain, yTrain);
      ghost var rest := Run(X, y, folds[i + 1..], st, fit, predict, score);
      Shift(trainScores, [score(yTrain, predict(st, xTrain))], rest.trainScores, whole.trainScores);
      Shift(yPred, predict(st, xEval), rest.predictions, whole.predictions);
      Shift(yTrue, yEval, EvalLabels(y, folds[i + 1..]), EvalLabels(y, folds));
      trainScores := trainScores + [score(yTrain, predict(st, xTrain))];
      yPred := yPred + predict(st, xEval);
      yTrue := yTrue + yEval;
    }
    assert folds[|folds|..] == [];
    assert yTrue == EvalLabels(y, folds) && yPred == whole.predictions;
    cvScore := score(yTrue, yPred);
  }

  /** `y_true` is `y` selected at all evaluation indices at once. */
  lemma {:induction false} EvalLabelsGather<Label>(y: seq<Label>, folds: seq<Split>)
    requires SplitsIn(folds, |y|)
    ensures IndicesIn(EvalIndices(folds), |y|)
    ensures EvalLabels(y, folds) == Gather(y, EvalIndices(folds))
  {
    if folds != [] {
      EvalLabelsGather(y, folds[1..]);
      GatherAppend(y, folds[0].eval, EvalIndices(folds[1..]));
    }
  }

  /** When the folds' evaluation indices are the row indices `0 .. |y|-1`,
      each exactly once (the partitioner's promise), `y_true` holds every
      label of `y` exactly once: the aggregate score sees the whole data set. */
  lemma PartitionCoversEveryLabel<Label>(y: seq<Label>, folds: seq<Split>)
    requires SplitsIn(folds, |y|)
    requires multiset(EvalIndices(folds)) == multiset(Range(|y|))
    ensures |EvalLabels(y, folds)| == |y|
    ensures multiset(EvalLabels(y, folds)) == multiset(y)
  {
    EvalLabelsGather(y, folds);
    GatherPermutation(y, EvalIndices(folds), Range(|y|));
    GatherRange(y);
  }

  /** When the model returns one prediction per row, `y_pred` and `y_true`
      have the same length, so the final score compares them position by position. */
  lemma {:induction false} PredictionsMatchLabels<Row, Label, State, Pred, Score>(
    X: seq<Row>, y: seq<Label>, folds: seq<Split>, st: State,
    fit: (State, seq<Row>, seq<Label>) -> State,
    predict: (State, seq<Row>) -> seq<Pred>,
    score: (seq<Label>, seq<Pred>) -> Score)
    requires |X| == |y| && SplitsIn(folds, |y|)
    requires forall s: State, rows: seq<Row> :: |predict(s, rows)| == |rows|
    ensures |Run(X, y, folds, st, fit, predict, score).predictions| == |EvalLabels(y, folds)|
  {
    if folds != [] {
      var fitted := fit(st, Gather(X, folds[0].train), Gather(y, folds[0].train));
      OnePredictionPerRow(predict, fitted, Gather(X, folds[0].eval));
      PredictionsMatchLabels(X, y, folds[1..], fitted, fit, predict, score);
    }
  }

  /** `fit` ignores the state it is given: the transforms and the model are
      rebuilt from the training rows alone. */
  ghost predicate Stateless<Row(!new), Label(!new), State(!new)>(fit: (State, seq<Row>, seq<Label>) -> State) {
    forall s1: State, s2: State, rows: seq<Row>, labels: seq<Label> :: fit(s1, rows, labels) == fit(s2, rows, labels)
  }

  /** When `fit` ignores the state it is given, swapping two adjacent folds
      swaps the matching blocks of `y_true`, of `y_pred` and of the training
      scores, and leaves everything else in place: the (label, prediction)
      pairs the final score sees are the same, only in another order. With a
      `fit` that depends on the state the previous fold left behind this
      does not hold in general. */
  lemma SwapAdjacentFolds<Row(!new), Label(!new), State(!new), Pred, Score>(
    X: seq<Row>, y: seq<Label>, pre: seq<Split>, a: Split, b: Split, post: seq<Split>, st: State,
    fit: (State, seq<Row>, seq<Label>) -> State,
    predict: (State, seq<Row>) -> seq<Pred>,
    score: (seq<Label>, seq<Pred>) -> Score)
    requires |X| == |y| && Stateless(fit)
    requires SplitsIn(pre, |y|) && SplitsIn([a], |y|) && SplitsIn([b], |y|) && SplitsIn(post, |y|)
    ensures SplitsIn(pre + [a, b] + post, |y|) && SplitsIn(pre + [b, a] + post, |y|)
    ensures EvalLabels(y, pre + [a, b] + post) ==
            EvalLabels(y, pre) + EvalLabels(y, [a]) + EvalLabels(y, [b]) + EvalLabels(y, post)
    ensures EvalLabels(y, pre + [b, a] + post) ==
            EvalLabels(y, pre) + EvalLabels(y, [b]) + EvalLabels(y, [a]) + EvalLabels(y, post)
    ensures var one := Run(X, y, pre + [a, b] + post, st, fit, predict, score);
            var two := Run(X, y, pre + [b, a] + post, st, fit, predict, score);
            var p, pa, pb, q := Run(X, y, pre, st, fit, predict, score), Run(X, y, [a], st, fit, predict, score),
                                Run(X, y, [b], st, fit, predict, score), Run(X, y, post, st, fit, predict, score);
            one.predictions == p.predictions + pa.predictions + pb.predictions + q.predictions &&
            two.predictions == p.predictions + pb.predictions + pa.predictions + q.predictions &&
            one.trainScores == p.trainScores + pa.trainScores + pb.trainScores + q.trainScores &&
            two.trainScores == p.trainScores + pb.trainScores + pa.trainScores + q.trainScores
  {
    Ordered(X, y, pre, a, b, post, st, fit, predict, score);
    Ordered(X, y, pre, b, a, post, st, fit, predict, score);
    OrderedLabels(y, pre, a, b, post);
    OrderedLabels(y, pre, b, a, post);
  }

  /** The blocks of `y_pred` and of the training scores over `pre + [a, b] + post`
      for a stateless `fit`. */
  lemma Ordered<Row(!new), Label(!new), State(!new), Pred, Score>(
    X: seq<Row>, y: seq<Label>, pre: seq<Split>, a: Split, b: Split, post: seq<Split>, st: State,
    fit: (State, seq<Row>, seq<Label>) -> State,
    predict: (State, seq<Row>) -> seq<Pred>,
    score: (seq<Label>, seq<Pred>) -> Score)
    requires |X| == |y| && Stateless(fit)
    requires SplitsIn(pre, |y|) && SplitsIn([a], |y|) && SplitsIn([b], |y|) && SplitsIn(post, |y|)
    ensures SplitsIn(pre + [a, b] + post, |y|)
    ensures var one := Run(X, y, pre + [a, b] + post, st, fit, predict, score);
            var p, pa, pb, q := Run(X, y, pre, st, fit, predict, score), Run(X, y, [a], st, fit, predict, score),
                                Run(X, y, [b], st, fit, predict, score), Run(X, y, post, st, fit, predict, score);
            one.predictions == p.predictions + pa.predictions + pb.predictions + q.predictions &&
            one.trainScores == p.trainScores + pa.trainScores + pb.trainScores + q.trainScores
  {
    var tail := [b] + post;
    var mid := [a] + tail;
    var p, pa, pb, q := Run(X, y, pre, st, fit, predict, score), Run(X, y, [a], st, fit, predict, score),
                        Run(X, y, [b], st, fit, predict, score), Run(X, y, post, st, fit, predict, score);
    assert SplitsIn(tail, |y|) &&
           Run(X, y, tail, st, fit, predict, score).predictions == pb.predictions + q.predictions &&
           Run(X, y, tail, st, fit, predict, score).trainScores == pb.trainScores + q.trainScores by {
      RunAppend(X, y, [b], post, st, fit, predict, score);
    }
    assert SplitsIn(mid, |y|) &&
           Run(X, y, mid, st, fit, predict, score).predictions == pa.predictions + (pb.predictions + q.predictions) &&
           Run(X, y, mid, st, fit, predict, score).trainScores == pa.trainScores + (pb.trainScores + q.trainScores) by {
      RunAppend(X, y, [a], tail, st, fit, predict, score);
    }
    assert SplitsIn(pre + mid, |y|) &&
           Run(X, y, pre + mid, st, fit, predict, score).predictions ==
           p.predictions + (pa.predictions + (pb.predictions + q.predictions)) &&
           Run(X, y, pre + mid, st, fit, predict, score).trainScores ==
           p.trainScores + (pa.trainScores + (pb.trainScores + q.trainScores)) by {
      RunAppend(X, y, pre, mid, st, fit, predict, score);
    }
    Regroup(pre, a, b, post);
    Regroup4(p.predictions, pa.predictions, pb.predictions, q.predictions);
    Regroup4(p.trainScores, pa.trainScores, pb.trainScores, q.trainScores);
  }

  /** The blocks of `y_true` over `pre + [a, b] + post`. */
  lemma OrderedLabels<Label>(y: seq<Label>, pre: seq<Split>, a: Split, b: Split, post: seq<Split>)
    requires SplitsIn(pre, |y|) && SplitsIn([a], |y|) && SplitsIn([b], |y|) && SplitsIn(post, |y|)
    ensures SplitsIn(pre + [a, b] + post, |y|)
    ensures EvalLabels(y, pre + [a, b] + post) ==
            EvalLabels(y, pre) + EvalLabels(y, [a]) + EvalLabels(y, [b]) + EvalLabels(y, post)
  {
    var tail := [b] + post;
    var mid := [a] + tail;
    var lp, la, lb, lq := EvalLabels(y, pre), EvalLabels(y, [a]), EvalLabels(y, [b]), EvalLabels(y, post);
    assert SplitsIn(tail, |y|) && EvalLabels(y, tail) == lb + lq by {
      EvalLabelsAppend(y, [b], post);
    }
    assert SplitsIn(mid, |y|) && EvalLabels(y, mid) == la + (lb + lq) by {
      EvalLabelsAppend(y, [a], tail);
    }
    assert SplitsIn(pre + mid, |y|) && EvalLabels(y, pre + mid) == lp + (la + (lb + lq)) by {
      EvalLabelsAppend(y, pre, mid);
    }
    Regroup(pre, a, b, post);
    Regroup4(lp, la, lb, lq);
  }

  /** For a stateless `fit`, running `p + q` runs `p` and then `q` as if from scratch. */
  lemma {:induction false} RunAppend<Row(!new), Label(!new), State(!new), Pred, Score>(
    X: seq<Row>, y: seq<Label>, p: seq<Split>, q: seq<Split>, st: State,
    fit: (State, seq<Row>, seq<Label>) -> State,
    predict: (State, seq<Row>) -> seq<Pred>,
    score: (seq<Label>, seq<Pred>) -> Score)
    requires |X| == |y| && SplitsIn(p, |y|) && SplitsIn(q, |y|) && Stateless(fit)
    ensures SplitsIn(p + q, |y|)
    ensures Run(X, y, p + q, st, fit, predict, score).predictions ==
            Run(X, y, p, st, fit, predict, score).predictions + Run(X, y, q, st, fit, predict, score).predictions
    ensures Run(X, y, p + q, st, fit, predict, score).trainScores ==
            Run(X, y, p, st, fit, predict, score).trainScores + Run(X, y, q, st, fit, predict, score).trainScores
    decreases |p|
  {
    SplitsInAppend(p, q, |y|);
    if p == [] {
      assert p + q == q;
    } else {
      var f := p[0];
      var fitted := fit(st, Gather(X, f.train), Gather(y, f.train));
      assert (p + q)[0] == f && (p + q)[1..] == p[1..] + q;
      SplitsInTail(p, |y|);
      assert Run(X, y, p[1..] + q, fitted, fit, predict, score).predictions ==
             Run(X, y, p[1..], fitted, fit, predict, score).predictions + Run(X, y, q, st, fit, predict, score).predictions &&
             Run(X, y, p[1..] + q, fitted, fit, predict, score).trainScores ==
             Run(X, y, p[1..], fitted, fit, predict, score).trainScores + Run(X, y, q, st, fit, predict, score).trainScores by {
        RunAppend(X, y, p[1..], q, fitted, fit, predict, score);
        RunFromAnyState(X, y, q, fitted, st, fit, predict, score);
      }
    }
  }

  /** For a stateless `fit` the outcome does not depend on the starting state. */
  lemma RunFromAnyState<Row(!new), Label(!new), State(!new), Pred, Score>(
    X: seq<Row>, y: seq<Label>, folds: seq<Split>, s1: State, s2: State,
    fit: (State, seq<Row>, seq<Label>) -> State,
    predict: (State, seq<Row>) -> seq<Pred>,
    score: (seq<Label>, seq<Pred>) -> Score)
    requires |X| == |y| && SplitsIn(folds, |y|) && Stateless(fit)
    ensures Run(X, y, folds, s1, fit, predict, score) == Run(X, y, folds, s2, fit, predict, score)
  {
    if folds != [] {
      SameFit(fit, s1, s2, Gather(X, folds[0].train), Gather(y, folds[0].train));
    }
  }

  lemma SameFit<Row(!new), Label(!new), State(!new)>(fit: (State, seq<Row>, seq<Label>) -> State,
                                   s1: State, s2: State, rows: seq<Row>, labels: seq<Label>)
    requires Stateless(fit)
    ensures fit(s1, rows, labels) == fit(s2, rows, labels)
  {
  }

  /** `y_true` over `p + q` is that over `p` followed by that over `q`. */
  lemma {:induction false} EvalLabelsAppend<Label>(y: seq<Label>, p: seq<Split>, q: seq<Split>)
    requires SplitsIn(p, |y|) && SplitsIn(q, |y|)
    ensures SplitsIn(p + q, |y|)
    ensures EvalLabels(y, p + q) == EvalLabels(y, p) + EvalLabels(y, q)
    decreases |p|
  {
    SplitsInAppend(p, q, |y|);
    if p == [] {
      assert p + q == q;
    } else {
      assert (p + q)[0] == p[0] && (p + q)[1..] == p[1..] + q;
      SplitsInTail(p, |y|);
      EvalLabelsAppend(y, p[1..], q);
    }
  }

  // Helpers.

  lemma SplitsInAppend(p: seq<Split>, q: seq<Split>, n: nat)
    requires SplitsIn(p, n) && SplitsIn(q, n)
    ensures SplitsIn(p + q, n)
  {
    forall i | 0 <= i < |p + q|
      ensures IndicesIn((p + q)[i].train, n) && IndicesIn((p + q)[i].eval, n)
    {
      if i < |p| { assert (p + q)[i] == p[i]; } else { assert (p + q)[i] == q[i - |p|]; }
    }
  }

  lemma SplitsInTail(p: seq<Split>, n: nat)
    requires SplitsIn(p, n) && p != []
    ensures SplitsIn(p[1..], n)
  {
    assert forall i :: 0 <= i < |p[1..]| ==> p[1..][i] == p[i + 1];
  }

  lemma Regroup4<T>(w: seq<T>, x: seq<T>, y: seq<T>, z: seq<T>)
    ensures w + (x + (y + z)) == w + x + y + z
  {
  }

  lemma Regroup<T>(pre: seq<T>, a: T, b: T, post: seq<T>)
    ensures pre + [a, b] + post == pre + ([a] + ([b] + post))
  {
    assert [a, b] == [a] + [b];
    assert pre + ([a] + [b]) + post == pre + (([a] + [b]) + post);
  }

  /** `Run` over the folds from `i` on is fold `i` followed by the rest. */
  lemma RunStep<Row, Label, State, Pred, Score>(
    X: seq<Row>, y: seq<Label>, folds: seq<Split>, i: nat, st: State,
    fit: (State, seq<Row>, seq<Label>) -> State,
    predict: (State, seq<Row>) -> seq<Pred>,
    score: (seq<Label>, seq<Pred>) -> Score)
    requires |X| == |y| && SplitsIn(folds, |y|) && i < |folds|
    ensures var f := folds[i];
            var fitted := fit(st, Gather(X, f.train), Gather(y, f.train));
            var rest := Run(X, y, folds[i + 1..], fitted, fit, predict, score);
            Run(X, y, folds[i..], st, fit, predict, score) ==
            Outcome([score(Gather(y, f.train), predict(fitted, Gather(X, f.train)))] + rest.trainScores,
                    predict(fitted, Gather(X, f.eval)) + rest.predictions)
  {
    assert folds[i..][0] == folds[i] && folds[i..][1..] == folds[i + 1..];
  }

  /** Moving one piece from the pending part to the accumulator keeps the total. */
  lemma Shift<T>(acc: seq<T>, x: seq<T>, rest: seq<T>, total: seq<T>)
    requires acc + (x + rest) == total
    ensures (acc + x) + rest == total
  {
  }

  /** `y_true` over the folds from `i` on is fold `i`'s labels followed by the rest. */
  lemma EvalLabelsStep<Label>(y: seq<Label>, folds: seq<Split>, i: nat)
    requires SplitsIn(folds, |y|) && i < |folds|
    ensures EvalLabels(y, folds[i..]) == Gather(y, folds[i].eval) + EvalLabels(y, folds[i + 1..])
  {
    assert folds[i..][0] == folds[i] && folds[i..][1..] == folds[i + 1..];
  }

  lemma OnePredictionPerRow<Row, State, Pred>(predict: (State, seq<Row>) -> seq<Pred>, st: State, rows: seq<Row>)
    requires forall s: State, r: seq<Row> :: |predict(s, r)| == |r|
    ensures |predict(st, rows)| == |rows|
  {
  }

  /** The indices `0 .. n-1` in increasing order. */
  function Range(n: nat): (r: seq<nat>)
    ensures |r| == n && forall k :: 0 <= k < n ==> r[k] == k
  {
    if n == 0 then [] else Range(n - 1) + [n - 1]
  }

  /** Selecting every index in increasing order gives back the sequence. */
  lemma GatherRange<T>(s: seq<T>)
    ensures IndicesIn(Range(|s|), |s|) && Gather(s, Range(|s|)) == s
  {
    forall k | 0 <= k < |s| ensures Gather(s, Range(|s|))[k] == s[k] {
      GatherAt(s, Range(|s|), k);
    }
  }

  /** Selecting by a concatenation of index lists concatenates the selections. */
  lemma {:induction false} GatherAppend<T>(s: seq<T>, a: seq<nat>, b: seq<nat>)
    requires IndicesIn(a, |s|) && IndicesIn(b, |s|)
    ensures IndicesIn(a + b, |s|)
    ensures Gather(s, a + b) == Gather(s, a) + Gather(s, b)
  {
    if a != [] {
      GatherAppend(s, a[1..], b);
      assert (a + b)[0] == a[0] && (a + b)[1..] == a[1..] + b;
    } else {
      assert a + b == b;
    }
  }

  /** Selecting by two index lists that are permutations of each other
      yields permutations of each other. */
  lemma {:induction false} GatherPermutation<T>(s: seq<T>, p: seq<nat>, q: seq<nat>)
    requires IndicesIn(p, |s|) && IndicesIn(q, |s|)
    requires multiset(p) == multiset(q)
    ensures multiset(Gather(s, p)) == multiset(Gather(s, q))
  {
    if p == [] {
      assert |q| == |multiset(q)| == 0;
    } else {
      var rest := RemoveFirst(s, p, q);
      GatherPermutation(s, p[1..], rest);
      GatherCons(s, p);
    }
  }

  /** Takes `p[0]` out of `q` at one of its positions: what remains is a
      permutation of `p[1..]`, and its selection lacks just `s[p[0]]`. */
  lemma RemoveFirst<T>(s: seq<T>, p: seq<nat>, q: seq<nat>) returns (rest: seq<nat>)
    requires IndicesIn(p, |s|) && IndicesIn(q, |s|) && p != []
    requires multiset(p) == multiset(q)
    ensures IndicesIn(rest, |s|) && IndicesIn(p[1..], |s|)
    ensures multiset(p[1..]) == multiset(rest)
    ensures multiset(Gather(s, q)) == multiset(Gather(s, rest)) + multiset{s[p[0]]}
  {
    assert p[0] in p;
    var j := IndexOf(q, p[0]);
    rest := q[..j] + q[j + 1..];
    assert IndicesIn(rest, |s|) && multiset(Gather(s, q)) == multiset(Gather(s, rest)) + multiset{s[p[0]]} by {
      GatherRemoveAt(s, q, j);
    }
    assert multiset(rest) == multiset(q) - multiset{p[0]} by {
      RemoveAt(q, j);
    }
    assert multiset(p[1..]) == multiset(p) - multiset{p[0]} by {
      assert p == [p[0]] + p[1..];
    }
    assert IndicesIn(p[1..], |s|) by {
      assert forall k :: 0 <= k < |p[1..]| ==> p[1..][k] == p[k + 1];
    }
  }

  lemma GatherCons<T>(s: seq<T>, p: seq<nat>)
    requires IndicesIn(p, |s|) && p != []
    ensures multiset(Gather(s, p)) == multiset{s[p[0]]} + multiset(Gather(s, p[1..]))
  {
    assert Gather(s, p) == [s[p[0]]] + Gather(s, p[1..]);
  }

  lemma IndexOf(q: seq<nat>, x: nat) returns (j: nat)
    requires x in multiset(q)
    ensures j < |q| && q[j] == x
  {
    assert x in q;
    j :| 0 <= j < |q| && q[j] == x;
  }

  lemma RemoveAt(q: seq<nat>, j: nat)
    requires j < |q|
    ensures multiset(q[..j] + q[j + 1..]) == multiset(q) - multiset{q[j]}
  {
    assert q == q[..j] + [q[j]] + q[j + 1..];
  }

  lemma GatherRemoveAt<T>(s: seq<T>, q: seq<nat>, j: nat)
    requires IndicesIn(q, |s|) && j < |q|
    ensures IndicesIn(q[..j] + q[j + 1..], |s|)
    ensures multiset(Gather(s, q)) == multiset(Gather(s, q[..j] + q[j + 1..])) + multiset{s[q[j]]}
  {
    assert q == q[..j] + ([q[j]] + q[j + 1..]);
    GatherAppend(s, q[..j], [q[j]] + q[j + 1..]);
    GatherAppend(s, [q[j]], q[j + 1..]);
    GatherAppend(s, q[..j], q[j + 1..]);
  }
}
