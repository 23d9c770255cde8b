/** OLSRobust._full_sample_OLS and OLSRobust._predict: the fit of one
    specification on its whole sample, and the optional k-fold
    cross-validated RMSE. */
module FullSample {
  import opened Common
  import opened Frames
  import opened Collaborators

  /** y is the first column (iloc[:, [0]]); x is the table with every column
      of that name dropped. */
  function SplitXY(t: Frame): (yx: (Frame, Frame))
    requires WellFormed(t) && |t.names| > 0
    ensures WellFormed(yx.0) && yx.0.names == [t.names[0]] && yx.0.labels == t.labels
    ensures |yx.0.rows| == |t.rows| && forall i :: 0 <= i < |t.rows| ==> yx.0.rows[i] == [t.rows[i][0]]
    ensures WellFormed(yx.1) && t.names[0] !in yx.1.names && yx.1.labels == t.labels
    ensures |yx.1.rows| == |t.rows|
    ensures forall c :: c in t.names && c != t.names[0] ==> c in yx.1.names
    ensures var ks := OtherColumns(t.names, t.names[0]);
            && |yx.1.names| == |ks|
            && (forall j :: 0 <= j < |ks| ==> yx.1.names[j] == t.names[ks[j]])
            && forall i, j :: 0 <= i < |t.rows| && 0 <= j < |ks| ==> yx.1.rows[i][j] == t.rows[i][ks[j]]
  {
    var y := Project(t, [0]);
    assert forall i :: 0 <= i < |t.rows| ==> y.rows[i] == [t.rows[i][0]];
    (y, DropNamed(t, t.names[0]).value)
  }

  function Dot(row: seq<Cell>, b: seq<real>): real
    requires |row| == |b|
  {
    if row == [] then 0.0
    else Dot(row[..|row| - 1], b[..|b| - 1]) + CellValue(row[|row| - 1]) * b[|b| - 1]
  }

  /** np.dot(x_test, betas): one prediction per test row; the inner
      dimensions must agree, whatever the number of rows. */
  function Predict(xTest: Frame, b: seq<real>): (r: Result<seq<real>>)
    requires WellFormed(xTest)
    ensures r.Ok? <==> |xTest.names| == |b|
    ensures r.Err? ==> r.error == ShapeMismatch
    ensures r.Ok? ==> |r.value| == |xTest.rows|
    ensures r.Ok? ==> forall i :: 0 <= i < |xTest.rows| ==> r.value[i] == Dot(xTest.rows[i], b)
  {
    if |xTest.names| != |b| then Err(ShapeMismatch)
    else Ok(seq(|xTest.rows|, i requires 0 <= i < |xTest.rows| => Dot(xTest.rows[i], b)))
  }

  datatype Fold = Fold(train: seq<nat>, test: seq<nat>)

  /** Size of fold f in sklearn's KFold: n / k rows, one more for the first
      n % k folds. */
  function FoldSize(n: nat, k: nat, f: nat): nat
    requires k > 0
  {
    n / k + (if f < n % k then 1 else 0)
  }

  function FoldStart(n: nat, k: nat, f: nat): nat
    requires k > 0
  {
    if f == 0 then 0 else FoldStart(n, k, f - 1) + FoldSize(n, k, f - 1)
  }

  lemma {:induction false} FoldStartClosed(n: nat, k: nat, f: nat)
    requires k > 0
    ensures FoldStart(n, k, f) == f * (n / k) + (if f < n % k then f else n % k)
  {
    if f > 0 {
      FoldStartClosed(n, k, f - 1);
      assert f * (n / k) == (f - 1) * (n / k) + n / k;
    }
  }

  lemma FoldStartMonotone(n: nat, k: nat, f: nat, g: nat)
    requires k > 0 && f <= g
    ensures FoldStart(n, k, f) <= FoldStart(n, k, g)
    decreases g - f
  {
    if f < g {
      FoldStartMonotone(n, k, f, g - 1);
    }
  }

  lemma FoldWithinRows(n: nat, k: nat, f: nat)
    requires 2 <= k <= n && f < k
    ensures FoldStart(n, k, f) < FoldStart(n, k, f + 1) <= n
  {
    FoldStartClosed(n, k, k);
    assert n == k * (n / k) + n % k;
    FoldStartMonotone(n, k, f + 1, k);
  }

  /** Fold f: it tests a contiguous block of rows and trains on all the
      others, in order. */
  function MakeFold(n: nat, k: nat, f: nat): (fold: Fold)
    requires 2 <= k <= n && f < k
    ensures forall i :: 0 <= i < n ==> (i in fold.test <==> i !in fold.train)
    ensures forall j :: 0 <= j < |fold.train| ==> fold.train[j] < n
    ensures forall j :: 0 <= j < |fold.test| ==> fold.test[j] < n
    ensures |fold.test| > 0
    ensures FoldStart(n, k, f) + |fold.test| == FoldStart(n, k, f + 1)
    ensures forall j :: 0 <= j < |fold.test| ==> fold.test[j] == FoldStart(n, k, f) + j
    ensures Increasing(fold.train)
  {
    FoldWithinRows(n, k, f);
    var start := FoldStart(n, k, f);
    var stop := FoldStart(n, k, f + 1);
    var test := seq(stop - start, j requires 0 <= j < stop - start => start + j);
    assert forall i :: 0 <= i < n ==> (i in test <==> start <= i < stop) by {
      forall i | 0 <= i < n ensures i in test <==> start <= i < stop {
        if start <= i < stop { assert test[i - start] == i; }
      }
    }
    Fold(Where(n, (i: nat) => i < start || stop <= i), test)
  }

  /** The folds of KFold(k).split on n rows, without shuffling. */
  function KFoldSplit(n: nat, k: nat): (folds: seq<Fold>)
    requires 2 <= k <= n
    ensures |folds| == k && FoldsWithin(folds, n)
    ensures forall f :: 0 <= f < k ==> folds[f] == MakeFold(n, k, f)
  {
    seq(k, f requires 0 <= f < k => MakeFold(n, k, f))
  }

  /** Fold g is the one whose test block holds row i. */
  lemma {:induction false} FindFold(n: nat, k: nat, i: nat, f: nat) returns (g: nat)
    requires 2 <= k <= n && f < k && FoldStart(n, k, f) <= i < FoldStart(n, k, k)
    ensures f <= g < k && FoldStart(n, k, g) <= i < FoldStart(n, k, g + 1)
    decreases k - f
  {
    if i < FoldStart(n, k, f + 1) {
      g := f;
    } else {
      g := FindFold(n, k, i, f + 1);
    }
  }

  /** The k folds together cover exactly the n rows. */
  lemma FoldsEndAtRows(n: nat, k: nat)
    requires k > 0
    ensures FoldStart(n, k, k) == n
  {
    FoldStartClosed(n, k, k);
    assert n == k * (n / k) + n % k;
  }

  /** Row i is in fold f's test block iff it lies between the fold's
      boundaries. */
  lemma InTestBlock(n: nat, k: nat, f: nat, i: nat)
    requires 2 <= k <= n && f < k
    ensures i in MakeFold(n, k, f).test <==> FoldStart(n, k, f) <= i < FoldStart(n, k, f + 1)
  {
    var test := MakeFold(n, k, f).test;
    if FoldStart(n, k, f) <= i < FoldStart(n, k, f + 1) {
      assert test[i - FoldStart(n, k, f)] == i;
    }
  }

  /** Every row is in the test block of some fold of KFold(k).split. */
  lemma TestBlocksCover(n: nat, k: nat, i: nat)
    requires 2 <= k <= n && i < n
    ensures exists f :: 0 <= f < k && i in KFoldSplit(n, k)[f].test
  {
    FoldsEndAtRows(n, k);
    var f := FindFold(n, k, i, 0);
    InTestBlock(n, k, f, i);
    assert KFoldSplit(n, k)[f] == MakeFold(n, k, f);
  }

  /** No row is in the test blocks of two different folds. */
  lemma TestBlocksDisjoint(n: nat, k: nat, i: nat, f: nat, g: nat)
    requires 2 <= k <= n && f < g < k
    ensures !(i in KFoldSplit(n, k)[f].test && i in KFoldSplit(n, k)[g].test)
  {
    assert KFoldSplit(n, k)[f] == MakeFold(n, k, f);
    assert KFoldSplit(n, k)[g] == MakeFold(n, k, g);
    InTestBlock(n, k, f, i);
    InTestBlock(n, k, g, i);
    FoldStartMonotone(n, k, f + 1, g);
  }

  /** How a fold's positions are turned into rows. */
  datatype RowSelection =
    | ByLabel      // y.loc[train]: the positions are looked up as index labels
    | ByPosition   // the rows at those positions

  function FoldRows(t: Frame, ks: seq<nat>, how: RowSelection): (r: Result<Frame>)
    requires WellFormed(t)
    requires forall j :: 0 <= j < |ks| ==> ks[j] < |t.rows|
    ensures r.Ok? ==> WellFormed(r.value) && r.value.names == t.names && |r.value.rows| == |ks|
    ensures how == ByPosition ==> r == Ok(TakeRows(t, ks))
  {
    match how
    case ByLabel =>
      var r := LocRows(t, seq(|ks|, j requires 0 <= j < |ks| => ks[j] as int));
      if r.Ok? then assert |r.value.labels| == |ks|; r else r
    case ByPosition => Ok(TakeRows(t, ks))
  }

  /** The held-out RMSE of one fold: refit on the training rows, predict the
      test rows. */
  function FoldMetric(y: Frame, x: Frame, fold: Fold, how: RowSelection, coll: Collaborators): Result<real>
    requires WellFormed(y) && WellFormed(x) && |y.rows| == |x.rows| && |y.names| == 1
    requires FoldWithin(fold, |y.rows|)
  {
    var yTrain :- FoldRows(y, fold.train, how);
    var xTrain :- FoldRows(x, fold.train, how);
    match coll.simpleOls(yTrain, xTrain)
    case FullSingular => Err(UnfitModel)
    case FullOls(b, _, _, _, _, _) =>
      var xTest :- FoldRows(x, fold.test, how);
      var pred :- Predict(xTest, b);
      var yTrue :- FoldRows(y, fold.test, how);
      Ok(coll.rmse(Column(yTrue, 0), pred))
  }

  /** Every position of the fold names one of n rows. */
  predicate FoldWithin(fold: Fold, n: nat)
  {
    && (forall j :: 0 <= j < |fold.train| ==> fold.train[j] < n)
    && (forall j :: 0 <= j < |fold.test| ==> fold.test[j] < n)
  }

  predicate FoldsWithin(folds: seq<Fold>, n: nat)
  {
    forall f :: 0 <= f < |folds| ==> FoldWithin(folds[f], n)
  }

  /** Fold f of the k-fold loop: its held-out metric. */
  function FoldAt(y: Frame, x: Frame, folds: seq<Fold>, how: RowSelection, coll: Collaborators): nat -> Result<real>
    requires WellFormed(y) && WellFormed(x) && |y.rows| == |x.rows| && |y.names| == 1
    requires FoldsWithin(folds, |y.rows|)
  {
    (f: nat) => if f < |folds| then FoldMetric(y, x, folds[f], how, coll) else Ok(0.0)
  }

  /** The per-fold metrics in fold order, or the first fold's error. */
  function FoldMetrics(y: Frame, x: Frame, folds: seq<Fold>, how: RowSelection, coll: Collaborators): (r: Result<seq<real>>)
    requires WellFormed(y) && WellFormed(x) && |y.rows| == |x.rows| && |y.names| == 1
    requires FoldsWithin(folds, |y.rows|)
    ensures r.Ok? ==> |r.value| == |folds|
  {
    var step := FoldAt(y, x, folds, how, coll);
    AllOkLength(|folds|, step);
    AllOk(|folds|, step)
  }

  /** Cross-validation succeeds exactly when every fold does, and then
      holds each fold's metric in fold order. */
  lemma FoldMetricsMeaning(y: Frame, x: Frame, folds: seq<Fold>, how: RowSelection, coll: Collaborators)
    requires WellFormed(y) && WellFormed(x) && |y.rows| == |x.rows| && |y.names| == 1
    requires FoldsWithin(folds, |y.rows|)
    ensures var r := FoldMetrics(y, x, folds, how, coll);
            && (r.Ok? ==> forall f :: 0 <= f < |folds| ==> FoldMetric(y, x, folds[f], how, coll) == Ok(r.value[f]))
            && (r.Err? <==> exists f :: 0 <= f < |folds| && FoldMetric(y, x, folds[f], how, coll).Err?)
  {
    var step := FoldAt(y, x, folds, how, coll);
    AllOkMeaning(|folds|, step);
    assert forall f :: 0 <= f < |folds| ==> step(f) == FoldMetric(y, x, folds[f], how, coll);
  }

  function Mean(s: seq<real>): real
    requires |s| > 0
  {
    Sum(s) / (|s| as real)
  }

  /** The k-fold metric: the mean of the k per-fold RMSE values; sklearn
      refuses fewer than two folds or more folds than rows. */
  function CrossValidation(t: Frame, k: nat, how: RowSelection, coll: Collaborators): (r: Result<real>)
    requires WellFormed(t) && |t.names| > 0
    ensures (k < 2 || k > |t.rows|) ==> r == Err(BadFoldCount)
    ensures r.Ok? ==> 2 <= k <= |t.rows|
    ensures 2 <= k <= |t.rows| ==>
              var (y, x) := SplitXY(t);
              var ms := FoldMetrics(y, x, KFoldSplit(|t.rows|, k), how, coll);
              && (r.Ok? <==> ms.Ok?)
              && (ms.Err? ==> r == Err(ms.error))
    ensures r.Ok? ==> var (y, x) := SplitXY(t);
              && FoldMetrics(y, x, KFoldSplit(|t.rows|, k), how, coll).Ok?
              && |FoldMetrics(y, x, KFoldSplit(|t.rows|, k), how, coll).value| == k
              && r.value == Mean(FoldMetrics(y, x, KFoldSplit(|t.rows|, k), how, coll).value)
  {
    if k < 2 || k > |t.rows| then Err(BadFoldCount)
    else
      var (y, x) := SplitXY(t);
      var ms :- FoldMetrics(y, x, KFoldSplit(|t.rows|, k), how, coll);
      Ok(Mean(ms))
  }

  /** Selecting fold rows by position never raises a missing-label error. */
  lemma ByPositionFindsEveryRow(y: Frame, x: Frame, folds: seq<Fold>, coll: Collaborators)
    requires WellFormed(y) && WellFormed(x) && |y.rows| == |x.rows| && |y.names| == 1
    requires FoldsWithin(folds, |y.rows|)
    ensures FoldMetrics(y, x, folds, ByPosition, coll).Err? ==>
              !FoldMetrics(y, x, folds, ByPosition, coll).error.LabelNotFound?
  {
    var step := FoldAt(y, x, folds, ByPosition, coll);
    if AllOk(|folds|, step).Err? {
      AllOkFirstFailure(|folds|, step);
    }
  }

  /** The k-fold loop of _full_sample_OLS: fits each training fold and appends
      its held-out RMSE to metrics, stopping at the first failure.  Rows are
      selected by position (see README, "Findings"). */
  method FoldLoop(y: Frame, x: Frame, folds: seq<Fold>, coll: Collaborators, ghost step: nat -> Result<real>)
    returns (r: Result<seq<real>>)
    requires WellFormed(y) && WellFormed(x) && |y.rows| == |x.rows| && |y.names| == 1
    requires FoldsWithin(folds, |y.rows|)
    requires forall f :: 0 <= f < |folds| ==> FoldIs(step, y, x, folds, coll, f)
    ensures r == AllOk(|folds|, step)
  {
    var metrics: seq<real> := [];
    var f := 0;
    while f < |folds|
      invariant 0 <= f <= |folds|
      invariant AllOk(f, step) == Ok(metrics)
    {
      var m := FoldMetric(y, x, folds[f], ByPosition, coll);
      assert FoldIs(step, y, x, folds, coll, f);
      if m.Err? {
        AllOkFirstError(f + 1, |folds|, step);
        return Err(m.error);
      }
      metrics := metrics + [m.value];
      f := f + 1;
    }
    r := Ok(metrics);
  }

  /** The step the fold loop runs at position f. */
  predicate FoldIs(step: nat -> Result<real>, y: Frame, x: Frame, folds: seq<Fold>, coll: Collaborators, f: nat)
    requires WellFormed(y) && WellFormed(x) && |y.rows| == |x.rows| && |y.names| == 1
    requires FoldsWithin(folds, |y.rows|) && f < |folds|
  {
    step(f) == FoldMetric(y, x, folds[f], ByPosition, coll)
  }

  /** The cross-validation step of _full_sample_OLS: np.mean(metrics). */
  method CrossValidate(t: Frame, k: nat, coll: Collaborators) returns (r: Result<real>)
    requires WellFormed(t) && |t.names| > 0
    ensures r == CrossValidation(t, k, ByPosition, coll)
  {
    if k < 2 || k > |t.rows| {
      return Err(BadFoldCount);
    }
    var (y, x) := SplitXY(t);
    var folds := KFoldSplit(|t.rows|, k);
    var ms := FoldLoop(y, x, folds, coll, FoldAt(y, x, folds, ByPosition, coll));
    if ms.Err? {
      return Err(ms.error);
    }
    r := Ok(Mean(ms.value));
  }

  /** What _full_sample_OLS returns for one specification. */
  datatype FullFit = FullFit(b: seq<real>, p: seq<real>, ll: real, aic: real, bic: real, hqic: real,
                             avK: Option<real>)

  /** `if kfold:` — None and 0 both switch cross-validation off. */
  predicate KFoldOn(kfold: Option<nat>)
  {
    kfold.Some? && kfold.value != 0
  }

  function FullSampleFit(t: Frame, kfold: Option<nat>, coll: Collaborators): (r: Result<FullFit>)
    requires WellFormed(t) && |t.names| > 0
    ensures r.Ok? ==> coll.simpleOls(SplitXY(t).0, SplitXY(t).1).FullOls?
    ensures r.Ok? ==> var out := coll.simpleOls(SplitXY(t).0, SplitXY(t).1);
              && r.value.b == out.b && r.value.p == out.p && r.value.ll == out.ll
              && r.value.aic == out.aic && r.value.bic == out.bic && r.value.hqic == out.hqic
    ensures r.Ok? ==> (r.value.avK.Some? <==> KFoldOn(kfold))
    ensures r.Ok? && KFoldOn(kfold) ==> CrossValidation(t, kfold.value, ByPosition, coll) == Ok(r.value.avK.value)
    ensures coll.simpleOls(SplitXY(t).0, SplitXY(t).1).FullSingular? ==> r == Err(UnfitModel)
    ensures r.Ok? <==> && coll.simpleOls(SplitXY(t).0, SplitXY(t).1).FullOls?
                       && (KFoldOn(kfold) ==> CrossValidation(t, kfold.value, ByPosition, coll).Ok?)
    ensures && coll.simpleOls(SplitXY(t).0, SplitXY(t).1).FullOls? && KFoldOn(kfold)
            && CrossValidation(t, kfold.value, ByPosition, coll).Err? ==>
              r == Err(CrossValidation(t, kfold.value, ByPosition, coll).error)
  {
    var (y, x) := SplitXY(t);
    match coll.simpleOls(y, x)
    case FullSingular => Err(UnfitModel)
    case FullOls(b, p, ll, aic, bic, hqic) =>
      if KFoldOn(kfold) then
        var m :- CrossValidation(t, kfold.value, ByPosition, coll);
        Ok(FullFit(b, p, ll, aic, bic, hqic, Some(m)))
      else Ok(FullFit(b, p, ll, aic, bic, hqic, None))
  }

  /** _full_sample_OLS(comb_var, kfold). */
  method FullSampleOls(t: Frame, kfold: Option<nat>, coll: Collaborators) returns (r: Result<FullFit>)
    requires WellFormed(t) && |t.names| > 0
    ensures r == FullSampleFit(t, kfold, coll)
  {
    var (y, x) := SplitXY(t);
    var out := coll.simpleOls(y, x);
    if out.FullSingular? {
      return Err(UnfitModel);
    }
    var avK: Option<real> := None;
    if KFoldOn(kfold) {
      var m := CrossValidate(t, kfold.value, coll);
      if m.Err? {
        return Err(m.error);
      }
      avK := Some(m.value);
    }
    r := Ok(FullFit(out.b, out.p, out.ll, out.aic, out.bic, out.hqic, avK));
  }

  /** Three rows, the middle one with a missing value. */
  function GapData(): Frame
  {
    Frame(["y", "x"], [0, 1, 2],
          [[Value(1.0), Value(2.0)], [Value(3.0), Missing], [Value(4.0), Value(6.0)]])
  }

  /** Listwise deletion keeps the original labels, so the index it leaves is
      0, 2 rather than 0, 1. */
  lemma ListwiseDeletionLeavesGap()
    ensures WellFormed(GapData()) && DropNa(GapData()).labels == [0, 2]
  {
    var data := GapData();
    assert Complete(data.rows[0]) && !Complete(data.rows[1]) && Complete(data.rows[2]);
    var ks := CompleteRows(data);
    assert 0 in ks && 2 in ks && 1 !in ks;
    assert |ks| >= 1 && ks[0] == 0;
    assert |ks| >= 2 && ks[1] == 2;
    assert |ks| == 2;
    assert ks == [0, 2];
  }

  /** With two folds over two rows, the first fold trains on position 1. */
  lemma FirstOfTwoFoldsTrainsOnOne()
    ensures KFoldSplit(2, 2)[0].train == [1]
  {
    assert FoldStart(2, 2, 1) == 1;
    assert Where(2, (i: nat) => i < 0 || 1 <= i) == [1];
  }

  /** Label 1 is not in the index left by the deletion. */
  lemma LabelOneIsGone(y: Frame)
    requires WellFormed(y) && y.labels == [0, 2]
    ensures FoldRows(y, [1], ByLabel) == Err(LabelNotFound(1))
  {
    assert seq(1, j requires 0 <= j < 1 => [1][j] as int) == [1];
  }

  /** The loop reports the first fold's error when the first fold fails. */
  lemma FirstFoldFails(y: Frame, x: Frame, folds: seq<Fold>, how: RowSelection, coll: Collaborators)
    requires WellFormed(y) && WellFormed(x) && |y.rows| == |x.rows| && |y.names| == 1
    requires FoldsWithin(folds, |y.rows|) && folds != []
    requires FoldMetric(y, x, folds[0], how, coll).Err?
    ensures FoldMetrics(y, x, folds, how, coll) == Err(FoldMetric(y, x, folds[0], how, coll).error)
  {
    var step := FoldAt(y, x, folds, how, coll);
    assert step(0) == FoldMetric(y, x, folds[0], how, coll);
    AllOkFirstError(1, |folds|, step);
  }

  /** The fold loop over such a table stops at the first fold's KeyError. */
  lemma FoldMetricsByLabelFail(y: Frame, x: Frame, coll: Collaborators)
    requires WellFormed(y) && WellFormed(x) && |y.rows| == |x.rows| && |y.names| == 1
    requires y.labels == [0, 2]
    ensures FoldMetrics(y, x, KFoldSplit(2, 2), ByLabel, coll) == Err(LabelNotFound(1))
  {
    var folds := KFoldSplit(2, 2);
    FirstOfTwoFoldsTrainsOnOne();
    LabelOneIsGone(y);
    assert FoldMetric(y, x, folds[0], ByLabel, coll) == Err(LabelNotFound(1));
    FirstFoldFails(y, x, folds, ByLabel, coll);
  }

  /** Two folds over a two-row table labelled 0, 2 (what listwise deletion
      leaves of GapData): the first fold trains on position 1, which
      y.loc[train] looks up as label 1, and that label is gone. */
  lemma CrossValidationByLabelFails(t: Frame, coll: Collaborators)
    requires WellFormed(t) && |t.names| > 0 && t.labels == [0, 2]
    ensures CrossValidation(t, 2, ByLabel, coll) == Err(LabelNotFound(1))
  {
    var (y, x) := SplitXY(t);
    FoldMetricsByLabelFail(y, x, coll);
  }

  /** Selecting the same table's fold rows by position never misses a row. */
  lemma CrossValidationByPositionFindsRows(t: Frame, k: nat, coll: Collaborators)
    requires WellFormed(t) && |t.names| > 0
    ensures CrossValidation(t, k, ByPosition, coll).Err? ==>
              !CrossValidation(t, k, ByPosition, coll).error.LabelNotFound?
  {
    if 2 <= k <= |t.rows| {
      var (y, x) := SplitXY(t);
      ByPositionFindsEveryRow(y, x, KFoldSplit(|t.rows|, k), coll);
    }
  }
}
