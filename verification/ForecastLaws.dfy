/**
 * What the forecaster's numbers mean: the laws of totals, means, variances and trend ratios, and
 * the first prediction in terms of the demand history.
 */
module ForecastLaws {
  import opened Common
  import opened Forecasting

  // ---- Totals and means -----------------------------------------------------

  /** A total adds up what it is given, in any split. */
  lemma {:induction false} TotalConcat(a: seq<real>, b: seq<real>)
    ensures Total(a + b) == Total(a) + Total(b)
  {
    if b == [] {
      assert a + b == a;
    } else {
      assert (a + b)[..|a + b| - 1] == a + b[..|b| - 1];
      TotalConcat(a, b[..|b| - 1]);
    }
  }

  lemma {:induction false} TotalOfOne(x: real)
    ensures Total([x]) == x && Total([]) == 0.0
  {
    assert [x][..0] == [];
  }

  function Deviations(xs: seq<real>, centre: real): (r: seq<real>)
    ensures |r| == |xs|
    ensures forall i :: 0 <= i < |xs| ==> r[i] == xs[i] - centre
  {
    seq(|xs|, i requires 0 <= i < |xs| => xs[i] - centre)
  }

  lemma {:induction false} TotalOfDeviations(xs: seq<real>, centre: real)
    ensures Total(Deviations(xs, centre)) == Total(xs) - |xs| as real * centre
  {
    if xs != [] {
      var front := xs[..|xs| - 1];
      TotalOfDeviations(front, centre);
      assert Deviations(xs, centre)[..|front|] == Deviations(front, centre);
    }
  }

  /** The mean is the one centre from which the deviations of a window cancel out. */
  lemma {:induction false} MeanBalances(xs: seq<real>, centre: real)
    requires xs != []
    ensures Total(Deviations(xs, centre)) == 0.0 <==> centre == Mean(xs)
  {
    TotalOfDeviations(xs, centre);
    var n := |xs| as real;
    hide Deviations, Total;
    assert Mean(xs) * n == Total(xs);
    hide Mean;
    if n * centre == n * Mean(xs) {
      Cancel(n, centre, Mean(xs));
    }
  }

  lemma {:induction false} Cancel(n: real, a: real, b: real)
    requires n != 0.0 && n * a == n * b
    ensures a == b
  {
    assert n * (a - b) == 0.0;
  }

  lemma {:induction false} TotalBetween(xs: seq<real>, low: real, high: real)
    requires forall i :: 0 <= i < |xs| ==> low <= xs[i] <= high
    ensures |xs| as real * low <= Total(xs) <= |xs| as real * high
  {
    if xs != [] {
      TotalBetween(xs[..|xs| - 1], low, high);
    }
  }

  /** A mean lies between any bounds of its values. */
  lemma {:induction false} MeanBetween(xs: seq<real>, low: real, high: real)
    requires xs != [] && forall i :: 0 <= i < |xs| ==> low <= xs[i] <= high
    ensures low <= Mean(xs) <= high
  {
    TotalBetween(xs, low, high);
    Quotient(Total(xs), |xs| as real, low, high);
  }

  lemma {:induction false} Quotient(total: real, n: real, low: real, high: real)
    requires n > 0.0 && n * low <= total <= n * high
    ensures low <= total / n <= high
  {
    var q := total / n;
    assert q * n == total;
    if q < low {
      Grows(n, q, low);
    }
    if high < q {
      Grows(n, high, q);
    }
  }

  lemma {:induction false} Grows(n: real, a: real, b: real)
    requires n > 0.0 && a < b
    ensures n * a < n * b
  {
    assert n * (b - a) > 0.0;
  }

  /** Both are `x` and the rest. */
  lemma {:induction false} SameRest(front: seq<real>, x: real, before: seq<real>, after: seq<real>)
    requires multiset(front + [x]) == multiset(before + [x] + after)
    ensures multiset(front) == multiset(before + after)
  {
    assert multiset(front) + multiset{x} == multiset(before) + multiset{x} + multiset(after);
    assert multiset(before + after) == multiset(before) + multiset(after);
    assert multiset(front) == multiset(front) + multiset{x} - multiset{x};
    assert multiset(before + after) == multiset(before) + multiset{x} + multiset(after) - multiset{x};
  }

  lemma {:induction false} TotalAround(before: seq<real>, x: real, after: seq<real>)
    ensures Total(before + [x] + after) == Total(before + after) + x
  {
    hide Total;
    TotalConcat(before, after);
    TotalConcat(before + [x], after);
    TotalConcat(before, [x]);
    TotalOfOne(x);
  }

  lemma {:induction false} TotalPermutes(xs: seq<real>, ys: seq<real>)
    requires multiset(xs) == multiset(ys)
    ensures Total(xs) == Total(ys)
  {
    hide Total;
    if xs == [] {
      assert |ys| == |multiset(ys)| == 0;
    } else {
      var front, x := xs[..|xs| - 1], xs[|xs| - 1];
      assert xs == front + [x] && xs == front + [x] + [];
      var j := Position(xs, ys);
      var before, after := ys[..j], ys[j + 1..];
      assert ys == before + [x] + after;
      SameRest(front, x, before, after);
      TotalPermutes(front, before + after);
      TotalAround(front, x, []);
      TotalAround(before, x, after);
      assert front + [] == front;
    }
  }

  lemma {:induction false} Position(xs: seq<real>, ys: seq<real>) returns (j: nat)
    requires xs != [] && multiset(xs) == multiset(ys)
    ensures j < |ys| && ys[j] == xs[|xs| - 1]
  {
    assert xs[|xs| - 1] in multiset(xs);
    assert xs[|xs| - 1] in multiset(ys);
    j :| j < |ys| && ys[j] == xs[|xs| - 1];
  }

  /** The order of the weeks does not matter to their mean. */
  lemma {:induction false} MeanPermutes(xs: seq<real>, ys: seq<real>)
    requires xs != [] && multiset(xs) == multiset(ys)
    ensures ys != [] && Mean(xs) == Mean(ys)
  {
    assert |multiset(xs)| == |xs| && |multiset(ys)| == |ys|;
    TotalPermutes(xs, ys);
  }

  // ---- Variances ------------------------------------------------------------

  predicate Constant(xs: seq<real>, x: real) {
    forall i :: 0 <= i < |xs| ==> xs[i] == x
  }

  lemma {:induction false} DistanceZeroIff(xs: seq<real>, centre: real)
    ensures SquaredDistance(xs, centre) >= 0.0
    ensures SquaredDistance(xs, centre) == 0.0 <==> Constant(xs, centre)
  {
    if xs != [] {
      DistanceZeroIff(xs[..|xs| - 1], centre);
      var d := xs[|xs| - 1] - centre;
      SquareZeroIff(d, d * d);
    }
  }

  lemma {:induction false} ProductIsPositive(a: real, b: real, product: real)
    requires product == a * b && a > 0.0 && b > 0.0
    ensures product > 0.0
  {
  }

  lemma {:induction false} SquareZeroIff(x: real, square: real)
    requires square == x * x
    ensures square >= 0.0 && (square == 0.0 <==> x == 0.0)
  {
    if x > 0.0 {
      ProductIsPositive(x, x, square);
    } else if x < 0.0 {
      assert square == (-x) * (-x);
      ProductIsPositive(-x, -x, square);
    } else {
      assert square == x * x == 0.0 * x;
    }
  }

  /** A window does not vary exactly when all its values are its mean. */
  lemma {:induction false} VarianceZeroIff(xs: seq<real>)
    requires |xs| >= 2
    ensures Variance(xs) >= 0.0
    ensures Variance(xs) == 0.0 <==> exists x :: Constant(xs, x)
  {
    var m, n := Mean(xs), (|xs| - 1) as real;
    DistanceZeroIff(xs, m);
    assert Variance(xs) * n == SquaredDistance(xs, m);
    if x :| Constant(xs, x) {
      MeanBetween(xs, x, x);
    }
  }

  lemma {:induction false} DistanceShifts(xs: seq<real>, centre: real, shift: real)
    ensures SquaredDistance(Deviations(xs, shift), centre - shift) == SquaredDistance(xs, centre)
  {
    if xs != [] {
      var front := xs[..|xs| - 1];
      DistanceShifts(front, centre, shift);
      assert Deviations(xs, shift)[..|front|] == Deviations(front, shift);
    }
  }

  lemma {:induction false} MeanShifts(xs: seq<real>, shift: real)
    requires xs != []
    ensures Mean(Deviations(xs, shift)) == Mean(xs) - shift
  {
    TotalOfDeviations(xs, shift);
    ShiftedQuotient(Total(xs), |xs| as real, shift);
  }

  lemma {:induction false} ShiftedQuotient(total: real, n: real, shift: real)
    requires n > 0.0
    ensures (total - n * shift) / n == total / n - shift
  {
  }

  /** Shifting every week by the same amount shifts the mean and keeps the variance. */
  lemma {:induction false} VarianceShifts(xs: seq<real>, shift: real)
    requires |xs| >= 2
    ensures Mean(Deviations(xs, shift)) == Mean(xs) - shift
    ensures Variance(Deviations(xs, shift)) == Variance(xs)
  {
    MeanShifts(xs, shift);
    DistanceShifts(xs, Mean(xs), shift);
    hide Mean, SquaredDistance, Deviations;
  }

  lemma {:induction false} DistanceOfTwo(x: real, y: real, centre: real)
    ensures Total([x, y]) == x + y
    ensures SquaredDistance([x, y], centre) == (x - centre) * (x - centre) + (y - centre) * (y - centre)
  {
    TotalConcat([x], [y]);
    TotalOfOne(x);
    TotalOfOne(y);
    assert [x] + [y] == [x, y] && [] + [x] == [x];
    DistanceAppend([], x, centre);
    DistanceAppend([x], y, centre);
    assert SquaredDistance([], centre) == 0.0;
  }

  lemma {:induction false} DistanceAppend(xs: seq<real>, x: real, centre: real)
    ensures SquaredDistance(xs + [x], centre) == SquaredDistance(xs, centre) + (x - centre) * (x - centre)
  {
    assert (xs + [x])[..|xs|] == xs;
  }

  lemma {:induction false} HalfSquares(x: real, y: real, m: real)
    requires m == (x + y) / 2.0
    ensures (x - m) * (x - m) + (y - m) * (y - m) == (x - y) * (x - y) / 2.0
  {
    var h := (x - y) / 2.0;
    assert x - m == h && y - m == -h;
    assert x - y == 2.0 * h;
  }

  /** The sample variance of two weeks is half the square of their difference. */
  lemma {:induction false} VarianceOfTwo(x: real, y: real)
    ensures Mean([x, y]) == (x + y) / 2.0
    ensures Variance([x, y]) == (x - y) * (x - y) / 2.0
  {
    var m := (x + y) / 2.0;
    DistanceOfTwo(x, y, m);
    HalfSquares(x, y, m);
    hide Total, SquaredDistance;
  }

  // ---- Trend ratios ---------------------------------------------------------

  /** A trend ratio is 1 exactly when the newest value is the mean, and above 1 exactly when it is above the mean. */
  lemma {:induction false} TrendIff(newest: real, mean: real)
    requires mean > -1.0
    ensures Trend(newest, mean).Some?
    ensures Trend(newest, mean).value == 1.0 <==> newest == mean
    ensures Trend(newest, mean).value > 1.0 <==> newest > mean
  {
    var d, q := mean + 1.0, (newest + 1.0) / (mean + 1.0);
    assert q * d == newest + 1.0;
    if q > 1.0 {
      Grows(d, 1.0, q);
    } else if q < 1.0 {
      Grows(d, q, 1.0);
    } else {
      assert q == 1.0 && 1.0 * d == d;
    }
  }

  // ---- The first prediction on the history ----------------------------------

  function FirstForecast(
    history: seq<real>, monday: int, enc: int, model: (Features, int) -> real): (real, Inference)
    requires history != []
  {
    Forecast(StepOne(Last(history, 8), BatchRow(history, |history| - 1, monday, enc)), model)
  }

  /**
   * Nine or more weeks of a known category: the model's answer on the features of the coming week,
   * or 0 where that is negative.
   */
  lemma {:induction false} LongHistoryUsesModel(
    history: seq<real>, monday: int, enc: int, model: (Features, int) -> real, future: seq<real>)
    requires |history| >= 9 && 0 <= enc <= 72 && future != []
    ensures var answer := model(BatchFeatures(history + future, |history|, monday), enc);
            FirstForecast(history, monday, enc, model) == (if answer < 0.0 then 0.0 else answer, SUCCESS)
  {
    StepOneIsBatch(history, future, monday, enc);
    hide StepOne, BatchFeatures, Last;
    StepOneRow(Last(history, 8), BatchRow(history, |history| - 1, monday, enc));
  }

  lemma {:induction false} StepOneRow(recent: seq<real>, latest: Row)
    requires recent != []
    ensures var row := StepOne(recent, latest);
            row.enc == latest.enc && row.weeks == latest.weeks && row.status == latest.status
    ensures StepOne(recent, latest).features.mean4 == Mean(Last(recent, 4))
  {
  }

  /** The cold-start rule: a known category that is not eligible. */
  lemma {:induction false} ColdStartIsMean(row: Row, model: (Features, int) -> real)
    requires row.enc >= 0 && row.weeks > 0
    requires row.enc > 72 || row.weeks < 8 || row.status == INSUFFICIENT_HISTORY
    ensures Forecast(row, model)
         == (if row.features.mean4 < 0.0 then 0.0 else row.features.mean4, COLD_START_FALLBACK)
  {
  }

  lemma {:induction false} WindowMean(history: seq<real>, monday: int, enc: int)
    requires history != []
    ensures var row := StepOne(Last(history, 8), BatchRow(history, |history| - 1, monday, enc));
            && row.enc == enc && row.weeks == |history| - 1
            && row.status == StatusOf(enc, |history| - 1)
            && row.features.mean4 == Mean(if |history| < 4 then history else history[|history| - 4..])
  {
    LastOfLast(history, 4, 8);
    assert Last(history, 4) == if |history| < 4 then history else history[|history| - 4..];
    StepOneRow(Last(history, 8), BatchRow(history, |history| - 1, monday, enc));
    hide StepOne, BatchFeatures, Last, Mean;
  }

  lemma {:induction false} ShortHistoryIsMean(
    history: seq<real>, monday: int, enc: int, model: (Features, int) -> real, window: seq<real>)
    requires |history| >= 2 && enc >= 0 && (|history| <= 8 || enc > 72)
    requires window == if |history| < 4 then history else history[|history| - 4..]
    ensures FirstForecast(history, monday, enc, model)
         == (if Mean(window) < 0.0 then 0.0 else Mean(window), COLD_START_FALLBACK)
  {
    WindowMean(history, monday, enc);
    hide StepOne, BatchFeatures, Last, Mean, Forecast, BatchRow;
    ColdStartIsMean(StepOne(Last(history, 8), BatchRow(history, |history| - 1, monday, enc)), model);
  }

  /**
   * Two to eight weeks of a known category, or any longer history of one the model does not know: the
   * prediction times the length of the four-week window is the demand in that window, or 0 where
   * that is negative.
   */
  lemma {:induction false} ShortHistoryAverages(
    history: seq<real>, monday: int, enc: int, model: (Features, int) -> real)
    requires |history| >= 2 && enc >= 0 && (|history| <= 8 || enc > 72)
    ensures var (prediction, inference) := FirstForecast(history, monday, enc, model);
            var window := if |history| < 4 then history else history[|history| - 4..];
            && inference == COLD_START_FALLBACK
            && (Total(window) >= 0.0 ==> prediction * |window| as real == Total(window))
            && (Total(window) < 0.0 ==> prediction == 0.0)
  {
    hide *;
    var window := if |history| < 4 then history else history[|history| - 4..];
    ShortHistoryIsMean(history, monday, enc, model, window);
    MeanSign(window);
    ClampedTimes(Mean(window), |window| as real, Total(window));
  }

  lemma {:induction false} ClampedTimes(mean: real, n: real, total: real)
    requires mean * n == total && (mean < 0.0 <==> total < 0.0)
    ensures var clamped := if mean < 0.0 then 0.0 else mean;
            (total >= 0.0 ==> clamped * n == total) && (total < 0.0 ==> clamped == 0.0)
  {
  }

  lemma {:induction false} MeanSign(xs: seq<real>)
    requires xs != []
    ensures Mean(xs) * |xs| as real == Total(xs)
    ensures Mean(xs) < 0.0 <==> Total(xs) < 0.0
  {
    hide Total;
    var n := |xs| as real;
    assert Mean(xs) * n == Total(xs);
    if Mean(xs) < 0.0 {
      Grows(n, Mean(xs), 0.0);
    } else if Mean(xs) > 0.0 {
      Grows(n, 0.0, Mean(xs));
    }
  }

  /** A category the encoder does not know is forecast as 0, whatever its history. */
  lemma {:induction false} UnseenIsZero(history: seq<real>, monday: int, enc: int, model: (Features, int) -> real)
    requires history != [] && enc < 0
    ensures FirstForecast(history, monday, enc, model) == (0.0, UNSEEN)
  {
    StepOneRow(Last(history, 8), BatchRow(history, |history| - 1, monday, enc));
    hide StepOne, BatchFeatures, Last;
  }

  /**
   * Without a demand column the features of the coming week are those of the latest row, with the
   * averages over its three lags.
   */
  lemma {:induction false} LagsStandIn(latest: Row)
    ensures var f, l := StepOne(FromLags(latest), latest).features, latest.features;
            && f.lag1 == l.lag1 && f.lag2 == l.lag2 && f.lag4 == l.lag4 && f.monday == l.monday + 7
            && f.mean4 == f.mean8 == Mean([l.lag4, l.lag2, l.lag1])
            && f.var4 == Variance([l.lag4, l.lag2, l.lag1])
    ensures StepTwo(FromLags(latest), 0.0, latest).features.lag4 == latest.features.lag4
  {
    hide Mean, Variance, Trend;
  }

  /** Three weeks of 10, 20 and 60 are forecast as 30. */
  lemma {:induction false} ThreeWeeksExample(model: (Features, int) -> real)
    ensures FirstForecast([10.0, 20.0, 60.0], 0, 3, model) == (30.0, COLD_START_FALLBACK)
  {
    var h := [10.0, 20.0, 60.0];
    ShortHistoryAverages(h, 0, 3, model);
    assert h[..2] == [10.0, 20.0] && h[..2][..1] == [10.0] && h[..2][..1][..0] == [];
    hide FirstForecast;
    assert Total([10.0]) == 10.0 && Total([10.0, 20.0]) == 30.0 && Total(h) == 90.0;
  }
}
