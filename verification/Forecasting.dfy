/**
 * The recursive two-step forecaster against the batch feature definition. Numbers are exact
 * reals, and the sample variance stands for its square root.
 */
module Forecasting {
  import opened Common

  /** The features of one week; the trend ratio has no value when its denominator is zero: the engine then raises. */
  datatype Features = Features(
    lag1: real, lag2: real, lag4: real, mean4: real, var4: real, mean8: real, trend: Option<real>, monday: int)

  datatype HistoryStatus = SUFFICIENT_HISTORY | INSUFFICIENT_HISTORY | UNSEEN_CATEGORY

  datatype Row = Row(features: Features, enc: int, weeks: int, status: HistoryStatus)

  const MIN_WEEKS := 8

  function Total(xs: seq<real>): real {
    if xs == [] then 0.0 else Total(xs[..|xs| - 1]) + xs[|xs| - 1]
  }

  function Mean(xs: seq<real>): real
    requires xs != []
  {
    Total(xs) / |xs| as real
  }

  function SquaredDistance(xs: seq<real>, centre: real): real {
    if xs == [] then 0.0
    else SquaredDistance(xs[..|xs| - 1], centre) + (xs[|xs| - 1] - centre) * (xs[|xs| - 1] - centre)
  }

  function Variance(xs: seq<real>): real
    requires |xs| >= 2
  {
    SquaredDistance(xs, Mean(xs)) / (|xs| - 1) as real
  }

  function Trend(lag1: real, mean4: real): Option<real> {
    if mean4 + 1.0 == 0.0 then None else Some((lag1 + 1.0) / (mean4 + 1.0))
  }

  // ---- The batch definition, column by column --------------------------------

  type Column = seq<Option<real>>

  /** A column moved down by `k` rows; the first rows are missing. */
  function Shift(xs: seq<real>, k: nat): (r: Column)
    ensures |r| == |xs|
  {
    seq(|xs|, i requires 0 <= i < |xs| => if i < k then None else Some(xs[i - k]))
  }

  /** The values present in a column. */
  function Present(column: Column): seq<real> {
    if column == [] then []
    else
      var last := column[|column| - 1];
      Present(column[..|column| - 1]) + (if last.Some? then [last.value] else [])
  }

  /** What a rolling window of `width` rows ending at row `i` sees. */
  function Window(column: Column, i: nat, width: nat): seq<real>
    requires i < |column|
  {
    Present(column[(if i + 1 < width then 0 else i + 1 - width)..i + 1])
  }

  function Filled(cell: Option<real>): real { if cell.Some? then cell.value else 0.0 }

  /** Row `i` of the engineered features of a category whose weeks start at `monday`. */
  function BatchFeatures(demand: seq<real>, i: nat, monday: int): Features
    requires i < |demand|
  {
    var past := Shift(demand, 1);
    var w4, w8 := Window(past, i, 4), Window(past, i, 8);
    var lag1, mean4 := Filled(past[i]), if w4 == [] then 0.0 else Mean(w4);
    Features(lag1, Filled(Shift(demand, 2)[i]), Filled(Shift(demand, 4)[i]),
             mean4, if |w4| < 2 then 0.0 else Variance(w4), if w8 == [] then 0.0 else Mean(w8),
             Trend(lag1, mean4), monday + 7 * i)
  }

  function StatusOf(enc: int, weeks: int): HistoryStatus {
    if enc == -1 then UNSEEN_CATEGORY else if weeks < MIN_WEEKS then INSUFFICIENT_HISTORY else SUFFICIENT_HISTORY
  }

  function BatchRow(demand: seq<real>, i: nat, monday: int, enc: int): Row
    requires i < |demand|
  {
    Row(BatchFeatures(demand, i, monday), enc, i, StatusOf(enc, i))
  }

  // ---- The recursive engine --------------------------------------------------

  /** Features of the next week from the window kept; short windows fall back on the latest row. */
  function StepOne(recent: seq<real>, latest: Row): Row
    requires recent != []
  {
    var n, l := |recent|, latest.features;
    var lag1, mean4 := recent[n - 1], Mean(Last(recent, 4));
    Row(Features(lag1, if n >= 2 then recent[n - 2] else l.lag2, if n >= 4 then recent[n - 4] else l.lag4,
                 mean4, if n >= 2 then Variance(Last(recent, 4)) else 0.0, Mean(Last(recent, 8)),
                 Trend(lag1, mean4), l.monday + 7),
        latest.enc, latest.weeks, latest.status)
  }

  /** Features of the week after, with the first prediction at the end of the window. */
  function StepTwo(recent: seq<real>, prediction: real, latest: Row): Row
    requires recent != []
  {
    var more := recent + [prediction];
    var n, mean4 := |more|, Mean(Last(more, 4));
    Row(Features(prediction, more[n - 2], if n >= 4 then more[n - 4] else 0.0,
                 mean4, Variance(Last(more, 4)), Mean(Last(more, 8)), Trend(prediction, mean4),
                 latest.features.monday + 14),
        latest.enc, latest.weeks + 1, latest.status)
  }

  predicate Eligible(row: Row) {
    0 <= row.enc <= 72 && row.weeks >= MIN_WEEKS && row.status != INSUFFICIENT_HISTORY
  }

  datatype Inference = SUCCESS | COLD_START_FALLBACK | NO_HISTORY | UNSEEN

  function NonNegative(x: real): real { if x < 0.0 then 0.0 else x }

  /** The model when the row is eligible, else the cold-start rule. */
  function Forecast(row: Row, model: (Features, int) -> real): (real, Inference) {
    if Eligible(row) then (NonNegative(model(row.features, row.enc)), SUCCESS)
    else if row.enc < 0 then (0.0, UNSEEN)
    else if row.weeks == 0 then (0.0, NO_HISTORY)
    else (NonNegative(row.features.mean4), COLD_START_FALLBACK)
  }

  // ---- The engine computes the batch features --------------------------------

  lemma {:induction false} PresentOf(column: Column, xs: seq<real>)
    requires |column| == |xs| && forall k :: 0 <= k < |xs| ==> column[k] == Some(xs[k])
    ensures Present(column) == xs
  {
    if xs != [] {
      PresentOf(column[..|column| - 1], xs[..|xs| - 1]);
    }
  }

  lemma {:induction false} PresentBehindNone(column: Column, xs: seq<real>)
    requires |column| == |xs| + 1 && column[0] == None && forall k :: 0 <= k < |xs| ==> column[k + 1] == Some(xs[k])
    ensures Present(column) == xs
  {
    if xs != [] {
      assert column[|xs| - 1 + 1] == Some(xs[|xs| - 1]);
      PresentBehindNone(column[..|column| - 1], xs[..|xs| - 1]);
    } else {
      assert column[..|column| - 1] == [];
    }
  }

  /** The shifted rolling window at a row is the last weeks strictly before it. */
  lemma {:induction false} WindowIsPast(demand: seq<real>, i: nat, width: nat)
    requires i < |demand| && width > 0
    ensures Window(Shift(demand, 1), i, width) == Last(demand[..i], width)
  {
    var past := Shift(demand, 1);
    if i + 1 <= width {
      PresentBehindNone(past[0..i + 1], demand[..i]);
    } else {
      PresentOf(past[i + 1 - width..i + 1], demand[i - width..i]);
      assert demand[i - width..i] == Last(demand[..i], width);
    }
  }

  lemma {:induction false} LastOfLast(xs: seq<real>, n: nat, m: nat)
    requires n <= m
    ensures Last(Last(xs, m), n) == Last(xs, n)
  {
  }

  lemma {:induction false} LastAfterAppend(xs: seq<real>, x: real, n: nat, m: nat)
    requires n <= m
    ensures Last(Last(xs, m) + [x], n) == Last(xs + [x], n)
  {
  }

  /** The batch features of a row in terms of the weeks before it; the row itself and later weeks do not matter. */
  lemma {:induction false} BatchLooksBack(history: seq<real>, future: seq<real>, monday: int)
    requires history != [] && future != []
    ensures var n, w4 := |history|, Last(history, 4);
            && BatchFeatures(history + future, n, monday)
               == Features(history[n - 1], if n >= 2 then history[n - 2] else 0.0,
                           if n >= 4 then history[n - 4] else 0.0,
                           Mean(w4), if n >= 2 then Variance(w4) else 0.0, Mean(Last(history, 8)),
                           Trend(history[n - 1], Mean(w4)), monday + 7 * n)
  {
    var all, n := history + future, |history|;
    assert all[..n] == history;
    WindowIsPast(all, n, 4);
    WindowIsPast(all, n, 8);
  }

  lemma {:induction false} LatestLags(history: seq<real>, monday: int)
    requires history != []
    ensures var n, l := |history|, BatchFeatures(history, |history| - 1, monday);
            && (n < 2 ==> l.lag2 == 0.0) && (n < 4 ==> l.lag4 == 0.0) && l.monday == monday + 7 * (n - 1)
            && l.lag1 == if n >= 2 then history[n - 2] else 0.0
  {
  }

  /** From the last eight weeks the engine gets the batch features of the week after the history. */
  lemma {:induction false} StepOneIsBatch(history: seq<real>, future: seq<real>, monday: int, enc: int)
    requires history != [] && future != []
    ensures var latest := BatchRow(history, |history| - 1, monday, enc);
            StepOne(Last(history, 8), latest).features == BatchFeatures(history + future, |history|, monday)
  {
    BatchLooksBack(history, future, monday);
    LatestLags(history, monday);
    LastOfLast(history, 4, 8);
    LastOfLast(history, 8, 8);
  }

  /** And for the week after that, those of the history extended by its own first prediction. */
  lemma {:induction false} StepTwoIsBatch(
    history: seq<real>, prediction: real, future: seq<real>, monday: int, enc: int)
    requires history != [] && future != []
    ensures var latest := BatchRow(history, |history| - 1, monday, enc);
            && StepTwo(Last(history, 8), prediction, latest).features
               == BatchFeatures(history + [prediction] + future, |history| + 1, monday)
  {
    hide Mean, Variance, Trend, BatchFeatures, Present, Shift, Last;
    WindowEnds(history, prediction);
    BatchLooksBack(history + [prediction], future, monday);
    LatestLags(history, monday);
    LastAfterAppend(history, prediction, 4, 8);
    LastAfterAppend(history, prediction, 8, 8);
  }

  lemma {:induction false} WindowEnds(history: seq<real>, prediction: real)
    requires history != []
    ensures var window, all := Last(history, 8) + [prediction], history + [prediction];
            && 2 <= |window| <= |all| && window[|window| - 2] == all[|all| - 2]
            && (|window| >= 4 <==> |all| >= 4)
            && (|all| >= 4 ==> window[|window| - 4] == all[|all| - 4])
  {
  }

  // ---- Where the engine and the batch differ ---------------------------------

  /**
   * The engine keeps the latest row's week count and status for the next week, so it treats the
   * coming week as ready for the model exactly as the batch does except with eight weeks of history.
   */
  lemma {:induction false} FirstStepEligibleIff(history: seq<real>, future: seq<real>, monday: int, enc: int)
    requires history != [] && future != [] && 0 <= enc <= 72
    ensures var latest := BatchRow(history, |history| - 1, monday, enc);
            && ((Eligible(StepOne(Last(history, 8), latest))
                 <==> Eligible(BatchRow(history + future, |history|, monday, enc)))
                <==> |history| != 8)
  {
  }

  lemma {:induction false} SecondStepEligibleIff(
    history: seq<real>, prediction: real, future: seq<real>, monday: int, enc: int)
    requires history != [] && future != [] && 0 <= enc <= 72
    ensures var latest := BatchRow(history, |history| - 1, monday, enc);
            && ((Eligible(StepTwo(Last(history, 8), prediction, latest))
                 <==> Eligible(BatchRow(history + [prediction] + future, |history| + 1, monday, enc)))
                <==> |history| != 7 && |history| != 8)
  {
  }

  /** The window when the feature rows carry no demand column. */
  function FromLags(latest: Row): seq<real> {
    [latest.features.lag4, latest.features.lag2, latest.features.lag1]
  }

  /** Without a demand column the newest week is missing: its lag is right only if demand did not change. */
  lemma {:induction false} LagsAreStaleIff(history: seq<real>, future: seq<real>, monday: int, enc: int)
    requires history != [] && future != []
    ensures var latest := BatchRow(history, |history| - 1, monday, enc);
            && (StepOne(FromLags(latest), latest).features.lag1
                == BatchFeatures(history + future, |history|, monday).lag1
                <==> history[|history| - 1] == if |history| >= 2 then history[|history| - 2] else 0.0)
  {
  }

  // ---- The loop over categories ----------------------------------------------

  /** A category's rows: demand per week when the column exists, and its latest feature row. */
  datatype Category = Category(name: string, demand: Option<seq<real>>, latest: Row)

  datatype Record = Record(category: string, monday: int, prediction: real, inference: Inference, step: int)

  function Recent(c: Category): seq<real> {
    if c.demand.Some? then Last(c.demand.value, 8) else FromLags(c.latest)
  }

  function RecordsOf(c: Category, model: (Features, int) -> real, twoWeeks: bool): seq<Record>
    requires Recent(c) != []
  {
    var one := StepOne(Recent(c), c.latest);
    var (p1, i1) := Forecast(one, model);
    var two := StepTwo(Recent(c), p1, c.latest);
    var (p2, i2) := Forecast(two, model);
    [Record(c.name, one.features.monday, p1, i1, 1)]
    + (if twoWeeks then [Record(c.name, two.features.monday, p2, i2, 2)] else [])
  }

  /** A group has at least one row, so a demand column is never empty. */
  predicate Grouped(cs: seq<Category>) {
    forall i :: 0 <= i < |cs| ==> Recent(cs[i]) != []
  }

  function AllRecords(cs: seq<Category>, model: (Features, int) -> real, twoWeeks: bool): seq<Record>
    requires Grouped(cs)
  {
    if cs == [] then []
    else AllRecords(cs[..|cs| - 1], model, twoWeeks) + RecordsOf(cs[|cs| - 1], model, twoWeeks)
  }

  lemma {:induction false} AllRecordsNext(cs: seq<Category>, k: nat, model: (Features, int) -> real, twoWeeks: bool)
    requires Grouped(cs) && k < |cs|
    ensures AllRecords(cs[..k + 1], model, twoWeeks)
         == AllRecords(cs[..k], model, twoWeeks) + RecordsOf(cs[k], model, twoWeeks)
  {
    assert cs[..k + 1][..k] == cs[..k];
  }

  /** A trend ratio divides by zero, which raises. */
  predicate Raises(c: Category, model: (Features, int) -> real, twoWeeks: bool)
    requires Recent(c) != []
  {
    var one := StepOne(Recent(c), c.latest);
    one.features.trend.None?
    || (twoWeeks && StepTwo(Recent(c), Forecast(one, model).0, c.latest).features.trend.None?)
  }

  /** No records at all (None) when some category raises. */
  method GenerateForwardForecasts(cs: seq<Category>, model: (Features, int) -> real, twoWeeks: bool)
    returns (result: Option<seq<Record>>)
    requires Grouped(cs)
    ensures result == if exists k :: 0 <= k < |cs| && Raises(cs[k], model, twoWeeks) then None
                      else Some(AllRecords(cs, model, twoWeeks))
  {
    hide StepOne, StepTwo, Forecast, Last;
    var records: seq<Record> := [];
    for k := 0 to |cs|
      invariant records == AllRecords(cs[..k], model, twoWeeks)
      invariant forall j :: 0 <= j < k ==> !Raises(cs[j], model, twoWeeks)
    {
      AllRecordsNext(cs, k, model, twoWeeks);
      ghost var before := records;
      var recent: seq<real>;
      if cs[k].demand.Some? {
        recent := Last(cs[k].demand.value, 8);
      } else {
        recent := FromLags(cs[k].latest);
      }
      var one := StepOne(recent, cs[k].latest);
      if one.features.trend.None? {
        return None;
      }
      var (prediction, inference) := Forecast(one, model);
      records := records + [Record(cs[k].name, one.features.monday, prediction, inference, 1)];
      if twoWeeks {
        var two := StepTwo(recent, prediction, cs[k].latest);
        if two.features.trend.None? {
          return None;
        }
        var (prediction2, inference2) := Forecast(two, model);
        records := records + [Record(cs[k].name, two.features.monday, prediction2, inference2, 2)];
      }
      assert records == before + RecordsOf(cs[k], model, twoWeeks);
    }
    assert cs[..|cs|] == cs;
    return Some(records);
  }

  /** Exactly a mean of -1 over a window raises. */
  lemma {:induction false} RaisesIff(c: Category, model: (Features, int) -> real)
    requires Recent(c) != []
    ensures var p := Forecast(StepOne(Recent(c), c.latest), model).0;
            Raises(c, model, true)
            <==> Mean(Last(Recent(c), 4)) == -1.0 || Mean(Last(Recent(c) + [p], 4)) == -1.0
  {
    hide Mean, Variance, Forecast, Recent, Last;
  }

  lemma {:induction false} TotalNotNegative(xs: seq<real>)
    requires forall i :: 0 <= i < |xs| ==> xs[i] >= 0.0
    ensures Total(xs) >= 0.0
  {
    if xs != [] {
      TotalNotNegative(xs[..|xs| - 1]);
    }
  }

  lemma {:induction false} MeanNotNegative(xs: seq<real>)
    requires xs != [] && forall i :: 0 <= i < |xs| ==> xs[i] >= 0.0
    ensures Mean(xs) >= 0.0
  {
    TotalNotNegative(xs);
  }

  lemma {:induction false} PredictionNotNegative(row: Row, model: (Features, int) -> real)
    ensures Forecast(row, model).0 >= 0.0
  {
  }

  /** Demand that is never negative never raises, whatever the model predicts. */
  lemma {:induction false} DemandNeverRaises(c: Category, model: (Features, int) -> real, twoWeeks: bool)
    requires Recent(c) != [] && forall i :: 0 <= i < |Recent(c)| ==> Recent(c)[i] >= 0.0
    ensures !Raises(c, model, twoWeeks)
  {
    hide StepOne, StepTwo, Forecast, Recent, Mean;
    var p := Forecast(StepOne(Recent(c), c.latest), model).0;
    PredictionNotNegative(StepOne(Recent(c), c.latest), model);
    MeanNotNegative(Last(Recent(c), 4));
    MeanNotNegative(Last(Recent(c) + [p], 4));
    RaisesIff(c, model);
  }

  /** Rows that differ only in week count and status: what decides whether they are forecast alike. */
  lemma {:induction false} SameForecastIff(a: Row, b: Row, model: (Features, int) -> real)
    requires a.features == b.features && a.enc == b.enc
    ensures Forecast(a, model) == Forecast(b, model)
       <==> a.enc < 0 || (Eligible(a) == Eligible(b) && (Eligible(a) || (a.weeks == 0 <==> b.weeks == 0)))
  {
  }

  /** How many weeks of history give the first, and the second, forecast of the batch rows. */
  predicate FirstAgrees(enc: int, weeks: nat) {
    enc < 0 || (weeks != 1 && (enc > 72 || weeks != 8))
  }

  predicate SecondAgrees(enc: int, weeks: nat) {
    enc < 0 || enc > 72 || (weeks != 7 && weeks != 8)
  }

  /**
   * The first forecast is that of the batch row after the history except with one week, where the
   * engine answers 0 for lack of history, and with eight, where it does not use the model yet.
   */
  lemma {:induction false} FirstForecastIff(
    history: seq<real>, future: seq<real>, monday: int, enc: int, model: (Features, int) -> real)
    requires history != [] && future != []
    ensures var latest := BatchRow(history, |history| - 1, monday, enc);
            && (Forecast(StepOne(Last(history, 8), latest), model)
                == Forecast(BatchRow(history + future, |history|, monday, enc), model)
                <==> FirstAgrees(enc, |history|))
  {
    hide BatchFeatures, Mean, Variance, Trend, Forecast;
    var n, latest := |history|, BatchRow(history, |history| - 1, monday, enc);
    StepOneIsBatch(history, future, monday, enc);
    SameForecastIff(StepOne(Last(history, 8), latest), BatchRow(history + future, n, monday, enc), model);
  }

  /** For any first prediction the second forecast is that of the batch except with seven or eight weeks. */
  lemma {:induction false} SecondForecastIff(
    history: seq<real>, prediction: real, future: seq<real>, monday: int, enc: int, model: (Features, int) -> real)
    requires history != [] && future != []
    ensures var latest := BatchRow(history, |history| - 1, monday, enc);
            && (Forecast(StepTwo(Last(history, 8), prediction, latest), model)
                == Forecast(BatchRow(history + [prediction] + future, |history| + 1, monday, enc), model)
                <==> SecondAgrees(enc, |history|))
  {
    hide BatchFeatures, Mean, Variance, Trend, Forecast;
    var n, latest := |history|, BatchRow(history, |history| - 1, monday, enc);
    StepTwoIsBatch(history, prediction, future, monday, enc);
    SameForecastIff(StepTwo(Last(history, 8), prediction, latest),
                    BatchRow(history + [prediction] + future, n + 1, monday, enc), model);
  }

  /** The forecasts the batch rows after the history, and after it and the first forecast, would give. */
  function BatchRecords(
    name: string, history: seq<real>, monday: int, enc: int, model: (Features, int) -> real, future: seq<real>)
    : seq<Record>
    requires history != [] && future != []
  {
    var n := |history|;
    var (p1, i1) := Forecast(BatchRow(history + future, n, monday, enc), model);
    var (p2, i2) := Forecast(BatchRow(history + [p1] + future, n + 1, monday, enc), model);
    Pair(name, monday + 7 * n, monday + 7 * (n + 1), (p1, i1), (p2, i2))
  }

  /** The records of a category, if it does not raise. */
  function EngineRecords(c: Category, model: (Features, int) -> real): Option<seq<Record>>
    requires Recent(c) != []
  {
    if Raises(c, model, true) then None else Some(RecordsOf(c, model, true))
  }

  lemma {:induction false} RecordsAgreeIff(
    name: string, history: seq<real>, monday: int, enc: int, model: (Features, int) -> real, future: seq<real>)
    requires history != [] && future != []
    ensures RecordsOf(Category(name, Some(history), BatchRow(history, |history| - 1, monday, enc)), model, true)
         == BatchRecords(name, history, monday, enc, model, future)
       <==> FirstAgrees(enc, |history|) && SecondAgrees(enc, |history|)
  {
    hide BatchFeatures, Mean, Variance, Trend, Forecast, StepOne, StepTwo, FirstAgrees, SecondAgrees;
    var n, latest := |history|, BatchRow(history, |history| - 1, monday, enc);
    LatestLags(history, monday);
    var one := StepOne(Last(history, 8), latest);
    var p1 := Forecast(one, model).0;
    StepMondays(Last(history, 8), p1, latest);
    FirstForecastIff(history, future, monday, enc, model);
    SecondForecastIff(history, p1, future, monday, enc, model);
    var two := StepTwo(Last(history, 8), p1, latest);
    var first := Forecast(BatchRow(history + future, n, monday, enc), model);
    var second := Forecast(BatchRow(history + [first.0] + future, n + 1, monday, enc), model);
    SamePair(name, monday + 7 * n, monday + 7 * (n + 1), Forecast(one, model), Forecast(two, model), first, second);
  }

  /**
   * Both records of a category are the batch's exactly when no mean is -1 and both steps agree: not
   * with 1, 7 or 8 weeks of a known category.
   */
  lemma {:induction false} ForecastsAreBatchForecasts(
    name: string, history: seq<real>, monday: int, enc: int, model: (Features, int) -> real, future: seq<real>)
    requires history != [] && future != []
    ensures var c := Category(name, Some(history), BatchRow(history, |history| - 1, monday, enc));
            EngineRecords(c, model) == Some(BatchRecords(name, history, monday, enc, model, future))
            <==> !Raises(c, model, true) && FirstAgrees(enc, |history|) && SecondAgrees(enc, |history|)
  {
    hide RecordsOf, BatchRecords, Raises, BatchRow, FirstAgrees, SecondAgrees;
    RecordsAgreeIff(name, history, monday, enc, model, future);
  }

  lemma {:induction false} StepMondays(recent: seq<real>, prediction: real, latest: Row)
    requires recent != []
    ensures StepOne(recent, latest).features.monday == latest.features.monday + 7
    ensures StepTwo(recent, prediction, latest).features.monday == latest.features.monday + 14
  {
    hide Mean, Variance, Trend, Last;
  }

  function Pair(name: string, first: int, second: int, a: (real, Inference), b: (real, Inference)): seq<Record> {
    [Record(name, first, a.0, a.1, 1), Record(name, second, b.0, b.1, 2)]
  }

  lemma {:induction false} SamePair(name: string, first: int, second: int,
    a: (real, Inference), b: (real, Inference), c: (real, Inference), d: (real, Inference))
    ensures Pair(name, first, second, a, b) == Pair(name, first, second, c, d) <==> a == c && b == d
  {
    var p, q := Pair(name, first, second, a, b), Pair(name, first, second, c, d);
    assert p == q ==> p[0] == q[0] && p[1] == q[1];
  }

  /** One week of demand 5: the engine forecasts 0 for lack of history, the batch row the mean 5. */
  lemma {:induction false} OneWeekExample(model: (Features, int) -> real)
    ensures var latest := BatchRow([5.0], 0, 0, 3);
            && Forecast(StepOne([5.0], latest), model) == (0.0, NO_HISTORY)
            && Forecast(BatchRow([5.0] + [0.0], 1, 0, 3), model) == (5.0, COLD_START_FALLBACK)
  {
    MeanOfOne(5.0);
    BatchLooksBack([5.0], [0.0], 0);
    hide BatchFeatures, Mean, Variance, Trend;
    assert Last([5.0], 4) == [5.0];
  }

  lemma {:induction false} MeanOfOne(x: real)
    ensures Mean([x]) == x
  {
    assert [x][..0] == [];
    assert Total([x]) == x;
  }
}
