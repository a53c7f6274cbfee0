/**
 The error-budget sensors: one range query whose step adapts to the SLO window, the same
 series handed to every horizon. Durations are unbounded here; the original's agree with
 them for windows up to 106,751 days, the longest a 64-bit duration holds.
 */
module BudgetSensor {
  import opened Wrappers
  import opened Engine
  import opened Decimation
  import opened Forecasting
  import opened Exactness
  import opened WindowReports

  datatype Slo = Slo(id: string, objective: real, windowDays: int, th: Thresholds)

  /** The answers of one poll; `None` is a failed query. An empty instant answer counts as zero. */
  datatype Answer = Answer(range: Option<seq<Sample>>, instant: Option<Option<real>>, outOfRange: OutOfRange)

  datatype PollError = RangeQuery | InstantQuery | Evaluation(error: Error)

  const QUERY_LIMIT := 11000

  function WindowOf(days: int): (w: int)
    ensures w >= 0
  {
    if days < 0 then 0 else days * DAY
  }

  /** A ten-thousandth of the window in whole seconds, but at least a minute. */
  function Step(window: int): (step: int)
    requires window >= 0
    ensures step >= MINUTE
  {
    var step := window / 10000 / SECOND * SECOND;
    if step < MINUTE then MINUTE else step
  }

  function BudgetInput(slo: Slo, series: seq<Sample>, value: real, outOfRange: OutOfRange): Input {
    Input(slo.id, [], value, (100.0 - slo.objective) / 100.0, 0.0,
          map w | w in DEFAULT_HORIZONS :: series,
          Step(WindowOf(slo.windowDays)), Unset, 0, slo.th, false, outOfRange)
  }

  function PollOf(slo: Slo, answer: Answer): Result<Forecast, PollError> {
    if answer.range.None? then Failure(RangeQuery)
    else if answer.instant.None? then Failure(InstantQuery)
    else
      var value := match answer.instant.value { case None => 0.0 case Some(v) => v };
      match ForecastOf(BudgetInput(slo, answer.range.value, value, answer.outOfRange))
      case Failure(e) => Failure(Evaluation(e))
      case Success(f) => Success(f)
  }

  method Poll(slo: Slo, answer: Answer) returns (r: Result<Forecast, PollError>)
    ensures r == PollOf(slo, answer)
  {
    var step := Step(WindowOf(slo.windowDays));
    if answer.range.None? {
      return Failure(RangeQuery);
    }
    var samples := SameSeries(answer.range.value);
    if answer.instant.None? {
      return Failure(InstantQuery);
    }
    var value := 0.0;
    if answer.instant.value.Some? {
      value := answer.instant.value.value;
    }
    var in_ := BudgetInput(slo, answer.range.value, value, answer.outOfRange).(samples := samples, interval := step);
    var f := Evaluate(in_);
    match f {
      case Failure(e) => return Failure(Evaluation(e));
      case Success(forecast) => return Success(forecast);
    }
  }

  /** The loop that hands the one series to every default horizon. */
  method SameSeries(series: seq<Sample>) returns (samples: map<int, seq<Sample>>)
    ensures samples == map w | w in DEFAULT_HORIZONS :: series
  {
    samples := map[];
    var i := 0;
    while i < |DEFAULT_HORIZONS|
      invariant 0 <= i <= |DEFAULT_HORIZONS|
      invariant samples == map w | w in DEFAULT_HORIZONS[..i] :: series
    {
      var w := DEFAULT_HORIZONS[i];
      assert DEFAULT_HORIZONS[..i + 1] == DEFAULT_HORIZONS[..i] + [w];
      samples := samples[w := series];
      i := i + 1;
    }
    assert DEFAULT_HORIZONS[..i] == DEFAULT_HORIZONS;
  }

  // ---- The step ----

  /** Points of a range query over `window`, both ends included. */
  function Points(window: int, step: int): int
    requires window >= 0 && step > 0
  {
    window / step + 1
  }

  lemma QuotientBelow(a: int, b: int, k: int)
    requires a >= 0 && b > 0 && a < k * b
    ensures a / b < k
  {
    assert a >= b * (a / b);
  }

  lemma QuotientMonotone(a: int, c: int, b: int)
    requires 0 <= a <= c && b > 0
    ensures a / b <= c / b
  {
    assert a >= b * (a / b) && c < b * (c / b + 1);
    CancelFactor(b, a / b, c / b + 1);
  }

  lemma CancelFactor(b: int, x: int, y: int)
    requires b > 0 && b * x < b * y
    ensures x < y
  {
  }

  /** No window makes the query exceed the server's limit of 11,000 points. */
  lemma {:induction false} QueryWithinLimit(days: int)
    requires days >= 1
    ensures Points(WindowOf(days), Step(WindowOf(days))) <= QUERY_LIMIT
  {
    var w := WindowOf(days);
    assert w < (QUERY_LIMIT - 1) * Step(w);
    QuotientBelow(w, Step(w), QUERY_LIMIT - 1);
  }

  lemma StepFitsGapIff(days: int)
    requires days >= 1
    ensures Step(WindowOf(days)) <= MAX_GAP <==> days <= 34
  {
  }

  // ---- Series a query returns ----

  /** A sample at some of the steps: none closer to the one before than `step`. */
  ghost predicate Spaced(samples: seq<Sample>, step: int) {
    forall i, j :: 0 <= i < j < |samples| && j == i + 1 ==> samples[j].time - samples[i].time >= step
  }

  /** A sample at every step of the window. */
  ghost predicate FullSeries(samples: seq<Sample>, window: int, step: int)
    requires window >= 0 && step > 0
  {
    && |samples| == Points(window, step)
    && forall i, j :: 0 <= i < j < |samples| && j == i + 1 ==> samples[j].time - samples[i].time == step
  }

  lemma {:induction false} SpacedOrdered(samples: seq<Sample>, step: int, i: nat, j: nat)
    requires step > 0 && Spaced(samples, step)
    requires i < j < |samples|
    ensures samples[i].time < samples[j].time
  {
    assert samples[j].time - samples[j - 1].time >= step;
    if i < j - 1 {
      SpacedOrdered(samples, step, i, j - 1);
    }
  }

  lemma SpacedIncreasing(samples: seq<Sample>, step: int)
    requires step > 0 && Spaced(samples, step)
    ensures StrictlyIncreasingTimes(samples)
  {
    forall i, j | 0 <= i < j < |samples| ensures samples[i].time < samples[j].time {
      SpacedOrdered(samples, step, i, j);
    }
  }

  /** A series sampled no more coarsely than the gap limit is one run. */
  lemma OneRun(samples: seq<Sample>, window: int, step: int)
    requires window >= 0 && step > 0 && FullSeries(samples, window, step)
    requires step <= MAX_GAP
    ensures Runs(samples, MAX_GAP) == [samples]
  {
    assert |samples| >= 1 by {
      assert window / step >= 0;
    }
    OneStretch(samples, MAX_GAP);
  }

  lemma RatioRounds(w: int, step: int)
    requires w >= 0 && step > 0
    ensures Round(w as real / step as real) <= w / step + 1
  {
    var q := w / step;
    assert w < step * (q + 1);
    RealProduct(step, q + 1);
    RatioBelow(w as real, step as real, (q + 1) as real);
    RoundNonNegative(w as real / step as real);
  }

  lemma RatioBelow(a: real, b: real, c: real)
    requires a >= 0.0 && b > 0.0 && a < b * c
    ensures 0.0 <= a / b < c
  {
    assert (a / b) * b == a;
  }

  lemma EnoughSamples(w: int, window: int, step: int)
    requires 0 <= w <= window && step > 0
    ensures MinSamples(w, step) <= Points(window, step)
  {
    RatioRounds(w, step);
    QuotientMonotone(w, window, step);
  }

  lemma ShortWindowLacksSamples(days: int)
    requires 1 <= days <= 2
    ensures MinSamples(3 * DAY, Step(WindowOf(days))) > Points(WindowOf(days), Step(WindowOf(days)))
  {
    var step := Step(WindowOf(days));
    assert step == MINUTE;
    assert (3 * DAY) as real / MINUTE as real == 4320.0;
    RoundExact(4320);
  }

  lemma NoClosePair(samples: seq<Sample>, step: int)
    requires step > MAX_GAP && Spaced(samples, step)
    ensures !ClosePair(samples, MAX_GAP)
  {
  }

  /**
   With every sample present, all three horizons of an SLO are evaluated exactly when its
   window is between 3 and 34 days: below, the three-day horizon lacks samples; above, the
   adapted step is itself a gap.
   */
  lemma {:induction false} HorizonsUsableIff(slo: Slo, series: seq<Sample>, value: real, outOfRange: OutOfRange)
    requires slo.windowDays >= 1
    requires FullSeries(series, WindowOf(slo.windowDays), Step(WindowOf(slo.windowDays)))
    ensures var in_ := BudgetInput(slo, series, value, outOfRange);
      (forall w :: w in Horizons(in_) ==> WindowForecast(w, in_, false).valid) <==> 3 <= slo.windowDays <= 34
  {
    var in_ := BudgetInput(slo, series, value, outOfRange);
    var window, step := WindowOf(slo.windowDays), Step(WindowOf(slo.windowDays));
    SpacedIncreasing(series, step);
    StepFitsGapIff(slo.windowDays);
    assert forall w :: w in Horizons(in_) ==> w in in_.samples && in_.samples[w] == series;
    if 3 <= slo.windowDays <= 34 {
      forall w | w in Horizons(in_) ensures WindowForecast(w, in_, false).valid {
        EnoughSamples(w, window, step);
        CloseNeighbours(series, window, step);
        WindowValidIff(w, in_, false);
      }
    } else {
      assert 3 * DAY == DEFAULT_HORIZONS[2];
      assert 3 * DAY in Horizons(in_);
      WindowValidIff(3 * DAY, in_, false);
      if slo.windowDays > 34 {
        NoClosePair(series, step);
      } else {
        ShortWindowLacksSamples(slo.windowDays);
      }
    }
  }

  lemma CloseNeighbours(samples: seq<Sample>, window: int, step: int)
    requires window >= 0 && step > 0 && FullSeries(samples, window, step)
    requires step <= MAX_GAP && window >= DAY
    ensures ClosePair(samples, MAX_GAP)
  {
    QuotientMonotone(step, window, step);
    assert step / step == 1;
    assert samples[1].time - samples[0].time <= MAX_GAP;
  }

  lemma CoarseStepHasNoEta(in_: Input, series: seq<Sample>, step: int, jumped: bool)
    requires step > MAX_GAP && Spaced(series, step)
    requires forall w :: w in Horizons(in_) ==> w in in_.samples && in_.samples[w] == series
    ensures EtaOf(Horizons(in_), HOUR, in_, jumped) == None
    ensures LongestWindowEta(Horizons(in_), in_, jumped) == None
  {
    SpacedIncreasing(series, step);
    NoClosePair(series, step);
    forall w | w in Horizons(in_) ensures WindowForecast(w, in_, jumped).eta == None {
      WindowValidIff(w, in_, jumped);
    }
  }

  /** Without arrival times and without a previous state, only the utilization counts. */
  lemma OnlyUtilization(in_: Input, f: Forecast)
    requires ForecastOf(in_) == Success(f) && in_.prevState == Unset
    requires f.etaAggressive == None && f.etaConservative == None
    ensures f.state == if f.utilization >= Effective(in_.th).critRatio then Critical else Healthy
  {
    NoHysteresisWhenUnset(in_, f);
  }

  lemma CoarseForecast(in_: Input, f: Forecast, series: seq<Sample>, step: int)
    requires ForecastOf(in_) == Success(f) && in_.prevState == Unset
    requires step > MAX_GAP && Spaced(series, step)
    requires forall w :: w in Horizons(in_) ==> w in in_.samples && in_.samples[w] == series
    ensures f.etaAggressive == None && f.etaConservative == None
    ensures f.state == if f.utilization >= Effective(in_.th).critRatio then Critical else Healthy
  {
    hide EtaOf, LongestWindowEta;
    CoarseStepHasNoEta(in_, series, step, f.ceilingJumped);
    ForecastParts(in_, f);
    hide ForecastOf;
    OnlyUtilization(in_, f);
  }

  lemma BudgetSamples(slo: Slo, series: seq<Sample>, value: real, outOfRange: OutOfRange)
    ensures var in_ := BudgetInput(slo, series, value, outOfRange);
      && in_.prevState == Unset && in_.th == slo.th
      && forall w :: w in Horizons(in_) ==> w in in_.samples && in_.samples[w] == series
  {
  }

  /**
   Whatever a query at the adapted step returns, all samples or some, an SLO of 35 days or more
   gets no arrival time, and never a warning.
   */
  lemma {:induction false} LongSlosNeverWarn(slo: Slo, series: seq<Sample>, instant: Option<Option<real>>,
                                              outOfRange: OutOfRange)
    requires slo.windowDays >= 35
    requires Spaced(series, Step(WindowOf(slo.windowDays)))
    ensures match PollOf(slo, Answer(Some(series), instant, outOfRange))
      case Failure(_) => true
      case Success(f) =>
        && f.etaAggressive == None && f.etaConservative == None
        && f.state == if f.utilization >= Effective(slo.th).critRatio then Critical else Healthy
  {
    hide ForecastOf, Spaced, Horizons, BudgetInput;
    var r := PollOf(slo, Answer(Some(series), instant, outOfRange));
    if r.Success? {
      var value := match instant.value { case None => 0.0 case Some(v) => v };
      StepFitsGapIff(slo.windowDays);
      BudgetSamples(slo, series, value, outOfRange);
      CoarseForecast(BudgetInput(slo, series, value, outOfRange), r.value, series, Step(WindowOf(slo.windowDays)));
    }
  }

  // ---- Which answer reaches which figure ----

  /** The step in nanoseconds: a ten-thousandth of the window in whole seconds, but at least sixty of them. */
  lemma StepIs(days: nat)
    ensures Step(WindowOf(days)) ==
      1_000_000_000 * (if days * 86_400 / 10_000 < 60 then 60 else days * 86_400 / 10_000)
  {
    assert WindowOf(days) == days * 86_400 * 1_000_000_000;
  }

  /** The value of an instant answer: zero when it is empty. */
  function ValueOf(instant: Option<real>): real {
    if instant.Some? then instant.value else 0.0
  }

  /** Why a poll of an error budget fails. */
  lemma PollFailsIff(slo: Slo, answer: Answer)
    ensures match PollOf(slo, answer)
      case Failure(RangeQuery) => answer.range.None?
      case Failure(InstantQuery) => answer.range.Some? && answer.instant.None?
      case Failure(Evaluation(e)) =>
        answer.range.Some? && answer.instant.Some? && Wrong(e, slo.th, slo.id, (100.0 - slo.objective) / 100.0)
      case Success(_) =>
        && answer.range.Some? && answer.instant.Some?
        && InOrder(slo.th) && slo.id != "" && slo.objective < 100.0
  {
    if answer.range.Some? && answer.instant.Some? {
      RefusedIff(BudgetInput(slo, answer.range.value, ValueOf(answer.instant.value), answer.outOfRange));
    }
    hide ForecastOf;
  }

  /**
   The ceiling is the share the objective leaves to errors and the value the instant answer; no
   ceiling ever jumps and no state is carried over.
   */
  lemma PollFigures(slo: Slo, answer: Answer, f: Forecast)
    requires PollOf(slo, answer) == Success(f)
    ensures answer.range.Some? && answer.instant.Some?
    ensures var value, ceiling := ValueOf(answer.instant.value), (100.0 - slo.objective) / 100.0;
      && f.id == slo.id && f.value == value && f.ceiling == ceiling && ceiling > 0.0
      && f.utilization == value / ceiling && f.headroom == ceiling - value
      && !f.ceilingJumped && f.state == LevelOf(f, slo.th, answer.outOfRange)
    ensures f.perWindow.Keys == {3_600_000_000_000, 21_600_000_000_000, 259_200_000_000_000}
  {
    PollFailsIff(slo, answer);
    var in_ := BudgetInput(slo, answer.range.value, ValueOf(answer.instant.value), answer.outOfRange);
    ForecastParts(in_, f);
    hide ForecastOf, Level, Horizons, WindowForecast;
    Figures(in_, f);
    NoHysteresisWhenUnset(in_, f);
    AskedWindows(in_, f.ceilingJumped);
    hide Windows, Step, WindowOf;
  }

  /** Every window is evaluated on the one series, at the step it was queried with. */
  lemma WindowOfSeries(slo: Slo, answer: Answer, f: Forecast, w: int)
    requires PollOf(slo, answer) == Success(f) && w in f.perWindow
    ensures answer.range.Some?
    ensures f.perWindow[w] ==
      WindowForecast(w, Alone(w, answer.range.value, f.value, f.ceiling, Step(WindowOf(slo.windowDays))), false)
  {
    hide WindowForecast;
    PollFigures(slo, answer, f);
    var in_ := BudgetInput(slo, answer.range.value, f.value, answer.outOfRange);
    DefaultHorizons();
    ForecastParts(in_, f);
    WindowIsLocal(in_, Alone(w, answer.range.value, f.value, f.ceiling, Step(WindowOf(slo.windowDays))), w, false);
  }
}
