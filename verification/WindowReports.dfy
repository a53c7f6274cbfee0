/**
 What the evaluation of a window depends on and what it reports, and when a whole forecast is
 refused, in terms of the input's own fields and with every constant written out.
 */
module WindowReports {
  import opened Wrappers
  import opened Medians
  import opened Engine
  import opened Decimation
  import opened Regression
  import opened Gaps
  import opened Forecasting
  import opened Exactness

  // ---- What a window is evaluated on ----

  /** The inputs agree on all that window `w` is evaluated on. */
  ghost predicate SameWindow(a: Input, b: Input, w: int) {
    && (w in a.samples <==> w in b.samples)
    && (w in a.samples && w in b.samples ==> a.samples[w] == b.samples[w])
    && a.value == b.value && a.ceiling == b.ceiling && a.interval == b.interval && a.useOLS == b.useOLS
  }

  /** No window is evaluated on another's samples: what the other windows hold makes no difference. */
  lemma WindowIsLocal(a: Input, b: Input, w: int, jumped: bool)
    requires SameWindow(a, b, w)
    ensures WindowForecast(w, a, jumped) == WindowForecast(w, b, jumped)
  {
    hide RunSlopes, MinSamples;
    assert SamplesOf(a, w) == SamplesOf(b, w) && Headroom(a) == Headroom(b);
  }

  /** So it is in whole forecasts, of whatever horizons, thresholds and states. */
  lemma ForecastIsLocal(a: Input, b: Input, f: Forecast, g: Forecast, w: int)
    requires ForecastOf(a) == Success(f) && ForecastOf(b) == Success(g)
    requires SameWindow(a, b, w) && f.ceilingJumped == g.ceilingJumped
    requires w in f.perWindow && w in g.perWindow
    ensures f.perWindow[w] == g.perWindow[w]
  {
    hide WindowForecast;
    ForecastParts(a, f);
    ForecastParts(b, g);
    WindowIsLocal(a, b, w, f.ceilingJumped);
  }

  /** A window no samples were handed in for counts as empty. */
  lemma AbsentIsEmpty(in_: Input, w: int, jumped: bool)
    requires w !in in_.samples
    ensures WindowForecast(w, in_, jumped) == WindowForecast(w, in_.(samples := in_.samples[w := []]), jumped)
    ensures !WindowForecast(w, in_, jumped).valid
  {
  }

  // ---- What it needs ----

  /** `n` is the number of intervals in the window, rounded, and `need` 83% of it in whole samples. */
  ghost predicate Needs(window: int, interval: int, n: int, need: int) {
    && 2 * window - interval < 2 * n * interval <= 2 * window + interval
    && 100 * need <= 83 * n < 100 * (need + 1)
  }

  lemma RoundIs(window: int, interval: int, n: int)
    requires window >= 0 && interval > 0
    requires 2 * window - interval < 2 * n * interval <= 2 * window + interval
    ensures Round(window as real / interval as real) == n
  {
    var x := window as real / interval as real;
    assert 2 * n * interval == 2 * (n * interval);
    QuotientTimes(window as real, interval as real);
    NearestIff(x, window, interval, n);
    RoundNonNegative(x);
  }

  lemma QuotientTimes(a: real, d: real)
    requires a >= 0.0 && d > 0.0
    ensures a / d >= 0.0 && (a / d) * d == a
  {
  }

  lemma MinSamplesIs(window: int, interval: int, n: int, need: int)
    requires window >= 0 && interval > 0 && Needs(window, interval, n, need)
    ensures MinSamples(window, interval) == need
  {
    RoundIs(window, interval, n);
    RoundNonNegative(window as real / interval as real);
    WholePart(83 * n, need);
  }

  lemma WholePart(a: int, q: int)
    requires a >= 0 && 100 * q <= a < 100 * (q + 1)
    ensures a / 100 == q
  {
  }

  /** A window lacks samples exactly when it holds fewer than 83% of its intervals, and says so. */
  lemma TooFewIff(w: int, in_: Input, jumped: bool, n: int, need: int)
    requires w in in_.samples && w >= 0 && in_.interval > 0 && Needs(w, in_.interval, n, need)
    ensures var reason, have := WindowForecast(w, in_, jumped).reason, |in_.samples[w]|;
      if have < need then reason == TooFewSamples(have, need) else !reason.TooFewSamples?
  {
    MinSamplesIs(w, in_.interval, n, need);
    hide RunSlopes, MinSamples, UpperMedian;
  }

  /** Without an interval no number of samples is too few. */
  lemma NoIntervalNoNeed(w: int, in_: Input, jumped: bool)
    requires in_.interval <= 0
    ensures !WindowForecast(w, in_, jumped).reason.TooFewSamples?
  {
    hide RunSlopes, UpperMedian;
  }

  // ---- What it reports ----

  /** Why an evaluation over time-ordered samples has no slope, in the order the reasons are looked for. */
  lemma ReasonIs(w: int, in_: Input, jumped: bool)
    requires w in in_.samples && StrictlyIncreasingTimes(in_.samples[w])
    ensures var ev := WindowForecast(w, in_, jumped);
      var have, need := |in_.samples[w]|, MinSamples(w, in_.interval);
      && ev.window == w
      && ev.reason ==
          (if have < need then TooFewSamples(have, need)
           else if jumped then CeilingMoved
           else if !ClosePair(in_.samples[w], 300_000_000_000) then NoSlope
           else NoReason)
      && (ev.valid <==> ev.reason == NoReason)
      && (!ev.valid ==> ev.slope == None && ev.eta == None && ev.samples == 0)
  {
    var samples := in_.samples[w];
    RunsOrdered(samples, MAX_GAP);
    LongRunIff(samples, MAX_GAP);
    RunSlopesEmptyIff(Runs(samples, MAX_GAP), in_.useOLS);
    hide RunSlopes, MinSamples, UpperMedian;
  }

  // ---- Which slope it takes ----

  /** The median of one element, and the one taken of two. */
  lemma UpperOfTwo(x: real, y: real)
    ensures UpperMedian([x]) == x
    ensures UpperMedian([x, y]) == if x < y then y else x
  {
    assert [x][1..] == [];
    assert Sorted([x]) == [x];
    assert [x, y][1..] == [y];
    assert [y][1..] == [];
    assert Sorted([y]) == [y];
    assert Sorted([x, y]) == Insert(x, [y]);
    assert Insert(x, [y]) == if x <= y then [x, y] else [y, x] by {
      assert Insert(x, []) == [x];
    }
  }

  lemma SlopesOfOne(run: seq<Sample>, useOLS: bool)
    ensures RunSlopes([run], useOLS) == SlopeList(run, useOLS)
  {
    RunSlopesLast([run], useOLS);
    assert [run][..0] == [];
    assert [] + SlopeList(run, useOLS) == SlopeList(run, useOLS);
  }

  lemma SlopesOfTwo(a: seq<Sample>, b: seq<Sample>, useOLS: bool)
    ensures RunSlopes([a, b], useOLS) == SlopeList(a, useOLS) + SlopeList(b, useOLS)
  {
    RunSlopesLast([a, b], useOLS);
    assert [a, b][..1] == [a];
    SlopesOfOne(a, useOLS);
  }

  lemma OneStretch(samples: seq<Sample>, maxGap: int)
    requires samples != [] && GapFree(samples, maxGap)
    ensures Runs(samples, maxGap) == [samples]
  {
    assert [samples][..0] == [];
    assert Flatten([samples]) == samples;
    PartitionUnique(samples, maxGap, [samples]);
  }

  lemma TwoStretches(a: seq<Sample>, b: seq<Sample>, maxGap: int)
    requires a != [] && b != [] && GapFree(a, maxGap) && GapFree(b, maxGap) && Separated(a, b, maxGap)
    ensures Runs(a + b, maxGap) == [a, b]
  {
    assert [a, b][..1] == [a] && [a][..0] == [];
    assert Flatten([a]) == a;
    assert Flatten([a, b]) == a + b;
    PartitionUnique(a + b, maxGap, [a, b]);
  }

  /**
   Samples without a gap of more than five minutes are estimated as a whole: by least squares
   over all of them where that is asked for, else by Theil–Sen over at most a hundred.
   */
  lemma GapFreeWindow(w: int, in_: Input, jumped: bool)
    requires w in in_.samples && in_.samples[w] != [] && GapFree(in_.samples[w], 300_000_000_000)
    requires |in_.samples[w]| >= MinSamples(w, in_.interval) && !jumped
    ensures WindowForecast(w, in_, jumped).slope ==
      if in_.useOLS then LeastSquares(in_.samples[w]) else TheilSen(in_.samples[w], 100)
  {
    var samples := in_.samples[w];
    SlopesGapFree(samples, in_.useOLS);
    SlopeTaken(w, in_, jumped);
    hide *;
  }

  lemma SlopesGapFree(samples: seq<Sample>, useOLS: bool)
    requires samples != [] && GapFree(samples, 300_000_000_000)
    ensures var slopes := RunSlopes(Runs(samples, MAX_GAP), useOLS);
      (if slopes == [] then None else Some(UpperMedian(slopes))) ==
        if useOLS then LeastSquares(samples) else TheilSen(samples, 100)
  {
    OneStretch(samples, MAX_GAP);
    SlopesOfOne(samples, useOLS);
    var slope := RunSlope(samples, useOLS);
    if slope.Some? {
      UpperOfTwo(slope.value, slope.value);
    }
    hide Runs, RunSlopes, UpperMedian, LeastSquares, TheilSen;
  }

  lemma SlopeTaken(w: int, in_: Input, jumped: bool)
    requires w in in_.samples && |in_.samples[w]| >= MinSamples(w, in_.interval) && !jumped
    ensures var slopes := RunSlopes(Runs(in_.samples[w], MAX_GAP), in_.useOLS);
      WindowForecast(w, in_, jumped).slope == if slopes == [] then None else Some(UpperMedian(slopes))
  {
    hide Runs, RunSlopes, UpperMedian, MinSamples;
  }

  /** At least two samples on a line of slope `beta`, with no wide gap. */
  ghost predicate SteadyStretch(a: seq<Sample>, v0: real, beta: real) {
    |a| >= 2 && StrictlyIncreasingTimes(a) && AllOnLine(a, v0, beta) && GapFree(a, 300_000_000_000)
  }

  lemma SteadySlope(a: seq<Sample>, v0: real, beta: real, useOLS: bool)
    requires SteadyStretch(a, v0, beta)
    ensures SlopeList(a, useOLS) == [beta]
  {
    EstimatorsAgreeOnLine(a, 100, v0, beta);
  }

  lemma TwoSteadySlopes(a: seq<Sample>, b: seq<Sample>, va: real, vb: real, beta: real, gamma: real, useOLS: bool)
    requires SteadyStretch(a, va, beta) && SteadyStretch(b, vb, gamma) && Separated(a, b, 300_000_000_000)
    ensures RunSlopes(Runs(a + b, MAX_GAP), useOLS) == [beta, gamma]
  {
    TwoStretches(a, b, MAX_GAP);
    SteadySlope(a, va, beta, useOLS);
    SteadySlope(b, vb, gamma, useOLS);
    hide SteadyStretch, SlopeList, Runs, RunSlopes;
    SlopesOfTwo(a, b, useOLS);
  }

  /** Of two stretches with a gap between them the faster one counts. */
  lemma FasterStretchCounts(w: int, in_: Input, jumped: bool, a: seq<Sample>, b: seq<Sample>,
                            va: real, vb: real, beta: real, gamma: real)
    requires w in in_.samples && in_.samples[w] == a + b
    requires |a + b| >= MinSamples(w, in_.interval) && !jumped
    requires SteadyStretch(a, va, beta) && SteadyStretch(b, vb, gamma) && Separated(a, b, 300_000_000_000)
    ensures WindowForecast(w, in_, jumped).slope == Some(if beta < gamma then gamma else beta)
  {
    TwoSteadySlopes(a, b, va, vb, beta, gamma, in_.useOLS);
    SlopeTaken(w, in_, jumped);
    UpperOfTwo(beta, gamma);
    hide *;
  }

  /** Times count in nanoseconds, slopes in units a second. */
  lemma SlopeOfTwoSamples(a: Sample, b: Sample)
    requires a.time < b.time
    ensures TheilSen([a, b], 100) == LeastSquares([a, b])
      == Some((b.value - a.value) * 1000000000.0 / (b.time - a.time) as real)
  {
    var beta := (b.value - a.value) * 1000000000.0 / (b.time - a.time) as real;
    var v0 := a.value - beta * Seconds(a.time);
    LineThrough(a, b, beta);
    EstimatorsAgreeOnLine([a, b], 100, v0, beta);
  }

  lemma LineThrough(a: Sample, b: Sample, beta: real)
    requires a.time < b.time && beta == (b.value - a.value) * 1000000000.0 / (b.time - a.time) as real
    ensures b.value == a.value - beta * Seconds(a.time) + beta * Seconds(b.time)
  {
    var d := (b.time - a.time) as real;
    assert Seconds(b.time) - Seconds(a.time) == d / 1000000000.0;
    assert beta * d == (b.value - a.value) * 1000000000.0;
    assert beta * (d / 1000000000.0) == b.value - a.value;
    assert beta * (Seconds(b.time) - Seconds(a.time)) == beta * Seconds(b.time) - beta * Seconds(a.time);
  }

  // ---- Whole forecasts ----

  /** No thresholds given: the documented ones count. */
  lemma DocumentedThresholds(in_: Input)
    requires in_.th == Thresholds(0, 0, 0.0, 0.0)
    ensures ForecastOf(in_) ==
      ForecastOf(in_.(th := Thresholds(259_200_000_000_000, 21_600_000_000_000, 0.80, 0.95)))
  {
    var in' := in_.(th := Thresholds(259_200_000_000_000, 21_600_000_000_000, 0.80, 0.95));
    var horizons, jumped := Horizons(in_), CeilingJumped(in_.prevCeiling, in_.ceiling);
    assert Effective(in'.th) == Effective(in_.th);
    assert InputError(in') == InputError(in_);
    forall w ensures WindowForecast(w, in', jumped) == WindowForecast(w, in_, jumped) {
      WindowIsLocal(in', in_, w, jumped);
    }
    hide WindowForecast;
    assert Windows(horizons, in', jumped) == Windows(horizons, in_, jumped);
    assert LongestWindowEta(horizons, in', jumped) == LongestWindowEta(horizons, in_, jumped);
    assert Headroom(in') == Headroom(in_);
  }

  /** Thresholds that were given are in order. */
  predicate InOrder(th: Thresholds) {
    th == Thresholds(0, 0, 0.0, 0.0) || (th.softRatio < th.critRatio && th.warnEta > th.critEta)
  }

  /** What is wrong with the thresholds, the name or the ceiling, the first of them in this order. */
  predicate Wrong(e: Error, th: Thresholds, id: string, ceiling: real) {
    match e
    case SoftNotBelowCrit => th != Thresholds(0, 0, 0.0, 0.0) && th.softRatio >= th.critRatio
    case WarnNotAboveCrit =>
      th != Thresholds(0, 0, 0.0, 0.0) && th.softRatio < th.critRatio && th.warnEta <= th.critEta
    case EmptyId => InOrder(th) && id == ""
    case CeilingNotPositive => InOrder(th) && id != "" && ceiling <= 0.0
  }

  /** A forecast is refused for the first thing wrong with its input, and only for that. */
  lemma RefusedIff(in_: Input)
    ensures match ForecastOf(in_)
      case Failure(e) => Wrong(e, in_.th, in_.id, in_.ceiling)
      case Success(_) => InOrder(in_.th) && in_.id != "" && in_.ceiling > 0.0
  {
  }

  /** `samples` and nothing else, evaluated for window `w`. */
  function Alone(w: int, samples: seq<Sample>, value: real, ceiling: real, interval: int): Input {
    Input("alone", [w], value, ceiling, 0.0, map[w := samples], interval, Unset, 0, Thresholds(0, 0, 0.0, 0.0), false,
          OutOfRange(0, 0))
  }

  /** The numbers of a forecast, and whether it saw the ceiling leave the band of 1% around a positive previous one. */
  lemma Figures(in_: Input, f: Forecast)
    requires ForecastOf(in_) == Success(f)
    ensures f.id == in_.id && f.value == in_.value && f.ceiling == in_.ceiling
    ensures f.headroom == in_.ceiling - in_.value && f.utilization * in_.ceiling == in_.value
    ensures f.ceilingJumped <==>
      (in_.prevCeiling > 0.0 && (in_.ceiling < 0.99 * in_.prevCeiling || in_.ceiling > 1.01 * in_.prevCeiling))
  {
    CeilingJumpedIff(in_.prevCeiling, in_.ceiling);
  }
}
