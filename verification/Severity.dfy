/**
 The severity table in seconds, and when the engine's comparison of 64-bit durations
 agrees with it.
 */
module Severity {
  import opened Wrappers
  import opened Engine
  import opened Decimation
  import opened Regression
  import opened Forecasting
  import opened Exactness

  // ---- One comparison ----

  /** The nanosecond count of `eta` seconds fits a 64-bit duration. */
  predicate Fits(eta: real) {
    INT64_MIN <= Truncate(eta * 1000000000.0) <= INT64_MAX
  }

  /** That is, it lies strictly between the integers next to the smallest and the largest one of 64 bits. */
  lemma FitsIff(eta: real)
    ensures Fits(eta) <==> -9223372036854775809.0 < eta * 1000000000.0 < 9223372036854775808.0
  {
  }

  predicate ReallySooner(eta: Option<real>, limit: int) {
    eta.Some? && eta.value < Seconds(limit)
  }

  lemma SecondsOfLimit(eta: real, limit: int)
    ensures eta < Seconds(limit) <==> eta * 1000000000.0 < limit as real
  {
  }

  lemma TruncateBelow(x: real, limit: int)
    requires limit > 0
    ensures Truncate(x) < limit <==> x < limit as real
  {
  }

  /**
   For positive limits that are themselves durations, the engine compares an arrival time
   correctly exactly when it fits, or the platform's out-of-range value is itself on the right
   side of the limit: not below it for far arrivals, below it for arrivals long past.
   */
  lemma SoonerCorrectIff(eta: real, limit: int, outOfRange: OutOfRange)
    requires 0 < limit <= INT64_MAX
    ensures (Sooner(Some(eta), limit, outOfRange) <==> ReallySooner(Some(eta), limit))
      <==> (Fits(eta) || (if eta > 0.0 then outOfRange.above >= limit else outOfRange.below < limit))
  {
    SecondsOfLimit(eta, limit);
    TruncateBelow(eta * 1000000000.0, limit);
  }

  // ---- The whole table ----

  /** The table the engine's documentation gives. */
  function TableLevel(aggressive: Option<real>, conservative: Option<real>, utilization: real, th: Thresholds): State {
    if ReallySooner(aggressive, th.critEta) || utilization >= th.critRatio then Critical
    else if ReallySooner(conservative, th.warnEta)
            || (ReallySooner(aggressive, th.warnEta) && utilization >= th.softRatio) then Warning
    else Healthy
  }

  /** An arrival further off than a 64-bit duration holds, and one longer past. */
  predicate Far(eta: Option<real>) {
    eta.Some? && eta.value > 0.0 && !Fits(eta.value)
  }

  predicate Past(eta: Option<real>) {
    eta.Some? && eta.value <= 0.0 && !Fits(eta.value)
  }

  /** The aggressive estimate alone makes for a warning, as the engine reads it and as it is. */
  predicate ReadsWarning(aggressive: Option<real>, utilization: real, th: Thresholds, o: OutOfRange) {
    utilization >= th.softRatio
    && if Far(aggressive) then o.above < th.warnEta else ReallySooner(aggressive, th.warnEta)
  }

  /** A critical state raised for a far arrival, or missed for one long past. */
  predicate MisreadsCritical(aggressive: Option<real>, th: Thresholds, o: OutOfRange) {
    (Far(aggressive) && o.above < th.critEta) || (Past(aggressive) && o.below >= th.critEta)
  }

  /** A warning raised where the table has none, or missed where only an arrival long past calls for it. */
  predicate MisreadsWarning(aggressive: Option<real>, conservative: Option<real>, utilization: real,
                            th: Thresholds, o: OutOfRange)
  {
    match TableLevel(aggressive, conservative, utilization, th)
    case Healthy =>
      || (Far(conservative) && o.above < th.warnEta)
      || (Far(aggressive) && ReadsWarning(aggressive, utilization, th, o))
    case Warning =>
      Past(conservative) && o.below >= th.warnEta && !ReadsWarning(aggressive, utilization, th, o)
    case _ => false
  }

  predicate Ordered(th: Thresholds) {
    0 < th.critEta < th.warnEta <= INT64_MAX
  }

  lemma SoonerAt(eta: Option<real>, limit: int, o: OutOfRange)
    requires 0 < limit <= INT64_MAX
    ensures Sooner(eta, limit, o) <==>
      if Far(eta) then o.above < limit else if Past(eta) then o.below < limit else ReallySooner(eta, limit)
    ensures Far(eta) ==> !ReallySooner(eta, limit)
    ensures Past(eta) ==> ReallySooner(eta, limit)
  {
    if eta.Some? {
      SecondsOfLimit(eta.value, limit);
      TruncateBelow(eta.value * 1000000000.0, limit);
    }
  }

  /** What the table needs to know of the arrival times. */
  lemma Comparisons(aggressive: Option<real>, conservative: Option<real>, th: Thresholds, o: OutOfRange)
    requires Ordered(th)
    ensures var (crit, warn, late) := (Sooner(aggressive, th.critEta, o), Sooner(aggressive, th.warnEta, o),
                                       Sooner(conservative, th.warnEta, o));
      && crit == (if Far(aggressive) then o.above < th.critEta
                  else if Past(aggressive) then o.below < th.critEta else ReallySooner(aggressive, th.critEta))
      && warn == (if Far(aggressive) then o.above < th.warnEta
                  else if Past(aggressive) then o.below < th.warnEta else ReallySooner(aggressive, th.warnEta))
      && late == (if Far(conservative) then o.above < th.warnEta
                  else if Past(conservative) then o.below < th.warnEta else ReallySooner(conservative, th.warnEta))
    ensures Far(aggressive) ==> !ReallySooner(aggressive, th.critEta) && !ReallySooner(aggressive, th.warnEta)
    ensures Past(aggressive) ==> ReallySooner(aggressive, th.critEta)
    ensures Far(conservative) ==> !ReallySooner(conservative, th.warnEta)
    ensures Past(conservative) ==> ReallySooner(conservative, th.warnEta)
  {
    SoonerAt(aggressive, th.critEta, o);
    SoonerAt(aggressive, th.warnEta, o);
    SoonerAt(conservative, th.warnEta, o);
  }

  /**
   The severity is the one in the table exactly when utilization alone makes it critical, or no
   arrival time out of range is misread; in particular whenever all arrival times fit.
   */
  lemma LevelFollowsTable(aggressive: Option<real>, conservative: Option<real>, utilization: real,
                          th: Thresholds, o: OutOfRange)
    requires Ordered(th)
    ensures Level(aggressive, conservative, utilization, th, o) == TableLevel(aggressive, conservative, utilization, th)
      <==> utilization >= th.critRatio
           || !(MisreadsCritical(aggressive, th, o) || MisreadsWarning(aggressive, conservative, utilization, th, o))
  {
    Comparisons(aggressive, conservative, th, o);
  }

  /** Where conversions saturate, the table is always followed. */
  lemma SaturationFollowsTable(aggressive: Option<real>, conservative: Option<real>, utilization: real,
                               th: Thresholds, o: OutOfRange)
    requires Ordered(th) && o == OutOfRange(INT64_MAX, INT64_MIN)
    ensures Level(aggressive, conservative, utilization, th, o) == TableLevel(aggressive, conservative, utilization, th)
  {
    LevelFollowsTable(aggressive, conservative, utilization, th, o);
  }

  // ---- Whole forecasts ----

  /** The table applied to what a forecast reports. */
  function TableOf(f: Forecast, th: Thresholds): State {
    TableLevel(f.etaAggressive, f.etaConservative, f.utilization, Effective(th))
  }

  /**
   Slow steady growth in the one-hour window, so slow that the arrival does not fit, is
   reported critical wherever such arrivals are converted to something below the critical
   limit, while the table leaves that to the utilization.
   */
  lemma SlowGrowthReportedCritical(in_: Input, v0: real, beta: real)
    requires InputError(in_) == None && HOUR in Horizons(in_) && Ordered(Effective(in_.th))
    requires HOUR in in_.samples
    requires StrictlyIncreasingTimes(in_.samples[HOUR]) && AllOnLine(in_.samples[HOUR], v0, beta)
    requires Usable(HOUR, in_, CeilingJumped(in_.prevCeiling, in_.ceiling)) && beta > EPSILON
    requires Far(Some(ArrivalTime(Headroom(in_), beta)))
    requires in_.outOfRange.above < Effective(in_.th).critEta
    ensures var f := ForecastOf(in_).value;
      && f.state == Critical
      && (TableOf(f, in_.th) == Critical <==> f.utilization >= Effective(in_.th).critRatio)
  {
    var f := ForecastOf(in_).value;
    var th := Effective(in_.th);
    ForecastParts(in_, f);
    StateOfForecast(in_, f);
    HourEta(in_, f.ceilingJumped, v0, beta);
    SoonerAt(f.etaAggressive, th.critEta, in_.outOfRange);
  }

  lemma HourEta(in_: Input, jumped: bool, v0: real, beta: real)
    requires HOUR in Horizons(in_)
    requires HOUR in in_.samples
    requires StrictlyIncreasingTimes(in_.samples[HOUR]) && AllOnLine(in_.samples[HOUR], v0, beta)
    requires Usable(HOUR, in_, jumped) && beta > EPSILON
    ensures EtaOf(Horizons(in_), HOUR, in_, jumped) == Some(ArrivalTime(Headroom(in_), beta))
  {
    ExactOnLine(HOUR, in_, jumped, v0, beta);
  }

  /** A hundred-billionth of the ceiling a second. */
  const SLOW := 0.00000000001

  /** One sample a minute for an hour, growing slowly from zero. */
  function SlowSeries(): (s: seq<Sample>)
    ensures |s| == 61
    ensures forall i :: 0 <= i < 61 ==> s[i] == Sample(i * MINUTE, SLOW * Seconds(i * MINUTE))
  {
    seq(61, i requires 0 <= i < 61 => Sample(i * MINUTE, SLOW * Seconds(i * MINUTE)))
  }

  /** Where every out-of-range float becomes the smallest integer. */
  const SMALLEST := OutOfRange(INT64_MIN, INT64_MIN)

  function SlowInput(): Input {
    Input("disk", [], 0.0, 1.0, 1.0, map[HOUR := SlowSeries()], MINUTE, Healthy, 0, ZERO_THRESHOLDS, false, SMALLEST)
  }

  lemma SlowSeriesOnLine()
    ensures StrictlyIncreasingTimes(SlowSeries()) && AllOnLine(SlowSeries(), 0.0, SLOW)
    ensures ClosePair(SlowSeries(), MAX_GAP)
  {
    var s := SlowSeries();
    assert s[1].time - s[0].time <= MAX_GAP;
  }

  lemma SlowUsable()
    ensures HOUR in SlowInput().samples && Usable(HOUR, SlowInput(), false)
  {
    SlowSeriesOnLine();
    HourNeeds();
    assert SlowInput().samples[HOUR] == SlowSeries();
  }

  lemma HourNeeds()
    ensures MinSamples(HOUR, MINUTE) == 49
  {
    assert HOUR as real / MINUTE as real == 60.0;
    RoundExact(60);
    assert Quotient(60 * 83, 100) == 49;
  }

  lemma SlowArrivalIsFar()
    ensures Far(Some(ArrivalTime(1.0, SLOW)))
  {
    var eta := ArrivalTime(1.0, SLOW);
    assert eta == 100000000000.0;
    var x := eta * 1000000000.0;
    assert x == 100000000000000000000.0;
    assert x.Floor == 100000000000000000000;
  }

  lemma NoSamplesNoEta(w: int, in_: Input, jumped: bool)
    requires w !in in_.samples
    ensures WindowForecast(w, in_, jumped).eta == None
  {
  }

  lemma SlowHasNoLongEta()
    ensures LongestWindowEta(DEFAULT_HORIZONS, SlowInput(), false) == None
  {
    assert DEFAULT_HORIZONS[2] == 3 * DAY;
    assert 3 * DAY in DEFAULT_HORIZONS;
    LongestIs(DEFAULT_HORIZONS, 3 * DAY);
    NoSamplesNoEta(3 * DAY, SlowInput(), false);
  }

  /**
   One such input: an empty disk that fills up in three thousand years, reported critical at
   the default horizons and thresholds where the table says healthy.
   */
  lemma OverflowRaisesFalseAlarm()
    ensures var r := ForecastOf(SlowInput());
      && r.Success? && r.value.utilization == 0.0
      && r.value.state == Critical
      && TableOf(r.value, ZERO_THRESHOLDS) == Healthy
  {
    SlowFacts();
    SlowReportedCritical();
    SlowIsHealthy();
  }

  lemma SlowFacts()
    ensures var in_ := SlowInput();
      && InputError(in_) == None && HOUR in Horizons(in_) && Horizons(in_) == DEFAULT_HORIZONS
      && HOUR in in_.samples && in_.samples[HOUR] == SlowSeries()
      && Headroom(in_) == 1.0 && !CeilingJumped(in_.prevCeiling, in_.ceiling)
      && in_.outOfRange == SMALLEST && in_.th == ZERO_THRESHOLDS
    ensures ForecastOf(SlowInput()).Success? && ForecastOf(SlowInput()).value.utilization == 0.0
  {
    assert HOUR == DEFAULT_HORIZONS[0];
    hide WindowForecast, Level;
  }

  lemma SlowReportedCritical()
    ensures ForecastOf(SlowInput()).Success? && ForecastOf(SlowInput()).value.state == Critical
  {
    SlowFacts();
    SlowSeriesOnLine();
    SlowUsable();
    SlowArrivalIsFar();
    hide SlowInput, SlowSeries, ForecastOf, Usable;
    SlowGrowthReportedCritical(SlowInput(), 0.0, SLOW);
  }

  lemma EtasWithoutJump(in_: Input, f: Forecast)
    requires ForecastOf(in_) == Success(f) && !CeilingJumped(in_.prevCeiling, in_.ceiling)
    ensures f.etaAggressive == EtaOf(Horizons(in_), HOUR, in_, false)
    ensures f.etaConservative == LongestWindowEta(Horizons(in_), in_, false)
  {
    ForecastParts(in_, f);
  }

  lemma SlowEtas()
    ensures ForecastOf(SlowInput()).Success?
    ensures var f := ForecastOf(SlowInput()).value;
      f.etaAggressive == Some(ArrivalTime(1.0, SLOW)) && f.etaConservative == None
  {
    SlowFacts();
    SlowSeriesOnLine();
    SlowUsable();
    SlowHasNoLongEta();
    assert SLOW > EPSILON;
    hide *;
    EtasWithoutJump(SlowInput(), ForecastOf(SlowInput()).value);
    HourEta(SlowInput(), false, 0.0, SLOW);
  }

  lemma SlowIsHealthy()
    ensures ForecastOf(SlowInput()).Success?
    ensures TableOf(ForecastOf(SlowInput()).value, ZERO_THRESHOLDS) == Healthy
  {
    SlowFacts();
    SlowEtas();
    SlowArrivalIsFar();
    hide SlowInput, ForecastOf;
    SoonerAt(Some(ArrivalTime(1.0, SLOW)), 72 * HOUR, SMALLEST);
    SoonerAt(Some(ArrivalTime(1.0, SLOW)), 6 * HOUR, SMALLEST);
    hide ReallySooner;
  }
}
