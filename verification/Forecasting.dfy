/**
 One forecast: every window is validated, given a slope and extrapolated to the ceiling,
 and the severity is decided from the two chosen windows and the utilization.
 */
module Forecasting {
  import opened Wrappers
  import opened Medians
  import opened Engine

  datatype State = Unset | Healthy | Warning | Critical

  datatype Thresholds = Thresholds(warnEta: int, critEta: int, softRatio: real, critRatio: real)

  const ZERO_THRESHOLDS := Thresholds(0, 0, 0.0, 0.0)
  const DEFAULT_THRESHOLDS := Thresholds(72 * HOUR, 6 * HOUR, 0.80, 0.95)
  const DEFAULT_HORIZONS := [HOUR, 6 * HOUR, 3 * DAY]
  const DEFAULT_EXIT_POLLS := 2
  const EPSILON := 0.000000000001
  const MAX_GAP := 5 * MINUTE
  const MAX_POINTS := 100

  /** What a float above or below the 64-bit range is converted to; it differs between platforms. */
  datatype OutOfRange = OutOfRange(above: int, below: int)

  /**
   Everything a forecast depends on. `outOfRange` is what the platform's conversion from a
   float to a 64-bit duration yields for a value that does not fit.
   */
  datatype Input = Input(
    id: string,
    horizons: seq<int>,
    value: real,
    ceiling: real,
    prevCeiling: real,
    samples: map<int, seq<Sample>>,
    interval: int,
    prevState: State,
    prevExitStreak: int,
    th: Thresholds,
    useOLS: bool,
    outOfRange: OutOfRange)

  datatype Reason = NoReason | TooFewSamples(have: nat, need: int) | CeilingMoved | NoSlope

  datatype WindowEval = WindowEval(
    window: int,
    slope: Option<real>,
    samples: nat,
    eta: Option<real>,
    valid: bool,
    reason: Reason)

  datatype Forecast = Forecast(
    id: string,
    value: real,
    ceiling: real,
    headroom: real,
    utilization: real,
    etaAggressive: Option<real>,
    etaConservative: Option<real>,
    perWindow: map<int, WindowEval>,
    state: State,
    exitStreak: int,
    ceilingJumped: bool)

  datatype Error = SoftNotBelowCrit | WarnNotAboveCrit | EmptyId | CeilingNotPositive

  function Validate(th: Thresholds): Option<Error> {
    if !(th.softRatio < th.critRatio) then Some(SoftNotBelowCrit)
    else if !(th.warnEta > th.critEta) then Some(WarnNotAboveCrit)
    else None
  }

  function Effective(th: Thresholds): Thresholds {
    if th == ZERO_THRESHOLDS then DEFAULT_THRESHOLDS else th
  }

  function Horizons(in_: Input): seq<int> {
    if in_.horizons == [] then DEFAULT_HORIZONS else in_.horizons
  }

  // ---- One window ----

  function RunSlope(run: seq<Sample>, useOLS: bool): Option<real> {
    if useOLS then LeastSquares(run) else TheilSen(run, MAX_POINTS)
  }

  /** The slopes of the runs that have one. */
  function RunSlopes(runs: seq<seq<Sample>>, useOLS: bool): seq<real> {
    if runs == [] then [] else
    var k := |runs| - 1;
    RunSlopes(runs[..k], useOLS) +
    match RunSlope(runs[k], useOLS) { case None => [] case Some(x) => [x] }
  }

  function SamplesOf(in_: Input, w: int): seq<Sample> {
    if w in in_.samples then in_.samples[w] else []
  }

  function Headroom(in_: Input): real {
    in_.ceiling - in_.value
  }

  /** Seconds until growth of `beta` per second uses up the headroom. */
  function ArrivalTime(headroom: real, beta: real): real
    requires beta > 0.0
  {
    headroom / beta
  }

  /** What comes of `have` samples where `need` are called for, and of the slopes of their runs. */
  function EvalOf(w: int, have: nat, need: int, jumped: bool, slopes: seq<real>, headroom: real): WindowEval {
    var blank := WindowEval(w, None, 0, None, false, NoReason);
    if have < need then blank.(reason := TooFewSamples(have, need))
    else if jumped then blank.(reason := CeilingMoved)
    else if slopes == [] then blank.(reason := NoSlope)
    else
      var beta := UpperMedian(slopes);
      WindowEval(w, Some(beta), have,
                 if beta <= EPSILON then None else Some(ArrivalTime(headroom, beta)), true, NoReason)
  }

  /** The evaluation of a window. */
  function WindowForecast(w: int, in_: Input, jumped: bool): WindowEval {
    var samples := SamplesOf(in_, w);
    EvalOf(w, |samples|, MinSamples(w, in_.interval), jumped,
           RunSlopes(Runs(samples, MAX_GAP), in_.useOLS), Headroom(in_))
  }

  function TotalLength(runs: seq<seq<Sample>>): nat {
    if runs == [] then 0 else TotalLength(runs[..|runs| - 1]) + |runs[|runs| - 1]|
  }

  /** Splitting loses and repeats no sample. */
  lemma {:induction false} RunsLength(samples: seq<Sample>, maxGap: int)
    ensures TotalLength(Runs(samples, maxGap)) == |samples|
  {
    if samples == [] {
    } else {
      var k := |samples| - 1;
      var earlier, runs := Runs(samples[..k], maxGap), Runs(samples, maxGap);
      RunsLength(samples[..k], maxGap);
      if k == 0 || samples[k].time - samples[k - 1].time > maxGap {
        assert runs[..|runs| - 1] == earlier;
      } else {
        assert runs[..|runs| - 1] == earlier[..|earlier| - 1];
      }
    }
  }

  method EvalWindow(w: int, in_: Input, jumped: bool) returns (ev: WindowEval)
    ensures ev == WindowForecast(w, in_, jumped)
  {
    ev := WindowEval(w, None, 0, None, false, NoReason);
    var samples := SamplesOf(in_, w);
    var minN := MinSamples(w, in_.interval);
    if |samples| < minN {
      return ev.(reason := TooFewSamples(|samples|, minN));
    }
    if jumped {
      return ev.(reason := CeilingMoved);
    }
    var runs := SplitByGaps(samples, MAX_GAP);
    var slopes, totalPairs := CollectSlopes(runs, in_.useOLS);
    RunsLength(samples, MAX_GAP);
    if |slopes| == 0 {
      return ev.(reason := NoSlope);
    }
    var beta := PickMiddle(slopes);
    ev := ev.(samples := totalPairs, slope := Some(beta), valid := true);
    if beta <= EPSILON {
      return;
    }
    ev := ev.(eta := Some(ArrivalTime(Headroom(in_), beta)));
  }

  /** The loop over the runs: one slope each, where there is one. */
  method CollectSlopes(runs: seq<seq<Sample>>, useOLS: bool) returns (slopes: seq<real>, totalPairs: nat)
    ensures slopes == RunSlopes(runs, useOLS)
    ensures totalPairs == TotalLength(runs)
  {
    slopes, totalPairs := [], 0;
    var i := 0;
    while i < |runs|
      invariant 0 <= i <= |runs|
      invariant slopes == RunSlopes(runs[..i], useOLS)
      invariant totalPairs == TotalLength(runs[..i])
    {
      var slope: Option<real>;
      if useOLS {
        slope := OLSSlope(runs[i]);
      } else {
        slope := TheilSenSlope(runs[i], MAX_POINTS);
      }
      assert runs[..i + 1][..i] == runs[..i];
      if slope.Some? {
        slopes := slopes + [slope.value];
      }
      totalPairs := totalPairs + |runs[i]|;
      i := i + 1;
    }
    assert runs[..i] == runs;
  }

  /** The slopes sorted in place, and the middle one taken. */
  method PickMiddle(slopes: seq<real>) returns (beta: real)
    requires slopes != []
    ensures beta == UpperMedian(slopes)
  {
    var a := new real[|slopes|](i requires 0 <= i < |slopes| => slopes[i]);
    assert a[..] == slopes;
    SortSlice(a);
    beta := a[a.Length / 2];
  }

  // ---- Severity ----

  const INT64_MAX := 9223372036854775807
  const INT64_MIN := -INT64_MAX - 1

  function Truncate(x: real): int {
    if x >= 0.0 then x.Floor else -((-x).Floor)
  }

  /** The 64-bit duration of `seconds`. */
  function DurationOf(seconds: real, outOfRange: OutOfRange): int {
    var n := Truncate(seconds * 1000000000.0);
    if n > INT64_MAX then outOfRange.above
    else if n < INT64_MIN then outOfRange.below
    else n
  }

  predicate Sooner(eta: Option<real>, limit: int, outOfRange: OutOfRange) {
    eta.Some? && DurationOf(eta.value, outOfRange) < limit
  }

  /** The severity of one poll by itself; `Healthy` when no threshold is met. */
  function Level(aggressive: Option<real>, conservative: Option<real>, utilization: real,
                 th: Thresholds, outOfRange: OutOfRange): State {
    if Sooner(aggressive, th.critEta, outOfRange) || utilization >= th.critRatio then Critical
    else if (Sooner(aggressive, th.warnEta, outOfRange) && utilization >= th.softRatio)
            || Sooner(conservative, th.warnEta, outOfRange) then Warning
    else Healthy
  }

  /** The state after a poll of the given level, and the new count of calm polls. */
  function Decide(level: State, prevState: State, prevStreak: int): (State, int) {
    if level == Critical then (Critical, 0)
    else if level == Warning then (Warning, 0)
    else
      var streak := prevStreak + 1;
      if streak >= DEFAULT_EXIT_POLLS || prevState == Healthy || prevState == Unset then (Healthy, streak)
      else (prevState, streak)
  }

  // ---- The forecast ----

  /** The longest positive horizon, or 0. */
  function Longest(horizons: seq<int>): (w: int)
    ensures w >= 0 && (w > 0 ==> w in horizons)
    ensures forall h :: h in horizons ==> h <= w
  {
    if horizons == [] then 0 else
    var rest := Longest(horizons[..|horizons| - 1]);
    var last := horizons[|horizons| - 1];
    assert horizons == horizons[..|horizons| - 1] + [last];
    if last > rest then last else rest
  }

  function EtaOf(horizons: seq<int>, w: int, in_: Input, jumped: bool): Option<real> {
    if w in horizons then WindowForecast(w, in_, jumped).eta else None
  }

  function LongestWindowEta(horizons: seq<int>, in_: Input, jumped: bool): Option<real> {
    if Longest(horizons) > 0 then EtaOf(horizons, Longest(horizons), in_, jumped) else None
  }

  function Windows(horizons: seq<int>, in_: Input, jumped: bool): map<int, WindowEval> {
    map w | w in horizons :: WindowForecast(w, in_, jumped)
  }

  function InputError(in_: Input): Option<Error> {
    if in_.th != ZERO_THRESHOLDS && Validate(in_.th).Some? then Validate(in_.th)
    else if in_.id == "" then Some(EmptyId)
    else if in_.ceiling <= 0.0 then Some(CeilingNotPositive)
    else None
  }

  function ForecastOf(in_: Input): Result<Forecast, Error> {
    if InputError(in_).Some? then Failure(InputError(in_).value) else
    var horizons, jumped := Horizons(in_), CeilingJumped(in_.prevCeiling, in_.ceiling);
    var aggressive := EtaOf(horizons, HOUR, in_, jumped);
    var conservative := LongestWindowEta(horizons, in_, jumped);
    var utilization := in_.value / in_.ceiling;
    var level := Level(aggressive, conservative, utilization, Effective(in_.th), in_.outOfRange);
    var (state, streak) := Decide(level, in_.prevState, in_.prevExitStreak);
    Success(Forecast(in_.id, in_.value, in_.ceiling, Headroom(in_), utilization, aggressive, conservative,
                     Windows(horizons, in_, jumped), state, streak, jumped))
  }

  lemma ForecastParts(in_: Input, f: Forecast)
    requires ForecastOf(in_) == Success(f)
    ensures f.perWindow == Windows(Horizons(in_), in_, f.ceilingJumped)
    ensures f.etaAggressive == EtaOf(Horizons(in_), HOUR, in_, f.ceilingJumped)
    ensures f.etaConservative == LongestWindowEta(Horizons(in_), in_, f.ceilingJumped)
    ensures f.value == in_.value && f.ceiling == in_.ceiling
    ensures f.ceilingJumped == CeilingJumped(in_.prevCeiling, in_.ceiling)
    ensures in_.ceiling > 0.0 && f.utilization == in_.value / in_.ceiling
  {
  }

  /** The severity a forecast has by itself. */
  function LevelOf(f: Forecast, th: Thresholds, outOfRange: OutOfRange): (level: State)
    ensures level == Healthy || level == Warning || level == Critical
  {
    Level(f.etaAggressive, f.etaConservative, f.utilization, Effective(th), outOfRange)
  }

  lemma StateOfForecast(in_: Input, f: Forecast)
    requires ForecastOf(in_) == Success(f)
    ensures (f.state, f.exitStreak) == Decide(LevelOf(f, in_.th, in_.outOfRange), in_.prevState, in_.prevExitStreak)
    ensures f.state != Unset
  {
  }

  /** Without a previous state there is no hysteresis: the severity is reported as it is. */
  lemma NoHysteresisWhenUnset(in_: Input, f: Forecast)
    requires ForecastOf(in_) == Success(f) && in_.prevState == Unset
    ensures f.state == LevelOf(f, in_.th, in_.outOfRange)
  {
    StateOfForecast(in_, f);
  }

  method Evaluate(in_: Input) returns (r: Result<Forecast, Error>)
    ensures r == ForecastOf(in_)
  {
    var th := in_.th;
    if th == ZERO_THRESHOLDS {
      th := DEFAULT_THRESHOLDS;
    } else {
      var err := Validate(th);
      if err.Some? {
        return Failure(err.value);
      }
    }
    if in_.id == "" {
      return Failure(EmptyId);
    }
    if in_.ceiling <= 0.0 {
      return Failure(CeilingNotPositive);
    }
    var horizons := Horizons(in_);
    var jumped := CeilingJumped(in_.prevCeiling, in_.ceiling);
    var perWindow, aggressive := EvalWindows(horizons, in_, jumped);
    var conservative := LongestEta(horizons, perWindow, in_, jumped);
    var utilization := in_.value / in_.ceiling;
    var level := Level(aggressive, conservative, utilization, th, in_.outOfRange);
    var (state, streak) := Decide(level, in_.prevState, in_.prevExitStreak);
    r := Success(Forecast(in_.id, in_.value, in_.ceiling, Headroom(in_), utilization, aggressive, conservative,
                          perWindow, state, streak, jumped));
  }

  lemma WindowsStep(horizons: seq<int>, w: int, in_: Input, jumped: bool)
    ensures Windows(horizons + [w], in_, jumped) == Windows(horizons, in_, jumped)[w := WindowForecast(w, in_, jumped)]
  {
    hide WindowForecast;
    TableStep(horizons, w, x => WindowForecast(x, in_, jumped));
  }

  lemma TableStep<T>(keys: seq<int>, k: int, f: int -> T)
    ensures (map x | x in keys + [k] :: f(x)) == (map x | x in keys :: f(x))[k := f(k)]
  {
  }

  lemma EtaStep(horizons: seq<int>, w: int, in_: Input, jumped: bool)
    ensures EtaOf(horizons + [w], HOUR, in_, jumped) ==
      if w == HOUR then WindowForecast(w, in_, jumped).eta else EtaOf(horizons, HOUR, in_, jumped)
  {
  }

  /** The first `k` windows are evaluated. */
  ghost predicate WindowsDone(horizons: seq<int>, k: nat, in_: Input, jumped: bool,
                              perWindow: map<int, WindowEval>, aggressive: Option<real>)
  {
    && k <= |horizons|
    && perWindow == Windows(horizons[..k], in_, jumped)
    && aggressive == EtaOf(horizons[..k], HOUR, in_, jumped)
  }

  lemma OneWindowDone(horizons: seq<int>, k: nat, in_: Input, jumped: bool,
                      perWindow: map<int, WindowEval>, aggressive: Option<real>, ev: WindowEval)
    requires k < |horizons| && WindowsDone(horizons, k, in_, jumped, perWindow, aggressive)
    requires ev == WindowForecast(horizons[k], in_, jumped)
    ensures WindowsDone(horizons, k + 1, in_, jumped, perWindow[horizons[k] := ev],
                        if horizons[k] == HOUR then ev.eta else aggressive)
  {
    hide WindowForecast;
    WindowsStep(horizons[..k], horizons[k], in_, jumped);
    EtaStep(horizons[..k], horizons[k], in_, jumped);
    assert horizons[..k + 1] == horizons[..k] + [horizons[k]];
  }

  /** First loop: every window, the one-hour window giving the aggressive estimate. */
  method EvalWindows(horizons: seq<int>, in_: Input, jumped: bool)
    returns (perWindow: map<int, WindowEval>, aggressive: Option<real>)
    ensures perWindow == Windows(horizons, in_, jumped)
    ensures aggressive == EtaOf(horizons, HOUR, in_, jumped)
  {
    perWindow, aggressive := map[], None;
    var i := 0;
    while i < |horizons|
      invariant 0 <= i <= |horizons|
      invariant WindowsDone(horizons, i, in_, jumped, perWindow, aggressive)
    {
      var w := horizons[i];
      var ev := EvalWindow(w, in_, jumped);
      OneWindowDone(horizons, i, in_, jumped, perWindow, aggressive, ev);
      perWindow := perWindow[w := ev];
      if w == HOUR {
        aggressive := ev.eta;
      }
      i := i + 1;
    }
    assert horizons[..i] == horizons;
  }

  /** Second loop: the longest window gives the conservative estimate. */
  method LongestEta(horizons: seq<int>, perWindow: map<int, WindowEval>, ghost in_: Input, ghost jumped: bool)
    returns (conservative: Option<real>)
    requires perWindow == Windows(horizons, in_, jumped)
    ensures conservative == LongestWindowEta(horizons, in_, jumped)
  {
    hide WindowForecast;
    conservative := None;
    var longest, i := 0, 0;
    while i < |horizons|
      invariant 0 <= i <= |horizons|
      invariant longest == Longest(horizons[..i])
      invariant conservative == if longest > 0 then EtaOf(horizons, longest, in_, jumped) else None
    {
      var w := horizons[i];
      assert horizons[..i + 1][..i] == horizons[..i];
      if w > longest {
        longest := w;
        conservative := perWindow[w].eta;
      }
      i := i + 1;
    }
    assert horizons[..i] == horizons;
  }
}
