/**
 The whole pipeline of a window, from raw samples to an arrival time: exact on straight
 lines, silent when nothing grows, and bounded by the slopes it saw.
 */
module Exactness {
  import opened Wrappers
  import opened Medians
  import opened Engine
  import opened Robustness
  import opened Decimation
  import opened Gaps
  import opened Regression
  import opened Forecasting

  // ---- Runs of ordered samples ----

  ghost predicate SliceAt(samples: seq<Sample>, run: seq<Sample>, o: nat) {
    o + |run| <= |samples| && forall i :: 0 <= i < |run| ==> run[i] == samples[o + i]
  }

  lemma SliceExtends(samples: seq<Sample>, run: seq<Sample>, o: nat)
    requires samples != [] && SliceAt(samples[..|samples| - 1], run, o)
    ensures SliceAt(samples, run, o)
    ensures o + |run| == |samples| - 1 ==> SliceAt(samples, run + [samples[|samples| - 1]], o)
  {
  }

  /** Every run is a stretch of the input, the last one its end. */
  lemma {:induction false} RunIsSlice(samples: seq<Sample>, maxGap: int, k: nat) returns (o: nat)
    requires k < |Runs(samples, maxGap)|
    ensures SliceAt(samples, Runs(samples, maxGap)[k], o)
    ensures k == |Runs(samples, maxGap)| - 1 ==> o + |Runs(samples, maxGap)[k]| == |samples|
    decreases |samples|
  {
    var n := |samples| - 1;
    var earlier := Runs(samples[..n], maxGap);
    RunsLast(samples, maxGap);
    if k == |earlier| {
      o := n;
    } else {
      o := RunIsSlice(samples[..n], maxGap, k);
      SliceExtends(samples, earlier[k], o);
    }
  }

  /** Two neighbours no further apart than `maxGap`. */
  ghost predicate ClosePair(samples: seq<Sample>, maxGap: int) {
    exists i :: 0 < i < |samples| && samples[i].time - samples[i - 1].time <= maxGap
  }

  ghost predicate LongRun(runs: seq<seq<Sample>>) {
    exists k :: 0 <= k < |runs| && |runs[k]| >= 2
  }

  lemma {:induction false} LongRunIff(samples: seq<Sample>, maxGap: int)
    ensures LongRun(Runs(samples, maxGap)) <==> ClosePair(samples, maxGap)
    decreases |samples|
  {
    if samples == [] {
    } else {
      var n := |samples| - 1;
      var earlier := Runs(samples[..n], maxGap);
      LongRunIff(samples[..n], maxGap);
      RunsLast(samples, maxGap);
      if Opens(samples, maxGap) {
        LongRunAppend(earlier, [samples[n]]);
      } else {
        var init, last := earlier[..|earlier| - 1], earlier[|earlier| - 1];
        LongRunAppend(init, last + [samples[n]]);
        assert samples[n].time - samples[n - 1].time <= maxGap;
      }
    }
  }

  lemma LongRunAppend(runs: seq<seq<Sample>>, run: seq<Sample>)
    ensures LongRun(runs + [run]) <==> LongRun(runs) || |run| >= 2
  {
    var all := runs + [run];
    if LongRun(runs) {
      var k :| 0 <= k < |runs| && |runs[k]| >= 2;
      assert |all[k]| >= 2;
    }
    if |run| >= 2 {
      assert |all[|runs|]| >= 2;
    }
  }

  /** On strictly increasing times a run has a slope exactly when it has two samples. */
  lemma RunSlopeIff(run: seq<Sample>, useOLS: bool)
    requires StrictlyIncreasingTimes(run)
    ensures RunSlope(run, useOLS).Some? <==> |run| >= 2
  {
    var pts := Decimate(run, MAX_POINTS);
    DecimateKeepsOrder(run, MAX_POINTS);
    LeastSquaresFailsIff(run);
    PairsLength(pts);
    if |run| >= 2 {
      PairsGrow(|pts|);
    } else {
      FewPairs(pts);
    }
  }

  ghost predicate OrderedRuns(runs: seq<seq<Sample>>) {
    forall k :: 0 <= k < |runs| ==> StrictlyIncreasingTimes(runs[k])
  }

  lemma {:induction false} RunSlopesEmptyIff(runs: seq<seq<Sample>>, useOLS: bool)
    requires OrderedRuns(runs)
    ensures RunSlopes(runs, useOLS) != [] <==> LongRun(runs)
  {
    if runs == [] {
    } else {
      var k := |runs| - 1;
      RunSlopesEmptyIff(runs[..k], useOLS);
      RunSlopesLast(runs, useOLS);
      OneRunMore(runs[..k], runs[k], useOLS, RunSlopes(runs[..k], useOLS));
      assert runs == runs[..k] + [runs[k]];
    }
  }

  lemma OneRunMore(runs: seq<seq<Sample>>, run: seq<Sample>, useOLS: bool, slopes: seq<real>)
    requires StrictlyIncreasingTimes(run)
    requires slopes != [] <==> LongRun(runs)
    ensures slopes + SlopeList(run, useOLS) != [] <==> LongRun(runs + [run])
  {
    RunSlopeIff(run, useOLS);
    LongRunAppend(runs, run);
  }

  /** The slope of a run, if it has one. */
  function SlopeList(run: seq<Sample>, useOLS: bool): seq<real> {
    match RunSlope(run, useOLS) { case None => [] case Some(x) => [x] }
  }

  lemma RunSlopesLast(runs: seq<seq<Sample>>, useOLS: bool)
    requires runs != []
    ensures var k := |runs| - 1;
      RunSlopes(runs, useOLS) == RunSlopes(runs[..k], useOLS) + SlopeList(runs[k], useOLS)
  {
  }

  lemma RunsOrdered(samples: seq<Sample>, maxGap: int)
    requires StrictlyIncreasingTimes(samples)
    ensures OrderedRuns(Runs(samples, maxGap))
  {
    var runs := Runs(samples, maxGap);
    forall k | 0 <= k < |runs| ensures StrictlyIncreasingTimes(runs[k]) {
      var o := RunIsSlice(samples, maxGap, k);
    }
  }

  // ---- Bounds on a window's slope ----

  /** All ordered pairs of samples have slopes in `[lo, hi]`. */
  ghost predicate SlopesWithin(samples: seq<Sample>, lo: real, hi: real) {
    forall i, j :: 0 <= i < j < |samples| ==> SlopeWithin(samples[i], samples[j], lo, hi)
  }

  lemma PairsWithin(pts: seq<Sample>, lo: real, hi: real)
    requires SlopesWithin(pts, lo, hi)
    ensures forall x :: x in PairSlopes(pts) ==> lo <= x <= hi
  {
    forall x | x in PairSlopes(pts) ensures lo <= x <= hi {
      var i, j := PairMember(pts, x);
      assert SlopeWithin(pts[i], pts[j], lo, hi);
    }
  }

  lemma RunSlopeWithin(run: seq<Sample>, useOLS: bool, lo: real, hi: real)
    requires SlopesWithin(run, lo, hi)
    ensures RunSlope(run, useOLS).Some? ==> lo <= RunSlope(run, useOLS).value <= hi
  {
    if useOLS {
      if LeastSquares(run).Some? {
        OrderedBySlopes(run, lo, hi);
        PairsWithin(run, lo, hi);
        LeastSquaresWithin(run, lo, hi);
      }
    } else {
      var pts := Decimate(run, MAX_POINTS);
      forall i, j | 0 <= i < j < |pts| ensures SlopeWithin(pts[i], pts[j], lo, hi) {
        var p, q := DecimateSelects(run, MAX_POINTS, i, j);
        assert SlopeWithin(run[p], run[q], lo, hi);
      }
      PairsWithin(pts, lo, hi);
      TheilSenWithin(run, MAX_POINTS, lo, hi);
    }
  }

  lemma OrderedBySlopes(run: seq<Sample>, lo: real, hi: real)
    requires SlopesWithin(run, lo, hi)
    ensures StrictlyIncreasingTimes(run) && NondecreasingTimes(run)
  {
    forall i, j | 0 <= i < j < |run| ensures run[i].time < run[j].time {
      assert SlopeWithin(run[i], run[j], lo, hi);
    }
  }

  lemma {:induction false} RunSlopesWithin(runs: seq<seq<Sample>>, useOLS: bool, lo: real, hi: real)
    requires forall k :: 0 <= k < |runs| ==> SlopesWithin(runs[k], lo, hi)
    ensures forall x :: x in RunSlopes(runs, useOLS) ==> lo <= x <= hi
  {
    if runs == [] {
    } else {
      var k := |runs| - 1;
      RunSlopesWithin(runs[..k], useOLS, lo, hi);
      RunSlopesLast(runs, useOLS);
      RunSlopeWithin(runs[k], useOLS, lo, hi);
    }
  }

  /** Enough samples, no ceiling jump and one pair of close neighbours: what a window needs to be valid. */
  ghost predicate Usable(w: int, in_: Input, jumped: bool)
    requires w in in_.samples
  {
    var samples := in_.samples[w];
    |samples| >= MinSamples(w, in_.interval) && !jumped && ClosePair(samples, MAX_GAP)
  }

  /** A window over time-ordered samples is valid exactly when it is usable. */
  lemma {:induction false} WindowValidIff(w: int, in_: Input, jumped: bool)
    requires w in in_.samples && StrictlyIncreasingTimes(in_.samples[w])
    ensures WindowForecast(w, in_, jumped).valid <==> Usable(w, in_, jumped)
    ensures WindowForecast(w, in_, jumped).valid <==> WindowForecast(w, in_, jumped).slope.Some?
  {
    var samples := in_.samples[w];
    RunsOrdered(samples, MAX_GAP);
    LongRunIff(samples, MAX_GAP);
    RunSlopesEmptyIff(Runs(samples, MAX_GAP), in_.useOLS);
  }

  /** Whatever estimator is used, the window's slope lies within the bounds on its samples' slopes. */
  lemma {:induction false} WindowSlopeWithin(w: int, in_: Input, jumped: bool, lo: real, hi: real)
    requires w in in_.samples && SlopesWithin(in_.samples[w], lo, hi)
    ensures var s := WindowForecast(w, in_, jumped).slope; s.Some? ==> lo <= s.value <= hi
  {
    var samples := in_.samples[w];
    var runs := Runs(samples, MAX_GAP);
    forall k | 0 <= k < |runs| ensures SlopesWithin(runs[k], lo, hi) {
      var o := RunIsSlice(samples, MAX_GAP, k);
      forall i, j | 0 <= i < j < |runs[k]| ensures SlopeWithin(runs[k][i], runs[k][j], lo, hi) {
        assert SlopeWithin(samples[o + i], samples[o + j], lo, hi);
      }
    }
    RunSlopesWithin(runs, in_.useOLS, lo, hi);
    var slopes := RunSlopes(runs, in_.useOLS);
    if slopes != [] {
      MediansWithin(slopes, lo, hi);
    }
  }

  // ---- Outliers at both levels ----

  ghost predicate CleanMajority(pts: seq<Sample>, clean: seq<bool>, lo: real, hi: real) {
    |clean| == |pts| && CleanPairs(pts, clean, lo, hi) && 2 * Pairs(Marked(clean)) > Pairs(|pts|)
  }

  /** Of what the estimator sees of the run, more than half the pairs are clean. */
  ghost predicate MostlyClean(run: seq<Sample>, lo: real, hi: real) {
    var pts := Decimate(run, MAX_POINTS);
    StrictlyIncreasingTimes(pts) && exists clean :: CleanMajority(pts, clean, lo, hi)
  }

  ghost function CleanRuns(runs: seq<seq<Sample>>, lo: real, hi: real): nat {
    if runs == [] then 0 else
    CleanRuns(runs[..|runs| - 1], lo, hi) + if MostlyClean(runs[|runs| - 1], lo, hi) then 1 else 0
  }

  /** The runs of at least two samples: no other has a slope. */
  function LongRuns(runs: seq<seq<Sample>>): nat {
    if runs == [] then 0 else LongRuns(runs[..|runs| - 1]) + if |runs[|runs| - 1]| >= 2 then 1 else 0
  }

  lemma MostlyCleanSlope(run: seq<Sample>, lo: real, hi: real)
    requires MostlyClean(run, lo, hi)
    ensures RunSlope(run, false).Some? && lo <= RunSlope(run, false).value <= hi
  {
    var pts := Decimate(run, MAX_POINTS);
    var clean :| CleanMajority(pts, clean, lo, hi);
    Breakdown(pts, MAX_POINTS, clean, lo, hi);
    assert Decimate(pts, MAX_POINTS) == pts;
  }

  lemma ShortRunHasNoSlope(run: seq<Sample>)
    requires |run| < 2
    ensures RunSlope(run, false) == None
  {
    FewPairs(run);
  }

  /** What the runs tell of their slopes: how many there are at most, and at least how many in the bounds. */
  ghost predicate Tallied(slopes: seq<real>, lo: real, hi: real, cleanRuns: nat, longRuns: nat) {
    |slopes| <= longRuns && Count(slopes, Between(lo, hi)) >= cleanRuns
  }

  lemma TallyOne(slopes: seq<real>, run: seq<Sample>, lo: real, hi: real, cleanRuns: nat, longRuns: nat)
    requires Tallied(slopes, lo, hi, cleanRuns, longRuns)
    ensures Tallied(slopes + SlopeList(run, false), lo, hi,
      cleanRuns + (if MostlyClean(run, lo, hi) then 1 else 0), longRuns + (if |run| >= 2 then 1 else 0))
  {
    CountAppend(slopes, SlopeList(run, false), Between(lo, hi));
    if MostlyClean(run, lo, hi) {
      MostlyCleanSlope(run, lo, hi);
    }
    if |run| < 2 {
      ShortRunHasNoSlope(run);
    }
  }

  lemma {:induction false} TallyRuns(runs: seq<seq<Sample>>, lo: real, hi: real)
    ensures Tallied(RunSlopes(runs, false), lo, hi, CleanRuns(runs, lo, hi), LongRuns(runs))
  {
    if runs == [] {
    } else {
      var k := |runs| - 1;
      TallyRuns(runs[..k], lo, hi);
      RunSlopesLast(runs, false);
      TallyOne(RunSlopes(runs[..k], false), runs[k], lo, hi, CleanRuns(runs[..k], lo, hi), LongRuns(runs[..k]));
    }
  }

  /**
   When more than half the runs with a slope are mostly clean, so is the window: its slope is
   within the clean bounds, whatever the other runs and the other samples of the clean runs are.
   */
  lemma {:induction false} WindowBreakdown(w: int, in_: Input, jumped: bool, lo: real, hi: real)
    requires w in in_.samples && !in_.useOLS
    requires var runs := Runs(in_.samples[w], MAX_GAP); 2 * CleanRuns(runs, lo, hi) > LongRuns(runs)
    ensures var ev := WindowForecast(w, in_, jumped);
      && (ev.valid <==> |in_.samples[w]| >= MinSamples(w, in_.interval) && !jumped)
      && (ev.valid ==> ev.slope.Some? && lo <= ev.slope.value <= hi)
  {
    var runs := Runs(in_.samples[w], MAX_GAP);
    var slopes := RunSlopes(runs, false);
    TallyRuns(runs, lo, hi);
    assert slopes != [];
    UpperMedianOfMajority(slopes, lo, hi);
  }

  // ---- Straight lines ----

  /** Growing at `beta` per second, `value` is at `ceiling` after `eta` seconds. */
  ghost predicate Meets(value: real, beta: real, eta: real, ceiling: real) {
    value + beta * eta == ceiling
  }

  lemma ReachesCeiling(value: real, beta: real, ceiling: real)
    requires beta > 0.0
    ensures Meets(value, beta, ArrivalTime(ceiling - value, beta), ceiling)
  {
  }

  /** With a slope goes the sample count, and an arrival time exactly for growth: when the ceiling is met. */
  ghost predicate EtaFollows(ev: WindowEval, have: nat, value: real, ceiling: real) {
    match ev.slope
    case None => ev.eta == None
    case Some(beta) =>
      && ev.samples == have
      && (ev.eta.Some? <==> beta > 0.000000000001)
      && (ev.eta.Some? ==> Meets(value, beta, ev.eta.value, ceiling))
  }

  lemma EtaOfSlope(w: int, have: nat, need: int, jumped: bool, slopes: seq<real>, value: real, ceiling: real)
    ensures EtaFollows(EvalOf(w, have, need, jumped, slopes, ceiling - value), have, value, ceiling)
  {
    var ev := EvalOf(w, have, need, jumped, slopes, ceiling - value);
    if ev.slope.Some? && ev.slope.value > EPSILON {
      ReachesCeiling(value, ev.slope.value, ceiling);
    }
  }

  lemma WindowIsEval(w: int, in_: Input, jumped: bool) returns (need: int, slopes: seq<real>)
    ensures WindowForecast(w, in_, jumped) ==
      EvalOf(w, |SamplesOf(in_, w)|, need, jumped, slopes, in_.ceiling - in_.value)
  {
    hide RunSlopes, MinSamples;
    var samples := SamplesOf(in_, w);
    need, slopes := MinSamples(w, in_.interval), RunSlopes(Runs(samples, MAX_GAP), in_.useOLS);
  }

  /** Whatever the samples, the arrival time of a window is when its slope takes the value to the ceiling. */
  lemma SlopeGivesEta(w: int, in_: Input, jumped: bool)
    requires w in in_.samples
    ensures EtaFollows(WindowForecast(w, in_, jumped), |in_.samples[w]|, in_.value, in_.ceiling)
  {
    hide WindowForecast;
    var need, slopes := WindowIsEval(w, in_, jumped);
    EtaOfSlope(w, |SamplesOf(in_, w)|, need, jumped, slopes, in_.value, in_.ceiling);
  }

  lemma LineSlopesWithin(samples: seq<Sample>, v0: real, beta: real)
    requires StrictlyIncreasingTimes(samples) && AllOnLine(samples, v0, beta)
    ensures SlopesWithin(samples, beta, beta)
  {
    forall i, j | 0 <= i < j < |samples| ensures SlopeWithin(samples[i], samples[j], beta, beta) {
      LineSlope(samples[i], samples[j], v0, beta);
    }
  }

  /**
   On collinear samples of any length and with any gaps, a usable window reports the slope of
   the line; if that is growth, the arrival time is exactly when the value meets the ceiling.
   */
  lemma {:induction false} ExactOnLine(w: int, in_: Input, jumped: bool, v0: real, beta: real)
    requires w in in_.samples && StrictlyIncreasingTimes(in_.samples[w]) && AllOnLine(in_.samples[w], v0, beta)
    requires Usable(w, in_, jumped)
    ensures var ev := WindowForecast(w, in_, jumped);
      && ev.valid && ev.slope == Some(beta) && ev.samples == |in_.samples[w]|
      && (ev.eta.Some? <==> beta > 0.000000000001)
      && (ev.eta.Some? ==> Meets(in_.value, beta, ev.eta.value, in_.ceiling))
  {
    LineSlopesWithin(in_.samples[w], v0, beta);
    WindowValidIff(w, in_, jumped);
    WindowSlopeWithin(w, in_, jumped, beta, beta);
    SlopeGivesEta(w, in_, jumped);
  }

  // ---- No growth ----

  ghost predicate NonincreasingValues(samples: seq<Sample>) {
    forall i, j :: 0 <= i < j < |samples| ==> samples[j].value <= samples[i].value
  }

  /** Some bound lies below every pairwise slope. */
  lemma {:induction false} LowerBound(s: seq<real>) returns (lo: real)
    ensures lo <= 0.0 && forall x :: x in s ==> lo <= x
  {
    if s == [] {
      lo := 0.0;
    } else {
      lo := LowerBound(s[1..]);
      assert s == [s[0]] + s[1..];
      lo := if s[0] < lo then s[0] else lo;
    }
  }

  lemma {:induction false} RowListed(a: Sample, rest: seq<Sample>, j: nat)
    requires j < |rest| && a.time < rest[j].time
    ensures Slope(a, rest[j]) in Row(a, rest)
  {
    if j > 0 {
      RowListed(a, rest[1..], j - 1);
    }
  }

  lemma {:induction false} PairListed(pts: seq<Sample>, i: nat, j: nat)
    requires i < j < |pts| && pts[i].time < pts[j].time
    ensures Slope(pts[i], pts[j]) in PairSlopes(pts)
  {
    if i > 0 {
      PairListed(pts[1..], i - 1, j - 1);
    } else {
      RowListed(pts[0], pts[1..], j - 1);
    }
  }

  lemma FallingQuotient(dv: real, dt: real)
    requires dv <= 0.0 && dt > 0.0
    ensures dv / dt <= 0.0
  {
  }

  lemma FallingSlopes(samples: seq<Sample>) returns (lo: real)
    requires StrictlyIncreasingTimes(samples) && NonincreasingValues(samples)
    ensures SlopesWithin(samples, lo, 0.0)
  {
    lo := LowerBound(PairSlopes(samples));
    forall i, j | 0 <= i < j < |samples| ensures SlopeWithin(samples[i], samples[j], lo, 0.0) {
      PairListed(samples, i, j);
      FallingQuotient(samples[j].value - samples[i].value, Seconds(samples[j].time - samples[i].time));
    }
  }

  /** Values that never rise give a valid window and no arrival time. */
  lemma NoEtaWithoutGrowth(w: int, in_: Input, jumped: bool)
    requires w in in_.samples
    requires StrictlyIncreasingTimes(in_.samples[w]) && NonincreasingValues(in_.samples[w])
    requires Usable(w, in_, jumped)
    ensures var ev := WindowForecast(w, in_, jumped);
      ev.valid && ev.slope.Some? && ev.slope.value <= 0.0 && ev.eta == None
  {
    var lo := FallingSlopes(in_.samples[w]);
    hide SlopesWithin, StrictlyIncreasingTimes, NonincreasingValues, WindowForecast;
    WindowValidIff(w, in_, jumped);
    WindowSlopeWithin(w, in_, jumped, lo, 0.0);
    SlopeGivesEta(w, in_, jumped);
  }

  // ---- The two horizons of a forecast ----

  /**
   The aggressive estimate is the one-hour window's, the conservative one belongs to the
   longest window.
   */
  lemma {:induction false} ChosenWindows(in_: Input, f: Forecast)
    requires ForecastOf(in_) == Success(f)
    ensures f.perWindow.Keys ==
      if in_.horizons == [] then {3_600_000_000_000, 21_600_000_000_000, 259_200_000_000_000}
      else set w | w in in_.horizons
    ensures f.etaAggressive ==
      if 3_600_000_000_000 in f.perWindow then f.perWindow[3_600_000_000_000].eta else None
    ensures forall w :: w in f.perWindow && w > 0 && (forall v :: v in f.perWindow ==> v <= w) ==>
      f.etaConservative == f.perWindow[w].eta
    ensures (forall w :: w in f.perWindow ==> w <= 0) ==> f.etaConservative == None
  {
    ForecastParts(in_, f);
    AskedWindows(in_, f.ceilingJumped);
    HourWindow(Horizons(in_), in_, f.ceilingJumped);
    LongestWindow(Horizons(in_), in_, f.ceilingJumped);
    hide *;
  }

  lemma AskedWindows(in_: Input, jumped: bool)
    ensures Windows(Horizons(in_), in_, jumped).Keys ==
      if in_.horizons == [] then {3_600_000_000_000, 21_600_000_000_000, 259_200_000_000_000}
      else set w | w in in_.horizons
  {
    hide WindowForecast;
    DefaultHorizons();
  }

  lemma HourWindow(horizons: seq<int>, in_: Input, jumped: bool)
    ensures var ws := Windows(horizons, in_, jumped);
      EtaOf(horizons, HOUR, in_, jumped) == if 3_600_000_000_000 in ws then ws[3_600_000_000_000].eta else None
  {
    hide WindowForecast;
  }

  lemma LongestWindow(horizons: seq<int>, in_: Input, jumped: bool)
    ensures var ws, eta := Windows(horizons, in_, jumped), LongestWindowEta(horizons, in_, jumped);
      && ws.Keys == (set w | w in horizons)
      && (forall w :: w in ws && w > 0 && (forall v :: v in ws ==> v <= w) ==> eta == ws[w].eta)
      && ((forall w :: w in ws ==> w <= 0) ==> eta == None)
  {
    var ws := Windows(horizons, in_, jumped);
    forall w | w in ws && w > 0 && forall v :: v in ws ==> v <= w
      ensures Longest(horizons) == w
    {
      forall v | v in horizons ensures v <= w { assert v in ws; }
      LongestIs(horizons, w);
    }
    assert Longest(horizons) > 0 ==> Longest(horizons) in ws;
  }

  lemma LongestIs(horizons: seq<int>, w: int)
    requires w in horizons && w > 0
    requires forall v :: v in horizons ==> v <= w
    ensures Longest(horizons) == w
  {
    assert w <= Longest(horizons);
  }

  /** `w` is the longest window asked for: three days when none is named. */
  ghost predicate LongestHorizon(in_: Input, w: int) {
    if in_.horizons == [] then w == 259_200_000_000_000
    else w > 0 && w in in_.horizons && forall v :: v in in_.horizons ==> v <= w
  }

  lemma DefaultHorizons()
    ensures forall w :: w in DEFAULT_HORIZONS <==> w in {3_600_000_000_000, 21_600_000_000_000, 259_200_000_000_000}
  {
    assert DEFAULT_HORIZONS[0] == HOUR && DEFAULT_HORIZONS[1] == 6 * HOUR && DEFAULT_HORIZONS[2] == 3 * DAY;
  }

  /** A whole forecast over a steadily growing longest window predicts the moment the ceiling is met. */
  lemma {:induction false} ForecastMeetsCeiling(in_: Input, w: int, v0: real, beta: real)
    requires LongestHorizon(in_, w)
    requires w in in_.samples && StrictlyIncreasingTimes(in_.samples[w]) && AllOnLine(in_.samples[w], v0, beta)
    requires Usable(w, in_, CeilingJumped(in_.prevCeiling, in_.ceiling)) && beta > 0.000000000001
    ensures ForecastOf(in_).Success? ==>
      var f := ForecastOf(in_).value;
      f.etaConservative.Some? && Meets(in_.value, beta, f.etaConservative.value, in_.ceiling)
  {
    DefaultHorizons();
    if ForecastOf(in_).Success? {
      var f := ForecastOf(in_).value;
      ForecastParts(in_, f);
      LongestIs(Horizons(in_), w);
      ExactOnLine(w, in_, f.ceilingJumped, v0, beta);
    }
  }

  /** After a ceiling jump of more than 1% no window has an estimate. */
  lemma JumpSilences(in_: Input, f: Forecast)
    requires ForecastOf(in_) == Success(f) && f.ceilingJumped
    ensures f.etaAggressive == None && f.etaConservative == None
    ensures forall w :: w in f.perWindow ==> !f.perWindow[w].valid
  {
  }
}
