/**
 What a capacity sensor makes of the metric source's answers: which answer reaches which field
 of the forecast, which answer makes the poll fail, and what one poll leaves to the next.
 */
module CapacityReports {
  import opened Wrappers
  import opened Engine
  import opened Forecasting
  import opened WindowReports
  import opened CapacitySensor

  /** The windows that are asked for: one hour, six hours and three days when none is named. */
  function Asked(def: Def): seq<int> {
    if def.horizons == [] then [3_600_000_000_000, 21_600_000_000_000, 259_200_000_000_000] else def.horizons
  }

  /** The `i`-th answer is a series. */
  predicate Answers(reading: Reading, i: nat) {
    i < |reading.ranges| && reading.ranges[i].Series?
  }

  predicate Fails(reading: Reading, i: nat) {
    i < |reading.ranges| && reading.ranges[i].QueryFailed?
  }

  /** The `i`-th answer is the last series for window `w`. */
  ghost predicate LastSeries(windows: seq<int>, reading: Reading, w: int, i: nat) {
    && i < |windows| && windows[i] == w && Answers(reading, i)
    && forall j :: i < j < |windows| && windows[j] == w ==> !Answers(reading, j)
  }

  ghost predicate NoSeriesFor(windows: seq<int>, reading: Reading, w: int) {
    forall j :: 0 <= j < |windows| && windows[j] == w ==> !Answers(reading, j)
  }

  lemma {:induction false} GatheredSeries(windows: seq<int>, reading: Reading, w: int, i: nat)
    requires Gather(windows, reading).Success? && LastSeries(windows, reading, w, i)
    ensures var m := Gather(windows, reading).value;
      w in m && m[w] == reading.ranges[i].samples
  {
    var k := |windows| - 1;
    if i < k {
      assert !(windows[k] == w && Answers(reading, k));
      GatheredSeries(windows[..k], reading, w, i);
    }
  }

  lemma {:induction false} GatheredNone(windows: seq<int>, reading: Reading, w: int)
    requires Gather(windows, reading).Success? && NoSeriesFor(windows, reading, w)
    ensures w !in Gather(windows, reading).value
  {
    if windows != [] {
      var k := |windows| - 1;
      GatheredNone(windows[..k], reading, w);
    }
  }

  ghost predicate FirstFailure(windows: seq<int>, reading: Reading, i: nat) {
    i < |windows| && Fails(reading, i) && forall j :: 0 <= j < i ==> !Fails(reading, j)
  }

  ghost predicate NothingFails(windows: seq<int>, reading: Reading) {
    forall j :: 0 <= j < |windows| ==> !Fails(reading, j)
  }

  lemma {:induction false} GatherOutcome(windows: seq<int>, reading: Reading)
    ensures match Gather(windows, reading)
      case Success(_) => NothingFails(windows, reading)
      case Failure(e) => exists i: nat :: FirstFailure(windows, reading, i) && e == RangeQuery(windows[i])
  {
    if windows != [] {
      var k := |windows| - 1;
      GatherOutcome(windows[..k], reading);
      match Gather(windows[..k], reading) {
        case Failure(e) =>
          var i: nat :| FirstFailure(windows[..k], reading, i) && e == RangeQuery(windows[..k][i]);
          assert FirstFailure(windows, reading, i);
        case Success(_) =>
          if Fails(reading, k) {
            assert FirstFailure(windows, reading, k);
          }
      }
    }
  }

  lemma AskedIs(def: Def)
    ensures WindowsOf(def) == Asked(def)
  {
    assert HOUR == 3_600_000_000_000 && 3 * DAY == 259_200_000_000_000;
  }

  /** Why a poll fails: the first query that does, or the first thing wrong with what they answered. */
  lemma PollFailsIff(def: Def, m: Memory, reading: Reading)
    ensures match PollOf(def, m, reading)
      case Failure(ValueQuery) => reading.value.None?
      case Failure(CeilingQuery) => reading.value.Some? && reading.ceiling.None?
      case Failure(RangeQuery(w)) =>
        && reading.value.Some? && reading.ceiling.Some?
        && exists i: nat :: FirstFailure(Asked(def), reading, i) && Asked(def)[i] == w
      case Failure(Evaluation(e)) =>
        && reading.value.Some? && reading.ceiling.Some? && NothingFails(Asked(def), reading)
        && Wrong(e, def.th, def.id, reading.ceiling.value)
      case Success(_) =>
        && reading.value.Some? && reading.ceiling.Some? && NothingFails(Asked(def), reading)
        && InOrder(def.th) && def.id != "" && reading.ceiling.value > 0.0
  {
    AskedIs(def);
    GatherOutcome(Asked(def), reading);
    if InputOf(def, m, reading).Success? {
      RefusedIff(InputOf(def, m, reading).value);
    }
    hide ForecastOf, Gather;
  }

  /** Which answer reaches which figure of the forecast. */
  lemma PollFigures(def: Def, m: Memory, reading: Reading, f: Forecast)
    requires PollOf(def, m, reading) == Success(f)
    ensures reading.value.Some? && reading.ceiling.Some?
    ensures var value, ceiling := reading.value.value, reading.ceiling.value;
      && f.id == def.id && f.value == value && f.ceiling == ceiling && ceiling > 0.0
      && f.utilization == value / ceiling && f.headroom == ceiling - value
      && (f.ceilingJumped <==>
            m.prevCeiling > 0.0 && (ceiling < 0.99 * m.prevCeiling || ceiling > 1.01 * m.prevCeiling))
    ensures f.perWindow.Keys == set w | w in Asked(def)
  {
    AskedIs(def);
    PollFailsIff(def, m, reading);
    Figures(InputOf(def, m, reading).value, f);
    ForecastParts(InputOf(def, m, reading).value, f);
    hide Gather;
  }

  lemma SameAlone(def: Def, m: Memory, reading: Reading, w: int, samples: seq<Sample>)
    requires InputOf(def, m, reading).Success?
    requires var series := InputOf(def, m, reading).value.samples;
      if w in series then series[w] == samples else samples == []
    ensures var in_ := InputOf(def, m, reading).value;
      forall jumped :: WindowForecast(w, in_, jumped) ==
        WindowForecast(w, Alone(w, samples, reading.value.value, reading.ceiling.value, 60_000_000_000), jumped)
  {
    hide Gather;
    var in_ := InputOf(def, m, reading).value;
    var alone := Alone(w, samples, reading.value.value, reading.ceiling.value, 60_000_000_000);
    forall jumped ensures WindowForecast(w, in_, jumped) == WindowForecast(w, alone, jumped) {
      if w !in in_.samples {
        AbsentIsEmpty(in_, w, jumped);
        WindowIsLocal(in_.(samples := in_.samples[w := []]), alone, w, jumped);
      } else {
        WindowIsLocal(in_, alone, w, jumped);
      }
    }
  }

  /**
   Each window is evaluated on the last series answered for it, at one sample a minute, and on
   nothing else that was answered but the value and the ceiling.
   */
  lemma WindowOfSeries(def: Def, m: Memory, reading: Reading, f: Forecast, w: int, i: nat)
    requires PollOf(def, m, reading) == Success(f)
    requires LastSeries(Asked(def), reading, w, i)
    ensures w in f.perWindow
    ensures f.perWindow[w] ==
      WindowForecast(w, Alone(w, reading.ranges[i].samples, f.value, f.ceiling, 60_000_000_000), f.ceilingJumped)
  {
    hide WindowForecast;
    PollFigures(def, m, reading, f);
    AskedIs(def);
    GatheredSeries(Asked(def), reading, w, i);
    SameAlone(def, m, reading, w, reading.ranges[i].samples);
    ForecastParts(InputOf(def, m, reading).value, f);
  }

  /** One without an answer is evaluated as empty. */
  lemma WindowWithoutSeries(def: Def, m: Memory, reading: Reading, f: Forecast, w: int)
    requires PollOf(def, m, reading) == Success(f)
    requires w in Asked(def) && NoSeriesFor(Asked(def), reading, w)
    ensures w in f.perWindow
    ensures f.perWindow[w] == WindowForecast(w, Alone(w, [], f.value, f.ceiling, 60_000_000_000), f.ceilingJumped)
  {
    hide WindowForecast;
    PollFigures(def, m, reading, f);
    AskedIs(def);
    GatheredNone(Asked(def), reading, w);
    SameAlone(def, m, reading, w, []);
    ForecastParts(InputOf(def, m, reading).value, f);
  }

  // ---- From poll to poll ----

  ghost predicate LeftBand(before: real, now: real) {
    now < 0.99 * before || now > 1.01 * before
  }

  /** A jump is seen exactly where a ceiling left the band of 1% around the one of the poll before. */
  ghost predicate JumpsSeen(fs: seq<Forecast>) {
    forall n :: 0 <= n < |fs| ==>
      fs[n].ceiling > 0.0 && (fs[n].ceilingJumped <==> n > 0 && LeftBand(fs[n - 1].ceiling, fs[n].ceiling))
  }

  /** The memory holds the ceiling of the last successful poll, if there was one. */
  ghost predicate CeilingKept(m: Memory, fs: seq<Forecast>) {
    && (m.started <==> fs != [])
    && m.prevCeiling == if fs == [] then 0.0 else fs[|fs| - 1].ceiling
  }

  lemma OneMoreJump(fs: seq<Forecast>, f: Forecast)
    requires JumpsSeen(fs) && f.ceiling > 0.0
    requires f.ceilingJumped <==> fs != [] && LeftBand(fs[|fs| - 1].ceiling, f.ceiling)
    ensures JumpsSeen(fs + [f])
  {
  }

  lemma LastCeiling(fs: seq<Forecast>)
    requires JumpsSeen(fs)
    ensures fs != [] ==> fs[|fs| - 1].ceiling > 0.0
  {
  }

  lemma JumpStep(def: Def, m: Memory, reading: Reading, fs: seq<Forecast>)
    requires JumpsSeen(fs) && CeilingKept(m, fs)
    ensures match PollOf(def, m, reading)
      case Failure(_) => Remember(def, m, reading) == m
      case Success(f) => JumpsSeen(fs + [f]) && CeilingKept(Remember(def, m, reading), fs + [f])
  {
    match PollOf(def, m, reading) {
      case Failure(_) =>
      case Success(f) =>
        PollFigures(def, m, reading, f);
        PollDecides(def, m, reading);
        LastCeiling(fs);
        hide PollOf, JumpsSeen;
        OneMoreJump(fs, f);
    }
  }

  /** Over any run, failed polls included, and the first successful poll never sees one. */
  lemma {:induction false} ResizesSeen(def: Def, readings: seq<Reading>)
    ensures JumpsSeen(Forecasts(def, readings))
    ensures CeilingKept(MemoryAfter(def, readings), Forecasts(def, readings))
  {
    if readings == [] {
    } else {
      var k := |readings| - 1;
      hide PollOf;
      ResizesSeen(def, readings[..k]);
      JumpStep(def, MemoryAfter(def, readings[..k]), readings[k], Forecasts(def, readings[..k]));
    }
  }
}
