/**
 A capacity sensor polled again and again: what it carries from poll to poll, and the
 closed form of the states it reports.
 */
module CapacitySensor {
  import opened Wrappers
  import opened Engine
  import opened Forecasting
  import opened Exactness

  /** The answer to one range query. */
  datatype Range = QueryFailed | NoSeries | Series(samples: seq<Sample>)

  /**
   What the metric source answers during one poll. `None` is a failed query; `ranges` holds the
   answers in the order of the windows, and one that is not there is no series.
   */
  datatype Reading = Reading(
    value: Option<real>,
    ceiling: Option<real>,
    ranges: seq<Range>,
    outOfRange: OutOfRange)

  datatype PollError = ValueQuery | CeilingQuery | RangeQuery(window: int) | Evaluation(error: Error)

  datatype Def = Def(id: string, valueQuery: string, ceilingQuery: string, horizons: seq<int>, th: Thresholds)

  datatype DefError = EmptyQuery

  /** The fields a sensor carries across polls. */
  datatype Memory = Memory(prevCeiling: real, prevState: State, streak: int, started: bool)

  const FRESH := Memory(0.0, Healthy, 0, false)

  function WindowsOf(def: Def): seq<int> {
    if def.horizons == [] then DEFAULT_HORIZONS else def.horizons
  }

  function RangeAt(reading: Reading, i: nat): Range {
    if i < |reading.ranges| then reading.ranges[i] else NoSeries
  }

  /** The series of all windows, a later one replacing an earlier for the same window, or the first failure. */
  function Gather(windows: seq<int>, reading: Reading): Result<map<int, seq<Sample>>, PollError> {
    if windows == [] then Success(map[]) else
    var k := |windows| - 1;
    match Gather(windows[..k], reading)
    case Failure(e) => Failure(e)
    case Success(m) =>
      match RangeAt(reading, k)
      case NoSeries => Success(m)
      case QueryFailed => Failure(RangeQuery(windows[k]))
      case Series(samples) => Success(m[windows[k] := samples])
  }

  function InputOf(def: Def, m: Memory, reading: Reading): Result<Input, PollError> {
    if reading.value.None? then Failure(ValueQuery)
    else if reading.ceiling.None? then Failure(CeilingQuery)
    else match Gather(WindowsOf(def), reading)
      case Failure(e) => Failure(e)
      case Success(samples) =>
        Success(Input(def.id, WindowsOf(def), reading.value.value, reading.ceiling.value, m.prevCeiling,
                      samples, MINUTE, m.prevState, m.streak, def.th, false, reading.outOfRange))
  }

  function PollOf(def: Def, m: Memory, reading: Reading): Result<Forecast, PollError> {
    match InputOf(def, m, reading)
    case Failure(e) => Failure(e)
    case Success(in_) =>
      match ForecastOf(in_)
      case Failure(e) => Failure(Evaluation(e))
      case Success(f) => Success(f)
  }

  /** A successful poll replaces the memory; a failed one leaves it alone. */
  function Remember(def: Def, m: Memory, reading: Reading): Memory {
    match PollOf(def, m, reading)
    case Failure(_) => m
    case Success(f) => Memory(f.ceiling, f.state, f.exitStreak, true)
  }

  class Sensor {
    const def: Def
    var prevCeiling: real
    var prevState: State
    var streak: int
    var started: bool

    constructor (def: Def)
      requires def.valueQuery != "" && def.ceilingQuery != ""
      ensures this.def == def && MemoryOf() == FRESH
    {
      this.def := def;
      prevCeiling := 0.0;
      prevState := Healthy;
      streak := 0;
      started := false;
    }

    function MemoryOf(): Memory
      reads this
    {
      Memory(prevCeiling, prevState, streak, started)
    }

    method Poll(reading: Reading) returns (r: Result<Forecast, PollError>)
      modifies this
      ensures r == PollOf(def, old(MemoryOf()), reading)
      ensures MemoryOf() == Remember(def, old(MemoryOf()), reading)
    {
      if reading.value.None? {
        return Failure(ValueQuery);
      }
      if reading.ceiling.None? {
        return Failure(CeilingQuery);
      }
      var horizons := WindowsOf(def);
      var samples: map<int, seq<Sample>> := map[];
      var i := 0;
      while i < |horizons|
        invariant 0 <= i <= |horizons|
        invariant Gather(horizons[..i], reading) == Success(samples)
        invariant MemoryOf() == old(MemoryOf())
      {
        var w := horizons[i];
        assert horizons[..i + 1][..i] == horizons[..i];
        match RangeAt(reading, i) {
          case QueryFailed =>
            GatherFails(horizons, reading, i);
            return Failure(RangeQuery(w));
          case NoSeries =>
          case Series(series) =>
            samples := samples[w := series];
        }
        i := i + 1;
      }
      assert horizons[..i] == horizons;
      var f := Evaluate(Input(def.id, horizons, reading.value.value, reading.ceiling.value, prevCeiling,
                              samples, MINUTE, prevState, streak, def.th, false, reading.outOfRange));
      match f {
        case Failure(e) =>
          return Failure(Evaluation(e));
        case Success(forecast) =>
          started := true;
          prevCeiling := reading.ceiling.value;
          prevState := forecast.state;
          streak := forecast.exitStreak;
          return Success(forecast);
      }
    }
  }

  /** A sensor for the definition, unless it lacks one of its queries. */
  method New(def: Def) returns (r: Result<Sensor, DefError>)
    ensures r.Failure? <==> def.valueQuery == "" || def.ceilingQuery == ""
    ensures r.Success? ==> fresh(r.value) && r.value.def == def && r.value.MemoryOf() == FRESH
  {
    if def.valueQuery == "" || def.ceilingQuery == "" {
      return Failure(EmptyQuery);
    }
    var s := new Sensor(def);
    return Success(s);
  }

  lemma {:induction false} GatherFails(windows: seq<int>, reading: Reading, i: nat)
    requires i < |windows| && RangeAt(reading, i).QueryFailed?
    requires Gather(windows[..i], reading).Success?
    ensures Gather(windows, reading) == Failure(RangeQuery(windows[i]))
  {
    var k := |windows| - 1;
    if i < k {
      assert windows[..k][..i] == windows[..i];
      GatherFails(windows[..k], reading, i);
    }
  }

  // ---- Runs of polls ----

  function MemoryAfter(def: Def, readings: seq<Reading>): Memory {
    if readings == [] then FRESH else
    var k := |readings| - 1;
    Remember(def, MemoryAfter(def, readings[..k]), readings[k])
  }

  /** The forecasts of the successful polls of a run, in order. */
  function Forecasts(def: Def, readings: seq<Reading>): seq<Forecast> {
    if readings == [] then [] else
    var k := |readings| - 1;
    var earlier := Forecasts(def, readings[..k]);
    match PollOf(def, MemoryAfter(def, readings[..k]), readings[k])
    case Failure(_) => earlier
    case Success(f) => earlier + [f]
  }

  /** The severities of the successful polls, each taken by itself. */
  function Levels(def: Def, readings: seq<Reading>): seq<State> {
    if readings == [] then [] else
    var k := |readings| - 1;
    var earlier := Levels(def, readings[..k]);
    match PollOf(def, MemoryAfter(def, readings[..k]), readings[k])
    case Failure(_) => earlier
    case Success(f) => earlier + [LevelOf(f, def.th, readings[k].outOfRange)]
  }

  /** The state to report: an alarm at once, otherwise whatever the poll before said. */
  function TwoPollState(levels: seq<State>, n: nat): State
    requires n < |levels|
  {
    if levels[n] != Healthy then levels[n]
    else if n == 0 then Healthy
    else levels[n - 1]
  }

  lemma PollDecides(def: Def, m: Memory, reading: Reading)
    requires PollOf(def, m, reading).Success?
    ensures var f := PollOf(def, m, reading).value;
      && (f.state, f.exitStreak) == Decide(LevelOf(f, def.th, reading.outOfRange), m.prevState, m.streak)
      && Remember(def, m, reading) == Memory(f.ceiling, f.state, f.exitStreak, true)
  {
    StateOfForecast(InputOf(def, m, reading).value, PollOf(def, m, reading).value);
  }

  /** In the poll that finds the ceiling moved by more than 1% only the utilization can raise an alarm. */
  lemma ResizeLeavesUtilization(def: Def, m: Memory, reading: Reading)
    requires PollOf(def, m, reading).Success?
    requires CeilingJumped(m.prevCeiling, reading.ceiling.value)
    ensures var f := PollOf(def, m, reading).value;
      LevelOf(f, def.th, reading.outOfRange) ==
        if f.utilization >= Effective(def.th).critRatio then Critical else Healthy
  {
    var in_, f := InputOf(def, m, reading).value, PollOf(def, m, reading).value;
    ForecastParts(in_, f);
    JumpSilences(in_, f);
  }

  /** The calm polls since the last alarm. */
  function Calm(levels: seq<State>): nat {
    if levels == [] || levels[|levels| - 1] != Healthy then 0 else 1 + Calm(levels[..|levels| - 1])
  }

  /** What the memory says about the polls so far. */
  ghost predicate Remembers(m: Memory, levels: seq<State>) {
    var n := |levels|;
    && (forall i :: 0 <= i < n ==> levels[i] != Unset)
    && m.streak == Calm(levels)
    && m.prevState == if n == 0 then Healthy else TwoPollState(levels, n - 1)
  }

  lemma OneMorePoll(m: Memory, levels: seq<State>, level: State)
    requires Remembers(m, levels)
    requires level != Unset
    ensures var (state, streak) := Decide(level, m.prevState, m.streak);
      var after := levels + [level];
      && state == TwoPollState(after, |levels|)
      && Remembers(m.(prevState := state, streak := streak), after)
  {
    assert (levels + [level])[..|levels|] == levels;
  }

  ghost predicate TwoPollStates(fs: seq<Forecast>, levels: seq<State>) {
    |fs| == |levels| && forall n :: 0 <= n < |fs| ==> fs[n].state == TwoPollState(levels, n)
  }

  lemma OneMoreState(fs: seq<Forecast>, levels: seq<State>, f: Forecast, level: State)
    requires TwoPollStates(fs, levels)
    requires f.state == TwoPollState(levels + [level], |levels|)
    ensures TwoPollStates(fs + [f], levels + [level])
  {
    assert forall n :: 0 <= n < |levels| ==> TwoPollState(levels + [level], n) == TwoPollState(levels, n);
  }

  /**
   Over any run of polls, failed ones included, the reported states are the two-poll
   function of the raw severities: the streak counter never does anything else.
   */
  lemma {:induction false} HysteresisClosedForm(def: Def, readings: seq<Reading>)
    ensures TwoPollStates(Forecasts(def, readings), Levels(def, readings))
    ensures Remembers(MemoryAfter(def, readings), Levels(def, readings))
  {
    if readings == [] {
    } else {
      var k := |readings| - 1;
      hide PollOf;
      HysteresisClosedForm(def, readings[..k]);
      RunStep(def, MemoryAfter(def, readings[..k]), readings[k],
              Forecasts(def, readings[..k]), Levels(def, readings[..k]));
    }
  }

  lemma RunStep(def: Def, m: Memory, r: Reading, fs: seq<Forecast>, levels: seq<State>)
    requires TwoPollStates(fs, levels) && Remembers(m, levels)
    ensures match PollOf(def, m, r)
      case Failure(_) => Remember(def, m, r) == m
      case Success(f) =>
        var level := LevelOf(f, def.th, r.outOfRange);
        TwoPollStates(fs + [f], levels + [level]) && Remembers(Remember(def, m, r), levels + [level])
  {
    if PollOf(def, m, r).Success? {
      PollDecides(def, m, r);
      var f := PollOf(def, m, r).value;
      var level := LevelOf(f, def.th, r.outOfRange);
      OneMorePoll(m, levels, level);
      OneMoreState(fs, levels, f, level);
    }
  }

  /** An alarm is reported in the poll that raises it; leaving one takes exactly two calm polls. */
  lemma EscalationAndRecovery(def: Def, readings: seq<Reading>, n: nat)
    requires n < |Levels(def, readings)|
    ensures |Forecasts(def, readings)| == |Levels(def, readings)|
    ensures var levels, fs := Levels(def, readings), Forecasts(def, readings);
      && (levels[n] != Healthy ==> fs[n].state == levels[n])
      && (fs[n].state == Healthy <==> levels[n] == Healthy && (n == 0 || levels[n - 1] == Healthy))
  {
    HysteresisClosedForm(def, readings);
  }

  lemma EtaIgnoresState(in_: Input, s: State, streak: int, windows: seq<int>, jumped: bool, w: int)
    ensures EtaOf(windows, w, in_.(prevState := s, prevExitStreak := streak), jumped) == EtaOf(windows, w, in_, jumped)
  {
    var in' := in_.(prevState := s, prevExitStreak := streak);
    assert SamplesOf(in', w) == SamplesOf(in_, w) && Headroom(in') == Headroom(in_);
    assert in'.interval == in_.interval && in'.useOLS == in_.useOLS;
  }

  lemma EtasIgnoreState(in_: Input, s: State, streak: int, windows: seq<int>, jumped: bool)
    ensures var in' := in_.(prevState := s, prevExitStreak := streak);
      && EtaOf(windows, HOUR, in', jumped) == EtaOf(windows, HOUR, in_, jumped)
      && LongestWindowEta(windows, in', jumped) == LongestWindowEta(windows, in_, jumped)
  {
    EtaIgnoresState(in_, s, streak, windows, jumped, HOUR);
    EtaIgnoresState(in_, s, streak, windows, jumped, Longest(windows));
  }

  /** The severity of a forecast does not depend on the state and streak handed in: it is raw. */
  lemma {:induction false} LevelIsRaw(in_: Input, s: State, streak: int, f: Forecast, f': Forecast)
    requires ForecastOf(in_) == Success(f)
    requires ForecastOf(in_.(prevState := s, prevExitStreak := streak)) == Success(f')
    ensures LevelOf(f', in_.th, in_.outOfRange) == LevelOf(f, in_.th, in_.outOfRange)
  {
    ForecastParts(in_, f);
    ForecastParts(in_.(prevState := s, prevExitStreak := streak), f');
    EtasIgnoreState(in_, s, streak, Horizons(in_), f.ceilingJumped);
  }

  /** Failed polls leave no trace: dropping them changes neither forecasts nor memory. */
  lemma {:induction false} FailedPollsLeaveNoTrace(def: Def, readings: seq<Reading>) returns (successes: seq<Reading>)
    ensures Forecasts(def, successes) == Forecasts(def, readings)
    ensures MemoryAfter(def, successes) == MemoryAfter(def, readings)
    ensures |successes| == |Forecasts(def, readings)|
  {
    if readings == [] {
      successes := [];
    } else {
      var k := |readings| - 1;
      successes := FailedPollsLeaveNoTrace(def, readings[..k]);
      var m := MemoryAfter(def, readings[..k]);
      if PollOf(def, m, readings[k]).Success? {
        successes := successes + [readings[k]];
        assert successes[..|successes| - 1] + [readings[k]] == successes;
        assert MemoryAfter(def, successes[..|successes| - 1]) == m;
      }
    }
  }
}
