/**
 The numerical tools of the forecast engine: Theil–Sen and least-squares slopes,
 uniform decimation, splitting at gaps, and the two sampling checks.

 Instants and durations are integers in nanoseconds; values and slopes are exact reals.
 Each loop of the engine is a method, proved equal to the specification function beside it.
 */
module Engine {
  import opened Wrappers
  import opened Medians

  datatype Sample = Sample(time: int, value: real)

  const SECOND := 1_000_000_000
  const MINUTE := 60 * SECOND
  const HOUR := 60 * MINUTE
  const DAY := 24 * HOUR

  /** A duration in seconds. */
  function Seconds(d: int): real {
    d as real / 1000000000.0
  }

  function Times(samples: seq<Sample>): (ts: seq<int>)
    ensures |ts| == |samples|
    ensures forall i :: 0 <= i < |ts| ==> ts[i] == samples[i].time
  {
    seq(|samples|, i requires 0 <= i < |samples| => samples[i].time)
  }

  ghost predicate StrictlyIncreasingTimes(samples: seq<Sample>) {
    forall i, j :: 0 <= i < j < |samples| ==> samples[i].time < samples[j].time
  }

  ghost predicate NondecreasingTimes(samples: seq<Sample>) {
    forall i, j :: 0 <= i < j < |samples| ==> samples[i].time <= samples[j].time
  }

  // ---- Theil–Sen ----

  function Slope(a: Sample, b: Sample): real
    requires a.time < b.time
  {
    (b.value - a.value) / Seconds(b.time - a.time)
  }

  /** Slopes from `a` to each later sample of `rest`, pairs at the same or an earlier instant skipped. */
  function Row(a: Sample, rest: seq<Sample>): seq<real> {
    if rest == [] then [] else
    (if rest[0].time <= a.time then [] else [Slope(a, rest[0])]) + Row(a, rest[1..])
  }

  /** All pairwise slopes, in the order the nested loops meet them. */
  function PairSlopes(pts: seq<Sample>): seq<real> {
    if pts == [] then [] else Row(pts[0], pts[1..]) + PairSlopes(pts[1..])
  }

  function TheilSen(samples: seq<Sample>, max: nat): Option<real>
    requires max != 1 || |samples| <= 1
  {
    var slopes := PairSlopes(Decimate(samples, max));
    if slopes == [] then None else Some(Median(slopes))
  }

  method TheilSenSlope(samples: seq<Sample>, maxPoints: nat) returns (r: Option<real>)
    requires maxPoints != 1 || |samples| <= 1
    ensures r == TheilSen(samples, maxPoints)
  {
    var pts := DecimateUniformly(samples, maxPoints);
    if |pts| < 2 {
      FewPairs(pts);
      return None;
    }
    var slopes: seq<real> := [];
    var i := 0;
    while i < |pts|
      invariant 0 <= i <= |pts|
      invariant slopes + PairSlopes(pts[i..]) == PairSlopes(pts)
    {
      var row := SlopesFrom(pts, i);
      PairStep(pts, i);
      assert slopes + (row + PairSlopes(pts[i + 1..])) == (slopes + row) + PairSlopes(pts[i + 1..]);
      slopes := slopes + row;
      i := i + 1;
    }
    assert slopes == PairSlopes(pts) by { assert pts[i..] == []; }
    if |slopes| == 0 {
      return None;
    }
    var m := MiddleSlope(slopes);
    return Some(m);
  }

  /** The inner loop: sample `i` against every later one. */
  method SlopesFrom(pts: seq<Sample>, i: nat) returns (slopes: seq<real>)
    requires i < |pts|
    ensures slopes == Row(pts[i], pts[i + 1..])
  {
    slopes := [];
    var j := i + 1;
    while j < |pts|
      invariant i + 1 <= j <= |pts|
      invariant slopes + Row(pts[i], pts[j..]) == Row(pts[i], pts[i + 1..])
    {
      RowStep(pts[i], pts, j);
      ghost var before, rest := slopes, Row(pts[i], pts[j + 1..]);
      var dt := pts[j].time - pts[i].time;
      if dt > 0 {
        var slope := Slope(pts[i], pts[j]);
        slopes := slopes + [slope];
        assert before + ([slope] + rest) == slopes + rest;
      } else {
        assert before + ([] + rest) == slopes + rest;
      }
      j := j + 1;
    }
    assert pts[j..] == [];
  }

  lemma FewPairs(pts: seq<Sample>)
    requires |pts| < 2
    ensures PairSlopes(pts) == []
  {
    if |pts| == 1 {
      assert pts[1..] == [];
    }
  }

  lemma RowStep(a: Sample, pts: seq<Sample>, j: nat)
    requires j < |pts|
    ensures Row(a, pts[j..]) ==
      (if pts[j].time <= a.time then [] else [Slope(a, pts[j])]) + Row(a, pts[j + 1..])
  {
    assert pts[j..][1..] == pts[j + 1..];
  }

  lemma PairStep(pts: seq<Sample>, i: nat)
    requires i < |pts|
    ensures PairSlopes(pts[i..]) == Row(pts[i], pts[i + 1..]) + PairSlopes(pts[i + 1..])
  {
    assert pts[i..][1..] == pts[i + 1..];
  }

  /** The median step of the estimator: sort, then take the middle. */
  method MiddleSlope(slopes: seq<real>) returns (m: real)
    requires slopes != []
    ensures m == Median(slopes)
    ensures Halves(slopes, m)
  {
    var a := new real[|slopes|](i requires 0 <= i < |slopes| => slopes[i]);
    assert a[..] == slopes;
    SortSlice(a);
    SortedSorts(slopes);
    MedianHalves(slopes);
    var n := a.Length;
    if n % 2 == 1 {
      return a[n / 2];
    }
    return (a[n / 2 - 1] + a[n / 2]) / 2.0;
  }

  // ---- Least squares ----

  function Product(x: real, y: real): real {
    x * y
  }

  function Sum(xs: seq<real>): real {
    if xs == [] then 0.0 else xs[0] + Sum(xs[1..])
  }

  function Dot(xs: seq<real>, ys: seq<real>): real
    requires |xs| == |ys|
  {
    if xs == [] then 0.0 else Product(xs[0], ys[0]) + Dot(xs[1..], ys[1..])
  }

  lemma SumStep(xs: seq<real>, i: nat)
    requires i < |xs|
    ensures Sum(xs[i..]) == xs[i] + Sum(xs[i + 1..])
  {
    assert xs[i..][1..] == xs[i + 1..];
  }

  lemma DotStep(xs: seq<real>, ys: seq<real>, i: nat)
    requires i < |xs| == |ys|
    ensures Dot(xs[i..], ys[i..]) == Product(xs[i], ys[i]) + Dot(xs[i + 1..], ys[i + 1..])
  {
    assert xs[i..][1..] == xs[i + 1..] && ys[i..][1..] == ys[i + 1..];
  }

  function Values(samples: seq<Sample>): (vs: seq<real>)
    ensures |vs| == |samples|
    ensures forall i :: 0 <= i < |vs| ==> vs[i] == samples[i].value
  {
    seq(|samples|, i requires 0 <= i < |samples| => samples[i].value)
  }

  /** Seconds elapsed since `origin`, sample by sample. */
  function Elapsed(samples: seq<Sample>, origin: int): (ts: seq<real>)
    ensures |ts| == |samples|
    ensures forall i :: 0 <= i < |ts| ==> ts[i] == Seconds(samples[i].time - origin)
  {
    seq(|samples|, i requires 0 <= i < |samples| => Seconds(samples[i].time - origin))
  }

  function CrossMoment(n: real, sxy: real, sx: real, sy: real): real {
    Product(n, sxy) - Product(sx, sy)
  }

  /** `n * sum(x * y) - sum(x) * sum(y)`. */
  function Covariance(xs: seq<real>, ys: seq<real>): real
    requires |xs| == |ys|
  {
    CrossMoment(|xs| as real, Dot(xs, ys), Sum(xs), Sum(ys))
  }

  function LeastSquares(samples: seq<Sample>): Option<real> {
    if |samples| < 2 then None else
    var ts, vs := Elapsed(samples, samples[0].time), Values(samples);
    var den := Covariance(ts, ts);
    if den == 0.0 then None else Some(Covariance(ts, vs) / den)
  }

  method OLSSlope(samples: seq<Sample>) returns (r: Option<real>)
    ensures r == LeastSquares(samples)
  {
    if |samples| < 2 {
      return None;
    }
    var st, sy, sty, stt := 0.0, 0.0, 0.0, 0.0;
    ghost var ts, vs := Elapsed(samples, samples[0].time), Values(samples);
    var i := 0;
    while i < |samples|
      invariant 0 <= i <= |samples|
      invariant st + Sum(ts[i..]) == Sum(ts)
      invariant sy + Sum(vs[i..]) == Sum(vs)
      invariant sty + Dot(ts[i..], vs[i..]) == Dot(ts, vs)
      invariant stt + Dot(ts[i..], ts[i..]) == Dot(ts, ts)
    {
      var s := samples[i];
      var t := Seconds(s.time - samples[0].time);
      SumStep(ts, i);
      SumStep(vs, i);
      DotStep(ts, vs, i);
      DotStep(ts, ts, i);
      assert ts[i] == t && vs[i] == s.value;
      st := st + t;
      sy := sy + s.value;
      sty := sty + Product(t, s.value);
      stt := stt + Product(t, t);
      i := i + 1;
    }
    assert ts[i..] == [] && vs[i..] == [];
    var den := CrossMoment(|samples| as real, stt, st, st);
    if den == 0.0 {
      return None;
    }
    var num := CrossMoment(|samples| as real, sty, st, sy);
    return Some(num / den);
  }

  // ---- Decimation ----

  /** Rounding to the nearest integer, halves away from zero. */
  function Round(x: real): int {
    if x >= 0.0 then (x + 0.5).Floor else -((-x + 0.5).Floor)
  }

  /** The stride between kept samples. */
  function Stride(n: nat, max: nat): real
    requires max != 1
  {
    (n - 1) as real / (max - 1) as real
  }

  /** The position of the `i`-th kept sample among `n`. */
  function Index(i: nat, n: nat, max: nat): (k: int)
    requires max != 1
    ensures i < max < n ==> 0 <= k < n
  {
    IndexInBounds(i, n, max);
    Round(i as real * Stride(n, max))
  }

  lemma StrideFacts(n: nat, max: nat)
    requires 2 <= max < n
    ensures Stride(n, max) > 1.0
    ensures (max - 1) as real * Stride(n, max) == (n - 1) as real
  {
  }

  lemma ScaleIndex(i: nat, j: nat, x: real)
    requires i <= j && x >= 0.0
    ensures 0.0 <= i as real * x <= j as real * x
    ensures (i + 1) as real * x == i as real * x + x
  {
  }

  lemma IndexInBounds(i: nat, n: nat, max: nat)
    requires max != 1
    ensures i < max < n ==> 0 <= Round(i as real * Stride(n, max)) < n
  {
    if i < max < n {
      StrideFacts(n, max);
      ScaleIndex(i, max - 1, Stride(n, max));
      RoundBelow(i as real * Stride(n, max), n);
    }
  }

  lemma RoundBelow(x: real, n: nat)
    requires n > 0 && 0.0 <= x <= (n - 1) as real
    ensures 0 <= Round(x) < n
  {
  }

  function Decimate(samples: seq<Sample>, max: nat): (r: seq<Sample>)
    requires max != 1 || |samples| <= 1
    ensures |r| == if |samples| <= max then |samples| else max
  {
    if |samples| <= max then samples else
    seq(max, i requires 0 <= i < max => samples[Index(i, |samples|, max)])
  }

  method DecimateUniformly(samples: seq<Sample>, max: nat) returns (out: seq<Sample>)
    requires max != 1 || |samples| <= 1
    ensures out == Decimate(samples, max)
  {
    if |samples| <= max {
      return samples;
    }
    out := [];
    var i := 0;
    while i < max
      invariant 0 <= i <= max
      invariant out == Decimate(samples, max)[..i]
    {
      out := out + [samples[Index(i, |samples|, max)]];
      i := i + 1;
    }
  }

  // ---- Gaps ----

  /** The runs of `samples`: a new run starts after every gap wider than `maxGap`. */
  function Runs(samples: seq<Sample>, maxGap: int): (runs: seq<seq<Sample>>)
    ensures samples == [] <==> runs == []
    ensures forall j :: 0 <= j < |runs| ==> runs[j] != []
    ensures runs != [] ==> runs[|runs| - 1][|runs[|runs| - 1]| - 1] == samples[|samples| - 1]
  {
    if samples == [] then [] else
    var k := |samples| - 1;
    var earlier := Runs(samples[..k], maxGap);
    if k == 0 || samples[k].time - samples[k - 1].time > maxGap then
      earlier + [[samples[k]]]
    else
      earlier[..|earlier| - 1] + [earlier[|earlier| - 1] + [samples[k]]]
  }

  /** One sample more: it opens a new run, or joins the last one. */
  lemma RunsStep(samples: seq<Sample>, i: nat, maxGap: int, runs: seq<seq<Sample>>, cur: seq<Sample>)
    requires i < |samples|
    requires if i == 0 then runs == [] && cur == [] else runs + [cur] == Runs(samples[..i], maxGap)
    ensures i > 0 ==> cur != [] && cur[|cur| - 1] == samples[i - 1]
    ensures Runs(samples[..i + 1], maxGap) ==
      if i == 0 then [[samples[i]]]
      else if samples[i].time - samples[i - 1].time > maxGap then runs + [cur] + [[samples[i]]]
      else runs + [cur + [samples[i]]]
  {
    assert samples[..i + 1][..i] == samples[..i];
    var earlier := Runs(samples[..i], maxGap);
    if i > 0 {
      assert earlier[..|earlier| - 1] == runs && earlier[|earlier| - 1] == cur;
    }
  }

  method SplitByGaps(samples: seq<Sample>, maxGap: int) returns (runs: seq<seq<Sample>>)
    ensures runs == Runs(samples, maxGap)
  {
    runs := [];
    var cur: seq<Sample> := [];
    var i := 0;
    while i < |samples|
      invariant 0 <= i <= |samples|
      invariant if i == 0 then runs == [] && cur == [] else runs + [cur] == Runs(samples[..i], maxGap)
    {
      var s := samples[i];
      RunsStep(samples, i, maxGap, runs, cur);
      if |cur| > 0 && s.time - cur[|cur| - 1].time > maxGap {
        runs := runs + [cur];
        cur := [];
      }
      assert cur == [] ==> cur + [s] == [s];
      cur := cur + [s];
      i := i + 1;
    }
    assert samples[..i] == samples;
    if |cur| > 0 {
      runs := runs + [cur];
    }
  }

  // ---- Sampling checks ----

  /** Integer division truncated toward zero. */
  function Quotient(a: int, b: int): int
    requires b != 0
  {
    if a >= 0 then a / b else -((-a) / b)
  }

  /** Fewest samples a window needs: 83% of the intervals it holds. */
  function MinSamples(window: int, interval: int): int {
    if interval <= 0 then 0 else
    Quotient(Round(window as real / interval as real) * 83, 100)
  }

  function Abs(x: real): real {
    if x < 0.0 then -x else x
  }

  /** Did the ceiling move by more than 1%? A ceiling that is not positive never counts. */
  predicate CeilingJumped(prevCeiling: real, newCeiling: real) {
    prevCeiling > 0.0 && newCeiling > 0.0 && Abs(newCeiling - prevCeiling) / prevCeiling > 0.01
  }

  lemma RatioExceeds(d: real, prev: real)
    requires prev > 0.0
    ensures d / prev > 0.01 <==> d > 0.01 * prev
  {
    assert (d / prev) * prev == d;
  }

  /** A ceiling has jumped exactly when it left the band of 1% around the previous one, both being positive. */
  lemma CeilingJumpedIff(prevCeiling: real, newCeiling: real)
    ensures CeilingJumped(prevCeiling, newCeiling) <==>
      (prevCeiling > 0.0 && newCeiling > 0.0
        && (newCeiling < 0.99 * prevCeiling || newCeiling > 1.01 * prevCeiling))
  {
    if prevCeiling > 0.0 {
      RatioExceeds(Abs(newCeiling - prevCeiling), prevCeiling);
    }
  }
}
