/**
 What the Theil–Sen slope promises: its exact breakdown point, bounds on its value, and
 how it follows changes of scale, offset, trend and clock.
 */
module Robustness {
  import opened Wrappers
  import opened Medians
  import opened Engine

  /** Number of pairs among `k` things. */
  function Pairs(k: nat): nat {
    if k == 0 then 0 else Pairs(k - 1) + k - 1
  }

  lemma {:induction false} PairsClosedForm(k: nat)
    ensures 2 * Pairs(k) == k * (k - 1)
  {
    if k == 0 {
    } else {
      PairsClosedForm(k - 1);
    }
  }

  // ---- Breakdown ----

  function Marked(clean: seq<bool>): (n: nat)
    ensures n <= |clean|
  {
    if clean == [] then 0 else (if clean[0] then 1 else 0) + Marked(clean[1..])
  }

  ghost predicate SlopeWithin(a: Sample, b: Sample, lo: real, hi: real) {
    a.time < b.time && lo <= Slope(a, b) <= hi
  }

  /** Every pair of clean samples has its slope in `[lo, hi]`. */
  ghost predicate CleanPairs(pts: seq<Sample>, clean: seq<bool>, lo: real, hi: real)
    requires |clean| == |pts|
  {
    forall i, j :: 0 <= i < j < |pts| && clean[i] && clean[j] ==> SlopeWithin(pts[i], pts[j], lo, hi)
  }

  lemma {:induction false} RowCount(a: Sample, rest: seq<Sample>, clean: seq<bool>, lo: real, hi: real)
    requires |clean| == |rest|
    requires forall j :: 0 <= j < |rest| ==> a.time < rest[j].time
    requires forall j :: 0 <= j < |rest| && clean[j] ==> SlopeWithin(a, rest[j], lo, hi)
    ensures Count(Row(a, rest), Between(lo, hi)) >= Marked(clean)
  {
    if rest == [] {
    } else {
      RowCount(a, rest[1..], clean[1..], lo, hi);
      assert Row(a, rest)[1..] == Row(a, rest[1..]);
    }
  }

  lemma {:induction false} RowLength(a: Sample, rest: seq<Sample>)
    requires forall j :: 0 <= j < |rest| ==> a.time < rest[j].time
    ensures |Row(a, rest)| == |rest|
  {
    if rest == [] {
    } else {
      RowLength(a, rest[1..]);
    }
  }

  lemma {:induction false} PairsLength(pts: seq<Sample>)
    requires StrictlyIncreasingTimes(pts)
    ensures |PairSlopes(pts)| == Pairs(|pts|)
  {
    if pts == [] {
    } else {
      RowLength(pts[0], pts[1..]);
      PairsLength(pts[1..]);
    }
  }

  lemma {:induction false} PairsCount(pts: seq<Sample>, clean: seq<bool>, lo: real, hi: real)
    requires |clean| == |pts| && StrictlyIncreasingTimes(pts)
    requires CleanPairs(pts, clean, lo, hi)
    ensures Count(PairSlopes(pts), Between(lo, hi)) >= Pairs(Marked(clean))
  {
    if pts == [] {
    } else {
      PairsCount(pts[1..], clean[1..], lo, hi);
      CountAppend(Row(pts[0], pts[1..]), PairSlopes(pts[1..]), Between(lo, hi));
      if clean[0] {
        RowCount(pts[0], pts[1..], clean[1..], lo, hi);
      }
    }
  }

  lemma PairsGrow(k: nat)
    requires k >= 2
    ensures Pairs(k) >= 1
  {
  }

  /**
   When the pairs of clean samples outnumber all others, the estimate stays within the
   bounds on the clean slopes, whatever the remaining samples are.
   */
  lemma {:induction false} Breakdown(samples: seq<Sample>, max: nat, clean: seq<bool>, lo: real, hi: real)
    requires |clean| == |samples| <= max
    requires StrictlyIncreasingTimes(samples)
    requires CleanPairs(samples, clean, lo, hi)
    requires 2 * Pairs(Marked(clean)) > Pairs(|samples|)
    ensures TheilSen(samples, max).Some?
    ensures lo <= TheilSen(samples, max).value <= hi
  {
    PairsLength(samples);
    PairsCount(samples, clean, lo, hi);
    MedianOfMajority(PairSlopes(samples), lo, hi);
  }

  /** `s` lies on the line of slope `b` that has value `v0` at time zero. */
  ghost predicate OnLine(s: Sample, v0: real, b: real) {
    s.value == v0 + b * Seconds(s.time)
  }

  lemma LineSlope(p: Sample, q: Sample, v0: real, b: real)
    requires p.time < q.time
    requires OnLine(p, v0, b) && OnLine(q, v0, b)
    ensures Slope(p, q) == b
  {
    var dt := Seconds(q.time - p.time);
    assert Seconds(q.time) - Seconds(p.time) == dt > 0.0;
    assert q.value - p.value == b * dt;
  }

  /** On a line the bounds close up: the estimate is exactly its slope. */
  lemma {:induction false} BreakdownOnLine(samples: seq<Sample>, max: nat, clean: seq<bool>, v0: real, b: real)
    requires |clean| == |samples| <= max
    requires StrictlyIncreasingTimes(samples)
    requires forall i :: 0 <= i < |samples| && clean[i] ==> OnLine(samples[i], v0, b)
    requires 2 * Pairs(Marked(clean)) > Pairs(|samples|)
    ensures TheilSen(samples, max) == Some(b)
  {
    forall i, j | 0 <= i < j < |samples| && clean[i] && clean[j]
      ensures SlopeWithin(samples[i], samples[j], b, b)
    {
      LineSlope(samples[i], samples[j], v0, b);
    }
    Breakdown(samples, max, clean, b, b);
  }

  lemma {:induction false} PairsMonotone(m: nat, n: nat)
    requires m <= n
    ensures Pairs(m) <= Pairs(n)
  {
    if m < n {
      PairsMonotone(m, n - 1);
    }
  }

  /** At the cap of 100 points, 29 arbitrary outliers change nothing. */
  lemma {:induction false} TwentyNineOutliers(samples: seq<Sample>, clean: seq<bool>, v0: real, b: real)
    requires |samples| == |clean| == 100
    requires StrictlyIncreasingTimes(samples)
    requires Marked(clean) >= 71
    requires forall i :: 0 <= i < 100 && clean[i] ==> OnLine(samples[i], v0, b)
    ensures TheilSen(samples, 100) == Some(b)
  {
    PairsClosedForm(100);
    PairsClosedForm(71);
    PairsMonotone(71, Marked(clean));
    BreakdownOnLine(samples, 100, clean, v0, b);
  }

  // ---- The condition is sharp ----

  /** A value from which the slope back to every point of `pts` exceeds `bound`. */
  function Above(pts: seq<Sample>, t: int, bound: real): real {
    if pts == [] then 0.0 else
    var here, rest := pts[0].value + bound * Seconds(t - pts[0].time) + 1.0, Above(pts[1..], t, bound);
    if here >= rest then here else rest
  }

  lemma {:induction false} AboveIsSteep(pts: seq<Sample>, t: int, bound: real, i: nat)
    requires i < |pts| && pts[i].time < t
    ensures Slope(pts[i], Sample(t, Above(pts, t, bound))) > bound
  {
    var v, dt := Above(pts, t, bound), Seconds(t - pts[i].time);
    AboveBound(pts, t, bound, i);
    SteepQuotient(v - pts[i].value, dt, bound);
  }

  lemma {:induction false} AboveBound(pts: seq<Sample>, t: int, bound: real, i: nat)
    requires i < |pts|
    ensures Above(pts, t, bound) > pts[i].value + bound * Seconds(t - pts[i].time)
  {
    if i > 0 {
      AboveBound(pts[1..], t, bound, i - 1);
    }
  }

  lemma SteepQuotient(dv: real, dt: real, bound: real)
    requires dt > 0.0 && dv > bound * dt
    ensures dv / dt > bound
  {
    assert (dv / dt) * dt == dv;
  }

  /** The first `k` samples on a line of slope `b`, every later one steeply above all before it. */
  function Attack(times: seq<int>, k: nat, b: real, bound: real): (s: seq<Sample>)
    ensures |s| == |times|
  {
    if times == [] then [] else
    var n, t := |times| - 1, times[|times| - 1];
    var before := Attack(times[..n], k, b, bound);
    before + [Sample(t, if n < k then b * Seconds(t) else Above(before, t, bound))]
  }

  lemma AttackLast(times: seq<int>, k: nat, b: real, bound: real)
    requires times != []
    ensures var n, t := |times| - 1, times[|times| - 1];
      var before := Attack(times[..n], k, b, bound);
      && Attack(times, k, b, bound)[..n] == before
      && Attack(times, k, b, bound)[n] == Sample(t, if n < k then b * Seconds(t) else Above(before, t, bound))
  {
  }

  lemma {:induction false} AttackTimes(times: seq<int>, k: nat, b: real, bound: real)
    ensures Times(Attack(times, k, b, bound)) == times
  {
    if times == [] {
    } else {
      var n := |times| - 1;
      AttackTimes(times[..n], k, b, bound);
      AttackLast(times, k, b, bound);
      assert Times(Attack(times, k, b, bound)) == Times(Attack(times[..n], k, b, bound)) + [times[n]];
    }
  }

  lemma {:induction false} AttackPrefix(times: seq<int>, k: nat, b: real, bound: real, m: nat)
    requires m <= |times|
    ensures Attack(times, k, b, bound)[..m] == Attack(times[..m], k, b, bound)
  {
    if m == |times| {
      assert times[..m] == times;
    } else {
      var n := |times| - 1;
      AttackPrefix(times[..n], k, b, bound, m);
      AttackLast(times, k, b, bound);
      assert times[..n][..m] == times[..m];
      var s := Attack(times, k, b, bound);
      assert s[..n][..m] == s[..m];
    }
  }

  lemma AttackOnLine(times: seq<int>, k: nat, b: real, bound: real, i: nat)
    requires i < |times| && i < k
    ensures OnLine(Attack(times, k, b, bound)[i], 0.0, b)
  {
    AttackPrefix(times, k, b, bound, i + 1);
    AttackLast(times[..i + 1], k, b, bound);
  }

  lemma AttackIsSteep(times: seq<int>, k: nat, b: real, bound: real, i: nat, j: nat)
    requires i < j < |times| && k <= j && times[i] < times[j]
    ensures var s := Attack(times, k, b, bound); s[i].time < s[j].time && Slope(s[i], s[j]) > bound
  {
    var s := Attack(times, k, b, bound);
    AttackTimes(times, k, b, bound);
    assert s[i].time == Times(s)[i] && s[j].time == Times(s)[j];
    AttackPrefix(times, k, b, bound, j + 1);
    AttackLast(times[..j + 1], k, b, bound);
    assert times[..j + 1][..j] == times[..j];
    var before := Attack(times[..j], k, b, bound);
    assert before[i] == s[i];
    AboveIsSteep(before, times[j], bound, i);
  }

  lemma AttackShape(times: seq<int>, k: nat, b: real, bound: real)
    requires forall i, j :: 0 <= i < j < |times| ==> times[i] < times[j]
    ensures var s := Attack(times, k, b, bound);
      && Times(s) == times
      && StrictlyIncreasingTimes(s)
      && (forall i :: 0 <= i < |s| && i < k ==> OnLine(s[i], 0.0, b))
      && (forall i, j :: 0 <= i < j < |s| && k <= j ==> Slope(s[i], s[j]) > bound)
  {
    var s := Attack(times, k, b, bound);
    AttackTimes(times, k, b, bound);
    assert forall i :: 0 <= i < |s| ==> s[i].time == Times(s)[i];
    forall i | 0 <= i < |s| && i < k ensures OnLine(s[i], 0.0, b) {
      AttackOnLine(times, k, b, bound, i);
    }
    forall i, j | 0 <= i < j < |s| && k <= j ensures Slope(s[i], s[j]) > bound {
      AttackIsSteep(times, k, b, bound, i, j);
    }
  }

  lemma {:induction false} RowSteep(a: Sample, rest: seq<Sample>, bound: real, k: nat)
    requires forall j :: 0 <= j < |rest| ==> a.time < rest[j].time
    requires forall j :: k <= j < |rest| ==> Slope(a, rest[j]) > bound
    ensures Count(Row(a, rest), AtMost(bound)) <= k
  {
    if rest == [] {
    } else {
      RowSteep(a, rest[1..], bound, if k == 0 then 0 else k - 1);
      assert Row(a, rest)[1..] == Row(a, rest[1..]);
    }
  }

  lemma {:induction false} PairsSteep(pts: seq<Sample>, bound: real, k: nat)
    requires StrictlyIncreasingTimes(pts)
    requires forall i, j :: 0 <= i < j < |pts| && k <= j ==> Slope(pts[i], pts[j]) > bound
    ensures Count(PairSlopes(pts), AtMost(bound)) <= Pairs(k)
  {
    if pts == [] {
    } else {
      var k' := if k == 0 then 0 else k - 1;
      PairsSteep(pts[1..], bound, k');
      RowSteep(pts[0], pts[1..], bound, k');
      CountAppend(Row(pts[0], pts[1..]), PairSlopes(pts[1..]), AtMost(bound));
    }
  }

  /** An element of the row is the slope to some later sample. */
  lemma {:induction false} RowMember(a: Sample, rest: seq<Sample>, x: real) returns (j: nat)
    requires x in Row(a, rest)
    ensures j < |rest| && a.time < rest[j].time && x == Slope(a, rest[j])
  {
    if rest[0].time > a.time && x == Slope(a, rest[0]) {
      j := 0;
    } else {
      j := RowMember(a, rest[1..], x);
      j := j + 1;
    }
  }

  lemma {:induction false} PairMember(pts: seq<Sample>, x: real) returns (i: nat, j: nat)
    requires x in PairSlopes(pts)
    ensures i < j < |pts| && pts[i].time < pts[j].time && x == Slope(pts[i], pts[j])
  {
    if x in Row(pts[0], pts[1..]) {
      i := 0;
      j := RowMember(pts[0], pts[1..], x);
    } else {
      i, j := PairMember(pts[1..], x);
      i := i + 1;
    }
    j := j + 1;
  }

  /**
   Once the clean pairs are no majority, the other samples can be chosen so that the
   estimate exceeds any value: the breakdown condition cannot be weakened.
   */
  lemma {:induction false} BreakdownIsSharp(times: seq<int>, max: nat, k: nat, b: real, target: real)
    returns (samples: seq<Sample>)
    requires forall i, j :: 0 <= i < j < |times| ==> times[i] < times[j]
    requires 2 <= |times| <= max && k <= |times|
    requires 2 * Pairs(k) <= Pairs(|times|)
    ensures Times(samples) == times
    ensures forall i :: 0 <= i < k ==> OnLine(samples[i], 0.0, b)
    ensures TheilSen(samples, max).Some? && TheilSen(samples, max).value > target
  {
    var bound := if 2.0 * target - b >= b then 2.0 * target - b else b;
    samples := Attack(times, k, b, bound);
    AttackShape(times, k, b, bound);
    PairsSteep(samples, bound, k);
    PairsLength(samples);
    PairsGrow(|times|);
    var slopes := PairSlopes(samples);
    forall x | x in slopes ensures b <= x {
      var i, j := PairMember(samples, x);
      if j < k {
        LineSlope(samples[i], samples[j], 0.0, b);
      }
    }
    MedianEscapes(slopes, b, bound);
  }

  // ---- Bounds ----

  /** The estimate lies between any bounds on the slopes it was taken from. */
  lemma {:induction false} TheilSenWithin(samples: seq<Sample>, max: nat, lo: real, hi: real)
    requires max != 1 || |samples| <= 1
    requires forall x :: x in PairSlopes(Decimate(samples, max)) ==> lo <= x <= hi
    ensures TheilSen(samples, max).Some? ==> lo <= TheilSen(samples, max).value <= hi
  {
    var slopes := PairSlopes(Decimate(samples, max));
    if slopes != [] {
      MediansWithin(slopes, lo, hi);
    }
  }

  // ---- Equivariance ----

  /** Every value `v` at time `t` replaced by `k * v + a + c * t`. */
  function Tilted(samples: seq<Sample>, k: real, a: real, c: real): (r: seq<Sample>)
    ensures |r| == |samples|
  {
    seq(|samples|, i requires 0 <= i < |samples| => Tilt(samples[i], k, a, c))
  }

  function Tilt(s: Sample, k: real, a: real, c: real): Sample {
    Sample(s.time, k * s.value + a + c * Seconds(s.time))
  }

  /** Every time moved by `d`. */
  function Shifted(samples: seq<Sample>, d: int): (r: seq<Sample>)
    ensures |r| == |samples|
  {
    seq(|samples|, i requires 0 <= i < |samples| => Sample(samples[i].time + d, samples[i].value))
  }

  lemma TiltedQuotient(k: real, c: real, dv: real, dt: real)
    requires dt > 0.0
    ensures (k * dv + c * dt) / dt == k * (dv / dt) + c
  {
    assert (k * (dv / dt) + c) * dt == k * dv + c * dt;
  }

  lemma TiltedSlope(p: Sample, q: Sample, k: real, a: real, c: real)
    requires p.time < q.time
    ensures Slope(Tilt(p, k, a, c), Tilt(q, k, a, c)) == Affine(k, c)(Slope(p, q))
  {
    var dv, dt := q.value - p.value, Seconds(q.time - p.time);
    assert Seconds(q.time) - Seconds(p.time) == dt;
    assert Tilt(q, k, a, c).value - Tilt(p, k, a, c).value == k * dv + c * dt;
    TiltedQuotient(k, c, dv, dt);
  }

  lemma {:induction false} TiltedRow(p: Sample, rest: seq<Sample>, k: real, a: real, c: real)
    ensures Row(Tilt(p, k, a, c), Tilted(rest, k, a, c)) == Map(Row(p, rest), Affine(k, c))
  {
    if rest == [] {
    } else {
      TiltedRow(p, rest[1..], k, a, c);
      assert Tilted(rest, k, a, c)[1..] == Tilted(rest[1..], k, a, c);
      if rest[0].time > p.time {
        TiltedSlope(p, rest[0], k, a, c);
      }
    }
  }

  lemma {:induction false} TiltedPairs(pts: seq<Sample>, k: real, a: real, c: real)
    ensures PairSlopes(Tilted(pts, k, a, c)) == Map(PairSlopes(pts), Affine(k, c))
  {
    if pts == [] {
    } else {
      TiltedPairs(pts[1..], k, a, c);
      TiltedRow(pts[0], pts[1..], k, a, c);
      assert Tilted(pts, k, a, c)[1..] == Tilted(pts[1..], k, a, c);
      MapAppend(Row(pts[0], pts[1..]), PairSlopes(pts[1..]), Affine(k, c));
    }
  }

  function MapOption(r: Option<real>, f: real -> real): Option<real> {
    match r
    case None => None
    case Some(x) => Some(f(x))
  }

  /** Scaling (by any factor, negative included), lifting and tilting the values does the same to the slope. */
  lemma TheilSenEquivariant(samples: seq<Sample>, max: nat, k: real, a: real, c: real)
    requires max != 1 || |samples| <= 1
    ensures TheilSen(Tilted(samples, k, a, c), max) == MapOption(TheilSen(samples, max), Affine(k, c))
  {
    var pts := Decimate(samples, max);
    assert Decimate(Tilted(samples, k, a, c), max) == Tilted(pts, k, a, c);
    TiltedPairs(pts, k, a, c);
    if PairSlopes(pts) != [] {
      MedianAffine(PairSlopes(pts), k, c);
    }
  }

  lemma {:induction false} ShiftedRow(p: Sample, rest: seq<Sample>, d: int)
    ensures Row(Sample(p.time + d, p.value), Shifted(rest, d)) == Row(p, rest)
  {
    if rest == [] {
    } else {
      ShiftedRow(p, rest[1..], d);
      assert Shifted(rest, d)[1..] == Shifted(rest[1..], d);
    }
  }

  lemma {:induction false} ShiftedPairs(pts: seq<Sample>, d: int)
    ensures PairSlopes(Shifted(pts, d)) == PairSlopes(pts)
  {
    if pts == [] {
    } else {
      ShiftedPairs(pts[1..], d);
      ShiftedRow(pts[0], pts[1..], d);
      assert Shifted(pts, d)[1..] == Shifted(pts[1..], d);
    }
  }

  /** The slope does not depend on where the clock starts. */
  lemma TheilSenShift(samples: seq<Sample>, max: nat, d: int)
    requires max != 1 || |samples| <= 1
    ensures TheilSen(Shifted(samples, d), max) == TheilSen(samples, max)
  {
    assert Decimate(Shifted(samples, d), max) == Shifted(Decimate(samples, max), d);
    ShiftedPairs(Decimate(samples, max), d);
  }
}
