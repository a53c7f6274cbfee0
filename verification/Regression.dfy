/**
 The least-squares slope summarises the same pairwise slopes as Theil–Sen does: it is
 their mean weighted by the squared time distance.
 */
module Regression {
  import opened Wrappers
  import opened Engine
  import opened Robustness
  import opened Decimation

  // ---- Lagrange's identity ----

  /** `sum((xs[j] - x) * (ys[j] - y))`. */
  function CrossRow(x: real, y: real, xs: seq<real>, ys: seq<real>): real
    requires |xs| == |ys|
  {
    if xs == [] then 0.0 else Product(xs[0] - x, ys[0] - y) + CrossRow(x, y, xs[1..], ys[1..])
  }

  /** The same over all pairs of positions. */
  function CrossPairs(xs: seq<real>, ys: seq<real>): real
    requires |xs| == |ys|
  {
    if xs == [] then 0.0 else CrossRow(xs[0], ys[0], xs[1..], ys[1..]) + CrossPairs(xs[1..], ys[1..])
  }

  lemma Distribute(x: real, a: real, b: real)
    ensures Product(x, a + b) == Product(x, a) + Product(x, b)
  {
  }

  lemma RowIdentity(x0: real, y0: real, x: real, y: real, d: real, sx: real, sy: real, n: real)
    ensures Product(x0 - x, y0 - y) + Expansion(x, y, d, sx, sy, n)
         == Expansion(x, y, Product(x0, y0) + d, x0 + sx, y0 + sy, n + 1.0)
  {
  }

  lemma {:induction false} CrossRowExpands(x: real, y: real, xs: seq<real>, ys: seq<real>)
    requires |xs| == |ys|
    ensures CrossRow(x, y, xs, ys) == Expansion(x, y, Dot(xs, ys), Sum(xs), Sum(ys), |xs| as real)
  {
    if xs == [] {
      ZeroExpansion(x, y);
    } else {
      var xs', ys' := xs[1..], ys[1..];
      CrossRowExpands(x, y, xs', ys');
      RowIdentity(xs[0], ys[0], x, y, Dot(xs', ys'), Sum(xs'), Sum(ys'), |xs'| as real);
    }
  }

  function Expansion(x: real, y: real, d: real, sx: real, sy: real, n: real): real {
    d - Product(x, sy) - Product(y, sx) + Product(n, Product(x, y))
  }

  lemma ZeroExpansion(x: real, y: real)
    ensures Expansion(x, y, 0.0, 0.0, 0.0, 0.0) == 0.0
  {
  }

  lemma LagrangeIdentity(x: real, y: real, sx: real, sy: real, d: real, n: real)
    ensures CrossMoment(n + 1.0, Product(x, y) + d, x + sx, y + sy) ==
      Expansion(x, y, d, sx, sy, n) + CrossMoment(n, d, sx, sy)
  {
  }

  /** `n * sum(xy) - sum(x) * sum(y)` is the sum of `(xj - xi) * (yj - yi)` over all pairs. */
  lemma {:induction false} Lagrange(xs: seq<real>, ys: seq<real>)
    requires |xs| == |ys|
    ensures Covariance(xs, ys) == CrossPairs(xs, ys)
  {
    if xs == [] {
    } else {
      var xs', ys' := xs[1..], ys[1..];
      Lagrange(xs', ys');
      CrossRowExpands(xs[0], ys[0], xs', ys');
      LagrangeIdentity(xs[0], ys[0], Sum(xs'), Sum(ys'), Dot(xs', ys'), |xs'| as real);
    }
  }

  // ---- When the estimator fails ----

  lemma PositiveProduct(x: real, y: real)
    requires (x > 0.0 && y > 0.0) || (x < 0.0 && y < 0.0)
    ensures Product(x, y) > 0.0
  {
  }

  lemma Square(x: real)
    ensures if x == 0.0 then Product(x, x) == 0.0 else Product(x, x) > 0.0
  {
    if x != 0.0 {
      PositiveProduct(x, x);
    }
  }

  lemma {:induction false} SquaresRow(x: real, xs: seq<real>)
    ensures CrossRow(x, x, xs, xs) >= 0.0
    ensures CrossRow(x, x, xs, xs) == 0.0 <==> forall i :: 0 <= i < |xs| ==> xs[i] == x
  {
    if xs == [] {
    } else {
      SquaresRow(x, xs[1..]);
      Square(xs[0] - x);
      assert forall i :: 1 <= i < |xs| ==> xs[1..][i - 1] == xs[i];
    }
  }

  lemma {:induction false} SquaresPairs(xs: seq<real>)
    ensures CrossPairs(xs, xs) >= 0.0
    ensures CrossPairs(xs, xs) == 0.0 <==> forall i :: 0 <= i < |xs| ==> xs[i] == xs[0]
  {
    if xs == [] {
    } else {
      SquaresPairs(xs[1..]);
      SquaresRow(xs[0], xs[1..]);
      assert forall i :: 1 <= i < |xs| ==> xs[1..][i - 1] == xs[i];
    }
  }

  /** Least squares fails exactly on fewer than two samples, or when all are taken at one instant. */
  lemma LeastSquaresFailsIff(samples: seq<Sample>)
    ensures LeastSquares(samples).None? <==>
      |samples| < 2 || forall i :: 0 <= i < |samples| ==> samples[i].time == samples[0].time
  {
    if |samples| >= 2 {
      var ts := Elapsed(samples, samples[0].time);
      Lagrange(ts, ts);
      SquaresPairs(ts);
      assert forall i :: 0 <= i < |samples| ==> (ts[i] == ts[0] <==> samples[i].time == samples[0].time);
    }
  }

  // ---- The weighted mean ----

  /** Squared time distances, for the pairs `Row` takes the slopes of. */
  function RowWeights(a: Sample, rest: seq<Sample>): (w: seq<real>)
    ensures |w| == |Row(a, rest)|
  {
    if rest == [] then [] else
    var dt := Seconds(rest[0].time - a.time);
    (if rest[0].time <= a.time then [] else [Product(dt, dt)]) + RowWeights(a, rest[1..])
  }

  function PairWeights(pts: seq<Sample>): (w: seq<real>)
    ensures |w| == |PairSlopes(pts)|
  {
    if pts == [] then [] else RowWeights(pts[0], pts[1..]) + PairWeights(pts[1..])
  }

  lemma {:induction false} SumAppend(a: seq<real>, b: seq<real>)
    ensures Sum(a + b) == Sum(a) + Sum(b)
  {
    if a == [] {
      assert a + b == b;
    } else {
      SumAppend(a[1..], b);
      assert (a + b)[1..] == a[1..] + b;
    }
  }

  lemma {:induction false} DotAppend(a: seq<real>, b: seq<real>, c: seq<real>, d: seq<real>)
    requires |a| == |c| && |b| == |d|
    ensures Dot(a + b, c + d) == Dot(a, c) + Dot(b, d)
  {
    if a == [] {
      assert a + b == b && c + d == d;
    } else {
      DotAppend(a[1..], b, c[1..], d);
      assert (a + b)[1..] == a[1..] + b && (c + d)[1..] == c[1..] + d;
    }
  }

  lemma WeightedQuotient(dt: real, dv: real)
    requires dt > 0.0
    ensures Product(Product(dt, dt), dv / dt) == Product(dt, dv)
  {
    var q := dv / dt;
    assert q * dt == dv;
    assert (dt * dt) * q == dt * (q * dt);
  }

  lemma ElapsedDifference(a: Sample, b: Sample, origin: int)
    ensures Seconds(b.time - origin) - Seconds(a.time - origin) == Seconds(b.time - a.time)
  {
  }

  /** The pairs of `a` and the samples of `rest`: time against time, and time against value. */
  ghost predicate RowWeighted(a: Sample, rest: seq<Sample>, origin: int) {
    var t, ts := Seconds(a.time - origin), Elapsed(rest, origin);
    && CrossRow(t, t, ts, ts) == Sum(RowWeights(a, rest))
    && CrossRow(t, a.value, ts, Values(rest)) == Dot(RowWeights(a, rest), Row(a, rest))
  }

  lemma CrossRowFirst(a: Sample, rest: seq<Sample>, origin: int)
    requires rest != []
    ensures var t, ts, dt := Seconds(a.time - origin), Elapsed(rest, origin), Seconds(rest[0].time - a.time);
      var us := Elapsed(rest[1..], origin);
      && CrossRow(t, t, ts, ts) == Product(dt, dt) + CrossRow(t, t, us, us)
      && CrossRow(t, a.value, ts, Values(rest)) ==
           Product(dt, rest[0].value - a.value) + CrossRow(t, a.value, us, Values(rest[1..]))
  {
    ElapsedDifference(a, rest[0], origin);
    assert Elapsed(rest, origin)[1..] == Elapsed(rest[1..], origin);
    assert Values(rest)[1..] == Values(rest[1..]);
  }

  lemma {:induction false} RowIsWeighted(a: Sample, rest: seq<Sample>, origin: int)
    requires forall j :: 0 <= j < |rest| ==> a.time <= rest[j].time
    ensures RowWeighted(a, rest, origin)
  {
    if rest == [] {
    } else {
      RowIsWeighted(a, rest[1..], origin);
      CrossRowFirst(a, rest, origin);
      FirstWeight(a, rest);
      FirstWeightedSlope(a, rest);
    }
  }

  /** The first pair adds its `dt * dt` to the weights. */
  lemma FirstWeight(a: Sample, rest: seq<Sample>)
    requires rest != [] && a.time <= rest[0].time
    ensures var dt := Seconds(rest[0].time - a.time);
      Sum(RowWeights(a, rest)) == Product(dt, dt) + Sum(RowWeights(a, rest[1..]))
  {
    var dt := Seconds(rest[0].time - a.time);
    NoTimeNoWeight(a, rest[0], dt);
    SumFirst(rest[0].time > a.time, Product(dt, dt), RowWeights(a, rest[1..]));
  }

  /** And its `dt * dv` to the weighted slopes. */
  lemma FirstWeightedSlope(a: Sample, rest: seq<Sample>)
    requires rest != [] && a.time <= rest[0].time
    ensures Dot(RowWeights(a, rest), Row(a, rest)) ==
      Product(Seconds(rest[0].time - a.time), rest[0].value - a.value)
      + Dot(RowWeights(a, rest[1..]), Row(a, rest[1..]))
  {
    var dt, dv := Seconds(rest[0].time - a.time), rest[0].value - a.value;
    NoTimeNoWeight(a, rest[0], dv);
    DotFirst(a, rest, dt, dv, RowWeights(a, rest[1..]), Row(a, rest[1..]));
  }

  lemma NoTimeNoWeight(a: Sample, b: Sample, x: real)
    ensures a.time == b.time ==> Product(Seconds(b.time - a.time), x) == 0.0
  {
  }

  lemma SumFirst(some: bool, x: real, xs: seq<real>)
    requires !some ==> x == 0.0
    ensures Sum((if some then [x] else []) + xs) == x + Sum(xs)
  {
    assert if some then ([x] + xs)[1..] == xs else [] + xs == xs;
  }

  lemma DotFirst(a: Sample, rest: seq<Sample>, dt: real, dv: real, ws: seq<real>, xs: seq<real>)
    requires rest != [] && a.time <= rest[0].time && |ws| == |xs|
    requires dt == Seconds(rest[0].time - a.time) && dv == rest[0].value - a.value
    requires a.time == rest[0].time ==> Product(dt, dv) == 0.0
    ensures rest[0].time > a.time ==>
      Dot([Product(dt, dt)] + ws, [Slope(a, rest[0])] + xs) == Product(dt, dv) + Dot(ws, xs)
    ensures rest[0].time == a.time ==> Dot([] + ws, [] + xs) == Product(dt, dv) + Dot(ws, xs)
  {
    if rest[0].time > a.time {
      WeightedQuotient(dt, dv);
      var w, x := Product(dt, dt), Slope(a, rest[0]);
      assert ([w] + ws)[1..] == ws && ([x] + xs)[1..] == xs;
    } else {
      assert [] + ws == ws && [] + xs == xs;
    }
  }

  lemma PairWeightsStep(pts: seq<Sample>)
    requires pts != []
    ensures Sum(PairWeights(pts)) == Sum(RowWeights(pts[0], pts[1..])) + Sum(PairWeights(pts[1..]))
    ensures Dot(PairWeights(pts), PairSlopes(pts)) ==
      Dot(RowWeights(pts[0], pts[1..]), Row(pts[0], pts[1..])) + Dot(PairWeights(pts[1..]), PairSlopes(pts[1..]))
  {
    SumAppend(RowWeights(pts[0], pts[1..]), PairWeights(pts[1..]));
    DotAppend(RowWeights(pts[0], pts[1..]), PairWeights(pts[1..]), Row(pts[0], pts[1..]), PairSlopes(pts[1..]));
  }

  ghost predicate PairsWeighted(pts: seq<Sample>, origin: int) {
    var ts := Elapsed(pts, origin);
    && CrossPairs(ts, ts) == Sum(PairWeights(pts))
    && CrossPairs(ts, Values(pts)) == Dot(PairWeights(pts), PairSlopes(pts))
  }

  lemma CrossPairsFirst(pts: seq<Sample>, origin: int)
    requires pts != []
    ensures var t, ts, us := Seconds(pts[0].time - origin), Elapsed(pts, origin), Elapsed(pts[1..], origin);
      && CrossPairs(ts, ts) == CrossRow(t, t, us, us) + CrossPairs(us, us)
      && CrossPairs(ts, Values(pts)) ==
           CrossRow(t, pts[0].value, us, Values(pts[1..])) + CrossPairs(us, Values(pts[1..]))
  {
    assert Elapsed(pts, origin)[1..] == Elapsed(pts[1..], origin);
    assert Values(pts)[1..] == Values(pts[1..]);
  }

  lemma {:induction false} PairsAreWeighted(pts: seq<Sample>, origin: int)
    requires NondecreasingTimes(pts)
    ensures PairsWeighted(pts, origin)
  {
    if pts == [] {
    } else {
      PairsAreWeighted(pts[1..], origin);
      AddRow(pts, origin);
    }
  }

  lemma AddRow(pts: seq<Sample>, origin: int)
    requires pts != [] && NondecreasingTimes(pts)
    requires PairsWeighted(pts[1..], origin)
    ensures PairsWeighted(pts, origin)
  {
    RowIsWeighted(pts[0], pts[1..], origin);
    CrossPairsFirst(pts, origin);
    PairWeightsStep(pts);
  }

  lemma QuotientTimes(num: real, den: real)
    requires den != 0.0
    ensures Product(num / den, den) == num
  {
  }

  lemma Moments(samples: seq<Sample>) returns (num: real, den: real)
    requires NondecreasingTimes(samples) && LeastSquares(samples).Some?
    ensures den == Sum(PairWeights(samples)) > 0.0
    ensures num == Dot(PairWeights(samples), PairSlopes(samples))
    ensures LeastSquares(samples).value == num / den
  {
    var o := samples[0].time;
    var ts, vs := Elapsed(samples, o), Values(samples);
    num, den := Covariance(ts, vs), Covariance(ts, ts);
    Lagrange(ts, ts);
    Lagrange(ts, vs);
    SquaresPairs(ts);
    PairsAreWeighted(samples, o);
  }

  /** On time-ordered samples least squares is the mean of the pairwise slopes weighted by `PairWeights`. */
  lemma {:induction false} LeastSquaresIsWeightedMean(samples: seq<Sample>)
    requires NondecreasingTimes(samples) && LeastSquares(samples).Some?
    ensures Sum(PairWeights(samples)) > 0.0
    ensures Product(LeastSquares(samples).value, Sum(PairWeights(samples))) ==
      Dot(PairWeights(samples), PairSlopes(samples))
  {
    var num, den := Moments(samples);
    QuotientTimes(num, den);
  }

  lemma ScaleBounds(w: real, x: real, lo: real, hi: real)
    requires w >= 0.0 && lo <= x <= hi
    ensures Product(lo, w) <= Product(w, x) <= Product(hi, w)
  {
  }

  lemma {:induction false} WeightedBounds(ws: seq<real>, xs: seq<real>, lo: real, hi: real)
    requires |ws| == |xs|
    requires forall i :: 0 <= i < |ws| ==> ws[i] >= 0.0 && lo <= xs[i] <= hi
    ensures Product(lo, Sum(ws)) <= Dot(ws, xs) <= Product(hi, Sum(ws))
  {
    if ws == [] {
    } else {
      WeightedBounds(ws[1..], xs[1..], lo, hi);
      ScaleBounds(ws[0], xs[0], lo, hi);
      Distribute(lo, ws[0], Sum(ws[1..]));
      Distribute(hi, ws[0], Sum(ws[1..]));
    }
  }

  lemma {:induction false} RowWeightsPositive(a: Sample, rest: seq<Sample>)
    ensures forall i :: 0 <= i < |RowWeights(a, rest)| ==> RowWeights(a, rest)[i] >= 0.0
  {
    if rest == [] {
    } else {
      RowWeightsPositive(a, rest[1..]);
      Square(Seconds(rest[0].time - a.time));
    }
  }

  lemma {:induction false} WeightsPositive(pts: seq<Sample>)
    ensures forall i :: 0 <= i < |PairWeights(pts)| ==> PairWeights(pts)[i] >= 0.0
  {
    if pts == [] {
    } else {
      WeightsPositive(pts[1..]);
      RowWeightsPositive(pts[0], pts[1..]);
    }
  }

  lemma CancelWeight(lo: real, x: real, hi: real, w: real)
    requires w > 0.0 && Product(lo, w) <= Product(x, w) <= Product(hi, w)
    ensures lo <= x <= hi
  {
  }

  /** So it lies between any bounds on the pairwise slopes. */
  lemma LeastSquaresWithin(samples: seq<Sample>, lo: real, hi: real)
    requires NondecreasingTimes(samples) && LeastSquares(samples).Some?
    requires forall x :: x in PairSlopes(samples) ==> lo <= x <= hi
    ensures lo <= LeastSquares(samples).value <= hi
  {
    var ws, xs, r := PairWeights(samples), PairSlopes(samples), LeastSquares(samples).value;
    assert Product(lo, Sum(ws)) <= Dot(ws, xs) <= Product(hi, Sum(ws)) by {
      WeightsPositive(samples);
      forall i | 0 <= i < |xs| ensures lo <= xs[i] <= hi { assert xs[i] in xs; }
      WeightedBounds(ws, xs, lo, hi);
    }
    LeastSquaresIsWeightedMean(samples);
    CancelWeight(lo, r, hi, Sum(ws));
  }

  // ---- Agreement ----

  ghost predicate AllOnLine(samples: seq<Sample>, v0: real, b: real) {
    forall i :: 0 <= i < |samples| ==> OnLine(samples[i], v0, b)
  }

  lemma LineSlopes(samples: seq<Sample>, v0: real, b: real)
    requires AllOnLine(samples, v0, b)
    ensures forall x :: x in PairSlopes(samples) ==> x == b
  {
    forall x | x in PairSlopes(samples) ensures x == b {
      var i, j := PairMember(samples, x);
      LineSlope(samples[i], samples[j], v0, b);
    }
  }

  /** On collinear samples, decimated or not, both estimators return the slope of the line. */
  lemma {:induction false} EstimatorsAgreeOnLine(samples: seq<Sample>, max: nat, v0: real, b: real)
    requires StrictlyIncreasingTimes(samples) && |samples| >= 2 && max >= 2
    requires AllOnLine(samples, v0, b)
    ensures TheilSen(samples, max) == Some(b) == LeastSquares(samples)
  {
    var pts := Decimate(samples, max);
    DecimateKeepsOrder(samples, max);
    forall i | 0 <= i < |pts| ensures OnLine(pts[i], v0, b) {
      if |samples| > max {
        assert pts[i] == samples[Index(i, |samples|, max)];
      }
    }
    LineSlopes(pts, v0, b);
    PairsLength(pts);
    PairsGrow(|pts|);
    TheilSenWithin(samples, max, b, b);
    LineSlopes(samples, v0, b);
    LeastSquaresFailsIff(samples);
    LeastSquaresWithin(samples, b, b);
  }
}
