/** Uniform decimation keeps both ends, never repeats a sample and never strays from its stride. */
module Decimation {
  import opened Engine

  lemma RoundNonNegative(x: real)
    requires x >= 0.0
    ensures x - 0.5 < Round(x) as real <= x + 0.5
  {
  }

  lemma RoundExact(n: nat)
    ensures Round(n as real) == n
  {
  }

  lemma RoundSteps(x: real, s: real, whole: int)
    requires x >= 0.0 && s > 1.0
    requires s < (whole + 1) as real
    ensures Round(x) < Round(x + s) <= Round(x) + whole + 1
  {
    RoundNonNegative(x);
    RoundNonNegative(x + s);
    assert Round(x + s) as real > x + 0.5;
    assert (x + s + 0.5).Floor >= (x + 0.5).Floor + 1;
  }

  lemma QuotientBound(a: nat, d: nat)
    requires d > 0
    ensures a < d * (a / d + 1)
  {
  }

  lemma RealProduct(x: int, y: int)
    ensures (x * y) as real == x as real * y as real
  {
  }

  lemma Cancel(d: real, x: real, y: real)
    requires d > 0.0 && d * x < d * y
    ensures x < y
  {
  }

  lemma StrideWhole(n: nat, max: nat)
    requires 2 <= max < n
    ensures Stride(n, max) < ((n - 1) / (max - 1) + 1) as real
  {
    var d, w := max - 1, (n - 1) / (max - 1) + 1;
    RealQuotientBound(n - 1, d);
    StrideFacts(n, max);
    Cancel(d as real, Stride(n, max), w as real);
  }

  lemma RealQuotientBound(a: nat, d: nat)
    requires d > 0
    ensures a as real < d as real * (a / d + 1) as real
  {
    QuotientBound(a, d);
    RealProduct(d, a / d + 1);
  }

  lemma IndexSteps(i: nat, n: nat, max: nat)
    requires 2 <= max < n && i + 1 < max
    ensures Index(i, n, max) < Index(i + 1, n, max) <= Index(i, n, max) + (n - 1) / (max - 1) + 1
  {
    var s, x, y := Stride(n, max), i as real * Stride(n, max), (i + 1) as real * Stride(n, max);
    var w := (n - 1) / (max - 1);
    assert s > 1.0 && x >= 0.0 && y == x + s && s < (w + 1) as real by {
      StrideFacts(n, max);
      ScaleIndex(i, i + 1, s);
      StrideWhole(n, max);
    }
    RoundSteps(x, s, w);
    assert Index(i, n, max) == Round(x) && Index(i + 1, n, max) == Round(y);
  }

  lemma {:induction false} IndexIncreasing(i: nat, j: nat, n: nat, max: nat)
    requires 2 <= max < n && i < j < max
    ensures Index(i, n, max) < Index(j, n, max)
  {
    IndexSteps(j - 1, n, max);
    if i < j - 1 {
      IndexIncreasing(i, j - 1, n, max);
    }
  }

  /**
   The kept positions: in bounds, from the first sample to the last, strictly increasing,
   and never further apart than the stride rounded up to the next integer above it.
   */
  lemma DecimationIndices(n: nat, max: nat)
    requires 2 <= max < n
    ensures Index(0, n, max) == 0
    ensures Index(max - 1, n, max) == n - 1
    ensures forall i :: 0 <= i < max ==> 0 <= Index(i, n, max) < n
    ensures forall i, j :: 0 <= i < j < max ==> Index(i, n, max) < Index(j, n, max)
    ensures forall i {:trigger Index(i, n, max)} :: 0 <= i < max - 1 ==>
      Index(i + 1, n, max) - Index(i, n, max) <= (n - 1) / (max - 1) + 1
  {
    StrideFacts(n, max);
    RoundExact(0);
    RoundExact(n - 1);
    forall i, j | 0 <= i < j < max ensures Index(i, n, max) < Index(j, n, max) {
      IndexIncreasing(i, j, n, max);
    }
    forall i | 0 <= i < max - 1
      ensures Index(i + 1, n, max) - Index(i, n, max) <= (n - 1) / (max - 1) + 1
    {
      IndexSteps(i, n, max);
    }
  }

  lemma Scaled(e: real, d: real)
    requires d > 0.0
    ensures -1.0 < e <==> -d < Product(e, d)
    ensures e <= 1.0 <==> Product(e, d) <= d
  {
  }

  lemma Doubled(k: int, x: real, a: int, m: int) returns (b: int)
    requires x * m as real == a as real
    ensures b == k * m && Product(2.0 * (k as real) - 2.0 * x, m as real) == (2 * b - 2 * a) as real
  {
    b := k * m;
    RealProduct(k, m);
  }

  lemma HalfStepIff(x: real, k: int, a: int, b: int, m: int)
    requires m > 0 && Product(2.0 * (k as real) - 2.0 * x, m as real) == (2 * b - 2 * a) as real
    ensures x - 0.5 < k as real <= x + 0.5 <==> 2 * a - m < 2 * b <= 2 * a + m
  {
    Scaled(2.0 * (k as real) - 2.0 * x, m as real);
    hide Product;
  }

  /** `k` is the integer nearest to `a / m`, rounded up from halfway. */
  lemma NearestIff(x: real, a: int, m: int, k: int)
    requires m > 0 && x * m as real == a as real
    ensures x - 0.5 < k as real <= x + 0.5 <==> 2 * a - m < 2 * (k * m) <= 2 * a + m
  {
    var b := Doubled(k, x, a, m);
    HalfStepIff(x, k, a, b, m);
  }

  lemma ShareOfTheWay(i: nat, n: nat, max: nat)
    requires 2 <= max < n
    ensures (i as real * Stride(n, max)) * (max - 1) as real == (i * (n - 1)) as real
  {
    StrideFacts(n, max);
    RealProduct(i, n - 1);
    assert (i as real * Stride(n, max)) * (max - 1) as real == i as real * ((max - 1) as real * Stride(n, max));
  }

  /** Each kept position is the one nearest to its share of the way, the later one where two are as near. */
  lemma IndexIsNearest(i: nat, n: nat, max: nat)
    requires 2 <= max < n && i < max
    ensures 2 * (i * (n - 1)) - (max - 1) < 2 * (Index(i, n, max) * (max - 1)) <= 2 * (i * (n - 1)) + (max - 1)
  {
    StrideFacts(n, max);
    ScaleIndex(i, i, Stride(n, max));
    RoundNonNegative(i as real * Stride(n, max));
    ShareOfTheWay(i, n, max);
    NearestIff(i as real * Stride(n, max), i * (n - 1), max - 1, Index(i, n, max));
  }

  /** Decimation picks samples in order: every property of ordered pairs of samples survives it. */
  lemma {:induction false} DecimateSelects(samples: seq<Sample>, max: nat, i: nat, j: nat) returns (p: nat, q: nat)
    requires max != 1 || |samples| <= 1
    requires i < j < |Decimate(samples, max)|
    ensures p < q < |samples|
    ensures Decimate(samples, max)[i] == samples[p] && Decimate(samples, max)[j] == samples[q]
  {
    if |samples| <= max {
      p, q := i, j;
    } else {
      p, q := Index(i, |samples|, max), Index(j, |samples|, max);
      IndexIncreasing(i, j, |samples|, max);
    }
  }

  lemma {:induction false} DecimateKeepsOrder(samples: seq<Sample>, max: nat)
    requires max != 1 || |samples| <= 1
    ensures StrictlyIncreasingTimes(samples) ==> StrictlyIncreasingTimes(Decimate(samples, max))
    ensures NondecreasingTimes(samples) ==> NondecreasingTimes(Decimate(samples, max))
  {
    var d := Decimate(samples, max);
    forall i, j | 0 <= i < j < |d|
      ensures StrictlyIncreasingTimes(samples) ==> d[i].time < d[j].time
      ensures NondecreasingTimes(samples) ==> d[i].time <= d[j].time
    {
      var p, q := DecimateSelects(samples, max, i, j);
    }
  }
}
