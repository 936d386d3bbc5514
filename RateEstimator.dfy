/** The rate estimator: a bounded history of per-callback stereo-frame counts
    (`_samplesProvidedHistory`), its average, and the blend of that average with
    the nominal rate. The blend is computed in `float` in the source; here it is
    exact real arithmetic. */
module RateEstimator {
  import opened AudioFormat

  /** The emulator's native sample rate, in Hz. */
  const BizhawkSampleRate: real := 44100.0

  /** Sum of the elements, accumulated from the front. */
  function Sum(s: seq<int>): int
  {
    if s == [] then 0 else Sum(s[..|s| - 1]) + s[|s| - 1]
  }

  /** The arithmetic mean of a non-empty sequence. */
  function Mean(s: seq<int>): real
    requires |s| > 0
  {
    Sum(s) as real / |s| as real
  }

  /** `Average`: sums the list in one pass and divides by its length. The source
      divides by zero (yielding NaN) on an empty list; callers only pass a
      non-empty history. */
  method Average(l: seq<int>) returns (avg: real)
    requires |l| > 0
    ensures avg == Mean(l)
  {
    var s := 0;
    for i := 0 to |l|
      invariant s == Sum(l[..i])
    {
      assert l[..i + 1][..i] == l[..i];
      s := s + l[i];
    }
    assert l[..|l|] == l;
    avg := s as real / |l| as real;
  }

  lemma {:induction false} SumBounds(s: seq<int>, lo: int, hi: int)
    requires forall i :: 0 <= i < |s| ==> lo <= s[i] <= hi
    ensures lo * |s| <= Sum(s) <= hi * |s|
  {
    if s != [] {
      var init := s[..|s| - 1];
      SumBounds(init, lo, hi);
      assert lo * |s| == lo * |init| + lo;
      assert hi * |s| == hi * |init| + hi;
    }
  }

  /** The mean lies between the smallest and the largest count. */
  lemma MeanBetween(s: seq<int>, lo: int, hi: int)
    requires |s| > 0
    requires forall i :: 0 <= i < |s| ==> lo <= s[i] <= hi
    ensures lo as real <= Mean(s) <= hi as real
  {
    SumBounds(s, lo, hi);
    var n := |s| as real;
    assert lo as real * n <= Sum(s) as real <= hi as real * n;
    QuotientBetween(lo as real, Sum(s) as real, hi as real, n);
  }

  /** Dividing bounds of the form lo*n <= x <= hi*n by a positive n. */
  lemma QuotientBetween(lo: real, x: real, hi: real, n: real)
    requires n > 0.0 && lo * n <= x <= hi * n
    ensures lo <= x / n <= hi
  {
    var inv := 1.0 / n;
    assert n * inv == 1.0;
    assert x / n == x * inv;
    DivideNonNegative(x - lo * n, n);
    assert (x - lo * n) / n == x * inv - (lo * n) * inv;
    assert (lo * n) * inv == lo * (n * inv);
    DivideNonNegative(hi * n - x, n);
    assert (hi * n - x) / n == (hi * n) * inv - x * inv;
    assert (hi * n) * inv == hi * (n * inv);
  }

  /** A history of identical counts averages to that count. */
  lemma MeanOfConstant(s: seq<int>, k: int)
    requires |s| > 0
    requires forall i :: 0 <= i < |s| ==> s[i] == k
    ensures Mean(s) == k as real
  {
    MeanBetween(s, k, k);
  }

  /** The history window: the last `n` elements of `s`, in order. */
  function Window<T>(s: seq<T>, n: nat): (w: seq<T>)
    ensures |w| == if |s| <= n then |s| else n
  {
    if |s| <= n then s else s[|s| - n..]
  }

  /** Appending to a window and trimming again gives the window of the whole
      sequence: the trim loses nothing that a later window would still hold. */
  lemma WindowStep<T>(s: seq<T>, x: T, n: nat)
    ensures Window(Window(s, n) + [x], n) == Window(s + [x], n)
  {
    var w := Window(s, n);
    var whole := s + [x];
    if n > 0 && |s| > n {
      assert |w + [x]| == n + 1;
      assert (w + [x])[1..] == s[|s| - n + 1..] + [x];
      assert whole[|whole| - n..] == s[|s| - n + 1..] + [x];
    }
  }

  /** The history after one callback per element of `counts`, starting from an
      empty history: each callback appends its count and trims to `n`. */
  function HistoryAfter(counts: seq<int>, n: nat): seq<int>
  {
    if counts == [] then []
    else Window(HistoryAfter(counts[..|counts| - 1], n) + [counts[|counts| - 1]], n)
  }

  /** After k callbacks the history holds the last min(k, n) counts in arrival
      order, newest last. */
  lemma {:induction false} HistoryIsLastCounts(counts: seq<int>, n: nat)
    ensures HistoryAfter(counts, n) == Window(counts, n)
  {
    if counts != [] {
      var init := counts[..|counts| - 1];
      var last := counts[|counts| - 1];
      HistoryIsLastCounts(init, n);
      WindowStep(init, last, n);
      assert init + [last] == counts;
    }
  }

  function Clamp01(t: real): (c: real)
    ensures 0.0 <= c <= 1.0
    ensures t <= 0.0 ==> c == 0.0
    ensures t >= 1.0 ==> c == 1.0
  {
    if t < 0.0 then 0.0 else if t > 1.0 then 1.0 else t
  }

  lemma LerpBetween(a: real, b: real, c: real, r: real)
    requires 0.0 <= c <= 1.0 && r == a + (b - a) * c
    ensures a <= b ==> a <= r <= b
    ensures b <= a ==> b <= r <= a
  {
    var d := b - a;
    var p := d * c;
    ScaledBetween(d, c, p);
    assert r - a == p;
    if a <= b {
      assert 0.0 <= p <= d;
      assert r <= b by { assert r == a + p; assert a + d == b; }
    } else {
      assert d <= p <= 0.0;
      assert b <= r by { assert r == a + p; assert a + d == b; }
    }
  }

  /** `Mathf.Lerp`: the parameter is clamped to [0, 1]. */
  function Lerp(a: real, b: real, t: real): (r: real)
    ensures a <= b ==> a <= r <= b
    ensures b <= a ==> b <= r <= a
    ensures t <= 0.0 ==> r == a
    ensures t >= 1.0 ==> r == b
  {
    LerpBetween(a, b, Clamp01(t), a + (b - a) * Clamp01(t));
    a + (b - a) * Clamp01(t)
  }

  /** `avgSamplesProvided`: the nominal stereo frames per callback, blended toward
      the measured average as the history fills. */
  function RateEstimate(stereoSamplesNeeded: nat, unitySampleRate: real, history: seq<int>, movingAverageN: nat): real
    requires unitySampleRate > 0.0 && movingAverageN > 0 && |history| > 0
  {
    Lerp(stereoSamplesNeeded as real * BizhawkSampleRate / unitySampleRate,
         Mean(history),
         |history| as real / movingAverageN as real)
  }

  lemma FullWindowWeight(count: nat, capacity: nat)
    requires 0 < capacity <= count
    ensures count as real / capacity as real >= 1.0
  {
    assert count as real >= capacity as real;
  }

  /** Once the history is full of one count k, the estimate is k. */
  lemma EstimateConverges(stereoSamplesNeeded: nat, unitySampleRate: real, history: seq<int>,
                          movingAverageN: nat, k: int)
    requires unitySampleRate > 0.0 && movingAverageN > 0 && |history| >= movingAverageN
    requires forall i :: 0 <= i < |history| ==> history[i] == k
    ensures RateEstimate(stereoSamplesNeeded, unitySampleRate, history, movingAverageN) == k as real
  {
    MeanOfConstant(history, k);
    FullWindowWeight(|history|, movingAverageN);
  }

  /** The estimate always lies between the nominal rate and the measured mean. */
  lemma EstimateBetween(stereoSamplesNeeded: nat, unitySampleRate: real, history: seq<int>, movingAverageN: nat)
    requires unitySampleRate > 0.0 && movingAverageN > 0 && |history| > 0
    ensures var nominal := stereoSamplesNeeded as real * BizhawkSampleRate / unitySampleRate;
            var e := RateEstimate(stereoSamplesNeeded, unitySampleRate, history, movingAverageN);
            (nominal <= e <= Mean(history)) || (Mean(history) <= e <= nominal)
  {
  }
}
