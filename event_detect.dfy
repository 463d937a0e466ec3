/** Chat-burst event detection over one chat log
 *  (chzzk-chat/src/data/chat/event.rs, `detect_event_intervals` and the
 *  stages it calls).
 *
 *  The pipeline: count the messages of every second since the first message,
 *  lay the counts out densely, smooth them with an EWMA, score every second
 *  against the median and MAD of a trailing ten-minute window, pick one peak
 *  per run of high scores, chain-merge peaks less than 12 s apart, and widen
 *  every merged interval while the score stays above a lower threshold.
 *
 *  The source computes in `f64`; the model computes in `real`, so rounding is
 *  not modelled (the 1e-6 and 1e-10 constants are kept as exact reals). */
module EventDetect {
  import opened Wrappers
  import opened Models
  import Seqs

  const Z_TH: real := 8.0
  const Z_END: real := 2.5
  const GAP_THRESHOLD_SEC: int := 12
  const BASELINE_WINDOW_SEC: int := 600
  const BASELINE_LAG_SEC: int := 60
  const SMOOTH_ALPHA: real := 0.2
  const EPS: real := 0.000001
  const MAD_FLOOR: real := 0.0000000001

  datatype EventInterval = EventInterval(startSec: int, endSec: int, peakSec: int, peakZ: real, peakCount: nat)

  /** What detection returns: the first message time, the events, and the
   *  dense timeline of (second, count, z-score). */
  datatype Detection = Detection(firstTime: int, events: seq<EventInterval>, timeline: seq<(int, nat, real)>)

  // --- 1. one-second resampling ---

  function Elapsed(msgs: seq<ChatMessage>, first: int): (r: seq<int>)
    ensures |r| == |msgs| && forall i :: 0 <= i < |msgs| ==> r[i] == msgs[i].timestamp - first
  {
    seq(|msgs|, i requires 0 <= i < |msgs| => msgs[i].timestamp - first)
  }

  /** `resample_to_seconds`: how many messages fall on each elapsed second. */
  method ResampleToSeconds(msgs: seq<ChatMessage>, first: int) returns (m: map<int, nat>)
    ensures forall t :: t in m <==> t in Elapsed(msgs, first)
    ensures forall t :: t in m ==> m[t] == Seqs.Count(Elapsed(msgs, first), t)
  {
    ghost var es := Elapsed(msgs, first);
    m := map[];
    var i := 0;
    while i < |msgs|
      invariant 0 <= i <= |msgs|
      invariant forall t :: t in m <==> t in es[..i]
      invariant forall t :: t in m ==> m[t] == Seqs.Count(es[..i], t)
    {
      var e := msgs[i].timestamp - first;
      var c := if e in m then m[e] else 0;
      assert es[..i + 1] == es[..i] + [e];
      assert es[..i + 1][..i] == es[..i];
      assert c == Seqs.Count(es[..i], e) by {
        Seqs.CountBounds(es[..i], e);
      }
      ghost var before := m;
      m := m[e := c + 1];
      forall t | t in m
        ensures m[t] == Seqs.Count(es[..i + 1], t)
      {
        if t != e {
          assert t in before && m[t] == before[t];
        }
      }
      i := i + 1;
    }
    assert es[..|msgs|] == es;
  }

  /** The dense series `min_sec..=max_sec`, with 0 for seconds without
   *  messages. */
  method DenseSeries(m: map<int, nat>, lo: int, hi: int) returns (rate: seq<nat>, times: seq<int>)
    ensures |rate| == |times| == if lo <= hi then hi - lo + 1 else 0
    ensures forall k :: 0 <= k < |times| ==> times[k] == lo + k
    ensures forall k :: 0 <= k < |rate| ==> rate[k] == if lo + k in m then m[lo + k] else 0
  {
    rate, times := [], [];
    var sec := lo;
    while sec <= hi
      invariant lo <= sec && (lo <= hi ==> sec <= hi + 1) && (hi < lo ==> sec == lo)
      invariant |rate| == |times| == sec - lo
      invariant forall k :: 0 <= k < |times| ==> times[k] == lo + k
      invariant forall k :: 0 <= k < |rate| ==> rate[k] == if lo + k in m then m[lo + k] else 0
    {
      var c := if sec in m then m[sec] else 0;
      rate := rate + [c];
      times := times + [sec];
      sec := sec + 1;
    }
  }

  /** The dense counts add up to the number of messages: every elapsed
   *  second lies in the range and is counted once. */
  lemma DenseSum(es: seq<int>, lo: int, hi: int, rate: seq<nat>, times: seq<int>)
    requires forall e :: e in es ==> lo <= e <= hi
    requires |rate| == |times| == if lo <= hi then hi - lo + 1 else 0
    requires forall k :: 0 <= k < |times| ==> times[k] == lo + k
    requires forall k :: 0 <= k < |rate| ==> rate[k] == Seqs.Count(es, times[k])
    ensures Seqs.Sum(rate) == |es|
  {
    assert rate == Seqs.CountsOf(times, es);
    forall e | e in es ensures e in times {
      assert times[e - lo] == e;
    }
    Seqs.SumCountsOf(times, es);
  }

  // --- 2. smoothing ---

  /** The EWMA of `values` continued from `prev`. */
  function EwmaFrom(values: seq<real>, alpha: real, prev: real): (r: seq<real>)
    ensures |r| == |values|
  {
    if values == [] then []
    else
      var p := alpha * values[0] + (1.0 - alpha) * prev;
      [p] + EwmaFrom(values[1..], alpha, p)
  }

  /** `ewma`: the running value starts at the first value. */
  function EwmaSpec(values: seq<real>, alpha: real): (r: seq<real>)
    ensures |r| == |values|
  {
    if values == [] then [] else EwmaFrom(values, alpha, values[0])
  }

  method Ewma(values: seq<real>, alpha: real) returns (smoothed: seq<real>)
    ensures smoothed == EwmaSpec(values, alpha)
  {
    if values == [] {
      return [];
    }
    smoothed := [];
    var prev := values[0];
    var i := 0;
    while i < |values|
      invariant 0 <= i <= |values|
      invariant smoothed + EwmaFrom(values[i..], alpha, prev) == EwmaSpec(values, alpha)
    {
      assert values[i..][1..] == values[i + 1..] && values[i..][0] == values[i];
      var next := alpha * values[i] + (1.0 - alpha) * prev;
      assert EwmaFrom(values[i..], alpha, prev) == [next] + EwmaFrom(values[i + 1..], alpha, next);
      assert smoothed + ([next] + EwmaFrom(values[i + 1..], alpha, next)) == (smoothed + [next]) + EwmaFrom(values[i + 1..], alpha, next);
      prev := next;
      smoothed := smoothed + [prev];
      i := i + 1;
    }
  }

  /** With `alpha` in [0, 1] the EWMA is a running convex combination, so it
   *  stays within any bounds the values and the start value keep. */
  lemma {:induction false} EwmaFromBounds(values: seq<real>, alpha: real, prev: real, lo: real, hi: real)
    requires 0.0 <= alpha <= 1.0 && lo <= prev <= hi
    requires forall i :: 0 <= i < |values| ==> lo <= values[i] <= hi
    ensures forall i :: 0 <= i < |values| ==> lo <= EwmaFrom(values, alpha, prev)[i] <= hi
    decreases |values|
  {
    if values != [] {
      var p := alpha * values[0] + (1.0 - alpha) * prev;
      ConvexBetween(alpha, values[0], prev, lo, hi);
      EwmaFromBounds(values[1..], alpha, p, lo, hi);
      var r := EwmaFrom(values, alpha, prev);
      forall i | 0 <= i < |values| ensures lo <= r[i] <= hi {
        if i > 0 {
          assert r[i] == EwmaFrom(values[1..], alpha, p)[i - 1];
        }
      }
    }
  }

  lemma ConvexBetween(a: real, x: real, y: real, lo: real, hi: real)
    requires 0.0 <= a <= 1.0 && lo <= x <= hi && lo <= y <= hi
    ensures lo <= a * x + (1.0 - a) * y <= hi
  {
    var d := x - y;
    var t := a * d;
    assert a * x + (1.0 - a) * y == y + t;
    if d >= 0.0 {
      FractionOf(a, d);
      assert 0.0 <= t <= d;
    } else {
      FractionOf(a, -d);
      assert a * (-d) == -t;
    }
    assert lo <= y + t <= hi;
  }

  /** A fraction `a` of a non-negative `d` lies between 0 and `d`. */
  lemma FractionOf(a: real, d: real)
    requires 0.0 <= a <= 1.0 && 0.0 <= d
    ensures 0.0 <= a * d <= d
  {
    assert (1.0 - a) * d >= 0.0;
    assert d - a * d == (1.0 - a) * d;
  }

  lemma EwmaBounds(values: seq<real>, alpha: real, lo: real, hi: real)
    requires 0.0 <= alpha <= 1.0
    requires forall i :: 0 <= i < |values| ==> lo <= values[i] <= hi
    ensures |EwmaSpec(values, alpha)| == |values|
    ensures forall i :: 0 <= i < |values| ==> lo <= EwmaSpec(values, alpha)[i] <= hi
  {
    if values != [] {
      EwmaFromBounds(values, alpha, values[0], lo, hi);
    }
  }

  /** The first smoothed value is the first value. */
  lemma EwmaFirst(values: seq<real>, alpha: real)
    requires |values| > 0
    ensures EwmaSpec(values, alpha)[0] == values[0]
  {
    assert alpha * values[0] + (1.0 - alpha) * values[0] == values[0];
  }

  // --- 3. median and MAD ---

  function RealKey(x: real): real
  {
    x
  }

  function SortedReals(values: seq<real>): seq<real>
  {
    Seqs.SortBy(values, RealKey)
  }

  /** `median`: 0 for no values, the middle sorted value for an odd count,
   *  the mean of the two middle values for an even count. */
  function Median(values: seq<real>): real
  {
    if values == [] then 0.0
    else
      var sorted := SortedReals(values);
      Seqs.SortByProps(values, RealKey);
      var mid := |sorted| / 2;
      if |sorted| % 2 == 0 then (sorted[mid - 1] + sorted[mid]) / 2.0 else sorted[mid]
  }

  /** The median lies between the least and the greatest value. */
  lemma MedianBounds(values: seq<real>)
    requires |values| > 0
    ensures exists i :: 0 <= i < |values| && values[i] <= Median(values)
    ensures exists j :: 0 <= j < |values| && Median(values) <= values[j]
  {
    var sorted := SortedReals(values);
    Seqs.SortByProps(values, RealKey);
    var n := |sorted|;
    var mid := n / 2;
    var m := Median(values);
    assert sorted[0] <= m <= sorted[n - 1] by {
      assert RealKey(sorted[0]) <= RealKey(sorted[mid]) <= RealKey(sorted[n - 1]);
      if n % 2 == 0 {
        assert RealKey(sorted[0]) <= RealKey(sorted[mid - 1]);
      }
    }
    assert sorted[0] in multiset(values) && sorted[n - 1] in multiset(values);
    var i :| 0 <= i < |values| && values[i] == sorted[0];
    var j :| 0 <= j < |values| && values[j] == sorted[n - 1];
  }

  /** Bounds every value keeps are kept by the median. */
  lemma MedianWithin(values: seq<real>, lo: real, hi: real)
    requires |values| > 0 && forall i :: 0 <= i < |values| ==> lo <= values[i] <= hi
    ensures lo <= Median(values) <= hi
  {
    MedianBounds(values);
  }

  /** `mad`: the median of the absolute deviations from the median, replaced
   *  by 1 for no values or when below 1e-10; so it is never below 1e-10. */
  function Mad(values: seq<real>): (r: real)
    ensures r >= MAD_FLOOR
  {
    if values == [] then 1.0
    else
      var med := Median(values);
      var deviations := seq(|values|, i requires 0 <= i < |values| => Abs(values[i] - med));
      var madValue := Median(deviations);
      if madValue < MAD_FLOOR then 1.0 else madValue
  }

  function Abs(x: real): real
  {
    if x < 0.0 then -x else x
  }

  /** Constant values have no spread, so the MAD takes its fallback 1. */
  lemma MadOfConstant(values: seq<real>, c: real)
    requires |values| > 0 && forall i :: 0 <= i < |values| ==> values[i] == c
    ensures Median(values) == c && Mad(values) == 1.0
  {
    MedianWithin(values, c, c);
    var med := Median(values);
    var deviations := seq(|values|, i requires 0 <= i < |values| => Abs(values[i] - med));
    MedianWithin(deviations, 0.0, 0.0);
    assert Median(deviations) == 0.0;
  }

  // --- 4. trailing-window baseline and z-scores ---

  function Max(a: int, b: int): int
  {
    if a >= b then a else b
  }

  /** The smoothed values among the first `n` points whose time lies in
   *  `[ws, we]`, in order. */
  function WindowUpTo(times: seq<int>, smooth: seq<real>, ws: int, we: int, n: nat): (r: seq<real>)
    requires n <= |times| == |smooth|
  {
    if n == 0 then []
    else WindowUpTo(times, smooth, ws, we, n - 1) + (if ws <= times[n - 1] <= we then [smooth[n - 1]] else [])
  }

  /** The baseline window of point `i`: points `j <= i` whose time lies in
   *  `[max(t - 600, min), max(t - 60, min)]`. */
  function Window(times: seq<int>, smooth: seq<real>, minSec: int, i: nat): seq<real>
    requires i < |times| == |smooth|
  {
    var t := times[i];
    WindowUpTo(times, smooth, Max(t - BASELINE_WINDOW_SEC, minSec), Max(t - BASELINE_LAG_SEC, minSec), i + 1)
  }

  function BaseAt(times: seq<int>, smooth: seq<real>, minSec: int, i: nat): real
    requires i < |times| == |smooth|
  {
    var w := Window(times, smooth, minSec, i);
    if w == [] then smooth[i] else Median(w)
  }

  function MadAt(times: seq<int>, smooth: seq<real>, minSec: int, i: nat): (r: real)
    requires i < |times| == |smooth|
    ensures r >= MAD_FLOOR
  {
    var w := Window(times, smooth, minSec, i);
    if w == [] then 1.0 else Mad(w)
  }

  function ZAt(times: seq<int>, smooth: seq<real>, minSec: int, i: nat): real
    requires i < |times| == |smooth|
  {
    (smooth[i] - BaseAt(times, smooth, minSec, i)) / (MadAt(times, smooth, minSec, i) + EPS)
  }

  /** The body of the baseline loop of `detect_event_intervals` for point
   *  `i`: collect the window, then its median, MAD and the z-score. */
  method PointScore(times: seq<int>, smooth: seq<real>, minSec: int, i: nat) returns (baseValue: real, madValue: real, z: real)
    requires i < |times| == |smooth|
    ensures baseValue == BaseAt(times, smooth, minSec, i) && madValue == MadAt(times, smooth, minSec, i)
    ensures z == ZAt(times, smooth, minSec, i)
  {
    var currentTime := times[i];
    var windowStart := Max(currentTime - BASELINE_WINDOW_SEC, minSec);
    var windowEnd := Max(currentTime - BASELINE_LAG_SEC, minSec);
    var windowValues := [];
    var j := 0;
    while j <= i
      invariant 0 <= j <= i + 1
      invariant windowValues == WindowUpTo(times, smooth, windowStart, windowEnd, j)
    {
      if times[j] >= windowStart && times[j] <= windowEnd {
        windowValues := windowValues + [smooth[j]];
      }
      j := j + 1;
    }
    baseValue := if windowValues == [] then smooth[i] else Median(windowValues);
    madValue := if windowValues == [] then 1.0 else Mad(windowValues);
    z := (smooth[i] - baseValue) / (madValue + EPS);
  }

  /** The baseline, MAD and z-score loop of `detect_event_intervals`. */
  method ZScores(times: seq<int>, smooth: seq<real>, minSec: int) returns (base: seq<real>, mads: seq<real>, z: seq<real>)
    requires |times| == |smooth|
    ensures |base| == |mads| == |z| == |smooth|
    ensures forall i :: 0 <= i < |z| ==> base[i] == BaseAt(times, smooth, minSec, i)
    ensures forall i :: 0 <= i < |z| ==> mads[i] == MadAt(times, smooth, minSec, i)
    ensures forall i :: 0 <= i < |z| ==> z[i] == ZAt(times, smooth, minSec, i)
  {
    base, mads, z := [], [], [];
    var i := 0;
    while i < |smooth|
      invariant 0 <= i <= |smooth|
      invariant |base| == |mads| == |z| == i
      invariant forall k :: 0 <= k < i ==> base[k] == BaseAt(times, smooth, minSec, k)
      invariant forall k :: 0 <= k < i ==> mads[k] == MadAt(times, smooth, minSec, k)
      invariant forall k :: 0 <= k < i ==> z[k] == ZAt(times, smooth, minSec, k)
    {
      var b, m, zi := PointScore(times, smooth, minSec, i);
      base := base + [b];
      mads := mads + [m];
      z := z + [zi];
      i := i + 1;
    }
  }

  /** Only the past is used: the window of point `i` reads no smoothed value
   *  after `i`. */
  lemma {:induction false} WindowUpToPast(times: seq<int>, s1: seq<real>, s2: seq<real>, ws: int, we: int, n: nat)
    requires n <= |times| == |s1| == |s2|
    requires forall j :: 0 <= j < n ==> s1[j] == s2[j]
    ensures WindowUpTo(times, s1, ws, we, n) == WindowUpTo(times, s2, ws, we, n)
  {
    if n > 0 {
      WindowUpToPast(times, s1, s2, ws, we, n - 1);
    }
  }

  lemma ZAtPast(times: seq<int>, s1: seq<real>, s2: seq<real>, minSec: int, i: nat)
    requires i < |times| == |s1| == |s2|
    requires forall j :: 0 <= j <= i ==> s1[j] == s2[j]
    ensures ZAt(times, s1, minSec, i) == ZAt(times, s2, minSec, i)
  {
    var t := times[i];
    WindowUpToPast(times, s1, s2, Max(t - BASELINE_WINDOW_SEC, minSec), Max(t - BASELINE_LAG_SEC, minSec), i + 1);
  }

  /** A value of the `n` first points at a time in the window is in the
   *  window. */
  lemma {:induction false} WindowUpToHas(times: seq<int>, smooth: seq<real>, ws: int, we: int, n: nat, j: nat)
    requires n <= |times| == |smooth| && j < n && ws <= times[j] <= we
    ensures WindowUpTo(times, smooth, ws, we, n) != []
  {
    if j < n - 1 {
      WindowUpToHas(times, smooth, ws, we, n - 1, j);
    }
  }

  /** On the dense time points the window is never empty: the point at the
   *  window's end time is at most `i` and lies in it. */
  lemma WindowNonEmpty(times: seq<int>, smooth: seq<real>, minSec: int, i: nat)
    requires i < |times| == |smooth|
    requires forall k :: 0 <= k < |times| ==> times[k] == minSec + k
    ensures Window(times, smooth, minSec, i) != []
  {
    var t := times[i];
    var we := Max(t - BASELINE_LAG_SEC, minSec);
    var j := we - minSec;
    assert times[j] == we;
    WindowUpToHas(times, smooth, Max(t - BASELINE_WINDOW_SEC, minSec), we, i + 1, j);
  }

  // --- 5. one peak per run of z above the threshold ---

  /** Index `k` beats index `b`: higher z, or equal z and higher rate. */
  predicate Better(z: seq<real>, rate: seq<real>, k: nat, b: nat)
    requires k < |z| == |rate| && b < |z|
  {
    z[k] > z[b] || (z[k] == z[b] && rate[k] > rate[b])
  }

  /** The first index at or after `i` whose z is not above `th`, or `|z|`. */
  function RunEnd(z: seq<real>, th: real, i: nat): (e: nat)
    requires i <= |z|
    ensures i <= e <= |z|
    ensures forall k :: i <= k < e ==> z[k] > th
    ensures e < |z| ==> z[e] <= th
    decreases |z| - i
  {
    if i == |z| || z[i] <= th then i else RunEnd(z, th, i + 1)
  }

  /** The running best of the scan over `[i, e)`, starting from `b`. */
  function BestFrom(z: seq<real>, rate: seq<real>, b: nat, i: nat, e: nat): (r: nat)
    requires b < |z| == |rate| && i <= e <= |z|
    ensures r == b || i <= r < e
    decreases e - i
  {
    if i == e then b else BestFrom(z, rate, if Better(z, rate, i, b) then i else b, i + 1, e)
  }

  /** The peaks of the runs that start at or after `i`. */
  function PeaksFrom(z: seq<real>, rate: seq<real>, th: real, i: nat): (r: seq<nat>)
    requires |z| == |rate| && i <= |z|
    ensures forall k :: 0 <= k < |r| ==> i <= r[k] < |z| && z[r[k]] > th
    ensures forall a, b :: 0 <= a < b < |r| ==> r[a] < r[b]
    decreases |z| - i
  {
    if i == |z| then []
    else if z[i] <= th then PeaksFrom(z, rate, th, i + 1)
    else
      var e := RunEnd(z, th, i);
      [BestFrom(z, rate, i, i, e)] + PeaksFrom(z, rate, th, e)
  }

  function Peaks(z: seq<real>, rate: seq<real>, th: real): seq<nat>
    requires |z| == |rate|
  {
    PeaksFrom(z, rate, th, 0)
  }

  /** `pick_peaks_from_runs`. */
  method PickPeaksFromRuns(z: seq<real>, rate: seq<real>, th: real) returns (peaks: seq<nat>)
    requires |z| == |rate|
    ensures peaks == Peaks(z, rate, th)
  {
    peaks := [];
    var i := 0;
    while i < |z|
      invariant 0 <= i <= |z|
      invariant peaks + PeaksFrom(z, rate, th, i) == Peaks(z, rate, th)
      decreases |z| - i
    {
      if z[i] <= th {
        assert PeaksFrom(z, rate, th, i) == PeaksFrom(z, rate, th, i + 1);
        i := i + 1;
        continue;
      }
      var best := i;
      var start := i;
      ghost var e := RunEnd(z, th, start);
      assert PeaksFrom(z, rate, th, start) == [BestFrom(z, rate, start, start, e)] + PeaksFrom(z, rate, th, e);
      while i < |z| && z[i] > th
        invariant start <= i <= e && best < |z|
        invariant BestFrom(z, rate, best, i, e) == BestFrom(z, rate, start, start, e)
        decreases |z| - i
      {
        if z[i] > z[best] || (z[i] == z[best] && rate[i] > rate[best]) {
          best := i;
        }
        i := i + 1;
      }
      assert i == e && best == BestFrom(z, rate, start, start, e);
      assert (peaks + [best]) + PeaksFrom(z, rate, th, i) == peaks + PeaksFrom(z, rate, th, start);
      peaks := peaks + [best];
    }
  }

  /** The scan's result is `b` or an index of `[i, e)`; nothing in `[i, e)`
   *  nor `b` beats it, and everything before it in `[i, e)` is beaten by it
   *  (so the earliest of equal candidates wins). */
  lemma {:induction false} BestFromProps(z: seq<real>, rate: seq<real>, b: nat, i: nat, e: nat)
    requires b < |z| == |rate| && i <= e <= |z| && b <= i
    ensures var r := BestFrom(z, rate, b, i, e);
      (r == b || i <= r < e) && !Better(z, rate, b, r)
      && (forall k :: i <= k < e ==> !Better(z, rate, k, r))
      && (forall k :: b <= k < r ==> k < i || Better(z, rate, r, k))
      && (r != b ==> Better(z, rate, r, b))
    decreases e - i
  {
    if i < e {
      var b' := if Better(z, rate, i, b) then i else b;
      BestFromProps(z, rate, b', i + 1, e);
    }
  }

  /** Two indices lie in the same run when every index between them has z
   *  above `th`. */
  ghost predicate SameRun(z: seq<real>, th: real, a: nat, b: nat)
    requires a < |z| && b < |z|
  {
    forall m :: (a <= m <= b || b <= m <= a) ==> z[m] > th
  }

  /** Consecutive indices of `ps` are separated by an index whose z is not
   *  above `th`. */
  ghost predicate Separated(z: seq<real>, th: real, ps: seq<nat>)
  {
    forall k :: 0 <= k < |ps| - 1 ==> LowBetween(z, th, ps[k], ps[k + 1])
  }

  /** Some index strictly between `a` and `b` has z not above `th`. */
  ghost predicate LowBetween(z: seq<real>, th: real, a: int, b: int)
  {
    exists m :: a < m < b && 0 <= m < |z| && z[m] <= th
  }

  /** Peaks of different runs are separated by an index not above the
   *  threshold. */
  lemma SeparatedCons(z: seq<real>, th: real, p: nat, e: nat, rest: seq<nat>)
    requires Separated(z, th, rest)
    requires rest != [] ==> p < e < rest[0] && e < |z| && z[e] <= th
    ensures Separated(z, th, [p] + rest)
  {
    var ps := [p] + rest;
    forall k | 0 <= k < |ps| - 1
      ensures LowBetween(z, th, ps[k], ps[k + 1])
    {
      if k == 0 {
        assert rest != [] && ps[1] == rest[0];
        assert ps[0] < e < ps[1] && 0 <= e < |z| && z[e] <= th;
      } else {
        assert ps[k] == rest[k - 1] && ps[k + 1] == rest[k];
      }
    }
  }

  lemma {:induction false} PeaksSeparated(z: seq<real>, rate: seq<real>, th: real, i: nat)
    requires |z| == |rate| && i <= |z|
    ensures Separated(z, th, PeaksFrom(z, rate, th, i))
    decreases |z| - i
  {
    if i < |z| {
      if z[i] <= th {
        PeaksSeparated(z, rate, th, i + 1);
        assert PeaksFrom(z, rate, th, i) == PeaksFrom(z, rate, th, i + 1);
      } else {
        var e := RunEnd(z, th, i);
        PeaksSeparated(z, rate, th, e);
        var rest := PeaksFrom(z, rate, th, e);
        var p := BestFrom(z, rate, i, i, e);
        if rest != [] {
          assert e <= rest[0] && z[rest[0]] > th;
        }
        SeparatedCons(z, th, p, e, rest);
        assert PeaksFrom(z, rate, th, i) == [p] + rest;
      }
    }
  }

  /** Each peak is the best of its run: nothing in the run beats it, and it
   *  beats everything earlier in the run (so the earliest of equal
   *  candidates wins). */
  lemma {:induction false} PeaksBest(z: seq<real>, rate: seq<real>, th: real, i: nat, k: nat, j: nat)
    requires |z| == |rate| && i <= j < |z|
    requires k < |PeaksFrom(z, rate, th, i)| && SameRun(z, th, j, PeaksFrom(z, rate, th, i)[k])
    ensures var p := PeaksFrom(z, rate, th, i)[k];
      !Better(z, rate, j, p) && (j < p ==> Better(z, rate, p, j))
    decreases |z| - i
  {
    var ps := PeaksFrom(z, rate, th, i);
    if z[i] <= th {
      assert ps == PeaksFrom(z, rate, th, i + 1);
      PeaksBest(z, rate, th, i + 1, k, j);
    } else {
      var e := RunEnd(z, th, i);
      var rest := PeaksFrom(z, rate, th, e);
      assert ps == [ps[0]] + rest;
      if k == 0 {
        BestFromProps(z, rate, i, i, e);
      } else {
        assert ps[k] == rest[k - 1];
        PeaksBest(z, rate, th, e, k - 1, j);
      }
    }
  }

  /** Every index above the threshold shares its run with a peak. */
  lemma {:induction false} PeaksCoverRuns(z: seq<real>, rate: seq<real>, th: real, i: nat, j: nat)
    requires |z| == |rate| && i <= j < |z| && z[j] > th
    ensures exists k :: 0 <= k < |PeaksFrom(z, rate, th, i)| && SameRun(z, th, j, PeaksFrom(z, rate, th, i)[k])
    decreases |z| - i
  {
    if z[i] <= th {
      PeaksCoverRuns(z, rate, th, i + 1, j);
      var k :| 0 <= k < |PeaksFrom(z, rate, th, i + 1)| && SameRun(z, th, j, PeaksFrom(z, rate, th, i + 1)[k]);
      assert PeaksFrom(z, rate, th, i) == PeaksFrom(z, rate, th, i + 1);
    } else {
      var e := RunEnd(z, th, i);
      var p := BestFrom(z, rate, i, i, e);
      BestFromProps(z, rate, i, i, e);
      var ps := PeaksFrom(z, rate, th, i);
      assert ps == [p] + PeaksFrom(z, rate, th, e);
      if j < e {
        assert SameRun(z, th, j, ps[0]);
      } else {
        PeaksCoverRuns(z, rate, th, e, j);
        var k :| 0 <= k < |PeaksFrom(z, rate, th, e)| && SameRun(z, th, j, PeaksFrom(z, rate, th, e)[k]);
        assert ps[k + 1] == PeaksFrom(z, rate, th, e)[k];
      }
    }
  }

  // --- 6. merging peaks closer than the gap threshold ---

  /** A picked peak: `(idx, peak_sec, peak_z, peak_count)`. */
  datatype PeakInfo = PeakInfo(idx: nat, sec: int, z: real, count: nat)

  /** Strictly increasing peak times, as the picked peaks of a dense series
   *  have. */
  ghost predicate Increasing(ps: seq<PeakInfo>)
  {
    forall i, j :: 0 <= i < j < |ps| ==> ps[i].sec < ps[j].sec
  }

  /** A new merged tuple `(start, end, peak, z, count)` made of one peak; the
   *  merged tuple has the shape of an `EventInterval`. */
  function Single(p: PeakInfo): EventInterval
  {
    EventInterval(p.sec, p.sec, p.sec, p.z, p.count)
  }

  /** Absorbing `p` into the last tuple: its end moves to `p`, and its peak
   *  moves to `p` only when `p`'s z is strictly greater. */
  function Absorb(last: EventInterval, p: PeakInfo): EventInterval
  {
    if p.z > last.peakZ then last.(endSec := p.sec, peakSec := p.sec, peakZ := p.z, peakCount := p.count)
    else last.(endSec := p.sec)
  }

  function MergeStep(out: seq<EventInterval>, p: PeakInfo, gap: int): seq<EventInterval>
  {
    if out == [] then [Single(p)]
    else
      var last := out[|out| - 1];
      if p.sec - last.endSec <= gap then out[..|out| - 1] + [Absorb(last, p)]
      else out + [Single(p)]
  }

  /** `merge_nearby_peaks` as a fold over the peaks. The gap is measured from
   *  the running end of the last tuple, so the tuples never overlap and lie
   *  more than `gap` apart; their first start and last end are the first
   *  and last peak time. */
  function MergeSpec(ps: seq<PeakInfo>, gap: int): seq<EventInterval>
  {
    if ps == [] then [] else MergeStep(MergeSpec(ps[..|ps| - 1], gap), ps[|ps| - 1], gap)
  }

  /** The merged list, seen from the one before the last peak: either the
   *  last tuple absorbed the peak or the peak opened a new tuple. */
  lemma MergeSnoc(ps: seq<PeakInfo>, gap: int)
    requires ps != []
    ensures var prev := MergeSpec(ps[..|ps| - 1], gap);
      var out := MergeSpec(ps, gap);
      var p := ps[|ps| - 1];
      var m := |prev|;
      if prev != [] && p.sec - prev[m - 1].endSec <= gap then
        |out| == m && (forall k :: 0 <= k < m - 1 ==> out[k] == prev[k]) && out[m - 1] == Absorb(prev[m - 1], p)
      else
        |out| == m + 1 && (forall k :: 0 <= k < m ==> out[k] == prev[k]) && out[m] == Single(p)
  {
  }

  /** The merged list is no longer than the peaks, empty only for no peaks,
   *  starts at the first peak and ends at the last; the gap is measured from
   *  the running end, so consecutive tuples lie more than `gap` apart. */
  lemma {:induction false} MergeShape(ps: seq<PeakInfo>, gap: int)
    ensures var out := MergeSpec(ps, gap);
      |out| <= |ps| && (out == [] <==> ps == [])
      && (out != [] ==> out[0].startSec == ps[0].sec && out[|out| - 1].endSec == ps[|ps| - 1].sec)
      && forall k :: 0 <= k < |out| - 1 ==> out[k + 1].startSec - out[k].endSec > gap
  {
    if ps != [] {
      MergeShape(ps[..|ps| - 1], gap);
      MergeSnoc(ps, gap);
    }
  }

  method MergeNearbyPeaks(peaks: seq<PeakInfo>, gap: int) returns (merged: seq<EventInterval>)
    ensures merged == MergeSpec(peaks, gap)
  {
    merged := [];
    var i := 0;
    while i < |peaks|
      invariant 0 <= i <= |peaks|
      invariant merged == MergeSpec(peaks[..i], gap)
    {
      var peak := peaks[i];
      assert peaks[..i + 1][..i] == peaks[..i];
      if merged == [] {
        merged := [Single(peak)];
      } else {
        var last := merged[|merged| - 1];
        var g := peak.sec - last.endSec;
        if g <= gap {
          last := last.(endSec := peak.sec);
          if peak.z > last.peakZ {
            last := last.(peakSec := peak.sec, peakZ := peak.z, peakCount := peak.count);
          }
          merged := merged[|merged| - 1 := last];
          assert merged == MergeSpec(peaks[..i], gap)[..|merged| - 1] + [last];
        } else {
          merged := merged + [Single(peak)];
        }
      }
      i := i + 1;
    }
    assert peaks[..i] == peaks;
  }

  /** Every tuple's peak is one of the input peaks, with its z and count. */
  lemma {:induction false} MergeWitness(ps: seq<PeakInfo>, gap: int, k: nat)
    requires k < |MergeSpec(ps, gap)|
    ensures var o := MergeSpec(ps, gap)[k];
      exists j :: 0 <= j < |ps| && ps[j].sec == o.peakSec && ps[j].z == o.peakZ && ps[j].count == o.peakCount
  {
    var n := |ps|;
    var init := ps[..n - 1];
    var prev := MergeSpec(init, gap);
    var out := MergeSpec(ps, gap);
    var o := out[k];
    if k < |prev| && o == prev[k] {
      MergeWitness(init, gap, k);
      var j :| 0 <= j < |init| && init[j].sec == o.peakSec && init[j].z == o.peakZ && init[j].count == o.peakCount;
      assert ps[j] == init[j];
    } else if o.peakSec == ps[n - 1].sec && o.peakZ == ps[n - 1].z && o.peakCount == ps[n - 1].count {
    } else {
      // the last tuple absorbed the new peak and kept its old peak
      assert k == |prev| - 1 && o.peakSec == prev[k].peakSec && o.peakZ == prev[k].peakZ && o.peakCount == prev[k].peakCount;
      MergeWitness(init, gap, k);
      var j :| 0 <= j < |init| && init[j].sec == o.peakSec && init[j].z == o.peakZ && init[j].count == o.peakCount;
      assert ps[j] == init[j];
    }
  }

  /** On increasing peak times every tuple has start <= peak <= end, and every
   *  tuple ends before the next one starts. */
  ghost predicate Ordered(out: seq<EventInterval>)
  {
    (forall k :: 0 <= k < |out| ==> out[k].startSec <= out[k].peakSec <= out[k].endSec)
    && (forall k, l :: 0 <= k < l < |out| ==> out[k].endSec < out[l].startSec)
  }

  lemma IncreasingInit(ps: seq<PeakInfo>)
    requires ps != [] && Increasing(ps)
    ensures Increasing(ps[..|ps| - 1])
  {
    var init := ps[..|ps| - 1];
    forall i, j | 0 <= i < j < |init| ensures init[i].sec < init[j].sec {
      assert init[i] == ps[i] && init[j] == ps[j];
    }
  }

  /** One merge step keeps the tuples ordered when the new peak comes after
   *  the last tuple's end. */
  lemma OrderedStep(prev: seq<EventInterval>, p: PeakInfo, gap: int)
    requires Ordered(prev)
    requires prev != [] ==> prev[|prev| - 1].endSec < p.sec
    ensures Ordered(MergeStep(prev, p, gap))
  {
    var out := MergeStep(prev, p, gap);
    var m := |prev|;
    forall k | 0 <= k < |out| ensures out[k].startSec <= out[k].peakSec <= out[k].endSec {
      if k < m {
        assert prev[k].startSec <= prev[k].peakSec <= prev[k].endSec;
      }
    }
    forall k, l | 0 <= k < l < |out| ensures out[k].endSec < out[l].startSec {
      assert out[k] == prev[k];
      if l < m {
        assert prev[k].endSec < prev[l].startSec;
      } else if l == m {
        assert prev[k].endSec <= prev[m - 1].endSec;
      }
    }
  }

  lemma {:induction false} MergeOrdered(ps: seq<PeakInfo>, gap: int)
    requires Increasing(ps)
    ensures Ordered(MergeSpec(ps, gap))
  {
    var n := |ps|;
    if n > 0 {
      var init := ps[..n - 1];
      IncreasingInit(ps);
      MergeOrdered(init, gap);
      MergeShape(init, gap);
      var prev := MergeSpec(init, gap);
      if prev != [] {
        assert prev[|prev| - 1].endSec == init[n - 2].sec == ps[n - 2].sec < ps[n - 1].sec;
      }
      OrderedStep(prev, ps[n - 1], gap);
    }
  }

  /** Time `x` lies in the `k`-th tuple. */
  predicate InTuple(out: seq<EventInterval>, k: int, x: int)
  {
    0 <= k < |out| && out[k].startSec <= x <= out[k].endSec
  }

  /** A merge step keeps a time inside the tuple that held it. */
  lemma CoverStep(prev: seq<EventInterval>, p: PeakInfo, gap: int, k: nat, x: int)
    requires k < |prev| && prev[k].startSec <= x <= prev[k].endSec
    requires prev[|prev| - 1].endSec < p.sec
    ensures var out := MergeStep(prev, p, gap);
      k < |out| && out[k].startSec <= x <= out[k].endSec
  {
  }

  /** The tuples cover their peaks: every input peak lies in some tuple. */
  lemma {:induction false} MergeCovers(ps: seq<PeakInfo>, gap: int, j: nat)
    requires Increasing(ps) && j < |ps|
    ensures exists k :: InTuple(MergeSpec(ps, gap), k, ps[j].sec)
  {
    var n := |ps|;
    var init := ps[..n - 1];
    var prev := MergeSpec(init, gap);
    var out := MergeSpec(ps, gap);
    if j == n - 1 {
      MergeShape(ps, gap);
      MergeOrdered(ps, gap);
      var k := |out| - 1;
      assert InTuple(out, k, ps[j].sec);
    } else {
      IncreasingInit(ps);
      MergeCovers(init, gap, j);
      var k :| InTuple(prev, k, init[j].sec);
      assert init[j] == ps[j];
      MergeShape(init, gap);
      assert prev[|prev| - 1].endSec == init[n - 2].sec == ps[n - 2].sec < ps[n - 1].sec;
      CoverStep(prev, ps[n - 1], gap, k, ps[j].sec);
      assert out == MergeStep(prev, ps[n - 1], gap);
      assert InTuple(out, k, ps[j].sec);
    }
  }

  /** The representative is a maximum: a peak inside a tuple has at most the
   *  tuple's z, and strictly less when it lies before the tuple's peak (ties
   *  keep the earlier peak). */
  ghost predicate Representative(ps: seq<PeakInfo>, out: seq<EventInterval>)
  {
    forall k, j :: 0 <= k < |out| && 0 <= j < |ps| && out[k].startSec <= ps[j].sec <= out[k].endSec ==>
      ps[j].z <= out[k].peakZ && (ps[j].sec < out[k].peakSec ==> ps[j].z < out[k].peakZ)
  }

  lemma {:induction false} MergeRepresentative(ps: seq<PeakInfo>, gap: int)
    requires Increasing(ps)
    ensures Representative(ps, MergeSpec(ps, gap))
  {
    var n := |ps|;
    if n > 0 {
      var init := ps[..n - 1];
      IncreasingInit(ps);
      MergeRepresentative(init, gap);
      MergeOrdered(init, gap);
      var prev := MergeSpec(init, gap);
      var out := MergeSpec(ps, gap);
      var p := ps[n - 1];
      if prev != [] {
        var m := |prev|;
        assert prev[m - 1].endSec == ps[n - 2].sec < p.sec;
        forall k, j | 0 <= k < |out| && 0 <= j < n && out[k].startSec <= ps[j].sec <= out[k].endSec
          ensures ps[j].z <= out[k].peakZ && (ps[j].sec < out[k].peakSec ==> ps[j].z < out[k].peakZ)
        {
          if j < n - 1 {
            assert ps[j] == init[j];
            assert ps[j].sec <= ps[n - 2].sec;
            if k < m - 1 {
              assert out[k] == prev[k];
            } else if k == m - 1 {
              assert ps[j].sec <= prev[k].endSec;
            }
          }
        }
      }
    }
  }

  // --- 7. expanding each merged tuple while z stays above z_end ---

  /** Strictly increasing time points, as the dense series has. */
  ghost predicate TimesIncreasing(zs: seq<(int, real)>)
  {
    forall i, j :: 0 <= i < j < |zs| ==> zs[i].0 < zs[j].0
  }

  /** The backward scan for the expanded start, over `zs[..k]` from the back:
   *  later times are skipped, a time before `s` with z above `ze` becomes
   *  the start, and the first z not above `ze` at or before `s` stops it. */
  function LeftScan(zs: seq<(int, real)>, s: int, ze: real, k: nat, es: int): int
    requires k <= |zs|
  {
    if k == 0 then es
    else
      var (t, z) := zs[k - 1];
      if t > s then LeftScan(zs, s, ze, k - 1, es)
      else if t < s && z > ze then LeftScan(zs, s, ze, k - 1, t)
      else if z <= ze then es
      else LeftScan(zs, s, ze, k - 1, es)
  }

  /** The forward scan for the expanded end, over `zs[k..]`, mirroring
   *  `LeftScan`. */
  function RightScan(zs: seq<(int, real)>, e: int, ze: real, k: nat, ee: int): int
    requires k <= |zs|
    decreases |zs| - k
  {
    if k == |zs| then ee
    else
      var (t, z) := zs[k];
      if t < e then RightScan(zs, e, ze, k + 1, ee)
      else if t > e && z > ze then RightScan(zs, e, ze, k + 1, t)
      else if z <= ze then ee
      else RightScan(zs, e, ze, k + 1, ee)
  }

  function ExpandOne(m: EventInterval, zs: seq<(int, real)>, ze: real): EventInterval
  {
    m.(startSec := LeftScan(zs, m.startSec, ze, |zs|, m.startSec), endSec := RightScan(zs, m.endSec, ze, 0, m.endSec))
  }

  /** `expand_intervals`: one event per merged tuple, in order. */
  method ExpandIntervals(merged: seq<EventInterval>, zs: seq<(int, real)>, ze: real) returns (events: seq<EventInterval>)
    ensures |events| == |merged|
    ensures forall i :: 0 <= i < |merged| ==> events[i] == ExpandOne(merged[i], zs, ze)
  {
    events := [];
    for i := 0 to |merged|
      invariant |events| == i
      invariant forall j :: 0 <= j < i ==> events[j] == ExpandOne(merged[j], zs, ze)
    {
      var startSec, endSec := merged[i].startSec, merged[i].endSec;
      var expandedStart := startSec;
      var k := |zs|;
      while k > 0
        invariant 0 <= k <= |zs|
        invariant LeftScan(zs, startSec, ze, k, expandedStart) == LeftScan(zs, startSec, ze, |zs|, startSec)
      {
        var (t, z) := zs[k - 1];
        if t > startSec {
          k := k - 1;
          continue;
        }
        if t < startSec && z > ze {
          expandedStart := t;
        } else if z <= ze {
          break;
        }
        k := k - 1;
      }
      var expandedEnd := endSec;
      k := 0;
      while k < |zs|
        invariant 0 <= k <= |zs|
        invariant RightScan(zs, endSec, ze, k, expandedEnd) == RightScan(zs, endSec, ze, 0, endSec)
      {
        var (t, z) := zs[k];
        if t < endSec {
          k := k + 1;
          continue;
        }
        if t > endSec && z > ze {
          expandedEnd := t;
        } else if z <= ze {
          break;
        }
        k := k + 1;
      }
      events := events + [merged[i].(startSec := expandedStart, endSec := expandedEnd)];
    }
  }

  /** `t` is one of the time points. */
  ghost predicate IsTime(zs: seq<(int, real)>, t: int)
  {
    exists i :: 0 <= i < |zs| && zs[i].0 == t
  }

  /** A time point from `j` on, at or before `r`, has z not above `ze`. */
  ghost predicate CutBelow(zs: seq<(int, real)>, ze: real, r: int, j: int)
  {
    exists m :: j <= m < |zs| && 0 <= m && zs[m].0 <= r && zs[m].1 <= ze
  }

  /** A time point up to `j`, at or after `r`, has z not above `ze`. */
  ghost predicate CutAbove(zs: seq<(int, real)>, ze: real, r: int, j: int)
  {
    exists m :: 0 <= m <= j && m < |zs| && zs[m].0 >= r && zs[m].1 <= ze
  }

  /** What holds of the backward scan once `zs[k..]` has been passed. */
  ghost predicate LeftScanned(zs: seq<(int, real)>, s: int, ze: real, k: nat, es: int)
    requires k <= |zs|
  {
    es <= s
    && (forall j :: k <= j < |zs| && es <= zs[j].0 < s ==> zs[j].1 > ze)
    && (es < s ==> k < |zs| && zs[k].0 == es)
    && (forall j :: k <= j < |zs| ==> zs[j].0 >= es)
  }

  /** The expanded start is at most `s`; every time from it up to `s`
   *  (excluded) has z above `ze`; and any earlier time is cut off by a time
   *  at or before the expanded start whose z is not above `ze`. */
  lemma LeftScannedStep(zs: seq<(int, real)>, s: int, ze: real, k: nat, es: int)
    requires 0 < k <= |zs| && TimesIncreasing(zs) && LeftScanned(zs, s, ze, k, es)
    requires zs[k - 1].0 > s || zs[k - 1].1 > ze
    ensures LeftScanned(zs, s, ze, k - 1, if zs[k - 1].0 < s && zs[k - 1].1 > ze then zs[k - 1].0 else es)
  {
  }

  lemma {:induction false} LeftScanFrom(zs: seq<(int, real)>, s: int, ze: real, k: nat, es: int)
    requires k <= |zs| && TimesIncreasing(zs) && LeftScanned(zs, s, ze, k, es)
    ensures var r := LeftScan(zs, s, ze, k, es);
      r <= s && (r < s ==> IsTime(zs, r))
      && (forall j :: 0 <= j < |zs| && r <= zs[j].0 < s ==> zs[j].1 > ze)
      && (forall j :: 0 <= j < |zs| && zs[j].0 < r ==> CutBelow(zs, ze, r, j))
  {
    if k > 0 {
      var (t, z) := zs[k - 1];
      if t > s || z > ze {
        LeftScannedStep(zs, s, ze, k, es);
        LeftScanFrom(zs, s, ze, k - 1, if t < s && z > ze then t else es);
      } else {
        forall j | 0 <= j < |zs| && zs[j].0 < es
          ensures CutBelow(zs, ze, es, j)
        {
          assert j <= k - 1 && zs[k - 1].0 <= es;
        }
      }
    }
  }

  lemma LeftScanProps(zs: seq<(int, real)>, s: int, ze: real)
    requires TimesIncreasing(zs)
    ensures var r := LeftScan(zs, s, ze, |zs|, s);
      r <= s && (r < s ==> IsTime(zs, r))
      && (forall j :: 0 <= j < |zs| && r <= zs[j].0 < s ==> zs[j].1 > ze)
      && (forall j :: 0 <= j < |zs| && zs[j].0 < r ==> CutBelow(zs, ze, r, j))
  {
    LeftScanFrom(zs, s, ze, |zs|, s);
  }

  /** What holds of the forward scan once `zs[..k]` has been passed. */
  ghost predicate RightScanned(zs: seq<(int, real)>, e: int, ze: real, k: nat, ee: int)
    requires k <= |zs|
  {
    ee >= e
    && (forall j :: 0 <= j < k && e < zs[j].0 <= ee ==> zs[j].1 > ze)
    && (ee > e ==> k > 0 && zs[k - 1].0 == ee)
    && (forall j :: 0 <= j < k ==> zs[j].0 <= ee)
  }

  /** The mirror of `LeftScanFrom` for the expanded end. */
  lemma RightScannedStep(zs: seq<(int, real)>, e: int, ze: real, k: nat, ee: int)
    requires k < |zs| && TimesIncreasing(zs) && RightScanned(zs, e, ze, k, ee)
    requires zs[k].0 < e || zs[k].1 > ze
    ensures RightScanned(zs, e, ze, k + 1, if zs[k].0 > e && zs[k].1 > ze then zs[k].0 else ee)
  {
  }

  lemma {:induction false} RightScanFrom(zs: seq<(int, real)>, e: int, ze: real, k: nat, ee: int)
    requires k <= |zs| && TimesIncreasing(zs) && RightScanned(zs, e, ze, k, ee)
    ensures var r := RightScan(zs, e, ze, k, ee);
      r >= e && (r > e ==> IsTime(zs, r))
      && (forall j :: 0 <= j < |zs| && e < zs[j].0 <= r ==> zs[j].1 > ze)
      && (forall j :: 0 <= j < |zs| && zs[j].0 > r ==> CutAbove(zs, ze, r, j))
    decreases |zs| - k
  {
    if k < |zs| {
      var (t, z) := zs[k];
      if t < e || z > ze {
        RightScannedStep(zs, e, ze, k, ee);
        RightScanFrom(zs, e, ze, k + 1, if t > e && z > ze then t else ee);
      } else {
        forall j | 0 <= j < |zs| && zs[j].0 > ee
          ensures CutAbove(zs, ze, ee, j)
        {
          assert k <= j && zs[k].0 >= ee;
        }
      }
    }
  }

  lemma RightScanProps(zs: seq<(int, real)>, e: int, ze: real)
    requires TimesIncreasing(zs)
    ensures var r := RightScan(zs, e, ze, 0, e);
      r >= e && (r > e ==> IsTime(zs, r))
      && (forall j :: 0 <= j < |zs| && e < zs[j].0 <= r ==> zs[j].1 > ze)
      && (forall j :: 0 <= j < |zs| && zs[j].0 > r ==> CutAbove(zs, ze, r, j))
  {
    RightScanFrom(zs, e, ze, 0, e);
  }

  // --- 8. the whole detection ---

  function RealRate(rate: seq<nat>): (r: seq<real>)
    ensures |r| == |rate| && forall k :: 0 <= k < |rate| ==> r[k] == rate[k] as real
  {
    seq(|rate|, k requires 0 <= k < |rate| => rate[k] as real)
  }

  function DenseTimes(lo: int, n: nat): (r: seq<int>)
    ensures |r| == n && forall k :: 0 <= k < n ==> r[k] == lo + k
  {
    seq(n, k requires 0 <= k < n => lo + k)
  }

  function ZSeries(times: seq<int>, smooth: seq<real>, minSec: int): (r: seq<real>)
    requires |times| == |smooth|
    ensures |r| == |smooth| && forall i :: 0 <= i < |r| ==> r[i] == ZAt(times, smooth, minSec, i)
  {
    seq(|smooth|, i requires 0 <= i < |smooth| => ZAt(times, smooth, minSec, i))
  }

  /** Step 6: the time, z and count of every picked peak. */
  function PeakInfos(idx: seq<nat>, times: seq<int>, z: seq<real>, rate: seq<nat>): (r: seq<PeakInfo>)
    requires |times| == |z| == |rate| && forall k :: 0 <= k < |idx| ==> idx[k] < |times|
    ensures |r| == |idx| && forall k :: 0 <= k < |idx| ==>
      r[k] == PeakInfo(idx[k], times[idx[k]], z[idx[k]], rate[idx[k]])
  {
    seq(|idx|, k requires 0 <= k < |idx| => PeakInfo(idx[k], times[idx[k]], z[idx[k]], rate[idx[k]]))
  }

  function Zipped(times: seq<int>, z: seq<real>): (r: seq<(int, real)>)
    requires |times| == |z|
    ensures |r| == |z| && forall i :: 0 <= i < |z| ==> r[i] == (times[i], z[i])
  {
    seq(|z|, i requires 0 <= i < |z| => (times[i], z[i]))
  }

  function ExpandSpec(merged: seq<EventInterval>, zs: seq<(int, real)>, ze: real): (r: seq<EventInterval>)
    ensures |r| == |merged| && forall k :: 0 <= k < |merged| ==> r[k] == ExpandOne(merged[k], zs, ze)
  {
    seq(|merged|, k requires 0 <= k < |merged| => ExpandOne(merged[k], zs, ze))
  }

  /** The z-scores of the dense series `rate` starting at second `lo`. */
  function ZOf(rate: seq<nat>, lo: int): (r: seq<real>)
    ensures |r| == |rate|
  {
    ZSeries(DenseTimes(lo, |rate|), EwmaSpec(RealRate(rate), SMOOTH_ALPHA), lo)
  }

  /** The peaks of the dense series `rate` with z-scores `z`, with their
   *  times, z-scores and counts. */
  function PeaksOf(rate: seq<nat>, z: seq<real>, lo: int): seq<PeakInfo>
    requires |z| == |rate|
  {
    PeakInfos(Peaks(z, RealRate(rate), Z_TH), DenseTimes(lo, |rate|), z, rate)
  }

  /** Steps 5 to 8 of `detect_event_intervals`: pick, merge and expand. */
  function EventsFrom(rate: seq<nat>, z: seq<real>, lo: int): seq<EventInterval>
    requires |z| == |rate|
  {
    ExpandSpec(MergeSpec(PeaksOf(rate, z, lo), GAP_THRESHOLD_SEC), Zipped(DenseTimes(lo, |rate|), z), Z_END)
  }

  /** Steps 3 to 8 of `detect_event_intervals` on the dense series. */
  function EventsOf(rate: seq<nat>, lo: int): seq<EventInterval>
  {
    EventsFrom(rate, ZOf(rate, lo), lo)
  }

  function Counts(timeline: seq<(int, nat, real)>): (r: seq<nat>)
    ensures |r| == |timeline| && forall k :: 0 <= k < |timeline| ==> r[k] == timeline[k].1
  {
    seq(|timeline|, k requires 0 <= k < |timeline| => timeline[k].1)
  }

  /** Seconds are counted from the earliest message, so the least elapsed
   *  second is 0. */
  lemma ElapsedFromFirst(msgs: seq<ChatMessage>)
    requires msgs != []
    ensures Seqs.MinOf(Elapsed(msgs, Seqs.MinOf(Timestamps(msgs)))) == 0
  {
    var ts := Timestamps(msgs);
    var first := Seqs.MinOf(ts);
    var es := Elapsed(msgs, first);
    var i :| 0 <= i < |ts| && ts[i] == first;
    assert es[i] == 0 && es[i] in es;
    forall e | e in es ensures 0 <= e {
      var j :| 0 <= j < |es| && es[j] == e;
      assert ts[j] in ts;
    }
    var mn := Seqs.MinOf(es);
    assert mn in es && mn <= 0;
  }

  /** `first` is the earliest timestamp of `msgs`. */
  ghost predicate Earliest(msgs: seq<ChatMessage>, first: int)
  {
    (forall i :: 0 <= i < |msgs| ==> first <= msgs[i].timestamp)
    && exists i :: 0 <= i < |msgs| && msgs[i].timestamp == first
  }

  lemma EarliestOfMin(msgs: seq<ChatMessage>)
    requires msgs != []
    ensures Earliest(msgs, Seqs.MinOf(Timestamps(msgs)))
  {
    var ts := Timestamps(msgs);
    var first := Seqs.MinOf(ts);
    forall i | 0 <= i < |msgs| ensures first <= msgs[i].timestamp {
      assert ts[i] in ts;
    }
    var i :| 0 <= i < |ts| && ts[i] == first;
  }

  /** The timeline holds every second from 0 to the last elapsed second,
   *  with its message count; the counts add up to the number of messages. */
  ghost predicate TimelineOf(msgs: seq<ChatMessage>, first: int, tl: seq<(int, nat, real)>)
    requires msgs != []
  {
    var es := Elapsed(msgs, first);
    |tl| == Seqs.MaxOf(es) + 1
    && (forall k :: 0 <= k < |tl| ==> tl[k].0 == k && tl[k].1 == Seqs.Count(es, k))
    && Seqs.Sum(Counts(tl)) == |msgs|
  }

  /** The dense series read at its own time points. */
  lemma DenseAtTimes(m: map<int, nat>, lo: int, rate: seq<nat>, times: seq<int>)
    requires |rate| == |times|
    requires forall k :: 0 <= k < |times| ==> times[k] == lo + k
    requires forall k :: 0 <= k < |rate| ==> rate[k] == if lo + k in m then m[lo + k] else 0
    ensures forall k :: 0 <= k < |rate| ==> rate[k] == if times[k] in m then m[times[k]] else 0
  {
    forall k | 0 <= k < |rate| ensures rate[k] == if times[k] in m then m[times[k]] else 0 {
      assert times[k] == lo + k;
    }
  }

  /** The dense counts are the counts of the elapsed seconds. */
  lemma DenseCounts(es: seq<int>, m: map<int, nat>, rate: seq<nat>, times: seq<int>)
    requires forall t :: t in m <==> t in es
    requires forall t :: t in m ==> m[t] == Seqs.Count(es, t)
    requires |rate| == |times|
    requires forall k :: 0 <= k < |rate| ==> rate[k] == if times[k] in m then m[times[k]] else 0
    ensures forall k :: 0 <= k < |rate| ==> rate[k] == Seqs.Count(es, times[k])
  {
    forall k | 0 <= k < |rate| ensures rate[k] == Seqs.Count(es, times[k]) {
      var t := times[k];
      if t in m {
        assert m[t] == Seqs.Count(es, t);
      } else {
        assert t !in es;
        Seqs.CountBounds(es, t);
      }
    }
  }

  /** Step 6 of `detect_event_intervals`: the time, z and count of every
   *  picked peak. */
  method CollectPeaks(peakIndices: seq<nat>, timePoints: seq<int>, zScores: seq<real>, rate: seq<nat>) returns (peaks: seq<PeakInfo>)
    requires |timePoints| == |zScores| == |rate| && forall k :: 0 <= k < |peakIndices| ==> peakIndices[k] < |timePoints|
    ensures peaks == PeakInfos(peakIndices, timePoints, zScores, rate)
  {
    peaks := [];
    for k := 0 to |peakIndices|
      invariant |peaks| == k
      invariant forall j :: 0 <= j < k ==> peaks[j] == PeakInfo(peakIndices[j], timePoints[peakIndices[j]], zScores[peakIndices[j]], rate[peakIndices[j]])
    {
      var idx := peakIndices[k];
      peaks := peaks + [PeakInfo(idx, timePoints[idx], zScores[idx], rate[idx])];
    }
  }

  /** Steps 3 to 8 of `detect_event_intervals` on the dense series: smooth,
   *  score, pick, merge and expand. */
  method SeriesEvents(rate: seq<nat>, timePoints: seq<int>, minSec: int) returns (zScores: seq<real>, events: seq<EventInterval>)
    requires |timePoints| == |rate| && forall k :: 0 <= k < |rate| ==> timePoints[k] == minSec + k
    ensures zScores == ZOf(rate, minSec) && events == EventsOf(rate, minSec)
  {
    assert timePoints == DenseTimes(minSec, |rate|);
    var rateReal := RealRate(rate);
    var smooth := Ewma(rateReal, SMOOTH_ALPHA);
    var base, mads, z := ZScores(timePoints, smooth, minSec);
    zScores := z;
    assert zScores == ZOf(rate, minSec);
    var peakIndices := PickPeaksFromRuns(zScores, rateReal, Z_TH);
    var peaks := CollectPeaks(peakIndices, timePoints, zScores, rate);
    var mergedPeaks := MergeNearbyPeaks(peaks, GAP_THRESHOLD_SEC);
    var zsWithTime := Zipped(timePoints, zScores);
    events := ExpandIntervals(mergedPeaks, zsWithTime, Z_END);
  }

  /** Steps 1 and 2 of `detect_event_intervals`: the per-second counts of
   *  the elapsed seconds, resampled densely from the least to the greatest
   *  second. */
  method CountSeries(msgs: seq<ChatMessage>, first: int) returns (rate: seq<nat>, timePoints: seq<int>)
    requires msgs != [] && first == Seqs.MinOf(Timestamps(msgs))
    ensures var es := Elapsed(msgs, first);
      && |rate| == |timePoints| == Seqs.MaxOf(es) + 1
      && (forall k :: 0 <= k < |rate| ==> timePoints[k] == k && rate[k] == Seqs.Count(es, k))
      && Seqs.Sum(rate) == |msgs|
  {
    var countMap := ResampleToSeconds(msgs, first);
    var es := Elapsed(msgs, first);
    // the least and the greatest key of the count map
    var minSec := Seqs.MinOf(es);
    var maxSec := Seqs.MaxOf(es);
    ElapsedFromFirst(msgs);
    rate, timePoints := DenseSeries(countMap, minSec, maxSec);
    DenseAtTimes(countMap, minSec, rate, timePoints);
    DenseCounts(es, countMap, rate, timePoints);
    DenseSum(es, minSec, maxSec, rate, timePoints);
  }

  /** What detection answers for a log with messages: the earliest time,
   *  the dense per-second series with its z-scores, and the events found
   *  in it. */
  ghost predicate Detected(log: ChatLog, d: Detection)
  {
    log.messages != [] && Earliest(log.messages, d.firstTime)
    && TimelineOf(log.messages, d.firstTime, d.timeline)
    && (forall k :: 0 <= k < |d.timeline| ==> d.timeline[k].2 == ZOf(Counts(d.timeline), 0)[k])
    && d.events == EventsOf(Counts(d.timeline), 0)
  }

  /** A log has at most one detection answer. */
  lemma DetectedUnique(log: ChatLog, d: Detection, e: Detection)
    requires Detected(log, d) && Detected(log, e)
    ensures d == e
  {
    EarliestUnique(log.messages, d.firstTime, e.firstTime);
    TimelineUnique(log.messages, d.firstTime, d.timeline, e.timeline);
  }

  lemma EarliestUnique(msgs: seq<ChatMessage>, a: int, b: int)
    requires Earliest(msgs, a) && Earliest(msgs, b)
    ensures a == b
  {
    var i :| 0 <= i < |msgs| && msgs[i].timestamp == a;
    var j :| 0 <= j < |msgs| && msgs[j].timestamp == b;
    assert a <= msgs[j].timestamp && b <= msgs[i].timestamp;
  }

  /** The series is fixed by the log and the first time: its counts by the
   *  elapsed seconds, its z-scores by the counts. */
  lemma TimelineUnique(msgs: seq<ChatMessage>, first: int, t: seq<(int, nat, real)>, u: seq<(int, nat, real)>)
    requires msgs != [] && TimelineOf(msgs, first, t) && TimelineOf(msgs, first, u)
    requires forall k :: 0 <= k < |t| ==> t[k].2 == ZOf(Counts(t), 0)[k]
    requires forall k :: 0 <= k < |u| ==> u[k].2 == ZOf(Counts(u), 0)[k]
    ensures t == u
  {
    assert |t| == |u|;
    assert Counts(t) == Counts(u);
    forall k | 0 <= k < |t| ensures t[k] == u[k] {
      assert t[k].2 == ZOf(Counts(t), 0)[k] && u[k].2 == ZOf(Counts(u), 0)[k];
    }
  }

  /** `detect_event_intervals`. The first message time is the earliest
   *  timestamp (the source sorts the messages and takes the first). */
  method DetectEventIntervals(log: ChatLog) returns (r: Option<Detection>)
    ensures r.None? <==> log.messages == []
    ensures r.Some? ==>
      var tl := r.value.timeline;
      Earliest(log.messages, r.value.firstTime) && TimelineOf(log.messages, r.value.firstTime, tl)
      && (forall k :: 0 <= k < |tl| ==> tl[k].2 == ZOf(Counts(tl), 0)[k])
      && r.value.events == EventsOf(Counts(tl), 0)
    ensures r.Some? ==> Detected(log, r.value)
  {
    var msgs := log.messages;
    if msgs == [] {
      return None;
    }
    var ts := Timestamps(msgs);
    var firstTime := Seqs.MinOf(ts);
    var rate, timePoints := CountSeries(msgs, firstTime);
    if rate == [] {
      return None;
    }
    EarliestOfMin(msgs);
    var zScores, events := SeriesEvents(rate, timePoints, 0);
    var timeline := seq(|timePoints|, i requires 0 <= i < |timePoints| => (timePoints[i], rate[i], zScores[i]));
    assert Counts(timeline) == rate;
    assert TimelineOf(msgs, firstTime, timeline);
    return Some(Detection(firstTime, events, timeline));
  }

  /** Every time of `m` lies in `[lo, hi]`. */
  predicate Within(m: EventInterval, lo: int, hi: int)
  {
    lo <= m.startSec <= hi && lo <= m.endSec <= hi && lo <= m.peakSec <= hi
  }

  /** Merging keeps every time of a tuple within the range of the peak
   *  times. */
  lemma {:induction false} MergeWithin(ps: seq<PeakInfo>, gap: int, lo: int, hi: int)
    requires forall j :: 0 <= j < |ps| ==> lo <= ps[j].sec <= hi
    ensures forall k :: 0 <= k < |MergeSpec(ps, gap)| ==> Within(MergeSpec(ps, gap)[k], lo, hi)
  {
    if ps != [] {
      var init := ps[..|ps| - 1];
      assert forall j :: 0 <= j < |init| ==> init[j] == ps[j];
      MergeWithin(init, gap, lo, hi);
      MergeSnoc(ps, gap);
    }
  }

  /** The picked peaks of a dense series: increasing times, each the second
   *  of its index, with its z-score above `Z_TH` and its count. */
  lemma PeaksOfProps(rate: seq<nat>, z: seq<real>, lo: int)
    requires |z| == |rate|
    ensures var ps := PeaksOf(rate, z, lo);
      Increasing(ps)
      && forall j :: 0 <= j < |ps| ==>
        ps[j].idx < |rate| && ps[j].sec == lo + ps[j].idx && ps[j].z == z[ps[j].idx] > Z_TH && ps[j].count == rate[ps[j].idx]
  {
    var idx := Peaks(z, RealRate(rate), Z_TH);
    var ps := PeaksOf(rate, z, lo);
    assert ps == PeakInfos(idx, DenseTimes(lo, |rate|), z, rate);
  }

  /** The zipped time points of a dense series are strictly increasing. */
  lemma ZippedIncreasing(lo: int, z: seq<real>)
    ensures TimesIncreasing(Zipped(DenseTimes(lo, |z|), z))
  {
  }

  /** Event `ev` peaks at a second of the series whose z-score it reports and
   *  is above `Z_TH`, and whose count it reports. */
  ghost predicate PeakOfSeries(rate: seq<nat>, z: seq<real>, lo: int, ev: EventInterval)
  {
    exists i :: 0 <= i < |rate| && i < |z| && ev.peakSec == lo + i && ev.peakZ == z[i] > Z_TH && ev.peakCount == rate[i]
  }

  /** Every event peaks at a second of the series above `Z_TH`. */
  lemma EventPeak(rate: seq<nat>, z: seq<real>, lo: int, k: nat)
    requires |z| == |rate| && k < |EventsFrom(rate, z, lo)|
    ensures PeakOfSeries(rate, z, lo, EventsFrom(rate, z, lo)[k])
  {
    var ps := PeaksOf(rate, z, lo);
    var merged := MergeSpec(ps, GAP_THRESHOLD_SEC);
    PeaksOfProps(rate, z, lo);
    MergeWitness(ps, GAP_THRESHOLD_SEC, k);
    var m := merged[k];
    var j :| 0 <= j < |ps| && ps[j].sec == m.peakSec && ps[j].z == m.peakZ && ps[j].count == m.peakCount;
    var i := ps[j].idx;
    assert EventsFrom(rate, z, lo)[k].peakSec == m.peakSec == lo + i;
  }

  /** Expansion stays within the span of the time points and keeps
   *  start <= peak <= end. */
  lemma ExpandWithin(m: EventInterval, zs: seq<(int, real)>, ze: real, lo: int, hi: int)
    requires TimesIncreasing(zs) && forall i :: 0 <= i < |zs| ==> lo <= zs[i].0 <= hi
    requires lo <= m.startSec <= m.peakSec <= m.endSec <= hi
    ensures var ev := ExpandOne(m, zs, ze);
      lo <= ev.startSec <= ev.peakSec <= ev.endSec <= hi
  {
    LeftScanProps(zs, m.startSec, ze);
    RightScanProps(zs, m.endSec, ze);
    var ev := ExpandOne(m, zs, ze);
    if ev.startSec < m.startSec {
      var i :| 0 <= i < |zs| && zs[i].0 == ev.startSec;
    }
    if ev.endSec > m.endSec {
      var i :| 0 <= i < |zs| && zs[i].0 == ev.endSec;
    }
  }

  /** Every event lies inside the series, with start <= peak <= end. */
  lemma EventBounds(rate: seq<nat>, z: seq<real>, lo: int, k: nat)
    requires |z| == |rate| && k < |EventsFrom(rate, z, lo)|
    ensures var ev := EventsFrom(rate, z, lo)[k];
      lo <= ev.startSec <= ev.peakSec <= ev.endSec < lo + |rate|
  {
    var ps := PeaksOf(rate, z, lo);
    var merged := MergeSpec(ps, GAP_THRESHOLD_SEC);
    var zs := Zipped(DenseTimes(lo, |rate|), z);
    PeaksOfProps(rate, z, lo);
    MergeOrdered(ps, GAP_THRESHOLD_SEC);
    MergeWithin(ps, GAP_THRESHOLD_SEC, lo, lo + |rate| - 1);
    ZippedIncreasing(lo, z);
    assert EventsFrom(rate, z, lo) == ExpandSpec(merged, zs, Z_END);
    assert Within(merged[k], lo, lo + |rate| - 1);
    ExpandWithin(merged[k], zs, Z_END, lo, lo + |rate| - 1);
  }

  /** The peaks of consecutive events lie more than `GAP_THRESHOLD_SEC`
   *  apart. */
  lemma EventsApart(rate: seq<nat>, z: seq<real>, lo: int, k: nat)
    requires |z| == |rate| && k + 1 < |EventsFrom(rate, z, lo)|
    ensures EventsFrom(rate, z, lo)[k + 1].peakSec - EventsFrom(rate, z, lo)[k].peakSec > GAP_THRESHOLD_SEC
  {
    var ps := PeaksOf(rate, z, lo);
    PeaksOfProps(rate, z, lo);
    MergeOrdered(ps, GAP_THRESHOLD_SEC);
    MergeShape(ps, GAP_THRESHOLD_SEC);
  }
}
