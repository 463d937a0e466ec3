/** Matching the events of two recordings of the same broadcast by time
 *  alone (chzzk-chat/src/data/chat/event.rs, `match_events_time_only` and
 *  its helpers `select_top_events` and `estimate_offset`).
 *
 *  The matcher keeps the events of either side with a peak z-score of at
 *  least 3, estimates the clock offset between the two recordings from a
 *  weighted histogram of peak-time differences, looks for candidate pairs
 *  whose peaks lie within 90 s of each other once the offset is applied and
 *  whose intervals overlap enough, and resolves the candidates greedily into
 *  a one-to-one matching, best score first. */
module EventMatch {
  import opened Wrappers
  import opened Seqs
  import EventDetect

  type Event = EventDetect.EventInterval
  type Detection = EventDetect.Detection

  const TOP_K: nat := 40
  const PEAK_WINDOW: int := 90
  const MIN_OVERLAP: int := 15
  const RATIO_TH: real := 0.35
  const Z_MIN: real := 3.0
  const BIN_SIZE: int := 10
  /** The weight of the weaker peak z-score in a candidate's score. */
  const Z_WEIGHT: real := 0.03

  /** An event together with its index in its recording's event list. */
  datatype IndexedEvent = IndexedEvent(idx: nat, ev: Event)

  function Enumerate(events: seq<Event>): seq<IndexedEvent>
  {
    seq(|events|, i requires 0 <= i < |events| => IndexedEvent(i, events[i]))
  }

  function RMin(x: real, y: real): real
  {
    if x <= y then x else y
  }

  function IMin(x: int, y: int): int
  {
    if x <= y then x else y
  }

  function IMax(x: int, y: int): int
  {
    if x >= y then x else y
  }

  function IAbs(x: int): int
  {
    if x < 0 then -x else x
  }

  // ---------------------------------------------------------------------
  // select_top_events (event.rs:457-467)
  // ---------------------------------------------------------------------

  /** The sort key of `select_top_events`: ascending on the negated z-score
   *  is descending on the z-score, and the stable sort keeps ties in index
   *  order just as Rust's stable `sort_by` does. */
  function ZDesc(e: IndexedEvent): real
  {
    -e.ev.peakZ
  }

  function SelectTopEvents(events: seq<Event>, k: nat): seq<IndexedEvent>
  {
    var sorted := SortBy(Enumerate(events), ZDesc);
    sorted[..if k < |sorted| then k else |sorted|]
  }

  /** Event `j` is among the selected ones. */
  predicate Chosen(r: seq<IndexedEvent>, j: nat)
  {
    exists i :: 0 <= i < |r| && r[i].idx == j
  }

  /** Ties in the key keep the smaller index first. */
  ghost predicate TiesByIndex(s: seq<IndexedEvent>)
  {
    forall i, j :: 0 <= i < j < |s| && s[i].ev.peakZ == s[j].ev.peakZ ==> s[i].idx < s[j].idx
  }

  /** `select_top_events` returns min(k, n) distinct events of the input,
   *  each with its own index, in non-increasing z order with ties in index
   *  order, and no event left out has a higher z-score than one chosen. */
  lemma SelectTopProps(events: seq<Event>, k: nat)
    ensures |SelectTopEvents(events, k)| == if k < |events| then k else |events|
    ensures forall i :: 0 <= i < |SelectTopEvents(events, k)| ==>
      SelectTopEvents(events, k)[i].idx < |events|
      && events[SelectTopEvents(events, k)[i].idx] == SelectTopEvents(events, k)[i].ev
    ensures forall i, j :: 0 <= i < j < |SelectTopEvents(events, k)| ==>
      SelectTopEvents(events, k)[i].idx != SelectTopEvents(events, k)[j].idx
    ensures forall i, j :: 0 <= i < j < |SelectTopEvents(events, k)| ==>
      SelectTopEvents(events, k)[i].ev.peakZ >= SelectTopEvents(events, k)[j].ev.peakZ
    ensures TiesByIndex(SelectTopEvents(events, k))
    ensures forall j, i :: 0 <= j < |events| && !Chosen(SelectTopEvents(events, k), j) && 0 <= i < |SelectTopEvents(events, k)| ==>
      events[j].peakZ <= SelectTopEvents(events, k)[i].ev.peakZ
  {
    var en := Enumerate(events);
    SortByProps(en, ZDesc);
    SortByTies(en);
    TopPrefix(events, SortBy(en, ZDesc), |SelectTopEvents(events, k)|);
  }

  /** The facts of `SelectTopProps` for any prefix of a sorted rearrangement
   *  of the enumerated events. */
  lemma TopPrefix(events: seq<Event>, sorted: seq<IndexedEvent>, n: nat)
    requires multiset(sorted) == multiset(Enumerate(events)) && |sorted| == |events|
    requires SortedBy(sorted, ZDesc) && TiesByIndex(sorted)
    requires n <= |sorted|
    ensures forall i :: 0 <= i < n ==> sorted[i].idx < |events| && events[sorted[i].idx] == sorted[i].ev
    ensures forall i, j :: 0 <= i < j < n ==> sorted[i].idx != sorted[j].idx
    ensures forall i, j :: 0 <= i < j < n ==> sorted[i].ev.peakZ >= sorted[j].ev.peakZ
    ensures TiesByIndex(sorted[..n])
    ensures forall j, i :: 0 <= j < |events| && !Chosen(sorted[..n], j) && 0 <= i < n ==> events[j].peakZ <= sorted[i].ev.peakZ
  {
    var en := Enumerate(events);
    forall i | 0 <= i < |sorted| ensures sorted[i].idx < |events| && events[sorted[i].idx] == sorted[i].ev {
      assert sorted[i] in multiset(en);
    }
    assert NoDup(en);
    NoDupOfMultiset(en, sorted);
    forall i, j | 0 <= i < j < n ensures sorted[i].ev.peakZ >= sorted[j].ev.peakZ {
      assert ZDesc(sorted[i]) <= ZDesc(sorted[j]);
    }
    TopBeatsRest(events, sorted, n);
  }

  lemma TopBeatsRest(events: seq<Event>, sorted: seq<IndexedEvent>, n: nat)
    requires multiset(sorted) == multiset(Enumerate(events))
    requires SortedBy(sorted, ZDesc)
    requires n <= |sorted|
    ensures forall j, i :: 0 <= j < |events| && !Chosen(sorted[..n], j) && 0 <= i < n ==> events[j].peakZ <= sorted[i].ev.peakZ
  {
    var en := Enumerate(events);
    var r := sorted[..n];
    forall j, i | 0 <= j < |events| && !Chosen(r, j) && 0 <= i < n
      ensures events[j].peakZ <= sorted[i].ev.peakZ
    {
      assert en[j] in multiset(sorted);
      var p :| 0 <= p < |sorted| && sorted[p] == en[j];
      assert forall q :: 0 <= q < n ==> r[q] == sorted[q];
      assert ZDesc(sorted[i]) <= ZDesc(sorted[p]);
    }
  }

  ghost predicate IndexIncreasing(s: seq<IndexedEvent>)
  {
    forall i, j :: 0 <= i < j < |s| ==> s[i].idx < s[j].idx
  }

  /** Stability of the sort, stated for `select_top_events`: an input whose
   *  indices increase comes out with equal z-scores in index order. */
  lemma {:induction false} SortByTies(s: seq<IndexedEvent>)
    requires IndexIncreasing(s)
    ensures TiesByIndex(SortBy(s, ZDesc))
  {
    if s != [] {
      var init, x := s[..|s| - 1], s[|s| - 1];
      SortByTies(init);
      SortByProps(init, ZDesc);
      forall y | y in SortBy(init, ZDesc) ensures y.idx < x.idx {
        assert y in multiset(init);
      }
      InsertTies(SortBy(init, ZDesc), x);
    }
  }

  lemma {:induction false} InsertTies(t: seq<IndexedEvent>, x: IndexedEvent)
    requires SortedBy(t, ZDesc) && TiesByIndex(t)
    requires forall y :: y in t ==> y.idx < x.idx
    ensures TiesByIndex(InsertBy(t, x, ZDesc))
  {
    if t == [] || ZDesc(t[|t| - 1]) <= ZDesc(x) {
    } else {
      var init, last := t[..|t| - 1], t[|t| - 1];
      assert forall i :: 0 <= i < |init| ==> init[i] == t[i];
      assert SortedBy(init, ZDesc);
      assert forall y :: y in init ==> y in t;
      InsertTies(init, x);
      InsertByProps(init, x, ZDesc);
      var r := InsertBy(init, x, ZDesc);
      LastTies(t, x, r);
      TiesSnoc(r, last);
      assert InsertBy(t, x, ZDesc) == r + [last];
    }
  }

  /** Everything of `init + [x]` that ties with the last element of `t`
   *  has a smaller index. */
  lemma LastTies(t: seq<IndexedEvent>, x: IndexedEvent, r: seq<IndexedEvent>)
    requires |t| > 0 && TiesByIndex(t)
    requires multiset(r) == multiset(t[..|t| - 1]) + multiset{x}
    requires ZDesc(t[|t| - 1]) > ZDesc(x)
    ensures forall i :: 0 <= i < |r| && r[i].ev.peakZ == t[|t| - 1].ev.peakZ ==> r[i].idx < t[|t| - 1].idx
  {
    var init := t[..|t| - 1];
    forall i | 0 <= i < |r| && r[i].ev.peakZ == t[|t| - 1].ev.peakZ ensures r[i].idx < t[|t| - 1].idx {
      assert r[i] in multiset(init) + multiset{x};
      if r[i] != x {
        assert r[i] in multiset(init);
        var p :| 0 <= p < |init| && init[p] == r[i];
        assert t[p] == r[i];
      }
    }
  }

  lemma TiesSnoc(r: seq<IndexedEvent>, last: IndexedEvent)
    requires TiesByIndex(r)
    requires forall i :: 0 <= i < |r| && r[i].ev.peakZ == last.ev.peakZ ==> r[i].idx < last.idx
    ensures TiesByIndex(r + [last])
  {
    var s := r + [last];
    forall i, j | 0 <= i < j < |s| && s[i].ev.peakZ == s[j].ev.peakZ ensures s[i].idx < s[j].idx {
      assert s[i] == r[i];
      if j < |r| {
        assert s[j] == r[j];
      }
    }
  }

  // ---------------------------------------------------------------------
  // estimate_offset (event.rs:469-531)
  // ---------------------------------------------------------------------

  /** Rust's `/` on integers for a positive divisor: the quotient rounded
   *  toward zero, so the remainder takes the sign of the dividend. */
  function TruncDiv(a: int, b: int): (q: int)
    requires b > 0
    ensures a >= 0 ==> q >= 0 && 0 <= a - q * b < b
    ensures a < 0 ==> q <= 0 && -b < a - q * b <= 0
  {
    if a >= 0 then a / b else -((-a) / b)
  }

  /** The histogram bin of a peak-time difference, `(delta / 10) * 10`. */
  function BinOf(delta: int): int
  {
    TruncDiv(delta, BIN_SIZE) * BIN_SIZE
  }

  /** A difference lies less than one bin width from its bin, on the side of
   *  zero, and every difference strictly between -10 and 10 falls in bin 0. */
  lemma BinProps(delta: int)
    ensures delta >= 0 ==> 0 <= delta - BinOf(delta) < BIN_SIZE
    ensures delta < 0 ==> -BIN_SIZE < delta - BinOf(delta) <= 0
    ensures -BIN_SIZE < delta < BIN_SIZE ==> BinOf(delta) == 0
  {
  }

  /** `f64 as i64`: truncation toward zero. */
  function RealTrunc(x: real): (r: int)
    ensures x >= 0.0 ==> r >= 0 && r as real <= x < r as real + 1.0
    ensures x < 0.0 ==> r <= 0 && r as real - 1.0 < x <= r as real
  {
    if x >= 0.0 then x.Floor else -((-x).Floor)
  }

  /** The (difference, weight) entry of one pair of peaks. */
  function PairOf(a: IndexedEvent, b: IndexedEvent, aBase: int, bBase: int): (int, real)
  {
    ((bBase + b.ev.peakSec) - (aBase + a.ev.peakSec), RMin(a.ev.peakZ, b.ev.peakZ))
  }

  function Row(a: IndexedEvent, bs: seq<IndexedEvent>, aBase: int, bBase: int): seq<(int, real)>
  {
    if bs == [] then [] else Row(a, bs[..|bs| - 1], aBase, bBase) + [PairOf(a, bs[|bs| - 1], aBase, bBase)]
  }

  /** The entries of every pair, row by row, as the nested loop pushes them. */
  function AllPairs(aSide: seq<IndexedEvent>, bs: seq<IndexedEvent>, aBase: int, bBase: int): seq<(int, real)>
  {
    if aSide == [] then []
    else AllPairs(aSide[..|aSide| - 1], bs, aBase, bBase) + Row(aSide[|aSide| - 1], bs, aBase, bBase)
  }

  ghost predicate IsPair(aSide: seq<IndexedEvent>, bs: seq<IndexedEvent>, aBase: int, bBase: int, p: (int, real))
  {
    exists i, j :: 0 <= i < |aSide| && 0 <= j < |bs| && p == PairOf(aSide[i], bs[j], aBase, bBase)
  }

  lemma {:induction false} RowMembers(a: IndexedEvent, bs: seq<IndexedEvent>, aBase: int, bBase: int, p: (int, real))
    ensures p in Row(a, bs, aBase, bBase) <==> exists j :: 0 <= j < |bs| && p == PairOf(a, bs[j], aBase, bBase)
  {
    if bs != [] {
      var init := bs[..|bs| - 1];
      RowMembers(a, init, aBase, bBase, p);
      if exists j :: 0 <= j < |init| && p == PairOf(a, init[j], aBase, bBase) {
        var j :| 0 <= j < |init| && p == PairOf(a, init[j], aBase, bBase);
        assert bs[j] == init[j];
      }
      if exists j :: 0 <= j < |bs| && p == PairOf(a, bs[j], aBase, bBase) {
        var j :| 0 <= j < |bs| && p == PairOf(a, bs[j], aBase, bBase);
        if j < |init| {
          assert init[j] == bs[j];
        }
      }
    }
  }

  /** The entries are exactly those of the pairs of one event of each side. */
  lemma {:induction false} AllPairsMembers(aSide: seq<IndexedEvent>, bs: seq<IndexedEvent>, aBase: int, bBase: int, p: (int, real))
    ensures p in AllPairs(aSide, bs, aBase, bBase) <==> IsPair(aSide, bs, aBase, bBase, p)
  {
    if aSide != [] {
      var init, a := aSide[..|aSide| - 1], aSide[|aSide| - 1];
      AllPairsMembers(init, bs, aBase, bBase, p);
      RowMembers(a, bs, aBase, bBase, p);
      if IsPair(init, bs, aBase, bBase, p) {
        var i, j :| 0 <= i < |init| && 0 <= j < |bs| && p == PairOf(init[i], bs[j], aBase, bBase);
        assert aSide[i] == init[i];
      }
      if p in Row(a, bs, aBase, bBase) {
        var j :| 0 <= j < |bs| && p == PairOf(a, bs[j], aBase, bBase);
        assert aSide[|aSide| - 1] == a;
      }
      if IsPair(aSide, bs, aBase, bBase, p) {
        var i, j :| 0 <= i < |aSide| && 0 <= j < |bs| && p == PairOf(aSide[i], bs[j], aBase, bBase);
        if i < |init| {
          assert init[i] == aSide[i];
        }
      }
    }
  }

  /** There are no entries exactly when one side has no events. */
  lemma AllPairsEmpty(aSide: seq<IndexedEvent>, bs: seq<IndexedEvent>, aBase: int, bBase: int)
    ensures AllPairs(aSide, bs, aBase, bBase) == [] <==> aSide == [] || bs == []
  {
    if aSide != [] && bs != [] {
      var p := PairOf(aSide[0], bs[0], aBase, bBase);
      AllPairsMembers(aSide, bs, aBase, bBase, p);
    } else if aSide != [] {
      forall p ensures p !in AllPairs(aSide, bs, aBase, bBase) {
        AllPairsMembers(aSide, bs, aBase, bBase, p);
      }
    }
  }

  /** The histogram: for every bin that occurs, the total weight that falls
   *  in it, accumulated in entry order as the source's `entry().or_insert`
   *  loop does. */
  function BinMap(ds: seq<(int, real)>): map<int, real>
  {
    if ds == [] then map[]
    else
      var m := BinMap(ds[..|ds| - 1]);
      var b := BinOf(ds[|ds| - 1].0);
      m[b := (if b in m then m[b] else 0.0) + ds[|ds| - 1].1]
  }

  /** The total weight of the entries of bin `b`. */
  function BinWeight(ds: seq<(int, real)>, b: int): real
  {
    if ds == [] then 0.0
    else BinWeight(ds[..|ds| - 1], b) + (if BinOf(ds[|ds| - 1].0) == b then ds[|ds| - 1].1 else 0.0)
  }

  predicate HasBin(ds: seq<(int, real)>, b: int)
  {
    exists i :: 0 <= i < |ds| && BinOf(ds[i].0) == b
  }

  /** The histogram has a key for exactly the bins that occur, and holds the
   *  total weight of each. */
  lemma {:induction false} BinMapProps(ds: seq<(int, real)>, b: int)
    ensures b in BinMap(ds) <==> HasBin(ds, b)
    ensures b in BinMap(ds) ==> BinMap(ds)[b] == BinWeight(ds, b)
  {
    if ds != [] {
      var init := ds[..|ds| - 1];
      BinMapProps(init, b);
      if HasBin(init, b) {
        var i :| 0 <= i < |init| && BinOf(init[i].0) == b;
        assert ds[i] == init[i];
      }
      if HasBin(ds, b) && BinOf(ds[|ds| - 1].0) != b {
        var i :| 0 <= i < |ds| && BinOf(ds[i].0) == b;
        assert init[i] == ds[i];
      }
      if b !in BinMap(init) {
        BinWeightAbsent(init, b);
      }
    }
  }

  lemma {:induction false} BinWeightAbsent(ds: seq<(int, real)>, b: int)
    requires !HasBin(ds, b)
    ensures BinWeight(ds, b) == 0.0
  {
    if ds != [] {
      var init := ds[..|ds| - 1];
      assert forall i :: 0 <= i < |init| ==> init[i] == ds[i];
      BinWeightAbsent(init, b);
    }
  }

  /** A bin of greatest total weight; `max_by` over the map's iteration
   *  order picks one of them, which one depending on that order. */
  predicate IsBestBin(m: map<int, real>, best: int)
  {
    best in m && forall b :: b in m ==> m[b] <= m[best]
  }

  /** Among keys `ks` of `m` one carries the greatest value. */
  lemma {:induction false} MaxAmong(m: map<int, real>, ks: seq<int>)
    requires |ks| > 0 && forall i :: 0 <= i < |ks| ==> ks[i] in m
    ensures exists i :: 0 <= i < |ks| && forall j :: 0 <= j < |ks| ==> m[ks[j]] <= m[ks[i]]
  {
    if |ks| > 1 {
      var init := ks[..|ks| - 1];
      MaxAmong(m, init);
      var i :| 0 <= i < |init| && forall j :: 0 <= j < |init| ==> m[init[j]] <= m[init[i]];
      assert forall j :: 0 <= j < |init| ==> init[j] == ks[j];
      var w := if m[init[i]] < m[ks[|ks| - 1]] then |ks| - 1 else i;
      assert 0 <= w < |ks| && forall j :: 0 <= j < |ks| ==> m[ks[j]] <= m[ks[w]];
    } else {
      assert 0 <= 0 < |ks| && forall j :: 0 <= j < |ks| ==> m[ks[j]] <= m[ks[0]];
    }
  }

  /** The histogram of a non-empty list has a bin of greatest weight. */
  lemma BestBinExists(ds: seq<(int, real)>)
    requires ds != []
    ensures exists best :: IsBestBin(BinMap(ds), best)
  {
    var m := BinMap(ds);
    var ks := seq(|ds|, i requires 0 <= i < |ds| => BinOf(ds[i].0));
    forall i | 0 <= i < |ks| ensures ks[i] in m {
      BinMapProps(ds, ks[i]);
    }
    MaxAmong(m, ks);
    var i :| 0 <= i < |ks| && forall j :: 0 <= j < |ks| ==> m[ks[j]] <= m[ks[i]];
    forall b | b in m ensures m[b] <= m[ks[i]] {
      BinMapProps(ds, b);
      var j :| 0 <= j < |ds| && BinOf(ds[j].0) == b;
      assert ks[j] == b;
    }
    assert IsBestBin(m, ks[i]);
  }

  /** Running sums of the refinement: the weighted sum of differences and
   *  the total weight. */
  datatype Near = Near(weighted: real, weight: real)

  /** The entries within one bin width of `best`: their weighted sum of
   *  differences and their total weight. */
  function NearSums(ds: seq<(int, real)>, best: int): Near
  {
    if ds == [] then Near(0.0, 0.0) else AddNear(NearSums(ds[..|ds| - 1], best), ds[|ds| - 1], best)
  }

  /** One entry of the refinement, counted when within a bin width of `best`. */
  function AddNear(acc: Near, d: (int, real), best: int): Near
  {
    if IAbs(d.0 - best) <= BIN_SIZE then Near(acc.weighted + d.0 as real * d.1, acc.weight + d.1) else acc
  }

  /** The refinement: the weighted mean of the differences near `best`, or
   *  `best` itself when they carry no weight. */
  function Refine(ds: seq<(int, real)>, best: int): real
  {
    var acc := NearSums(ds, best);
    if acc.weight > 0.0 then acc.weighted / acc.weight else best as real
  }

  /** What `estimate_offset` returns: 0 without pairs, otherwise the
   *  refinement around some bin of greatest weight. */
  ghost predicate OffsetEstimate(aSide: seq<IndexedEvent>, bs: seq<IndexedEvent>, aBase: int, bBase: int, offset: real)
  {
    var ds := AllPairs(aSide, bs, aBase, bBase);
    if ds == [] then offset == 0.0
    else exists best :: IsBestBin(BinMap(ds), best) && offset == Refine(ds, best)
  }

  /** `estimate_offset`. The bin-size argument is ignored, as in the source,
   *  which always uses bins of 10 s. */
  method EstimateOffset(aEvents: seq<IndexedEvent>, bEvents: seq<IndexedEvent>, aBase: int, bBase: int, binSizeSec: int)
    returns (offset: real)
    ensures OffsetEstimate(aEvents, bEvents, aBase, bBase, offset)
    ensures aEvents == [] || bEvents == [] ==> offset == 0.0
  {
    var ds := DeltasWithWeights(aEvents, bEvents, aBase, bBase);
    AllPairsEmpty(aEvents, bEvents, aBase, bBase);
    if ds == [] {
      return 0.0;
    }
    var bins := Histogram(ds);
    BestBinExists(ds);
    var best :| IsBestBin(bins, best);
    offset := RefineAround(ds, best);
  }

  /** The refinement loop of `estimate_offset`. */
  method RefineAround(ds: seq<(int, real)>, best: int) returns (offset: real)
    ensures offset == Refine(ds, best)
  {
    var weightedSum, weightSum := 0.0, 0.0;
    var i := 0;
    while i < |ds|
      invariant 0 <= i <= |ds|
      invariant Near(weightedSum, weightSum) == NearSums(ds[..i], best)
    {
      var delta, weight := ds[i].0, ds[i].1;
      assert ds[..i + 1][..i] == ds[..i];
      assert NearSums(ds[..i + 1], best) == AddNear(NearSums(ds[..i], best), ds[i], best);
      if IAbs(delta - best) <= BIN_SIZE {
        weightedSum := weightedSum + delta as real * weight;
        weightSum := weightSum + weight;
      }
      i := i + 1;
    }
    assert ds[..|ds|] == ds;
    if weightSum > 0.0 {
      offset := weightedSum / weightSum;
    } else {
      offset := best as real;
    }
  }

  /** The nested loop of `estimate_offset` that pushes one entry per pair. */
  method DeltasWithWeights(aEvents: seq<IndexedEvent>, bEvents: seq<IndexedEvent>, aBase: int, bBase: int)
    returns (ds: seq<(int, real)>)
    ensures ds == AllPairs(aEvents, bEvents, aBase, bBase)
  {
    ds := [];
    var i := 0;
    while i < |aEvents|
      invariant 0 <= i <= |aEvents|
      invariant ds == AllPairs(aEvents[..i], bEvents, aBase, bBase)
    {
      var aEv := aEvents[i];
      var aAbsPeak := aBase + aEv.ev.peakSec;
      var j := 0;
      while j < |bEvents|
        invariant 0 <= j <= |bEvents|
        invariant ds == AllPairs(aEvents[..i], bEvents, aBase, bBase) + Row(aEv, bEvents[..j], aBase, bBase)
      {
        var bAbsPeak := bBase + bEvents[j].ev.peakSec;
        var delta := bAbsPeak - aAbsPeak;
        var weight := RMin(aEv.ev.peakZ, bEvents[j].ev.peakZ);
        assert bEvents[..j + 1][..j] == bEvents[..j];
        ds := ds + [(delta, weight)];
        j := j + 1;
      }
      assert bEvents[..|bEvents|] == bEvents;
      assert aEvents[..i + 1][..i] == aEvents[..i];
      i := i + 1;
    }
    assert aEvents[..|aEvents|] == aEvents;
  }

  /** The binning loop of `estimate_offset`. */
  method Histogram(ds: seq<(int, real)>) returns (bins: map<int, real>)
    requires ds != []
    ensures bins == BinMap(ds) && |bins| > 0
  {
    bins := map[];
    var i := 0;
    while i < |ds|
      invariant 0 <= i <= |ds|
      invariant bins == BinMap(ds[..i])
      invariant i > 0 ==> |bins| > 0
    {
      var (delta, weight) := ds[i];
      var bin := TruncDiv(delta, BIN_SIZE) * BIN_SIZE;
      assert ds[..i + 1][..i] == ds[..i];
      bins := bins[bin := (if bin in bins then bins[bin] else 0.0) + weight];
      assert bin in bins;
      i := i + 1;
    }
    assert ds[..|ds|] == ds;
  }

  // --- what the refinement promises ---

  lemma ScaleBetween(lo: real, x: real, hi: real, w: real)
    requires lo <= x <= hi && w >= 0.0
    ensures lo * w <= x * w <= hi * w
  {
    assert (x - lo) * w >= 0.0;
    assert (hi - x) * w >= 0.0;
  }

  /** The weighted sum lies between lo and hi times the total weight. */
  predicate MeanBounded(n: Near, lo: real, hi: real)
  {
    lo * n.weight <= n.weighted <= hi * n.weight
  }

  lemma WeightedStep(n: Near, lo: real, hi: real, x: real, xw: real)
    requires MeanBounded(n, lo, hi)
    requires lo <= x <= hi && xw >= 0.0
    ensures MeanBounded(Near(n.weighted + x * xw, n.weight + xw), lo, hi)
  {
    ScaleBetween(lo, x, hi, xw);
    assert lo * (n.weight + xw) == lo * n.weight + lo * xw;
    assert hi * (n.weight + xw) == hi * n.weight + hi * xw;
  }

  /** With non-negative weights, the weighted sum of the differences near
   *  `best` lies between best - 10 and best + 10 times their total weight. */
  lemma {:induction false} NearSumsBounds(ds: seq<(int, real)>, best: int)
    requires forall i :: 0 <= i < |ds| ==> ds[i].1 >= 0.0
    ensures NearSums(ds, best).weight >= 0.0
    ensures MeanBounded(NearSums(ds, best), (best - BIN_SIZE) as real, (best + BIN_SIZE) as real)
  {
    if ds != [] {
      var init := ds[..|ds| - 1];
      forall i | 0 <= i < |init| ensures init[i].1 >= 0.0 {
        assert init[i] == ds[i];
      }
      NearSumsBounds(init, best);
      NearSumsStep(ds, best);
    }
  }

  lemma NearSumsStep(ds: seq<(int, real)>, best: int)
    requires |ds| > 0 && ds[|ds| - 1].1 >= 0.0
    requires NearSums(ds[..|ds| - 1], best).weight >= 0.0
    requires MeanBounded(NearSums(ds[..|ds| - 1], best), (best - BIN_SIZE) as real, (best + BIN_SIZE) as real)
    ensures NearSums(ds, best).weight >= 0.0
    ensures MeanBounded(NearSums(ds, best), (best - BIN_SIZE) as real, (best + BIN_SIZE) as real)
  {
    AddNearBounded(NearSums(ds[..|ds| - 1], best), ds[|ds| - 1], best);
  }

  lemma AddNearBounded(acc: Near, d: (int, real), best: int)
    requires d.1 >= 0.0 && acc.weight >= 0.0
    requires MeanBounded(acc, (best - BIN_SIZE) as real, (best + BIN_SIZE) as real)
    ensures AddNear(acc, d, best).weight >= 0.0
    ensures MeanBounded(AddNear(acc, d, best), (best - BIN_SIZE) as real, (best + BIN_SIZE) as real)
  {
    if IAbs(d.0 - best) <= BIN_SIZE {
      WeightedStep(acc, (best - BIN_SIZE) as real, (best + BIN_SIZE) as real, d.0 as real, d.1);
    }
  }

  /** A mean whose sum lies between lo and hi times the positive weight lies
   *  between lo and hi. */
  lemma MeanBetween(n: Near, lo: real, hi: real)
    requires n.weight > 0.0 && MeanBounded(n, lo, hi)
    ensures lo <= n.weighted / n.weight <= hi
  {
    var q := n.weighted / n.weight;
    assert q * n.weight == n.weighted;
    assert (q - lo) * n.weight >= 0.0;
    assert (hi - q) * n.weight >= 0.0;
  }

  /** With positive weights the bin itself contributes weight near `best`. */
  lemma {:induction false} NearWeightPositive(ds: seq<(int, real)>, best: int)
    requires forall i :: 0 <= i < |ds| ==> ds[i].1 > 0.0
    requires HasBin(ds, best)
    ensures NearSums(ds, best).weight > 0.0
  {
    var init, d := ds[..|ds| - 1], ds[|ds| - 1];
    assert forall i :: 0 <= i < |init| ==> init[i] == ds[i];
    NearSumsBounds(init, best);
    if BinOf(d.0) == best {
      BinProps(d.0);
    } else {
      var i :| 0 <= i < |ds| && BinOf(ds[i].0) == best;
      assert i < |init| && BinOf(init[i].0) == best;
      NearWeightPositive(init, best);
    }
  }

  /** When every weight is positive the refined offset lies within one bin
   *  width of the chosen bin. */
  lemma RefineWithin(ds: seq<(int, real)>, best: int)
    requires forall i :: 0 <= i < |ds| ==> ds[i].1 > 0.0
    requires HasBin(ds, best)
    ensures NearSums(ds, best).weight > 0.0
    ensures (best - BIN_SIZE) as real <= Refine(ds, best) <= (best + BIN_SIZE) as real
  {
    NearWeightPositive(ds, best);
    NearSumsBounds(ds, best);
    MeanBetween(NearSums(ds, best), (best - BIN_SIZE) as real, (best + BIN_SIZE) as real);
  }

  /** `estimate_offset` on events with positive peak z-scores, one at least
   *  on each side, returns a value within 10 s of some bin of greatest
   *  weight. */
  lemma OffsetWithin(aSide: seq<IndexedEvent>, bs: seq<IndexedEvent>, aBase: int, bBase: int, offset: real)
    requires OffsetEstimate(aSide, bs, aBase, bBase, offset)
    requires aSide != [] && bs != []
    requires forall i :: 0 <= i < |aSide| ==> aSide[i].ev.peakZ > 0.0
    requires forall j :: 0 <= j < |bs| ==> bs[j].ev.peakZ > 0.0
    ensures exists best :: IsBestBin(BinMap(AllPairs(aSide, bs, aBase, bBase)), best)
              && (best - BIN_SIZE) as real <= offset <= (best + BIN_SIZE) as real
  {
    var ds := AllPairs(aSide, bs, aBase, bBase);
    AllPairsEmpty(aSide, bs, aBase, bBase);
    forall k | 0 <= k < |ds| ensures ds[k].1 > 0.0 {
      AllPairsMembers(aSide, bs, aBase, bBase, ds[k]);
    }
    var best :| IsBestBin(BinMap(ds), best) && offset == Refine(ds, best);
    BinMapProps(ds, best);
    RefineWithin(ds, best);
  }

  // ---------------------------------------------------------------------
  // Candidate pairs (event.rs:572-658)
  // ---------------------------------------------------------------------

  /** A B-side event with its index and absolute peak time. */
  datatype BEntry = BEntry(idx: nat, absPeak: int, ev: Event)

  function AbsPeakKey(e: BEntry): real
  {
    e.absPeak as real
  }

  function BEntries(bs: seq<IndexedEvent>, bBase: int): seq<BEntry>
  {
    seq(|bs|, i requires 0 <= i < |bs| => BEntry(bs[i].idx, bBase + bs[i].ev.peakSec, bs[i].ev))
  }

  predicate SortedByPeak(bs: seq<BEntry>)
  {
    forall i, j :: 0 <= i < j < |bs| ==> bs[i].absPeak <= bs[j].absPeak
  }

  /** `binary_search_by_key(&target, ..).unwrap_or_else(|idx| idx)` on
   *  entries sorted by peak time: the position of some entry whose peak time
   *  is the target, or, when none is, the position the target would be
   *  inserted at. Which of several equal entries is found is unspecified. */
  predicate SearchResult(bs: seq<BEntry>, target: int, i: int)
  {
    0 <= i <= |bs|
    && ((i < |bs| && bs[i].absPeak == target)
        || ((forall j :: 0 <= j < i ==> bs[j].absPeak < target)
            && (forall j :: i <= j < |bs| ==> bs[j].absPeak > target)))
  }

  /** The first position at or after `i` whose peak time is not below the
   *  target. */
  function FirstNotBelow(bs: seq<BEntry>, target: int, i: nat): (r: nat)
    requires i <= |bs|
    ensures i <= r <= |bs|
    ensures forall j :: i <= j < r ==> bs[j].absPeak < target
    ensures r < |bs| ==> bs[r].absPeak >= target
    decreases |bs| - i
  {
    if i == |bs| || bs[i].absPeak >= target then i else FirstNotBelow(bs, target, i + 1)
  }

  /** Binary search always has an answer on sorted entries. */
  lemma SearchExists(bs: seq<BEntry>, target: int)
    requires SortedByPeak(bs)
    ensures exists i :: 0 <= i <= |bs| && SearchResult(bs, target, i)
  {
    var r := FirstNotBelow(bs, target, 0);
    if r == |bs| || bs[r].absPeak != target {
      assert forall j :: r <= j < |bs| ==> bs[j].absPeak > target by {
        forall j | r <= j < |bs| ensures bs[j].absPeak > target {
          assert bs[r].absPeak <= bs[j].absPeak;
        }
      }
    }
    assert SearchResult(bs, target, r);
  }

  /** The searched window: its start never passes its end, and it holds
   *  every entry whose peak time lies strictly between the two targets. An
   *  entry exactly at a target may fall outside it. */
  lemma SearchWindow(bs: seq<BEntry>, lo: int, hi: int, s: int, e: int)
    requires SortedByPeak(bs) && lo < hi
    requires SearchResult(bs, lo, s) && SearchResult(bs, hi, e)
    ensures s <= e
    ensures forall j :: 0 <= j < |bs| && lo < bs[j].absPeak < hi ==> s <= j < e
  {
  }

  datatype Candidate = Candidate(aIdx: nat, bIdx: nat, ratio: real, alignedA: int, absB: int, deltaPeak: int, overlap: int)

  /** The checks one pair goes through once the offset is applied, in the
   *  source's order: the peak distance, the overlap in seconds, the shorter
   *  length and the overlap ratio. */
  function PairCandidate(a: IndexedEvent, b: BEntry, aBase: int, bBase: int, off: int): Option<Candidate>
  {
    var aligned := aBase + a.ev.peakSec + off;
    var deltaPeak := IAbs(b.absPeak - aligned);
    if deltaPeak > PEAK_WINDOW then None
    else
      var aStart := aBase + a.ev.startSec + off;
      var aEnd := aBase + a.ev.endSec + off;
      var bStart := bBase + b.ev.startSec;
      var bEnd := bBase + b.ev.endSec;
      var overlap := IMax(IMin(aEnd, bEnd) - IMax(aStart, bStart), 0);
      if overlap < MIN_OVERLAP then None
      else
        var minLen := IMin(aEnd - aStart, bEnd - bStart);
        if minLen == 0 then None
        else
          var ratio := overlap as real / minLen as real;
          if ratio < RATIO_TH then None
          else Some(Candidate(a.idx, b.idx, ratio, aligned, b.absPeak, deltaPeak, overlap))
  }

  /** The overlap of the two intervals once A is shifted by `off`. */
  function Overlap(a: Event, b: Event, aBase: int, bBase: int, off: int): int
  {
    IMax(IMin(aBase + a.endSec + off, bBase + b.endSec) - IMax(aBase + a.startSec + off, bBase + b.startSec), 0)
  }

  function MinLen(a: Event, b: Event): int
  {
    IMin(a.endSec - a.startSec, b.endSec - b.startSec)
  }

  /** A pair is a candidate exactly when its peaks are at most 90 s apart,
   *  it overlaps by at least 15 s and by at least 0.35 of the shorter
   *  interval; the overlap never exceeds the shorter length, so the ratio is
   *  at most 1 and the zero-length guard never fires. */
  lemma CandidateProps(a: IndexedEvent, b: BEntry, aBase: int, bBase: int, off: int)
    ensures PairCandidate(a, b, aBase, bBase, off).Some? <==>
      IAbs(b.absPeak - (aBase + a.ev.peakSec + off)) <= PEAK_WINDOW
      && Overlap(a.ev, b.ev, aBase, bBase, off) >= MIN_OVERLAP
      && Overlap(a.ev, b.ev, aBase, bBase, off) as real >= RATIO_TH * MinLen(a.ev, b.ev) as real
    ensures PairCandidate(a, b, aBase, bBase, off).Some? ==>
      var c := PairCandidate(a, b, aBase, bBase, off).value;
      c.aIdx == a.idx && c.bIdx == b.idx && c.absB == b.absPeak
      && c.alignedA == aBase + a.ev.peakSec + off
      && c.deltaPeak == IAbs(b.absPeak - c.alignedA) && 0 <= c.deltaPeak <= PEAK_WINDOW
      && c.overlap == Overlap(a.ev, b.ev, aBase, bBase, off) && c.overlap >= MIN_OVERLAP
      && MinLen(a.ev, b.ev) >= c.overlap
      && c.ratio == c.overlap as real / MinLen(a.ev, b.ev) as real
      && RATIO_TH <= c.ratio <= 1.0
  {
    var ov := Overlap(a.ev, b.ev, aBase, bBase, off);
    var ml := MinLen(a.ev, b.ev);
    if ov >= MIN_OVERLAP {
      assert ml >= ov;
      RatioBounds(ov, ml);
    }
  }

  lemma RatioBounds(ov: int, ml: int)
    requires 0 < ov <= ml
    ensures ov as real / ml as real <= 1.0
    ensures ov as real / ml as real >= RATIO_TH <==> ov as real >= RATIO_TH * ml as real
  {
    var q := ov as real / ml as real;
    assert q * ml as real == ov as real;
    assert (1.0 - q) * ml as real >= 0.0;
    if q >= RATIO_TH {
      assert (q - RATIO_TH) * ml as real >= 0.0;
    } else {
      assert (RATIO_TH - q) * ml as real > 0.0;
    }
  }

  /** Candidate `c` comes from some pair of an A event and a B entry. */
  ghost predicate FromPair(aF: seq<IndexedEvent>, bS: seq<BEntry>, aBase: int, bBase: int, off: int, c: Candidate)
  {
    exists i, j :: 0 <= i < |aF| && 0 <= j < |bS| && PairCandidate(aF[i], bS[j], aBase, bBase, off) == Some(c)
  }

  function CandidateOf(a: IndexedEvent, aBase: int, bBase: int, off: int): BEntry -> Option<Candidate>
  {
    b => PairCandidate(a, b, aBase, bBase, off)
  }

  /** Candidate `c` comes from event `a` and some B entry. */
  ghost predicate FromEntry(a: IndexedEvent, bS: seq<BEntry>, aBase: int, bBase: int, off: int, c: Candidate)
  {
    exists j :: 0 <= j < |bS| && PairCandidate(a, bS[j], aBase, bBase, off) == Some(c)
  }

  /** The peaks are strictly less than 90 s apart, so binary search is sure
   *  to put the pair inside the searched window. */
  predicate Inside(a: IndexedEvent, b: BEntry, aBase: int, off: int)
  {
    IAbs(b.absPeak - (aBase + a.ev.peakSec + off)) < PEAK_WINDOW
  }

  ghost predicate AllFromPairs(aF: seq<IndexedEvent>, bS: seq<BEntry>, aBase: int, bBase: int, off: int, cands: seq<Candidate>)
  {
    forall k :: 0 <= k < |cands| ==> FromPair(aF, bS, aBase, bBase, off, cands[k])
  }

  ghost predicate CandidatesComplete(aF: seq<IndexedEvent>, bS: seq<BEntry>, aBase: int, bBase: int, off: int, cands: seq<Candidate>)
  {
    forall i, j :: 0 <= i < |aF| && 0 <= j < |bS| && Inside(aF[i], bS[j], aBase, off)
      && PairCandidate(aF[i], bS[j], aBase, bBase, off).Some?
      ==> PairCandidate(aF[i], bS[j], aBase, bBase, off).value in cands
  }

  /** The search loop over the A events; every candidate comes from a pair
   *  and every pair strictly inside the window that passes the checks is a
   *  candidate. */
  method CollectCandidates(aF: seq<IndexedEvent>, bS: seq<BEntry>, aBase: int, bBase: int, off: int)
    returns (cands: seq<Candidate>)
    requires SortedByPeak(bS)
    ensures AllFromPairs(aF, bS, aBase, bBase, off, cands)
    ensures CandidatesComplete(aF, bS, aBase, bBase, off, cands)
  {
    cands := [];
    var i := 0;
    while i < |aF|
      invariant 0 <= i <= |aF|
      invariant forall k :: 0 <= k < |cands| ==> FromPair(aF, bS, aBase, bBase, off, cands[k])
      invariant forall i', j :: 0 <= i' < i && 0 <= j < |bS| && Inside(aF[i'], bS[j], aBase, off)
                  && PairCandidate(aF[i'], bS[j], aBase, bBase, off).Some?
                  ==> PairCandidate(aF[i'], bS[j], aBase, bBase, off).value in cands
    {
      var found := WindowCandidates(aF[i], bS, aBase, bBase, off);
      forall k | 0 <= k < |found| ensures FromPair(aF, bS, aBase, bBase, off, found[k]) {
        assert FromEntry(aF[i], bS, aBase, bBase, off, found[k]);
        var j :| 0 <= j < |bS| && PairCandidate(aF[i], bS[j], aBase, bBase, off) == Some(found[k]);
        assert 0 <= i < |aF| && 0 <= j < |bS| && PairCandidate(aF[i], bS[j], aBase, bBase, off) == Some(found[k]);
      }
      cands := cands + found;
      i := i + 1;
    }
  }

  /** The candidates of one A event: binary search for the window of entries
   *  within 90 s of its aligned peak, then the checks on every entry of it. */
  method WindowCandidates(a: IndexedEvent, bS: seq<BEntry>, aBase: int, bBase: int, off: int)
    returns (found: seq<Candidate>)
    requires SortedByPeak(bS)
    ensures forall k :: 0 <= k < |found| ==> FromEntry(a, bS, aBase, bBase, off, found[k])
    ensures forall j :: 0 <= j < |bS| && Inside(a, bS[j], aBase, off)
              && PairCandidate(a, bS[j], aBase, bBase, off).Some?
              ==> PairCandidate(a, bS[j], aBase, bBase, off).value in found
  {
    var aligned := aBase + a.ev.peakSec + off;
    var targetMin := aligned - PEAK_WINDOW;
    var targetMax := aligned + PEAK_WINDOW;
    SearchExists(bS, targetMin);
    var startIdx :| 0 <= startIdx <= |bS| && SearchResult(bS, targetMin, startIdx);
    SearchExists(bS, targetMax);
    var endIdx :| 0 <= endIdx <= |bS| && SearchResult(bS, targetMax, endIdx);
    SearchWindow(bS, targetMin, targetMax, startIdx, endIdx);
    var stop := IMin(endIdx, |bS|);
    found := ScanWindow(a, bS, startIdx, stop, aBase, bBase, off);
    WindowMembers(a, bS, startIdx, stop, aBase, bBase, off);
  }

  /** The loop over the searched window, with the checks on every entry. */
  method ScanWindow(a: IndexedEvent, bS: seq<BEntry>, startIdx: int, stop: int, aBase: int, bBase: int, off: int)
    returns (found: seq<Candidate>)
    requires 0 <= startIdx <= stop <= |bS|
    ensures found == FilterMap(bS[startIdx..stop], CandidateOf(a, aBase, bBase, off))
  {
    ghost var f := CandidateOf(a, aBase, bBase, off);
    found := [];
    var k := startIdx;
    while k < stop
      invariant startIdx <= k <= stop
      invariant found == FilterMap(bS[startIdx..k], f)
    {
      var c := PairCandidate(a, bS[k], aBase, bBase, off);
      assert bS[startIdx..k + 1] == bS[startIdx..k] + [bS[k]];
      FilterMapConcat(bS[startIdx..k], [bS[k]], f);
      if c.Some? {
        found := found + [c.value];
      }
      k := k + 1;
    }
  }

  /** What the candidates of one window are: each comes from an entry, and
   *  every entry of the window that passes the checks gives one. */
  lemma WindowMembers(a: IndexedEvent, bS: seq<BEntry>, startIdx: int, stop: int, aBase: int, bBase: int, off: int)
    requires 0 <= startIdx <= stop <= |bS|
    ensures forall n :: 0 <= n < |FilterMap(bS[startIdx..stop], CandidateOf(a, aBase, bBase, off))| ==>
              FromEntry(a, bS, aBase, bBase, off, FilterMap(bS[startIdx..stop], CandidateOf(a, aBase, bBase, off))[n])
    ensures forall j :: startIdx <= j < stop && PairCandidate(a, bS[j], aBase, bBase, off).Some? ==>
              PairCandidate(a, bS[j], aBase, bBase, off).value in FilterMap(bS[startIdx..stop], CandidateOf(a, aBase, bBase, off))
  {
    var f := CandidateOf(a, aBase, bBase, off);
    var window := bS[startIdx..stop];
    var found := FilterMap(window, f);
    forall n | 0 <= n < |found| ensures FromEntry(a, bS, aBase, bBase, off, found[n]) {
      FilterMapMembers(window, f, found[n]);
      var i :| 0 <= i < |window| && f(window[i]) == Some(found[n]);
      assert window[i] == bS[startIdx + i];
    }
    forall j | startIdx <= j < stop && PairCandidate(a, bS[j], aBase, bBase, off).Some?
      ensures PairCandidate(a, bS[j], aBase, bBase, off).value in found
    {
      assert window[j - startIdx] == bS[j];
      FilterMapMembers(window, f, PairCandidate(a, bS[j], aBase, bBase, off).value);
    }
  }

  // ---------------------------------------------------------------------
  // Scoring and greedy one-to-one resolution (event.rs:660-702)
  // ---------------------------------------------------------------------

  datatype MatchedEvent = MatchedEvent(aIdx: nat, bIdx: nat, score: real, alignedA: int, absB: int, deltaPeak: int)

  datatype MatchResult = MatchResult(offsetSec: real, matches: seq<MatchedEvent>)

  /** score = overlap ratio + 0.03 * the weaker of the two peak z-scores. */
  function ScoreOf(c: Candidate, aEvents: seq<Event>, bEvents: seq<Event>): MatchedEvent
    requires c.aIdx < |aEvents| && c.bIdx < |bEvents|
  {
    MatchedEvent(c.aIdx, c.bIdx, c.ratio + Z_WEIGHT * RMin(aEvents[c.aIdx].peakZ, bEvents[c.bIdx].peakZ),
                 c.alignedA, c.absB, c.deltaPeak)
  }

  function Scored(cands: seq<Candidate>, aEvents: seq<Event>, bEvents: seq<Event>): seq<MatchedEvent>
    requires forall k :: 0 <= k < |cands| ==> cands[k].aIdx < |aEvents| && cands[k].bIdx < |bEvents|
  {
    seq(|cands|, k requires 0 <= k < |cands| => ScoreOf(cands[k], aEvents, bEvents))
  }

  /** Descending by score through the ascending stable sort. */
  function ScoreDesc(m: MatchedEvent): real
  {
    -m.score
  }

  /** The greedy pass: take a pair unless one of its events is already used. */
  function GreedyFrom(ms: seq<MatchedEvent>, usedA: set<nat>, usedB: set<nat>): seq<MatchedEvent>
    decreases |ms|
  {
    if ms == [] then []
    else if ms[0].aIdx in usedA || ms[0].bIdx in usedB then GreedyFrom(ms[1..], usedA, usedB)
    else [ms[0]] + GreedyFrom(ms[1..], usedA + {ms[0].aIdx}, usedB + {ms[0].bIdx})
  }

  /** The resolution loop with its `used_a` / `used_b` sets. */
  method ResolveGreedy(ms: seq<MatchedEvent>) returns (matches: seq<MatchedEvent>)
    ensures matches == GreedyFrom(ms, {}, {})
  {
    var usedA: set<nat> := {};
    var usedB: set<nat> := {};
    matches := [];
    var i := 0;
    while i < |ms|
      invariant 0 <= i <= |ms|
      invariant matches + GreedyFrom(ms[i..], usedA, usedB) == GreedyFrom(ms, {}, {})
    {
      var m := ms[i];
      assert ms[i..][1..] == ms[i + 1..];
      if m.aIdx in usedA || m.bIdx in usedB {
        i := i + 1;
        continue;
      }
      usedA := usedA + {m.aIdx};
      usedB := usedB + {m.bIdx};
      matches := matches + [m];
      i := i + 1;
    }
  }

  /** Every chosen pair is one of the input, no event is used twice and
   *  none that was used before. */
  lemma {:induction false} GreedyOneToOne(ms: seq<MatchedEvent>, usedA: set<nat>, usedB: set<nat>)
    ensures forall k :: 0 <= k < |GreedyFrom(ms, usedA, usedB)| ==>
              GreedyFrom(ms, usedA, usedB)[k] in ms
              && GreedyFrom(ms, usedA, usedB)[k].aIdx !in usedA && GreedyFrom(ms, usedA, usedB)[k].bIdx !in usedB
    ensures forall k, l :: 0 <= k < l < |GreedyFrom(ms, usedA, usedB)| ==>
              GreedyFrom(ms, usedA, usedB)[k].aIdx != GreedyFrom(ms, usedA, usedB)[l].aIdx
              && GreedyFrom(ms, usedA, usedB)[k].bIdx != GreedyFrom(ms, usedA, usedB)[l].bIdx
    decreases |ms|
  {
    if ms != [] {
      var m := ms[0];
      if m.aIdx in usedA || m.bIdx in usedB {
        GreedyOneToOne(ms[1..], usedA, usedB);
        assert forall x :: x in ms[1..] ==> x in ms;
      } else {
        var ua, ub := usedA + {m.aIdx}, usedB + {m.bIdx};
        GreedyOneToOne(ms[1..], ua, ub);
        var rest := GreedyFrom(ms[1..], ua, ub);
        assert GreedyFrom(ms, usedA, usedB) == [m] + rest;
        assert forall x :: x in ms[1..] ==> x in ms;
      }
    }
  }

  /** On input sorted by descending score the matches come out in
   *  descending score too. */
  lemma {:induction false} GreedySorted(ms: seq<MatchedEvent>, usedA: set<nat>, usedB: set<nat>)
    requires SortedBy(ms, ScoreDesc)
    ensures SortedBy(GreedyFrom(ms, usedA, usedB), ScoreDesc)
    decreases |ms|
  {
    if ms != [] {
      var m := ms[0];
      assert SortedBy(ms[1..], ScoreDesc) by {
        assert forall i :: 0 <= i < |ms[1..]| ==> ms[1..][i] == ms[i + 1];
      }
      if m.aIdx in usedA || m.bIdx in usedB {
        GreedySorted(ms[1..], usedA, usedB);
      } else {
        var ua, ub := usedA + {m.aIdx}, usedB + {m.bIdx};
        GreedySorted(ms[1..], ua, ub);
        GreedyOneToOne(ms[1..], ua, ub);
        var rest := GreedyFrom(ms[1..], ua, ub);
        forall k | 0 <= k < |rest| ensures ScoreDesc(m) <= ScoreDesc(rest[k]) {
          var p :| 0 <= p < |ms[1..]| && ms[1..][p] == rest[k];
          assert ms[p + 1] == rest[k];
        }
        ConsSorted(m, rest);
      }
    }
  }

  lemma ConsSorted(m: MatchedEvent, rest: seq<MatchedEvent>)
    requires SortedBy(rest, ScoreDesc)
    requires forall k :: 0 <= k < |rest| ==> ScoreDesc(m) <= ScoreDesc(rest[k])
    ensures SortedBy([m] + rest, ScoreDesc)
  {
    var s := [m] + rest;
    forall i, j | 0 <= i < j < |s| ensures ScoreDesc(s[i]) <= ScoreDesc(s[j]) {
      assert s[j] == rest[j - 1];
      if i > 0 {
        assert s[i] == rest[i - 1];
      }
    }
  }

  /** Pair `m` lost to a chosen pair of at least its score that shares one
   *  of its events. */
  predicate Blocked(matches: seq<MatchedEvent>, m: MatchedEvent)
  {
    exists k :: 0 <= k < |matches| && (matches[k].aIdx == m.aIdx || matches[k].bIdx == m.bIdx)
                && matches[k].score >= m.score
  }

  /** Greedy maximality: every pair of the input is either chosen, or
   *  shares an event with one used before, or lost to a chosen pair of at
   *  least its score. */
  lemma {:induction false} GreedyMaximal(ms: seq<MatchedEvent>, usedA: set<nat>, usedB: set<nat>)
    requires SortedBy(ms, ScoreDesc)
    ensures forall i :: 0 <= i < |ms| ==>
              ms[i] in GreedyFrom(ms, usedA, usedB) || ms[i].aIdx in usedA || ms[i].bIdx in usedB
              || Blocked(GreedyFrom(ms, usedA, usedB), ms[i])
    decreases |ms|
  {
    if ms != [] {
      var m := ms[0];
      var tail := ms[1..];
      assert SortedBy(tail, ScoreDesc) by {
        assert forall i :: 0 <= i < |tail| ==> tail[i] == ms[i + 1];
      }
      var r := GreedyFrom(ms, usedA, usedB);
      if m.aIdx in usedA || m.bIdx in usedB {
        GreedyMaximal(tail, usedA, usedB);
        forall i | 1 <= i < |ms| ensures ms[i] in r || ms[i].aIdx in usedA || ms[i].bIdx in usedB || Blocked(r, ms[i]) {
          assert ms[i] == tail[i - 1];
        }
      } else {
        var ua, ub := usedA + {m.aIdx}, usedB + {m.bIdx};
        GreedyMaximal(tail, ua, ub);
        var rest := GreedyFrom(tail, ua, ub);
        assert r == [m] + rest;
        forall i | 1 <= i < |ms| ensures ms[i] in r || ms[i].aIdx in usedA || ms[i].bIdx in usedB || Blocked(r, ms[i]) {
          var x := ms[i];
          assert x == tail[i - 1];
          if x.aIdx == m.aIdx || x.bIdx == m.bIdx {
            assert ScoreDesc(ms[0]) <= ScoreDesc(ms[i]);
            assert r[0] == m;
          } else if Blocked(rest, x) {
            var k :| 0 <= k < |rest| && (rest[k].aIdx == x.aIdx || rest[k].bIdx == x.bIdx) && rest[k].score >= x.score;
            assert r[k + 1] == rest[k];
          }
        }
        assert r[0] == m;
      }
    }
  }

  // ---------------------------------------------------------------------
  // match_events_time_only (event.rs:534-703)
  // ---------------------------------------------------------------------

  function IsStrong(e: IndexedEvent): bool
  {
    e.ev.peakZ >= Z_MIN
  }

  /** The events kept for matching, with their indices, in order. */
  function StrongEvents(events: seq<Event>): seq<IndexedEvent>
  {
    Filter(Enumerate(events), IsStrong)
  }

  /** The kept events are exactly the events of z-score at least 3, each
   *  with its own index. */
  lemma StrongMembers(events: seq<Event>, x: IndexedEvent)
    ensures x in StrongEvents(events) <==> x.idx < |events| && x.ev == events[x.idx] && events[x.idx].peakZ >= Z_MIN
  {
    var en := Enumerate(events);
    FilterMembers(en, IsStrong, x);
    if x.idx < |events| && x.ev == events[x.idx] {
      assert en[x.idx] == x;
    }
  }

  /** The B entry of event `j` of `b`. */
  function EntryOf(b: Detection, j: nat): BEntry
    requires j < |b.events|
  {
    BEntry(j, b.firstTime + b.events[j].peakSec, b.events[j])
  }

  /** Match `m` is the scored candidate of its own two events, both of
   *  z-score at least 3, under offset `off`. */
  ghost predicate Supported(a: Detection, b: Detection, off: int, m: MatchedEvent)
  {
    m.aIdx < |a.events| && m.bIdx < |b.events|
    && a.events[m.aIdx].peakZ >= Z_MIN && b.events[m.bIdx].peakZ >= Z_MIN
    && var c := PairCandidate(IndexedEvent(m.aIdx, a.events[m.aIdx]), EntryOf(b, m.bIdx), a.firstTime, b.firstTime, off);
       c.Some? && m == ScoreOf(c.value, a.events, b.events)
  }

  /** Events `i` of `a` and `j` of `b` are both kept, their peaks are less
   *  than 90 s apart under offset `off`, and they pass the checks. */
  ghost predicate Eligible(a: Detection, b: Detection, off: int, i: nat, j: nat)
  {
    i < |a.events| && j < |b.events|
    && a.events[i].peakZ >= Z_MIN && b.events[j].peakZ >= Z_MIN
    && Inside(IndexedEvent(i, a.events[i]), EntryOf(b, j), a.firstTime, off)
    && PairCandidate(IndexedEvent(i, a.events[i]), EntryOf(b, j), a.firstTime, b.firstTime, off).Some?
  }

  /** The scored candidate of an eligible pair. */
  function PairMatch(a: Detection, b: Detection, off: int, i: nat, j: nat): MatchedEvent
    requires i < |a.events| && j < |b.events|
    requires PairCandidate(IndexedEvent(i, a.events[i]), EntryOf(b, j), a.firstTime, b.firstTime, off).Some?
  {
    CandidateProps(IndexedEvent(i, a.events[i]), EntryOf(b, j), a.firstTime, b.firstTime, off);
    ScoreOf(PairCandidate(IndexedEvent(i, a.events[i]), EntryOf(b, j), a.firstTime, b.firstTime, off).value, a.events, b.events)
  }

  /** The kept B events ordered by absolute peak time. */
  function SortedB(b: Detection): seq<BEntry>
  {
    SortBy(BEntries(StrongEvents(b.events), b.firstTime), AbsPeakKey)
  }

  /** `aF` holds exactly the kept events of `a`, each with its index. */
  ghost predicate KeptA(a: Detection, aF: seq<IndexedEvent>)
  {
    forall x :: x in aF <==> x.idx < |a.events| && x.ev == a.events[x.idx] && a.events[x.idx].peakZ >= Z_MIN
  }

  /** `bS` holds exactly the entries of the kept events of `b`. */
  ghost predicate KeptB(b: Detection, bS: seq<BEntry>)
  {
    forall e :: e in bS <==> e.idx < |b.events| && e == EntryOf(b, e.idx) && b.events[e.idx].peakZ >= Z_MIN
  }

  lemma KeptAStrong(a: Detection)
    ensures KeptA(a, StrongEvents(a.events))
  {
    forall x ensures x in StrongEvents(a.events) <==> x.idx < |a.events| && x.ev == a.events[x.idx] && a.events[x.idx].peakZ >= Z_MIN {
      StrongMembers(a.events, x);
    }
  }

  /** The sorted B entries are sorted by peak time. */
  lemma SortedBOrder(b: Detection)
    ensures SortedByPeak(SortedB(b))
  {
    var entries := BEntries(StrongEvents(b.events), b.firstTime);
    var bS := SortedB(b);
    SortByProps(entries, AbsPeakKey);
    forall i, j | 0 <= i < j < |bS| ensures bS[i].absPeak <= bS[j].absPeak {
      assert AbsPeakKey(bS[i]) <= AbsPeakKey(bS[j]);
    }
  }

  /** The sorted B entries are exactly the entries of the kept B events. */
  lemma KeptBSorted(b: Detection)
    ensures KeptB(b, SortedB(b))
  {
    var bF := StrongEvents(b.events);
    var entries := BEntries(bF, b.firstTime);
    SortByProps(entries, AbsPeakKey);
    KeptAStrong(b);
    EntriesKept(b, bF, entries, SortedB(b));
  }

  lemma EntriesKept(b: Detection, bF: seq<IndexedEvent>, entries: seq<BEntry>, bS: seq<BEntry>)
    requires KeptA(b, bF)
    requires entries == BEntries(bF, b.firstTime)
    requires multiset(bS) == multiset(entries)
    ensures KeptB(b, bS)
  {
    forall e ensures e in bS <==> e.idx < |b.events| && e == EntryOf(b, e.idx) && b.events[e.idx].peakZ >= Z_MIN {
      if e in bS {
        assert e in multiset(entries);
        var q :| 0 <= q < |entries| && entries[q] == e;
        assert bF[q] in bF;
      }
      if e.idx < |b.events| && e == EntryOf(b, e.idx) && b.events[e.idx].peakZ >= Z_MIN {
        var x := IndexedEvent(e.idx, b.events[e.idx]);
        assert x in bF;
        var q :| 0 <= q < |bF| && bF[q] == x;
        assert entries[q] == e;
        assert e in multiset(entries);
      }
    }
  }

  /** A candidate found from the kept events is supported. */
  lemma CandidateSupported(a: Detection, b: Detection, off: int, aF: seq<IndexedEvent>, bS: seq<BEntry>, c: Candidate)
    requires KeptA(a, aF) && KeptB(b, bS)
    requires FromPair(aF, bS, a.firstTime, b.firstTime, off, c)
    ensures c.aIdx < |a.events| && c.bIdx < |b.events|
    ensures Supported(a, b, off, ScoreOf(c, a.events, b.events))
  {
    var i, j :| 0 <= i < |aF| && 0 <= j < |bS| && PairCandidate(aF[i], bS[j], a.firstTime, b.firstTime, off) == Some(c);
    assert aF[i] in aF && bS[j] in bS;
    CandidateProps(aF[i], bS[j], a.firstTime, b.firstTime, off);
    assert aF[i] == IndexedEvent(c.aIdx, a.events[c.aIdx]);
    assert bS[j] == EntryOf(b, c.bIdx);
  }

  /** An eligible pair is among the candidates found from the kept events. */
  lemma EligibleFound(a: Detection, b: Detection, off: int, aF: seq<IndexedEvent>, bS: seq<BEntry>, cands: seq<Candidate>, i: nat, j: nat)
    requires KeptA(a, aF) && KeptB(b, bS)
    requires CandidatesComplete(aF, bS, a.firstTime, b.firstTime, off, cands)
    requires Eligible(a, b, off, i, j)
    ensures PairCandidate(IndexedEvent(i, a.events[i]), EntryOf(b, j), a.firstTime, b.firstTime, off).value in cands
  {
    var x := IndexedEvent(i, a.events[i]);
    assert x in aF;
    var p :| 0 <= p < |aF| && aF[p] == x;
    assert EntryOf(b, j) in bS;
    var q :| 0 <= q < |bS| && bS[q] == EntryOf(b, j);
  }

  /** `match_events_time_only`. */
  method MatchEventsTimeOnly(a: Detection, b: Detection) returns (r: MatchResult)
    ensures StrongEvents(a.events) == [] || StrongEvents(b.events) == [] ==> r == MatchResult(0.0, [])
    ensures StrongEvents(a.events) != [] && StrongEvents(b.events) != [] ==>
              OffsetEstimate(SelectTopEvents(a.events, TOP_K), SelectTopEvents(b.events, TOP_K),
                             a.firstTime, b.firstTime, r.offsetSec)
    ensures forall k :: 0 <= k < |r.matches| ==> Supported(a, b, RealTrunc(r.offsetSec), r.matches[k])
    ensures OneToOne(r.matches)
    ensures forall k, l :: 0 <= k < l < |r.matches| ==> r.matches[k].score >= r.matches[l].score
    ensures forall i, j :: Eligible(a, b, RealTrunc(r.offsetSec), i, j) ==>
              PairMatch(a, b, RealTrunc(r.offsetSec), i, j) in r.matches
              || Blocked(r.matches, PairMatch(a, b, RealTrunc(r.offsetSec), i, j))
  {
    var aFiltered := StrongEvents(a.events);
    var bFiltered := StrongEvents(b.events);
    if aFiltered == [] || bFiltered == [] {
      EligibleStrong(a, b, RealTrunc(0.0));
      return MatchResult(0.0, []);
    }
    var aBase, bBase := a.firstTime, b.firstTime;
    var aTop := SelectTopEvents(a.events, TOP_K);
    var bTop := SelectTopEvents(b.events, TOP_K);
    var offset := EstimateOffset(aTop, bTop, aBase, bBase, BIN_SIZE);
    var bSorted := SortBy(BEntries(bFiltered, bBase), AbsPeakKey);
    SortedBOrder(b);
    var matches := MatchWithOffset(a, b, aFiltered, bSorted, RealTrunc(offset));
    r := MatchResult(offset, matches);
  }

  /** An eligible pair consists of kept events. */
  lemma EligibleStrong(a: Detection, b: Detection, off: int)
    ensures forall i: nat, j: nat :: Eligible(a, b, off, i, j) ==>
              IndexedEvent(i, a.events[i]) in StrongEvents(a.events) && IndexedEvent(j, b.events[j]) in StrongEvents(b.events)
  {
    forall i: nat, j: nat | Eligible(a, b, off, i, j)
      ensures IndexedEvent(i, a.events[i]) in StrongEvents(a.events) && IndexedEvent(j, b.events[j]) in StrongEvents(b.events)
    {
      StrongMembers(a.events, IndexedEvent(i, a.events[i]));
      StrongMembers(b.events, IndexedEvent(j, b.events[j]));
    }
  }

  /** No event of either side is used twice. */
  predicate OneToOne(ms: seq<MatchedEvent>)
  {
    forall k, l :: 0 <= k < l < |ms| ==> ms[k].aIdx != ms[l].aIdx && ms[k].bIdx != ms[l].bIdx
  }

  /** Steps 3 and 4 of `match_events_time_only` for a given offset: the
   *  candidates, their scores, and the greedy resolution. */
  method MatchWithOffset(a: Detection, b: Detection, aFiltered: seq<IndexedEvent>, bSorted: seq<BEntry>, off: int)
    returns (matches: seq<MatchedEvent>)
    requires aFiltered == StrongEvents(a.events) && bSorted == SortedB(b)
    requires SortedByPeak(bSorted)
    ensures forall k :: 0 <= k < |matches| ==> Supported(a, b, off, matches[k])
    ensures OneToOne(matches)
    ensures forall k, l :: 0 <= k < l < |matches| ==> matches[k].score >= matches[l].score
    ensures forall i, j :: Eligible(a, b, off, i, j) ==>
              PairMatch(a, b, off, i, j) in matches || Blocked(matches, PairMatch(a, b, off, i, j))
  {
    var cands := CollectCandidates(aFiltered, bSorted, a.firstTime, b.firstTime, off);
    KeptAStrong(a);
    KeptBSorted(b);
    forall k | 0 <= k < |cands| ensures cands[k].aIdx < |a.events| && cands[k].bIdx < |b.events| {
      CandidateSupported(a, b, off, aFiltered, bSorted, cands[k]);
    }
    var scored := Scored(cands, a.events, b.events);
    var sorted := SortBy(scored, ScoreDesc);
    matches := ResolveGreedy(sorted);
    SortByProps(scored, ScoreDesc);
    ResolvedSupported(a, b, off, aFiltered, bSorted, cands, scored, sorted, matches);
    ResolvedOrder(sorted, matches);
    ResolvedMaximal(a, b, off, aFiltered, bSorted, cands, scored, sorted, matches);
  }

  lemma ResolvedSupported(a: Detection, b: Detection, off: int, aF: seq<IndexedEvent>, bS: seq<BEntry>,
                          cands: seq<Candidate>, scored: seq<MatchedEvent>, sorted: seq<MatchedEvent>, matches: seq<MatchedEvent>)
    requires KeptA(a, aF) && KeptB(b, bS)
    requires AllFromPairs(aF, bS, a.firstTime, b.firstTime, off, cands)
    requires forall k :: 0 <= k < |cands| ==> cands[k].aIdx < |a.events| && cands[k].bIdx < |b.events|
    requires scored == Scored(cands, a.events, b.events)
    requires multiset(sorted) == multiset(scored)
    requires matches == GreedyFrom(sorted, {}, {})
    ensures forall k :: 0 <= k < |matches| ==> Supported(a, b, off, matches[k])
  {
    GreedyOneToOne(sorted, {}, {});
    forall k | 0 <= k < |matches| ensures Supported(a, b, off, matches[k]) {
      assert matches[k] in multiset(scored);
      var p :| 0 <= p < |scored| && scored[p] == matches[k];
      CandidateSupported(a, b, off, aF, bS, cands[p]);
    }
  }

  lemma ResolvedOrder(sorted: seq<MatchedEvent>, matches: seq<MatchedEvent>)
    requires SortedBy(sorted, ScoreDesc)
    requires matches == GreedyFrom(sorted, {}, {})
    ensures OneToOne(matches)
    ensures forall k, l :: 0 <= k < l < |matches| ==> matches[k].score >= matches[l].score
  {
    GreedyOneToOne(sorted, {}, {});
    GreedySorted(sorted, {}, {});
    forall k, l | 0 <= k < l < |matches| ensures matches[k].score >= matches[l].score {
      assert ScoreDesc(matches[k]) <= ScoreDesc(matches[l]);
    }
  }

  lemma ResolvedMaximal(a: Detection, b: Detection, off: int, aF: seq<IndexedEvent>, bS: seq<BEntry>,
                        cands: seq<Candidate>, scored: seq<MatchedEvent>, sorted: seq<MatchedEvent>, matches: seq<MatchedEvent>)
    requires KeptA(a, aF) && KeptB(b, bS)
    requires CandidatesComplete(aF, bS, a.firstTime, b.firstTime, off, cands)
    requires forall k :: 0 <= k < |cands| ==> cands[k].aIdx < |a.events| && cands[k].bIdx < |b.events|
    requires scored == Scored(cands, a.events, b.events)
    requires multiset(sorted) == multiset(scored) && SortedBy(sorted, ScoreDesc)
    requires matches == GreedyFrom(sorted, {}, {})
    ensures forall i, j :: Eligible(a, b, off, i, j) ==>
              PairMatch(a, b, off, i, j) in matches || Blocked(matches, PairMatch(a, b, off, i, j))
  {
    GreedyMaximal(sorted, {}, {});
    forall i: nat, j: nat | Eligible(a, b, off, i, j)
      ensures PairMatch(a, b, off, i, j) in matches || Blocked(matches, PairMatch(a, b, off, i, j))
    {
      EligibleFound(a, b, off, aF, bS, cands, i, j);
      var c := PairCandidate(IndexedEvent(i, a.events[i]), EntryOf(b, j), a.firstTime, b.firstTime, off).value;
      var p :| 0 <= p < |cands| && cands[p] == c;
      assert scored[p] == PairMatch(a, b, off, i, j);
      assert scored[p] in multiset(sorted);
      var q :| 0 <= q < |sorted| && sorted[q] == scored[p];
    }
  }
}
