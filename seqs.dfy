/** Sequence helpers shared by the whole model: sums, counting, filtering,
 *  set sizes and the stable sort that models Rust's `sort_by`/`sort_by_key` and Python's
 *  `sorted` (all three are stable). */
module Seqs {
  import opened Wrappers

  function Sum(s: seq<nat>): nat
  {
    if s == [] then 0 else Sum(s[..|s| - 1]) + s[|s| - 1]
  }

  function SumReal(s: seq<real>): real
  {
    if s == [] then 0.0 else SumReal(s[..|s| - 1]) + s[|s| - 1]
  }

  lemma {:induction false} SumConcat(s: seq<nat>, t: seq<nat>)
    ensures Sum(s + t) == Sum(s) + Sum(t)
  {
    if t == [] {
      assert s + t == s;
    } else {
      assert (s + t)[..|s + t| - 1] == s + t[..|t| - 1];
      SumConcat(s, t[..|t| - 1]);
    }
  }

  /** The least element of a non-empty sequence. */
  function MinOf(s: seq<int>): (r: int)
    requires |s| > 0
    ensures r in s && forall x :: x in s ==> r <= x
  {
    if |s| == 1 then s[0]
    else
      var m := MinOf(s[..|s| - 1]);
      assert forall x :: x in s ==> x in s[..|s| - 1] || x == s[|s| - 1];
      if s[|s| - 1] < m then s[|s| - 1] else m
  }

  /** The greatest element of a non-empty sequence. */
  function MaxOf(s: seq<int>): (r: int)
    requires |s| > 0
    ensures r in s && forall x :: x in s ==> x <= r
  {
    if |s| == 1 then s[0]
    else
      var m := MaxOf(s[..|s| - 1]);
      assert forall x :: x in s ==> x in s[..|s| - 1] || x == s[|s| - 1];
      if s[|s| - 1] > m then s[|s| - 1] else m
  }

  /** Number of occurrences of `x` in `s`. */
  function Count<T(==)>(s: seq<T>, x: T): nat
  {
    if s == [] then 0 else Count(s[..|s| - 1], x) + (if s[|s| - 1] == x then 1 else 0)
  }

  lemma {:induction false} CountBounds<T>(s: seq<T>, x: T)
    ensures Count(s, x) <= |s|
    ensures Count(s, x) > 0 <==> x in s
  {
    if s != [] {
      CountBounds(s[..|s| - 1], x);
      assert s == s[..|s| - 1] + [s[|s| - 1]];
    }
  }

  predicate NoDup<T(==)>(s: seq<T>)
  {
    forall i, j :: 0 <= i < j < |s| ==> s[i] != s[j]
  }

  lemma {:induction false} CountNoDup<T>(s: seq<T>, x: T)
    requires NoDup(s)
    ensures Count(s, x) == if x in s then 1 else 0
  {
    if s != [] {
      var init := s[..|s| - 1];
      CountNoDup(init, x);
      assert s == init + [s[|s| - 1]];
      if s[|s| - 1] == x {
        assert forall i :: 0 <= i < |init| ==> init[i] == s[i] != s[|s| - 1];
      }
    }
  }

  lemma {:induction false} NoDupMultiset<T>(s: seq<T>, x: T)
    requires NoDup(s)
    ensures multiset(s)[x] <= 1
  {
    if s != [] {
      var init := s[..|s| - 1];
      assert s == init + [s[|s| - 1]];
      NoDupMultiset(init, x);
      if s[|s| - 1] == x {
        assert forall i :: 0 <= i < |init| ==> init[i] == s[i] != s[|s| - 1];
        assert x !in init;
      }
    }
  }

  lemma TwiceInMultiset<T>(t: seq<T>, i: int, j: int)
    requires 0 <= i < j < |t|
    ensures t[i] == t[j] ==> multiset(t)[t[i]] >= 2
  {
    assert t == t[..j] + t[j..];
    assert t[i] in t[..j];
    assert t[j] in t[j..];
  }

  /** Filtering keeps a sequence free of duplicates. */
  lemma {:induction false} FilterNoDup<T(!new)>(s: seq<T>, p: T -> bool)
    requires NoDup(s)
    ensures NoDup(Filter(s, p))
  {
    if s != [] {
      var init := s[..|s| - 1];
      assert s == init + [s[|s| - 1]];
      FilterNoDup(init, p);
      FilterSnoc(init, s[|s| - 1], p);
      FilterMembers(init, p, s[|s| - 1]);
      assert s[|s| - 1] !in init;
    }
  }

  /** A rearrangement of a sequence without duplicates has none either. */
  lemma NoDupOfMultiset<T>(s: seq<T>, t: seq<T>)
    requires NoDup(s) && multiset(s) == multiset(t)
    ensures NoDup(t)
  {
    forall i, j | 0 <= i < j < |t| ensures t[i] != t[j] {
      TwiceInMultiset(t, i, j);
      NoDupMultiset(s, t[i]);
    }
  }

  /** The count of every key of `keys` in `xs`, in the order of `keys`. */
  function CountsOf<T(==)>(keys: seq<T>, xs: seq<T>): (r: seq<nat>)
    ensures |r| == |keys|
    ensures forall i :: 0 <= i < |keys| ==> r[i] == Count(xs, keys[i])
  {
    if keys == [] then [] else CountsOf(keys[..|keys| - 1], xs) + [Count(xs, keys[|keys| - 1])]
  }

  lemma {:induction false} CountsOfSnoc<T>(keys: seq<T>, xs: seq<T>, x: T)
    ensures Sum(CountsOf(keys, xs + [x])) == Sum(CountsOf(keys, xs)) + Count(keys, x)
  {
    if keys != [] {
      var init := keys[..|keys| - 1];
      CountsOfSnoc(init, xs, x);
      assert (xs + [x])[..|xs + [x]| - 1] == xs;
    }
  }

  /** Counting every distinct key that the values can take accounts for every
   *  value exactly once. */
  lemma {:induction false} SumCountsOf<T>(keys: seq<T>, xs: seq<T>)
    requires NoDup(keys)
    requires forall x :: x in xs ==> x in keys
    ensures Sum(CountsOf(keys, xs)) == |xs|
  {
    if xs == [] {
      var zeros := CountsOf(keys, xs);
      assert forall i :: 0 <= i < |zeros| ==> zeros[i] == 0;
      AllZeroSum(zeros);
    } else {
      var init := xs[..|xs| - 1];
      assert xs == init + [xs[|xs| - 1]];
      SumCountsOf(keys, init);
      CountsOfSnoc(keys, init, xs[|xs| - 1]);
      CountNoDup(keys, xs[|xs| - 1]);
    }
  }

  lemma {:induction false} AllZeroSum(s: seq<nat>)
    requires forall i :: 0 <= i < |s| ==> s[i] == 0
    ensures Sum(s) == 0
  {
    if s != [] {
      AllZeroSum(s[..|s| - 1]);
    }
  }

  /** The elements of `s` that satisfy `p`, in their original order
   *  (a Rust `filter`/`retain`, a Python comprehension with an `if`). */
  function Filter<T(!new)>(s: seq<T>, p: T -> bool): (r: seq<T>)
    ensures |r| <= |s|
  {
    if s == [] then []
    else Filter(s[..|s| - 1], p) + (if p(s[|s| - 1]) then [s[|s| - 1]] else [])
  }

  /** Filtering keeps exactly the elements that satisfy the predicate. */
  lemma {:induction false} FilterMembers<T(!new)>(s: seq<T>, p: T -> bool, x: T)
    ensures x in Filter(s, p) <==> x in s && p(x)
  {
    if s != [] {
      var init, last := s[..|s| - 1], s[|s| - 1];
      InitLast(s);
      FilterMembers(init, p, x);
    }
  }

  lemma {:induction false} FilterConcat<T(!new)>(s: seq<T>, t: seq<T>, p: T -> bool)
    ensures Filter(s + t, p) == Filter(s, p) + Filter(t, p)
  {
    if t == [] {
      assert s + t == s;
    } else {
      assert (s + t)[..|s + t| - 1] == s + t[..|t| - 1];
      FilterConcat(s, t[..|t| - 1], p);
    }
  }

  /** Filtering keeps a sequence whose elements all satisfy the predicate. */
  lemma {:induction false} FilterAll<T(!new)>(s: seq<T>, p: T -> bool)
    requires forall x :: x in s ==> p(x)
    ensures Filter(s, p) == s
  {
    if s != [] {
      var init, last := s[..|s| - 1], s[|s| - 1];
      assert s == init + [last];
      FilterAll(init, p);
      assert Filter(s, p) == Filter(init, p) + [last];
    }
  }

  /** Rust's `filter_map`: the values `f` gives, in order, skipping `None`. */
  function FilterMap<T, U>(s: seq<T>, f: T -> Option<U>): (r: seq<U>)
    ensures |r| <= |s|
  {
    if s == [] then []
    else FilterMap(s[..|s| - 1], f) + (match f(s[|s| - 1]) case None => [] case Some(y) => [y])
  }

  lemma FilterMapSnoc<T, U>(s: seq<T>, k: nat, f: T -> Option<U>)
    requires k < |s|
    ensures FilterMap(s[..k + 1], f) == FilterMap(s[..k], f) + (match f(s[k]) case None => [] case Some(y) => [y])
  {
    assert s[..k + 1][..k] == s[..k];
  }

  lemma {:induction false} FilterMapConcat<T, U>(s: seq<T>, t: seq<T>, f: T -> Option<U>)
    ensures FilterMap(s + t, f) == FilterMap(s, f) + FilterMap(t, f)
  {
    if t == [] {
      assert s + t == s;
    } else {
      assert (s + t)[..|s + t| - 1] == s + t[..|t| - 1];
      FilterMapConcat(s, t[..|t| - 1], f);
    }
  }

  lemma {:induction false} FilterMapMembers<T, U>(s: seq<T>, f: T -> Option<U>, y: U)
    ensures y in FilterMap(s, f) <==> exists i :: 0 <= i < |s| && f(s[i]) == Some(y)
  {
    if s != [] {
      var init, last := s[..|s| - 1], s[|s| - 1];
      FilterMapMembers(init, f, y);
      var r := FilterMap(init, f);
      var tail: seq<U> := match f(last) case None => [] case Some(z) => [z];
      assert FilterMap(s, f) == r + tail;
      assert y in r + tail <==> y in r || y in tail;
      assert y in tail <==> f(last) == Some(y);
      if exists i :: 0 <= i < |init| && f(init[i]) == Some(y) {
        var i :| 0 <= i < |init| && f(init[i]) == Some(y);
        assert s[i] == init[i];
      } else if f(last) == Some(y) {
        assert s[|s| - 1] == last;
      }
      if exists i :: 0 <= i < |s| && f(s[i]) == Some(y) {
        var i :| 0 <= i < |s| && f(s[i]) == Some(y);
        if i < |init| {
          assert init[i] == s[i];
        }
      }
    }
  }

  /** The set of the values `f` gives on `s` (a loop adding to a set). */
  function ImageSet<T, U>(s: seq<T>, f: T -> Option<U>): set<U>
  {
    if s == [] then {}
    else ImageSet(s[..|s| - 1], f) + (match f(s[|s| - 1]) case None => {} case Some(y) => {y})
  }

  lemma ImageSetSnoc<T, U>(s: seq<T>, k: nat, f: T -> Option<U>)
    requires k < |s|
    ensures ImageSet(s[..k + 1], f) == ImageSet(s[..k], f) + (match f(s[k]) case None => {} case Some(y) => {y})
  {
    assert s[..k + 1][..k] == s[..k];
  }

  lemma {:induction false} ImageSetMembers<T, U>(s: seq<T>, f: T -> Option<U>, y: U)
    ensures y in ImageSet(s, f) <==> exists i :: 0 <= i < |s| && f(s[i]) == Some(y)
  {
    if s != [] {
      var init, last := s[..|s| - 1], s[|s| - 1];
      ImageSetMembers(init, f, y);
      var tail: set<U> := match f(last) case None => {} case Some(z) => {z};
      assert ImageSet(s, f) == ImageSet(init, f) + tail;
      assert y in tail <==> f(last) == Some(y);
      if exists i :: 0 <= i < |init| && f(init[i]) == Some(y) {
        var i :| 0 <= i < |init| && f(init[i]) == Some(y);
        assert s[i] == init[i];
      } else if f(last) == Some(y) {
        assert s[|s| - 1] == last;
      }
      if exists i :: 0 <= i < |s| && f(s[i]) == Some(y) {
        var i :| 0 <= i < |s| && f(s[i]) == Some(y);
        if i < |init| {
          assert init[i] == s[i];
        }
      }
    }
  }

  /** The concatenation of a sequence of sequences, in order. */
  function Flatten<T>(ss: seq<seq<T>>): seq<T>
  {
    if ss == [] then [] else Flatten(ss[..|ss| - 1]) + ss[|ss| - 1]
  }

  lemma FlattenSnoc<T>(ss: seq<seq<T>>, k: nat)
    requires k < |ss|
    ensures Flatten(ss[..k + 1]) == Flatten(ss[..k]) + ss[k]
  {
    assert ss[..k + 1][..k] == ss[..k];
  }

  /** The union of the sets `g` gives on `s` (a loop adding each set). */
  function UnionOf<T, U>(s: seq<T>, g: T -> set<U>): set<U>
  {
    if s == [] then {} else UnionOf(s[..|s| - 1], g) + g(s[|s| - 1])
  }

  lemma UnionOfSnoc<T, U>(s: seq<T>, k: nat, g: T -> set<U>)
    requires k < |s|
    ensures UnionOf(s[..k + 1], g) == UnionOf(s[..k], g) + g(s[k])
  {
    assert s[..k + 1][..k] == s[..k];
  }

  lemma {:induction false} UnionOfMembers<T, U>(s: seq<T>, g: T -> set<U>, y: U)
    ensures y in UnionOf(s, g) <==> exists i :: 0 <= i < |s| && y in g(s[i])
  {
    if s != [] {
      var init, last := s[..|s| - 1], s[|s| - 1];
      UnionOfMembers(init, g, y);
      if exists i :: 0 <= i < |init| && y in g(init[i]) {
        var i :| 0 <= i < |init| && y in g(init[i]);
        assert s[i] == init[i];
      } else if y in g(last) {
        assert s[|s| - 1] == last;
      }
      if exists i :: 0 <= i < |s| && y in g(s[i]) {
        var i :| 0 <= i < |s| && y in g(s[i]);
        if i < |init| {
          assert init[i] == s[i];
        }
      }
    }
  }

  /** `filter_map` is a filter on "gives a value" followed by taking the
   *  values. */
  lemma {:induction false} FilterMapIsFilterThenMap<T(!new), U>(s: seq<T>, f: T -> Option<U>)
    ensures |FilterMap(s, f)| == |Filter(s, x => f(x).Some?)|
    ensures forall i :: 0 <= i < |FilterMap(s, f)| ==>
              f(Filter(s, x => f(x).Some?)[i]) == Some(FilterMap(s, f)[i])
  {
    if s != [] {
      FilterMapIsFilterThenMap(s[..|s| - 1], f);
    }
  }

  // ---------------------------------------------------------------------
  // Stable sort by a real-valued key
  // ---------------------------------------------------------------------

  predicate SortedBy<T>(s: seq<T>, key: T -> real)
  {
    forall i, j :: 0 <= i < j < |s| ==> key(s[i]) <= key(s[j])
  }

  /** Places `x` after every element of `t` whose key is not greater than
   *  that of `x`, which is what keeps equal keys in their input order. */
  function InsertBy<T>(t: seq<T>, x: T, key: T -> real): seq<T>
  {
    if t == [] || key(t[|t| - 1]) <= key(x) then t + [x]
    else InsertBy(t[..|t| - 1], x, key) + [t[|t| - 1]]
  }

  /** Stable insertion sort, ascending by `key`; a descending sort is this
   *  sort on the negated key. */
  function SortBy<T>(s: seq<T>, key: T -> real): seq<T>
  {
    if s == [] then [] else InsertBy(SortBy(s[..|s| - 1], key), s[|s| - 1], key)
  }

  lemma {:induction false} InsertByProps<T>(t: seq<T>, x: T, key: T -> real)
    requires SortedBy(t, key)
    ensures SortedBy(InsertBy(t, x, key), key)
    ensures multiset(InsertBy(t, x, key)) == multiset(t) + multiset{x}
  {
    if t == [] || key(t[|t| - 1]) <= key(x) {
      forall y | y in t ensures key(y) <= key(x) {
        var i :| 0 <= i < |t| && t[i] == y;
        assert key(t[i]) <= key(t[|t| - 1]) || i == |t| - 1;
      }
      SortedSnoc(t, x, key);
    } else {
      var init, last := t[..|t| - 1], t[|t| - 1];
      assert t == init + [last];
      InsertByProps(init, x, key);
      var r := InsertBy(init, x, key);
      assert forall i :: 0 <= i < |init| ==> key(init[i]) <= key(last) by {
        assert forall i :: 0 <= i < |init| ==> init[i] == t[i];
      }
      BoundedByLast(init, x, r, last, key);
      SortedSnoc(r, last, key);
      assert InsertBy(t, x, key) == r + [last];
      assert multiset(r + [last]) == multiset(r) + multiset{last};
      assert multiset(t) == multiset(init) + multiset{last};
    }
  }

  /** Every element of a rearrangement of `init + [x]` is at most `last`
   *  when `init` and `x` are. */
  lemma BoundedByLast<T>(init: seq<T>, x: T, r: seq<T>, last: T, key: T -> real)
    requires multiset(r) == multiset(init) + multiset{x}
    requires forall i :: 0 <= i < |init| ==> key(init[i]) <= key(last)
    requires key(x) <= key(last)
    ensures forall y :: y in r ==> key(y) <= key(last)
  {
    forall y | y in r ensures key(y) <= key(last) {
      assert y in multiset(r);
      if y != x {
        assert y in multiset(init);
        var i :| 0 <= i < |init| && init[i] == y;
      }
    }
  }

  lemma SortedSnoc<T>(r: seq<T>, last: T, key: T -> real)
    requires SortedBy(r, key)
    requires forall y :: y in r ==> key(y) <= key(last)
    ensures SortedBy(r + [last], key)
  {
    var full := r + [last];
    forall i, j | 0 <= i < j < |full| ensures key(full[i]) <= key(full[j]) {
      if j == |full| - 1 {
        assert full[i] in r;
      } else {
        assert full[i] == r[i] && full[j] == r[j];
      }
    }
  }

  /** The sort returns its input, reordered, in ascending key order. */
  lemma {:induction false} SortByProps<T>(s: seq<T>, key: T -> real)
    ensures SortedBy(SortBy(s, key), key)
    ensures multiset(SortBy(s, key)) == multiset(s)
    ensures |SortBy(s, key)| == |s|
  {
    if s != [] {
      var init := s[..|s| - 1];
      assert s == init + [s[|s| - 1]];
      SortByProps(init, key);
      InsertByProps(SortBy(init, key), s[|s| - 1], key);
    }
    assert |SortBy(s, key)| == |multiset(SortBy(s, key))|;
  }

  function HasKey<T>(key: T -> real, k: real): T -> bool
  {
    e => key(e) == k
  }

  lemma {:induction false} InsertByStable<T(!new)>(t: seq<T>, x: T, key: T -> real, k: real)
    ensures Filter(InsertBy(t, x, key), HasKey(key, k))
         == Filter(t, HasKey(key, k)) + (if key(x) == k then [x] else [])
  {
    var p := HasKey(key, k);
    if t == [] || key(t[|t| - 1]) <= key(x) {
      assert InsertBy(t, x, key) == t + [x];
      FilterSnoc(t, x, p);
    } else {
      var init, last := t[..|t| - 1], t[|t| - 1];
      InsertByStable(init, x, key, k);
      var r := InsertBy(init, x, key);
      assert InsertBy(t, x, key) == r + [last];
      FilterSnoc(r, last, p);
      InitLast(t);
      FilterSnoc(init, last, p);
      var fi := Filter(init, p);
      if p(last) {
        assert !p(x);
        assert Filter(InsertBy(t, x, key), p) == fi + [last];
      } else if p(x) {
        assert Filter(InsertBy(t, x, key), p) == fi + [x];
      } else {
        assert Filter(InsertBy(t, x, key), p) == fi;
      }
    }
  }

  lemma FilterSnoc<T(!new)>(s: seq<T>, x: T, p: T -> bool)
    ensures Filter(s + [x], p) == Filter(s, p) + (if p(x) then [x] else [])
  {
    assert (s + [x])[..|s + [x]| - 1] == s;
  }

  /** Stability: the elements that share one key come out in input order. */
  lemma {:induction false} SortByStable<T(!new)>(s: seq<T>, key: T -> real, k: real)
    ensures Filter(SortBy(s, key), HasKey(key, k)) == Filter(s, HasKey(key, k))
  {
    if s != [] {
      var init := s[..|s| - 1];
      SortByStable(init, key, k);
      InsertByStable(SortBy(init, key), s[|s| - 1], key, k);
    }
  }

  /** In a sorted rearrangement of `t`, the first element has the least key
   *  and the last the greatest. */
  lemma SortedEnds<T>(s: seq<T>, t: seq<T>, key: T -> real)
    requires SortedBy(s, key) && multiset(s) == multiset(t) && |s| > 0
    ensures forall x :: x in t ==> key(s[0]) <= key(x) <= key(s[|s| - 1])
  {
    forall x | x in t ensures key(s[0]) <= key(x) <= key(s[|s| - 1]) {
      assert x in multiset(t);
      assert x in multiset(s);
      var i :| 0 <= i < |s| && s[i] == x;
    }
  }

  /** |A ∩ B| + |A ∪ B| == |A| + |B|, and the intersection is no bigger
   *  than either set or the union. */
  lemma JaccardParts<T>(va: set<T>, vb: set<T>)
    ensures |va * vb| + |va + vb| == |va| + |vb|
    ensures |va * vb| <= |va| && |va * vb| <= |vb| && |va * vb| <= |va + vb|
  {
    SplitCard(va, vb);
    SplitCard(vb, va);
    assert vb * va == va * vb;
    UnionCard(va, vb);
  }

  lemma SplitCard<T>(x: set<T>, y: set<T>)
    ensures |x| == |x * y| + |x - y|
  {
    assert x == (x * y) + (x - y);
    assert (x * y) * (x - y) == {};
  }

  lemma UnionCard<T>(x: set<T>, y: set<T>)
    ensures |x + y| == |x| + |y - x|
  {
    assert x + y == x + (y - x);
    assert x * (y - x) == {};
  }

  /** A part over a positive whole lies in [0, 1], and is positive exactly
   *  when the part is. */
  lemma RatioBounds(n: nat, d: nat)
    requires 0 < d && n <= d
    ensures 0.0 <= n as real / d as real <= 1.0
    ensures n as real / d as real > 0.0 <==> n > 0
  {
    var r := n as real / d as real;
    assert r * d as real == n as real;
  }

  lemma TakeSnoc<T>(s: seq<T>, i: nat)
    requires i < |s|
    ensures s[..i + 1] == s[..i] + [s[i]]
  {
  }

  lemma TakeAll<T>(s: seq<T>)
    ensures s[..|s|] == s
  {
  }

  lemma InitLast<T>(s: seq<T>)
    requires |s| > 0
    ensures s == s[..|s| - 1] + [s[|s| - 1]]
  {
  }

  lemma NoDupSnoc<T>(s: seq<T>, x: T)
    requires NoDup(s) && x !in s
    ensures NoDup(s + [x])
  {
  }

  /** `m` counts the values of `xs`: its keys are the values and each maps to
   *  its number of occurrences (a `HashMap` filled by `entry(..) += 1`). */
  ghost predicate CountMapOf<T(!new)>(m: map<T, nat>, xs: seq<T>)
  {
    (forall t :: t in m <==> t in xs) && forall t :: t in m ==> m[t] == Count(xs, t)
  }

  /** Counting one more value adds one to its entry, or adds the entry. */
  lemma CountMapSnoc<T(!new)>(m: map<T, nat>, xs: seq<T>, x: T)
    requires CountMapOf(m, xs)
    ensures CountMapOf(m[x := (if x in m then m[x] else 0) + 1], xs + [x])
  {
    var m2 := m[x := (if x in m then m[x] else 0) + 1];
    assert (xs + [x])[..|xs|] == xs;
    CountBounds(xs, x);
    forall t | t in m2 ensures m2[t] == Count(xs + [x], t) {
      if t != x {
        assert t in m;
      }
    }
  }

  /** A strictly increasing sequence is determined by its set of elements. */
  lemma {:induction false} StrictlySortedUnique(a: seq<int>, b: seq<int>)
    requires forall i, j :: 0 <= i < j < |a| ==> a[i] < a[j]
    requires forall i, j :: 0 <= i < j < |b| ==> b[i] < b[j]
    requires forall x :: x in a <==> x in b
    ensures a == b
  {
    if a != [] && b != [] {
      var la, lb := a[|a| - 1], b[|b| - 1];
      assert la in b && lb in a;
      assert la == lb by {
        var i :| 0 <= i < |b| && b[i] == la;
        var j :| 0 <= j < |a| && a[j] == lb;
        assert la <= lb && lb <= la;
      }
      var ia, ib := a[..|a| - 1], b[..|b| - 1];
      forall x ensures x in ia <==> x in ib {
        if x in ia {
          var i :| 0 <= i < |ia| && ia[i] == x;
          assert a[i] == x && x < la;
          assert x in b;
          var j :| 0 <= j < |b| && b[j] == x;
          assert j < |b| - 1;
          assert ib[j] == x;
        }
        if x in ib {
          var i :| 0 <= i < |ib| && ib[i] == x;
          assert b[i] == x && x < lb;
          assert x in a;
          var j :| 0 <= j < |a| && a[j] == x;
          assert j < |a| - 1;
          assert ia[j] == x;
        }
      }
      StrictlySortedUnique(ia, ib);
      InitLast(a);
      InitLast(b);
    } else {
      FirstIsMember(a);
      FirstIsMember(b);
    }
  }

  lemma FirstIsMember<T>(s: seq<T>)
    ensures s != [] ==> s[0] in s
  {
  }

  /** Some element of a non-empty set. */
  lemma Pick<T>(s: set<T>) returns (x: T)
    requires s != {}
    ensures x in s
  {
    x :| x in s;
  }

  /** The distinct elements of a sequence (a `collect()` into a `HashSet`). */
  function Distinct<T(!new)>(s: seq<T>): (r: set<T>)
    ensures forall x :: x in r <==> x in s
  {
    set x | x in s
  }

  /** A sequence has at least as many elements as it has distinct ones. */
  lemma {:induction false} DistinctCard<T(!new)>(s: seq<T>)
    ensures |Distinct(s)| <= |s|
  {
    if s != [] {
      var init := s[..|s| - 1];
      InitLast(s);
      DistinctCard(init);
      assert Distinct(s) == Distinct(init) + {s[|s| - 1]};
    }
  }

  /** The values of `m` at the keys `ks`, in order. */
  function ValuesAt<T>(m: map<T, nat>, ks: seq<T>): (r: seq<nat>)
    requires forall k :: k in ks ==> k in m
    ensures |r| == |ks| && forall i :: 0 <= i < |ks| ==> r[i] == m[ks[i]]
  {
    seq(|ks|, i requires 0 <= i < |ks| => m[ks[i]])
  }

  /** The keys of a count map are the distinct values, and however its keys
   *  are enumerated, each once, its values add up to the number of values
   *  counted. */
  lemma CountMapTotal<T(!new)>(m: map<T, nat>, xs: seq<T>, ks: seq<T>)
    requires CountMapOf(m, xs)
    requires NoDup(ks) && forall k :: k in ks <==> k in m
    ensures m.Keys == Distinct(xs)
    ensures Sum(ValuesAt(m, ks)) == |xs|
  {
    assert ValuesAt(m, ks) == CountsOf(ks, xs);
    SumCountsOf(ks, xs);
  }

  /** Filtering keeps every occurrence of an element that satisfies the
   *  predicate and none of one that does not. */
  lemma {:induction false} FilterCount<T(!new)>(s: seq<T>, p: T -> bool, x: T)
    ensures Count(Filter(s, p), x) == if p(x) then Count(s, x) else 0
  {
    if s != [] {
      var init := s[..|s| - 1];
      FilterCount(init, p, x);
      var last := s[|s| - 1];
      var f := Filter(init, p);
      if p(last) {
        var g := f + [last];
        assert Filter(s, p) == g;
        assert g[..|g| - 1] == f;
        assert Count(g, x) == Count(f, x) + (if last == x then 1 else 0);
      } else {
        assert Filter(s, p) == f + [] == f;
      }
    }
  }
}
