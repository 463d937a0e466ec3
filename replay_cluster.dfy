/** Replay clustering (chzzk-chat/src/data/chat/replay_cluster.rs): replays
 *  that have a chat log are compared pairwise by the Jaccard similarity of
 *  their viewer sets, pairs at or above a threshold are joined in a
 *  union-find forest, and every class of two or more replays becomes a
 *  cluster, reported with its mean intra-cluster similarity in descending
 *  order of that mean. */
module ReplayCluster {
  import opened Wrappers
  import opened Seqs
  import opened Models

  datatype ReplayWithChannel = ReplayWithChannel(replay: Replay, channelId: string, channelName: string)

  datatype Cluster = Cluster(replays: seq<ReplayWithChannel>, averageSimilarity: real)

  // ---------------------------------------------------------------------
  // Similarity
  // ---------------------------------------------------------------------

  /** `calculate_replay_similarity`: 0 when either replay has no viewer set,
   *  an empty one, or none in common; otherwise the size of the common part
   *  over the size of the union, the latter computed as |A| + |B| - inter.
   *  The source counts the common viewers by walking the smaller set. */
  function Similarity(a: ReplayWithChannel, b: ReplayWithChannel, viewers: Viewers): real
  {
    if a.replay.videoNo !in viewers || b.replay.videoNo !in viewers then 0.0
    else
      var va := viewers[a.replay.videoNo];
      var vb := viewers[b.replay.videoNo];
      if |va| == 0 || |vb| == 0 then 0.0
      else
        var small := if |va| <= |vb| then va else vb;
        var large := if |va| <= |vb| then vb else va;
        var inter := |small * large|;
        if inter == 0 then 0.0
        else inter as real / (|va| + |vb| - inter) as real
  }

  /** The two replays have viewer sets with someone in common. */
  predicate Share(a: ReplayWithChannel, b: ReplayWithChannel, viewers: Viewers)
  {
    a.replay.videoNo in viewers && b.replay.videoNo in viewers
    && viewers[a.replay.videoNo] * viewers[b.replay.videoNo] != {}
  }

  /** The similarity is the Jaccard index of the two viewer sets when they
   *  meet, and 0 otherwise; it is symmetric and lies in (0, 1] exactly when
   *  the sets meet. */
  lemma SimilarityProps(a: ReplayWithChannel, b: ReplayWithChannel, viewers: Viewers)
    ensures Similarity(a, b, viewers) == Similarity(b, a, viewers)
    ensures !Share(a, b, viewers) ==> Similarity(a, b, viewers) == 0.0
    ensures Share(a, b, viewers) ==>
              var va := viewers[a.replay.videoNo];
              var vb := viewers[b.replay.videoNo];
              Similarity(a, b, viewers) == |va * vb| as real / |va + vb| as real
              && 0.0 < Similarity(a, b, viewers) <= 1.0
  {
    if a.replay.videoNo in viewers && b.replay.videoNo in viewers {
      var va := viewers[a.replay.videoNo];
      var vb := viewers[b.replay.videoNo];
      assert va * vb == vb * va;
      assert va + vb == vb + va;
      JaccardParts(va, vb);
      if va * vb != {} {
        var inter := |va * vb|;
        assert |va| > 0 && |vb| > 0;
        assert |va| + |vb| - inter == |va + vb|;
        assert Similarity(a, b, viewers) == inter as real / |va + vb| as real;
        assert Similarity(b, a, viewers) == inter as real / |va + vb| as real;
        RatioBounds(inter, |va + vb|);
      } else {
        assert |va * vb| == 0;
      }
    }
  }

  lemma SimilarityRange(a: ReplayWithChannel, b: ReplayWithChannel, viewers: Viewers)
    ensures 0.0 <= Similarity(a, b, viewers) <= 1.0
  {
    SimilarityProps(a, b, viewers);
  }

  // ---------------------------------------------------------------------
  // Viewer sets and the replays that have a chat log
  // ---------------------------------------------------------------------

  /** The first loop of `cluster_similar_replays`: every logged video's
   *  viewer set, and the set of videos with a chat log. */
  method BuildViewers(logs: seq<ChatLog>) returns (viewers: Viewers, withLog: set<nat>)
    ensures withLog == viewers.Keys == VideoIds(logs)
    ensures forall v :: v in viewers ==> viewers[v] == UsersOfVideo(logs, v)
  {
    viewers, withLog := map[], {};
    for i := 0 to |logs|
      invariant withLog == viewers.Keys
      invariant ViewersOf(viewers, logs[..i])
    {
      var log := logs[i];
      withLog := withLog + {log.videoId};
      var users := if log.videoId in viewers then viewers[log.videoId] else {};
      users := InsertUserIds(users, log.messages);
      ViewersStep(viewers, logs, i, users);
      viewers := viewers[log.videoId := users];
    }
    TakeAll(logs);
  }

  /** The replays of one channel whose video has a chat log, tagged with the
   *  channel. */
  function ChannelCandidates(c: Channel, withLog: set<nat>): seq<ReplayWithChannel>
  {
    FilterMap(c.replays, TagIfLogged(c, withLog))
  }

  /** A replay of `c` tagged with the channel, when its video has a chat
   *  log. */
  function TagIfLogged(c: Channel, withLog: set<nat>): Replay -> Option<ReplayWithChannel>
  {
    (rp: Replay) => if rp.videoNo in withLog then Some(ReplayWithChannel(rp, c.channelId, c.name)) else None
  }

  /** The replays, channel by channel, whose video has a chat log. */
  function Candidates(channels: seq<Channel>, withLog: set<nat>): seq<ReplayWithChannel>
  {
    if channels == [] then []
    else Candidates(channels[..|channels| - 1], withLog) + ChannelCandidates(channels[|channels| - 1], withLog)
  }

  /** A candidate is a replay of one of the channels, tagged with that
   *  channel, whose video has a chat log; every such replay is one. */
  lemma {:induction false} CandidatesMembers(channels: seq<Channel>, withLog: set<nat>, x: ReplayWithChannel)
    ensures x in Candidates(channels, withLog) <==>
              x.replay.videoNo in withLog && exists i :: 0 <= i < |channels| && TaggedBy(channels[i], x)
  {
    if channels != [] {
      var init := channels[..|channels| - 1];
      var c := channels[|channels| - 1];
      CandidatesMembers(init, withLog, x);
      FilterMapMembers(c.replays, TagIfLogged(c, withLog), x);
      var before := Candidates(init, withLog);
      var here := ChannelCandidates(c, withLog);
      assert Candidates(channels, withLog) == before + here;
      assert x in before + here <==> x in before || x in here;
      if x.replay.videoNo in withLog && exists i :: 0 <= i < |channels| && TaggedBy(channels[i], x) {
        var i :| 0 <= i < |channels| && TaggedBy(channels[i], x);
        if i < |init| {
          assert init[i] == channels[i];
        } else {
          var q :| 0 <= q < |c.replays| && c.replays[q] == x.replay;
        }
      }
      if x in Candidates(init, withLog) {
        var i :| 0 <= i < |init| && TaggedBy(init[i], x);
        assert channels[i] == init[i];
      }
    }
  }

  /** `x` is a replay of `c` tagged with `c`'s id and name. */
  predicate TaggedBy(c: Channel, x: ReplayWithChannel)
  {
    x.replay in c.replays && x.channelId == c.channelId && x.channelName == c.name
  }

  /** The second loop of `cluster_similar_replays`. */
  method CollectCandidates(channels: seq<Channel>, withLog: set<nat>) returns (r: seq<ReplayWithChannel>)
    ensures r == Candidates(channels, withLog)
  {
    r := [];
    var i := 0;
    while i < |channels|
      invariant 0 <= i <= |channels|
      invariant r == Candidates(channels[..i], withLog)
    {
      var c := channels[i];
      assert channels[..i + 1][..i] == channels[..i];
      var more := ChannelReplays(c, withLog);
      r := r + more;
      i := i + 1;
    }
    assert channels[..i] == channels;
  }

  /** The inner loop over one channel's replays. */
  method ChannelReplays(c: Channel, withLog: set<nat>) returns (r: seq<ReplayWithChannel>)
    ensures r == ChannelCandidates(c, withLog)
  {
    var tag := TagIfLogged(c, withLog);
    r := [];
    var k := 0;
    while k < |c.replays|
      invariant 0 <= k <= |c.replays|
      invariant r == FilterMap(c.replays[..k], tag)
    {
      var rp := c.replays[k];
      assert c.replays[..k + 1] == c.replays[..k] + [rp];
      FilterMapConcat(c.replays[..k], [rp], tag);
      if rp.videoNo in withLog {
        r := r + [ReplayWithChannel(rp, c.channelId, c.name)];
      }
      k := k + 1;
    }
    assert c.replays[..k] == c.replays;
  }

  // ---------------------------------------------------------------------
  // Union-find forests
  // ---------------------------------------------------------------------

  /** `p` is a parent array over `0..|p|` and `lv` a rank that strictly
   *  drops from a node to its parent, so every path reaches a root. */
  predicate Forest(p: seq<nat>, lv: seq<nat>)
  {
    |lv| == |p|
    && (forall x :: 0 <= x < |p| ==> p[x] < |p|)
    && (forall x :: 0 <= x < |p| && p[x] != x ==> lv[p[x]] < lv[x])
  }

  /** The root reached from `x` by following parents. */
  function RootIn(p: seq<nat>, lv: seq<nat>, x: nat): nat
    requires Forest(p, lv) && x < |p|
    decreases lv[x]
  {
    if p[x] == x then x else RootIn(p, lv, p[x])
  }

  lemma {:induction false} RootProps(p: seq<nat>, lv: seq<nat>, x: nat)
    requires Forest(p, lv) && x < |p|
    ensures RootIn(p, lv, x) < |p| && p[RootIn(p, lv, x)] == RootIn(p, lv, x)
    ensures lv[RootIn(p, lv, x)] <= lv[x]
    ensures p[x] != x ==> lv[RootIn(p, lv, x)] < lv[x]
    decreases lv[x]
  {
    if p[x] != x {
      RootProps(p, lv, p[x]);
    }
  }

  /** The root of every node: the class labels of the forest. */
  function Labels(p: seq<nat>, lv: seq<nat>): (r: seq<nat>)
    requires Forest(p, lv)
  {
    seq(|p|, z requires 0 <= z < |p| => RootIn(p, lv, z))
  }

  /** Pointing `x` straight at its root changes no node's root. */
  lemma {:induction false} CompressRoot(p: seq<nat>, lv: seq<nat>, x: nat, y: nat)
    requires Forest(p, lv) && x < |p| && y < |p|
    requires Forest(p[x := RootIn(p, lv, x)], lv)
    ensures RootIn(p[x := RootIn(p, lv, x)], lv, y) == RootIn(p, lv, y)
    decreases lv[y]
  {
    var r := RootIn(p, lv, x);
    var q := p[x := r];
    RootProps(p, lv, x);
    if y == x {
      if r != x {
        assert q[r] == r;
      }
    } else if p[y] != y {
      CompressRoot(p, lv, x, p[y]);
    }
  }

  lemma CompressForest(p: seq<nat>, lv: seq<nat>, x: nat)
    requires Forest(p, lv) && x < |p|
    ensures Forest(p[x := RootIn(p, lv, x)], lv)
    ensures Labels(p[x := RootIn(p, lv, x)], lv) == Labels(p, lv)
  {
    RootProps(p, lv, x);
    if p[x] != x {
      RootProps(p, lv, p[x]);
    }
    forall y | 0 <= y < |p| ensures RootIn(p[x := RootIn(p, lv, x)], lv, y) == RootIn(p, lv, y) {
      CompressRoot(p, lv, x, y);
    }
  }

  /** The ranks after root `px` is linked under another root: every node of
   *  `px`'s class is raised by `k`. */
  function Relevel(p: seq<nat>, lv: seq<nat>, px: nat, k: nat): (r: seq<nat>)
    requires Forest(p, lv)
  {
    seq(|p|, z requires 0 <= z < |p| => if RootIn(p, lv, z) == px then lv[z] + k else lv[z])
  }

  /** Linking root `px` under root `py` keeps a forest. */
  lemma LinkForest(p: seq<nat>, lv: seq<nat>, px: nat, py: nat)
    requires Forest(p, lv) && px < |p| && py < |p| && p[px] == px && p[py] == py && px != py
    ensures Forest(p[px := py], Relevel(p, lv, px, lv[py] + 1))
  {
    var q := p[px := py];
    var lw := Relevel(p, lv, px, lv[py] + 1);
    forall z | 0 <= z < |q| && q[z] != z ensures lw[q[z]] < lw[z] {
      if z != px {
        assert RootIn(p, lv, p[z]) == RootIn(p, lv, z);
      }
    }
  }

  /** After linking, the nodes of `px`'s class have root `py` and every other
   *  node keeps its root. */
  lemma {:induction false} LinkRoot(p: seq<nat>, lv: seq<nat>, px: nat, py: nat, z: nat)
    requires Forest(p, lv) && px < |p| && py < |p| && p[px] == px && p[py] == py && px != py
    requires z < |p|
    requires Forest(p[px := py], Relevel(p, lv, px, lv[py] + 1))
    ensures RootIn(p[px := py], Relevel(p, lv, px, lv[py] + 1), z)
            == if RootIn(p, lv, z) == px then py else RootIn(p, lv, z)
    decreases lv[z]
  {
    var q := p[px := py];
    var lw := Relevel(p, lv, px, lv[py] + 1);
    if z == px {
      assert q[py] == py;
    } else if p[z] != z {
      LinkRoot(p, lv, px, py, p[z]);
    }
  }

  /** Relabelling: every node labelled like `a` takes `b`'s label. */
  function Merge(lab: seq<nat>, a: nat, b: nat): (r: seq<nat>)
    requires a < |lab| && b < |lab|
  {
    seq(|lab|, z requires 0 <= z < |lab| => if lab[z] == lab[a] then lab[b] else lab[z])
  }

  /** After a merge, two nodes share a label exactly when they did before or
   *  both were in the classes of `a` and `b`: no other classes meet. */
  lemma MergeExact(lab: seq<nat>, a: nat, b: nat, i: nat, j: nat)
    requires a < |lab| && b < |lab| && i < |lab| && j < |lab|
    ensures |Merge(lab, a, b)| == |lab|
    ensures Merge(lab, a, b)[i] == Merge(lab, a, b)[j] <==>
              lab[i] == lab[j]
              || ((lab[i] == lab[a] || lab[i] == lab[b]) && (lab[j] == lab[a] || lab[j] == lab[b]))
  {
  }

  /** The labels of the identity forest. */
  function Identity(n: nat): seq<nat>
  {
    seq(n, i => i)
  }

  /** The union-find forest of `cluster_similar_replays`: the `parent`
   *  vector, updated in place by `find` and `union`. The rank is ghost. */
  class UnionFind {
    var parent: array<nat>
    ghost var level: seq<nat>

    ghost predicate Valid()
      reads this, parent
    {
      Forest(parent[..], level)
    }

    /** The class label (root) of every element. */
    ghost function Roots(): seq<nat>
      reads this, parent
      requires Valid()
    {
      Labels(parent[..], level)
    }

    /** `(0..n).collect()`: every element is its own root. */
    constructor (n: nat)
      ensures Valid() && fresh(parent) && parent.Length == n
      ensures Roots() == Identity(n)
    {
      parent := new nat[n](i => i);
      level := seq(n, i => 0);
    }

    /** `find` with path compression: the root of `x`; no element's root
     *  changes. */
    method Find(x: nat) returns (r: nat)
      requires Valid() && x < parent.Length
      modifies parent
      ensures Valid()
      ensures r < parent.Length && parent[r] == r
      ensures r == old(Roots())[x]
      ensures Roots() == old(Roots())
      decreases level[x]
    {
      ghost var p0 := parent[..];
      ghost var lab0 := Roots();
      if parent[x] != x {
        var px := parent[x];
        assert lab0[x] == RootIn(p0, level, x) == RootIn(p0, level, px) == lab0[px];
        var root := Find(px);
        ghost var p := parent[..];
        assert root == Roots()[x] == RootIn(p, level, x);
        CompressForest(p, level, x);
        parent[x] := root;
        assert parent[..] == p[x := root];
      }
      r := parent[x];
      RootProps(parent[..], level, x);
    }

    /** `union`: the class of `x` joins the class of `y`; every other class
     *  is left as it was. */
    method Union(x: nat, y: nat)
      requires Valid() && x < parent.Length && y < parent.Length
      modifies this, parent
      ensures Valid() && parent == old(parent)
      ensures Roots() == Merge(old(Roots()), x, y)
    {
      var px := Find(x);
      assert Roots()[px] == RootIn(parent[..], level, px) == px;
      var py := Find(y);
      ghost var p := parent[..];
      ghost var lv := level;
      assert Roots()[px] == RootIn(p, lv, px) == px;
      RootProps(p, lv, px);
      if px != py {
        LinkLabels(p, lv, px, py, x, y);
        ghost var q := p[px := py];
        ghost var lw := Relevel(p, lv, px, lv[py] + 1);
        parent[px] := py;
        level := lw;
        assert parent[..] == q;
        assert Forest(q, lw);
      } else {
        MergeSame(Roots(), x, y);
      }
    }
  }

  /** Linking the root of `x` under the root of `y` relabels the forest as
   *  `Merge` says. */
  lemma LinkLabels(p: seq<nat>, lv: seq<nat>, px: nat, py: nat, x: nat, y: nat)
    requires Forest(p, lv) && x < |p| && y < |p|
    requires px == RootIn(p, lv, x) && py == RootIn(p, lv, y) && px < |p| && py < |p|
    requires p[px] == px && p[py] == py && px != py
    ensures Forest(p[px := py], Relevel(p, lv, px, lv[py] + 1))
    ensures Labels(p[px := py], Relevel(p, lv, px, lv[py] + 1)) == Merge(Labels(p, lv), x, y)
  {
    LinkForest(p, lv, px, py);
    var lab := Labels(p, lv);
    forall z | 0 <= z < |p| ensures RootIn(p[px := py], Relevel(p, lv, px, lv[py] + 1), z) == Merge(lab, x, y)[z] {
      LinkRoot(p, lv, px, py, z);
    }
  }

  /** Merging two elements of one class changes nothing. */
  lemma MergeSame(lab: seq<nat>, x: nat, y: nat)
    requires x < |lab| && y < |lab| && lab[x] == lab[y]
    ensures Merge(lab, x, y) == lab
  {
  }

  // ---------------------------------------------------------------------
  // The pairs to join, and the classes they make
  // ---------------------------------------------------------------------

  /** The pairs `(i, j)` with `j` from `j0` on whose similarity reaches the
   *  threshold: one row of the pair scan. */
  function RowPairs(rs: seq<ReplayWithChannel>, viewers: Viewers, th: real, i: nat, j: nat): seq<(nat, nat)>
    decreases |rs| - j
  {
    if i >= |rs| || j >= |rs| then []
    else (if Similarity(rs[i], rs[j], viewers) >= th then [(i, j)] else []) + RowPairs(rs, viewers, th, i, j + 1)
  }

  function PairsFrom(rs: seq<ReplayWithChannel>, viewers: Viewers, th: real, i: nat): seq<(nat, nat)>
    decreases |rs| - i
  {
    if i >= |rs| then [] else RowPairs(rs, viewers, th, i, i + 1) + PairsFrom(rs, viewers, th, i + 1)
  }

  /** `pairs_to_union`: every pair `i < j` at or above the threshold, in
   *  the order of `i`, then of `j` (the parallel collect keeps that order). */
  function PairsToUnion(rs: seq<ReplayWithChannel>, viewers: Viewers, th: real): seq<(nat, nat)>
  {
    PairsFrom(rs, viewers, th, 0)
  }

  /** The pair's two replays are similar enough to be joined. */
  predicate Joined(rs: seq<ReplayWithChannel>, viewers: Viewers, th: real, p: (nat, nat))
  {
    p.0 < p.1 < |rs| && Similarity(rs[p.0], rs[p.1], viewers) >= th
  }

  lemma {:induction false} RowPairsMembers(rs: seq<ReplayWithChannel>, viewers: Viewers, th: real, i: nat, j: nat, p: (nat, nat))
    requires i < j
    ensures p in RowPairs(rs, viewers, th, i, j) <==> p.0 == i && j <= p.1 && Joined(rs, viewers, th, p)
    decreases |rs| - j
  {
    if i < |rs| && j < |rs| {
      RowPairsMembers(rs, viewers, th, i, j + 1, p);
    }
  }

  lemma {:induction false} PairsFromMembers(rs: seq<ReplayWithChannel>, viewers: Viewers, th: real, i: nat, p: (nat, nat))
    ensures p in PairsFrom(rs, viewers, th, i) <==> i <= p.0 && Joined(rs, viewers, th, p)
    decreases |rs| - i
  {
    if i < |rs| {
      RowPairsMembers(rs, viewers, th, i, i + 1, p);
      PairsFromMembers(rs, viewers, th, i + 1, p);
    }
  }

  /** The pairs to join are exactly the pairs `i < j` whose similarity
   *  reaches the threshold. */
  lemma PairsToUnionMembers(rs: seq<ReplayWithChannel>, viewers: Viewers, th: real, p: (nat, nat))
    ensures p in PairsToUnion(rs, viewers, th) <==> Joined(rs, viewers, th, p)
  {
    PairsFromMembers(rs, viewers, th, 0, p);
  }

  /** Every pair names two elements of `0..n`. */
  predicate InRange(ps: seq<(nat, nat)>, n: nat)
  {
    forall k :: 0 <= k < |ps| ==> ps[k].0 < n && ps[k].1 < n
  }

  lemma PairsInRange(rs: seq<ReplayWithChannel>, viewers: Viewers, th: real)
    ensures InRange(PairsToUnion(rs, viewers, th), |rs|)
  {
    var ps := PairsToUnion(rs, viewers, th);
    forall k | 0 <= k < |ps| ensures ps[k].0 < |rs| && ps[k].1 < |rs| {
      PairsToUnionMembers(rs, viewers, th, ps[k]);
    }
  }

  /** The labels after merging along every pair in turn. */
  function MergeAll(lab: seq<nat>, ps: seq<(nat, nat)>): (r: seq<nat>)
    requires InRange(ps, |lab|)
    ensures |r| == |lab|
  {
    if ps == [] then lab
    else
      var last := ps[|ps| - 1];
      Merge(MergeAll(lab, ps[..|ps| - 1]), last.0, last.1)
  }

  /** Both ends of every merged pair end up with one label. */
  lemma {:induction false} MergeAllJoins(lab: seq<nat>, ps: seq<(nat, nat)>, k: nat)
    requires InRange(ps, |lab|) && k < |ps|
    ensures MergeAll(lab, ps)[ps[k].0] == MergeAll(lab, ps)[ps[k].1]
  {
    var init := ps[..|ps| - 1];
    var last := ps[|ps| - 1];
    var m := MergeAll(lab, init);
    if k < |init| {
      MergeAllJoins(lab, init, k);
      assert init[k] == ps[k];
      MergeExact(m, last.0, last.1, ps[k].0, ps[k].1);
    } else {
      MergeExact(m, last.0, last.1, last.0, last.1);
    }
  }

  /** The class label of every candidate once all pairs are joined. */
  function ClassLabels(rs: seq<ReplayWithChannel>, viewers: Viewers, th: real): (r: seq<nat>)
    ensures |r| == |rs|
  {
    PairsInRange(rs, viewers, th);
    MergeAll(Identity(|rs|), PairsToUnion(rs, viewers, th))
  }

  /** Two candidates similar enough to be joined share a class. */
  lemma JoinedShareClass(rs: seq<ReplayWithChannel>, viewers: Viewers, th: real, i: nat, j: nat)
    requires Joined(rs, viewers, th, (i, j))
    ensures ClassLabels(rs, viewers, th)[i] == ClassLabels(rs, viewers, th)[j]
  {
    var ps := PairsToUnion(rs, viewers, th);
    PairsToUnionMembers(rs, viewers, th, (i, j));
    PairsInRange(rs, viewers, th);
    var k :| 0 <= k < |ps| && ps[k] == (i, j);
    MergeAllJoins(Identity(|rs|), ps, k);
  }

  /** The indices below `k` labelled `l`, in increasing order. */
  function MembersUpTo(lab: seq<nat>, l: nat, k: nat): (r: seq<nat>)
    requires k <= |lab|
    ensures forall t :: 0 <= t < |r| ==> r[t] < k && lab[r[t]] == l
  {
    if k == 0 then []
    else MembersUpTo(lab, l, k - 1) + (if lab[k - 1] == l then [k - 1] else [])
  }

  /** The members of class `l`. */
  function Members(lab: seq<nat>, l: nat): (r: seq<nat>)
    ensures forall t :: 0 <= t < |r| ==> r[t] < |lab| && lab[r[t]] == l
  {
    MembersUpTo(lab, l, |lab|)
  }

  /** The members of a class come in increasing order, and every index with
   *  that label is one of them. */
  lemma {:induction false} MembersUpToProps(lab: seq<nat>, l: nat, k: nat)
    requires k <= |lab|
    ensures forall t, u :: 0 <= t < u < |MembersUpTo(lab, l, k)| ==> MembersUpTo(lab, l, k)[t] < MembersUpTo(lab, l, k)[u]
    ensures forall i :: 0 <= i < k && lab[i] == l ==> i in MembersUpTo(lab, l, k)
  {
    if k > 0 {
      MembersUpToProps(lab, l, k - 1);
    }
  }

  /** Every candidate is in the class of its own label, and classes with
   *  different labels share no member. */
  lemma MembersPartition(lab: seq<nat>, i: nat, l: nat, l': nat)
    requires i < |lab|
    ensures i in Members(lab, lab[i])
    ensures l != l' ==> forall t :: t in Members(lab, l) ==> t !in Members(lab, l')
  {
    MembersUpToProps(lab, lab[i], |lab|);
  }

  lemma {:induction false} MembersAbsent(lab: seq<nat>, l: nat, k: nat)
    requires k <= |lab| && l !in lab[..k]
    ensures MembersUpTo(lab, l, k) == []
  {
    if k > 0 {
      assert lab[..k] == lab[..k - 1] + [lab[k - 1]];
      MembersAbsent(lab, l, k - 1);
    }
  }

  // ---------------------------------------------------------------------
  // Average similarity within a cluster
  // ---------------------------------------------------------------------

  /** The similarities of `rs[i]` to `rs[i+1..j]`. */
  function RowTotal(rs: seq<ReplayWithChannel>, viewers: Viewers, i: nat, j: nat): real
    requires i < |rs| && j <= |rs|
  {
    if j <= i + 1 then 0.0 else RowTotal(rs, viewers, i, j - 1) + Similarity(rs[i], rs[j - 1], viewers)
  }

  /** The similarities of all pairs `t < u` with `t < i`. */
  function TotalUpTo(rs: seq<ReplayWithChannel>, viewers: Viewers, i: nat): real
    requires i <= |rs|
  {
    if i == 0 then 0.0 else TotalUpTo(rs, viewers, i - 1) + RowTotal(rs, viewers, i - 1, |rs|)
  }

  /** The number of pairs `t < u < m` with `t < i`. */
  function PairsUpTo(m: nat, i: nat): nat
    requires i <= m
  {
    if i == 0 then 0 else PairsUpTo(m, i - 1) + (m - i)
  }

  /** The mean similarity over all pairs of the cluster, or 0 without pairs. */
  function AverageSimilarity(rs: seq<ReplayWithChannel>, viewers: Viewers): real
  {
    var c := PairsUpTo(|rs|, |rs|);
    if c > 0 then TotalUpTo(rs, viewers, |rs|) / c as real else 0.0
  }

  /** A cluster of `m` replays has `m (m - 1) / 2` pairs. */
  lemma {:induction false} PairsUpToValue(m: nat, i: nat)
    requires i <= m
    ensures 2 * PairsUpTo(m, i) == i * (2 * m - i - 1)
  {
    if i > 0 {
      PairsUpToValue(m, i - 1);
    }
  }

  lemma {:induction false} RowTotalBounds(rs: seq<ReplayWithChannel>, viewers: Viewers, i: nat, j: nat)
    requires i < |rs| && j <= |rs|
    ensures 0.0 <= RowTotal(rs, viewers, i, j) <= if j <= i + 1 then 0.0 else (j - i - 1) as real
  {
    if j > i + 1 {
      RowTotalBounds(rs, viewers, i, j - 1);
      SimilarityRange(rs[i], rs[j - 1], viewers);
    }
  }

  lemma {:induction false} TotalUpToBounds(rs: seq<ReplayWithChannel>, viewers: Viewers, i: nat)
    requires i <= |rs|
    ensures 0.0 <= TotalUpTo(rs, viewers, i) <= PairsUpTo(|rs|, i) as real
  {
    if i > 0 {
      TotalUpToBounds(rs, viewers, i - 1);
      RowTotalBounds(rs, viewers, i - 1, |rs|);
    }
  }

  /** The average similarity of a cluster lies in [0, 1], and there are
   *  pairs to average exactly when the cluster has two replays or more. */
  lemma AverageBounds(rs: seq<ReplayWithChannel>, viewers: Viewers)
    ensures 0.0 <= AverageSimilarity(rs, viewers) <= 1.0
    ensures 2 * PairsUpTo(|rs|, |rs|) == |rs| * (|rs| - 1)
    ensures PairsUpTo(|rs|, |rs|) > 0 <==> |rs| >= 2
  {
    var m := |rs|;
    PairsCount(m);
    TotalUpToBounds(rs, viewers, m);
    var c := PairsUpTo(m, m);
    if c > 0 {
      MeanInUnit(TotalUpTo(rs, viewers, m), c);
    }
  }

  lemma PairsCount(m: nat)
    ensures 2 * PairsUpTo(m, m) == m * (m - 1)
    ensures PairsUpTo(m, m) > 0 <==> m >= 2
  {
    PairsUpToValue(m, m);
    if m >= 2 {
      assert m * (m - 1) >= 2 * 1 by {
        assert m - 1 >= 1;
      }
    }
  }

  lemma MeanInUnit(t: real, c: nat)
    requires c > 0 && 0.0 <= t <= c as real
    ensures 0.0 <= t / c as real <= 1.0
  {
    var q := t / c as real;
    assert q * c as real == t;
  }

  /** The nested loop that averages the intra-cluster similarities. */
  method ClusterAverage(rs: seq<ReplayWithChannel>, viewers: Viewers) returns (avg: real)
    ensures avg == AverageSimilarity(rs, viewers)
  {
    var total := 0.0;
    var pairCount: nat := 0;
    var i := 0;
    while i < |rs|
      invariant 0 <= i <= |rs|
      invariant total == TotalUpTo(rs, viewers, i)
      invariant pairCount == PairsUpTo(|rs|, i)
    {
      var j := i + 1;
      ghost var before := total;
      while j < |rs|
        invariant i + 1 <= j <= |rs|
        invariant total == before + RowTotal(rs, viewers, i, j)
        invariant pairCount == PairsUpTo(|rs|, i) + (j - i - 1)
      {
        total := total + Similarity(rs[i], rs[j], viewers);
        pairCount := pairCount + 1;
        j := j + 1;
      }
      i := i + 1;
    }
    if pairCount > 0 {
      avg := total / pairCount as real;
    } else {
      avg := 0.0;
    }
  }

  // ---------------------------------------------------------------------
  // Clusters
  // ---------------------------------------------------------------------

  /** The replays at the given candidate indices. */
  function Pick(rs: seq<ReplayWithChannel>, idx: seq<nat>): (r: seq<ReplayWithChannel>)
    requires forall t :: 0 <= t < |idx| ==> idx[t] < |rs|
    ensures |r| == |idx| && forall t :: 0 <= t < |idx| ==> r[t] == rs[idx[t]]
  {
    seq(|idx|, t requires 0 <= t < |idx| => rs[idx[t]])
  }

  /** The cluster made of class `l`. */
  function ClassCluster(rs: seq<ReplayWithChannel>, viewers: Viewers, lab: seq<nat>, l: nat): Cluster
    requires |lab| == |rs|
  {
    var replays := Pick(rs, Members(lab, l));
    Cluster(replays, AverageSimilarity(replays, viewers))
  }

  /** The clusters of a list of classes, in that order. */
  function ClassClusters(rs: seq<ReplayWithChannel>, viewers: Viewers, lab: seq<nat>, ls: seq<nat>): seq<Cluster>
    requires |lab| == |rs|
  {
    if ls == [] then [] else ClassClusters(rs, viewers, lab, ls[..|ls| - 1]) + [ClassCluster(rs, viewers, lab, ls[|ls| - 1])]
  }

  lemma ClassClustersSnoc(rs: seq<ReplayWithChannel>, viewers: Viewers, lab: seq<nat>, ls: seq<nat>, l: nat)
    requires |lab| == |rs|
    ensures ClassClusters(rs, viewers, lab, ls + [l]) == ClassClusters(rs, viewers, lab, ls) + [ClassCluster(rs, viewers, lab, l)]
  {
    assert (ls + [l])[..|ls|] == ls;
  }

  /** The class has two members or more. */
  function Big(lab: seq<nat>): nat -> bool
  {
    (l: nat) => |Members(lab, l)| > 1
  }

  /** `clusters` is, in some order, one cluster for each class `ls` of two
   *  replays or more: `ls` lists every such class once. */
  ghost predicate Reported(rs: seq<ReplayWithChannel>, viewers: Viewers, lab: seq<nat>, ls: seq<nat>, clusters: seq<Cluster>)
    requires |lab| == |rs|
  {
    NoDup(ls)
    && (forall l :: l in ls <==> l in lab && |Members(lab, l)| > 1)
    && multiset(clusters) == multiset(ClassClusters(rs, viewers, lab, ls))
  }

  /** Sorting key for descending average similarity. */
  function NegAverage(c: Cluster): real
  {
    -c.averageSimilarity
  }

  /** The grouping loop: every candidate is filed under its root. The keys
   *  are listed in the order they were first inserted, which stands for
   *  the map's iteration order. */
  method GroupByRoot(uf: UnionFind) returns (groups: map<nat, seq<nat>>, order: seq<nat>)
    requires uf.Valid()
    modifies uf.parent
    ensures uf.Valid() && uf.Roots() == old(uf.Roots())
    ensures NoDup(order)
    ensures forall r :: r in groups <==> r in order
    ensures forall r :: r in order <==> r in old(uf.Roots())
    ensures forall r :: r in groups ==> groups[r] == Members(old(uf.Roots()), r)
  {
    ghost var lab := uf.Roots();
    var n := uf.parent.Length;
    groups, order := map[], [];
    for i := 0 to n
      invariant uf.Valid() && uf.Roots() == lab
      invariant Grouped(lab, groups, order, i)
    {
      var root := uf.Find(i);
      assert root == lab[i];
      GroupStep(lab, groups, order, i);
      var members: seq<nat> := if root in groups then groups[root] else [];
      if root !in groups {
        order := order + [root];
      }
      groups := groups[root := members + [i]];
    }
    assert lab[..n] == lab;
  }

  /** The grouping loop's invariant after the first `i` indices: `order`
   *  lists the labels seen so far once each, in first-seen order, and each
   *  maps to its members so far. */
  ghost predicate Grouped(lab: seq<nat>, groups: map<nat, seq<nat>>, order: seq<nat>, i: nat)
    requires i <= |lab|
  {
    && NoDup(order)
    && (forall r :: r in groups <==> r in order)
    && (forall r :: r in order <==> r in lab[..i])
    && (forall r :: r in groups ==> groups[r] == MembersUpTo(lab, r, i))
  }

  lemma GroupStep(lab: seq<nat>, groups: map<nat, seq<nat>>, order: seq<nat>, i: nat)
    requires i < |lab| && Grouped(lab, groups, order, i)
    ensures var root := lab[i];
            Grouped(lab, groups[root := (if root in groups then groups[root] else []) + [i]],
                    if root in groups then order else order + [root], i + 1)
  {
    var root := lab[i];
    var g2 := groups[root := (if root in groups then groups[root] else []) + [i]];
    var o2 := if root in groups then order else order + [root];
    TakeSnoc(lab, i);
    if root !in groups {
      MembersAbsent(lab, root, i);
      NoDupSnoc(order, root);
    }
    assert forall r :: r in o2 <==> r in lab[..i + 1];
    assert forall r :: r in g2 <==> r in o2;
    forall r | r in g2 ensures g2[r] == MembersUpTo(lab, r, i + 1) {
      assert MembersUpTo(lab, r, i + 1) == MembersUpTo(lab, r, i) + (if root == r then [i] else []);
    }
  }

  /** The map-filter-collect that turns the classes of two or more into
   *  clusters. */
  method BuildClusters(rs: seq<ReplayWithChannel>, viewers: Viewers, ghost lab: seq<nat>,
                       groups: map<nat, seq<nat>>, order: seq<nat>) returns (list: seq<Cluster>)
    requires |lab| == |rs|
    requires forall r :: r in order ==> r in groups && groups[r] == Members(lab, r)
    ensures list == ClassClusters(rs, viewers, lab, Filter(order, Big(lab)))
  {
    list := [];
    for k := 0 to |order|
      invariant list == ClassClusters(rs, viewers, lab, Filter(order[..k], Big(lab)))
    {
      var r := order[k];
      BuildStep(rs, viewers, lab, order, k);
      var indices := groups[r];
      assert Big(lab)(r) <==> |indices| > 1;
      if |indices| > 1 {
        var replays := Pick(rs, indices);
        var avg := ClusterAverage(replays, viewers);
        list := list + [Cluster(replays, avg)];
      }
    }
    assert order[..|order|] == order;
  }

  lemma BuildStep(rs: seq<ReplayWithChannel>, viewers: Viewers, lab: seq<nat>, order: seq<nat>, k: nat)
    requires |lab| == |rs| && k < |order|
    ensures ClassClusters(rs, viewers, lab, Filter(order[..k + 1], Big(lab)))
         == ClassClusters(rs, viewers, lab, Filter(order[..k], Big(lab)))
            + (if Big(lab)(order[k]) then [ClassCluster(rs, viewers, lab, order[k])] else [])
  {
    var big := Big(lab);
    var done := Filter(order[..k], big);
    assert order[..k + 1] == order[..k] + [order[k]];
    FilterSnoc(order[..k], order[k], big);
    if big(order[k]) {
      assert Filter(order[..k + 1], big) == done + [order[k]];
      ClassClustersSnoc(rs, viewers, lab, done, order[k]);
    } else {
      assert Filter(order[..k + 1], big) == done;
    }
  }

  /** The viewer set of every logged video. */
  function ViewerMap(logs: seq<ChatLog>): Viewers
  {
    map v | v in VideoIds(logs) :: UsersOfVideo(logs, v)
  }

  /** `cluster_similar_replays`. */
  method ClusterSimilarReplays(channels: seq<Channel>, logs: seq<ChatLog>, threshold: real)
    returns (clusters: seq<Cluster>)
    ensures Candidates(channels, VideoIds(logs)) == [] ==> clusters == []
    ensures SortedBy(clusters, NegAverage)
    ensures exists ls :: Reported(Candidates(channels, VideoIds(logs)), ViewerMap(logs),
                                  ClassLabels(Candidates(channels, VideoIds(logs)), ViewerMap(logs), threshold), ls, clusters)
  {
    var viewers, withLog := BuildViewers(logs);
    assert viewers == ViewerMap(logs);
    var cands := CollectCandidates(channels, withLog);
    if cands == [] {
      assert Reported(cands, viewers, ClassLabels(cands, viewers, threshold), [], []);
      return [];
    }
    clusters := ClusterCandidates(cands, viewers, threshold);
  }

  /** The clustering proper, over the candidates and their viewer sets. */
  method ClusterCandidates(cands: seq<ReplayWithChannel>, viewers: Viewers, threshold: real)
    returns (clusters: seq<Cluster>)
    ensures SortedBy(clusters, NegAverage)
    ensures exists ls :: Reported(cands, viewers, ClassLabels(cands, viewers, threshold), ls, clusters)
  {
    var uf := new UnionFind(|cands|);
    var pairs := PairsToUnion(cands, viewers, threshold);
    PairsInRange(cands, viewers, threshold);
    UnionAll(uf, pairs);
    ghost var lab := uf.Roots();
    assert lab == ClassLabels(cands, viewers, threshold);
    var groups, order := GroupByRoot(uf);
    clusters := ReportClusters(cands, viewers, lab, groups, order);
  }

  /** The loop that joins every collected pair. */
  method UnionAll(uf: UnionFind, pairs: seq<(nat, nat)>)
    requires uf.Valid() && InRange(pairs, uf.parent.Length)
    modifies uf, uf.parent
    ensures uf.Valid() && uf.parent == old(uf.parent)
    ensures uf.Roots() == MergeAll(old(uf.Roots()), pairs)
  {
    ghost var lab := uf.Roots();
    for k := 0 to |pairs|
      invariant uf.parent == old(uf.parent)
      invariant uf.Valid() && uf.Roots() == MergeAll(lab, pairs[..k])
    {
      assert pairs[..k + 1][..k] == pairs[..k];
      uf.Union(pairs[k].0, pairs[k].1);
    }
    assert pairs[..|pairs|] == pairs;
  }

  /** The clusters of the classes of two or more, sorted by descending
   *  average similarity. */
  method ReportClusters(cands: seq<ReplayWithChannel>, viewers: Viewers, ghost lab: seq<nat>,
                        groups: map<nat, seq<nat>>, order: seq<nat>) returns (clusters: seq<Cluster>)
    requires |lab| == |cands|
    requires NoDup(order)
    requires forall r :: r in order <==> r in lab
    requires forall r :: r in order ==> r in groups && groups[r] == Members(lab, r)
    ensures SortedBy(clusters, NegAverage)
    ensures exists ls :: Reported(cands, viewers, lab, ls, clusters)
  {
    var list := BuildClusters(cands, viewers, lab, groups, order);
    clusters := SortBy(list, NegAverage);
    SortByProps(list, NegAverage);
    ghost var ls := Filter(order, Big(lab));
    FilterNoDup(order, Big(lab));
    forall l ensures l in ls <==> l in order && Big(lab)(l) {
      FilterMembers(order, Big(lab), l);
    }
    assert Reported(cands, viewers, lab, ls, clusters);
  }

  lemma {:induction false} ClassClustersMembers(rs: seq<ReplayWithChannel>, viewers: Viewers, lab: seq<nat>, ls: seq<nat>, l: nat)
    requires |lab| == |rs| && l in ls
    ensures ClassCluster(rs, viewers, lab, l) in ClassClusters(rs, viewers, lab, ls)
  {
    var init := ls[..|ls| - 1];
    if l != ls[|ls| - 1] {
      assert ls == init + [ls[|ls| - 1]];
      ClassClustersMembers(rs, viewers, lab, init, l);
    }
  }

  /** Two candidates similar enough to be joined are reported together: their
   *  class has at least both of them, and its cluster is among the result. */
  lemma JoinedReported(cands: seq<ReplayWithChannel>, viewers: Viewers, th: real, ls: seq<nat>, clusters: seq<Cluster>, i: nat, j: nat)
    requires Reported(cands, viewers, ClassLabels(cands, viewers, th), ls, clusters)
    requires Joined(cands, viewers, th, (i, j))
    ensures var lab := ClassLabels(cands, viewers, th);
            lab[i] == lab[j] && i in Members(lab, lab[i]) && j in Members(lab, lab[i])
            && ClassCluster(cands, viewers, lab, lab[i]) in clusters
  {
    var lab := ClassLabels(cands, viewers, th);
    JoinedShareClass(cands, viewers, th, i, j);
    MembersPartition(lab, i, 0, 0);
    MembersPartition(lab, j, 0, 0);
    var m := Members(lab, lab[i]);
    var ti :| 0 <= ti < |m| && m[ti] == i;
    var tj :| 0 <= tj < |m| && m[tj] == j;
    assert ti != tj;
    assert lab[i] in lab;
    ClassClustersMembers(cands, viewers, lab, ls, lab[i]);
    assert ClassCluster(cands, viewers, lab, lab[i]) in multiset(clusters);
  }

  /** Every reported cluster has two replays or more, all of one class, and
   *  an average similarity in [0, 1]. */
  lemma ReportedShape(cands: seq<ReplayWithChannel>, viewers: Viewers, lab: seq<nat>, ls: seq<nat>, clusters: seq<Cluster>, c: Cluster)
    requires |lab| == |cands|
    requires Reported(cands, viewers, lab, ls, clusters) && c in clusters
    ensures exists l :: l in ls && c == ClassCluster(cands, viewers, lab, l)
    ensures |c.replays| >= 2 && 0.0 <= c.averageSimilarity <= 1.0
  {
    assert c in multiset(ClassClusters(cands, viewers, lab, ls));
    var l := ClassClustersFrom(cands, viewers, lab, ls, c);
    AverageBounds(c.replays, viewers);
  }

  lemma {:induction false} ClassClustersFrom(rs: seq<ReplayWithChannel>, viewers: Viewers, lab: seq<nat>, ls: seq<nat>, c: Cluster)
    returns (l: nat)
    requires |lab| == |rs| && c in ClassClusters(rs, viewers, lab, ls)
    ensures l in ls && c == ClassCluster(rs, viewers, lab, l)
  {
    var init := ls[..|ls| - 1];
    assert ls == init + [ls[|ls| - 1]];
    if c == ClassCluster(rs, viewers, lab, ls[|ls| - 1]) {
      l := ls[|ls| - 1];
    } else {
      l := ClassClustersFrom(rs, viewers, lab, init, c);
    }
  }
}
