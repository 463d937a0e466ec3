/** Channel distances (chzzk-chat/src/data/chat/channel_distance.rs): every
 *  channel's viewers are the union of the chatters of its videos' logs;
 *  the channels with at least one viewer become nodes, ranked by viewer
 *  count; every pair of nodes is linked with the number of shared viewers
 *  and that number over the smaller viewer count; and the related-links
 *  export keeps, per channel, its closest neighbours. */
module ChannelDistance {
  import opened Wrappers
  import opened Seqs
  import opened Models

  datatype ChannelLink = ChannelLink(source: string, target: string, inter: nat, distance: real)

  datatype ChannelNode = ChannelNode(channelId: string, name: string, follower: nat, image: Option<string>, chatCount: nat)

  datatype RelatedItem = RelatedItem(target: string, inter: nat, distance: real)

  type UserMap = map<string, set<string>>

  // ---------------------------------------------------------------------
  // build_channel_user_map
  // ---------------------------------------------------------------------

  /** The video-to-channel entries of one channel's replays, added in order. */
  function AddReplays(m: map<nat, string>, rps: seq<Replay>, cid: string): map<nat, string>
  {
    if rps == [] then m else AddReplays(m, rps[..|rps| - 1], cid)[rps[|rps| - 1].videoNo := cid]
  }

  /** `video_to_channel`: collected from every channel's replays in order, so
   *  a video listed under several channels maps to the last of them. */
  function VideoToChannel(channels: seq<Channel>): map<nat, string>
  {
    if channels == [] then map[]
    else
      var last := channels[|channels| - 1];
      AddReplays(VideoToChannel(channels[..|channels| - 1]), last.replays, last.channelId)
  }

  predicate HasVideoIn(rps: seq<Replay>, v: nat)
  {
    exists k :: 0 <= k < |rps| && rps[k].videoNo == v
  }

  /** Channel `i` is the last channel listing video `v`. */
  predicate LastWith(channels: seq<Channel>, v: nat, i: int)
  {
    0 <= i < |channels| && HasVideoIn(channels[i].replays, v)
    && forall j :: i < j < |channels| ==> !HasVideoIn(channels[j].replays, v)
  }

  lemma {:induction false} AddReplaysProps(m: map<nat, string>, rps: seq<Replay>, cid: string, v: nat)
    ensures v in AddReplays(m, rps, cid) <==> v in m || HasVideoIn(rps, v)
    ensures HasVideoIn(rps, v) ==> AddReplays(m, rps, cid)[v] == cid
    ensures !HasVideoIn(rps, v) && v in m ==> AddReplays(m, rps, cid)[v] == m[v]
  {
    if rps != [] {
      var init := rps[..|rps| - 1];
      AddReplaysProps(m, init, cid, v);
      if HasVideoIn(rps, v) && rps[|rps| - 1].videoNo != v {
        var k :| 0 <= k < |rps| && rps[k].videoNo == v;
        assert init[k] == rps[k];
      }
      if HasVideoIn(init, v) {
        var k :| 0 <= k < |init| && init[k].videoNo == v;
        assert rps[k] == init[k];
      }
    }
  }

  /** A video maps to a channel exactly when some channel lists it, and then
   *  to the last channel that does. */
  lemma {:induction false} VideoToChannelProps(channels: seq<Channel>, v: nat)
    ensures v in VideoToChannel(channels) <==> exists i :: 0 <= i < |channels| && HasVideoIn(channels[i].replays, v)
    ensures v in VideoToChannel(channels) ==>
              exists i :: LastWith(channels, v, i) && VideoToChannel(channels)[v] == channels[i].channelId
  {
    if channels != [] {
      var init := channels[..|channels| - 1];
      var last := channels[|channels| - 1];
      VideoToChannelProps(init, v);
      AddReplaysProps(VideoToChannel(init), last.replays, last.channelId, v);
      if HasVideoIn(last.replays, v) {
        assert LastWith(channels, v, |channels| - 1);
      } else if v in VideoToChannel(init) {
        var i :| LastWith(init, v, i) && VideoToChannel(init)[v] == init[i].channelId;
        assert channels[i] == init[i];
        assert LastWith(channels, v, i);
      }
      if exists i :: 0 <= i < |channels| && HasVideoIn(channels[i].replays, v) {
        var i :| 0 <= i < |channels| && HasVideoIn(channels[i].replays, v);
        if i < |init| {
          assert init[i] == channels[i];
        }
      }
      if exists i :: 0 <= i < |init| && HasVideoIn(init[i].replays, v) {
        var i :| 0 <= i < |init| && HasVideoIn(init[i].replays, v);
        assert channels[i] == init[i];
      }
    }
  }

  /** The log's video maps to channel `c`. */
  predicate MapsTo(log: ChatLog, vtc: map<nat, string>, c: string)
  {
    log.videoId in vtc && vtc[log.videoId] == c
  }

  /** The viewer set of every channel some log maps to. */
  function ChannelUsersOf(logs: seq<ChatLog>, vtc: map<nat, string>): UserMap
  {
    if logs == [] then map[]
    else
      var m := ChannelUsersOf(logs[..|logs| - 1], vtc);
      var log := logs[|logs| - 1];
      if log.videoId in vtc then
        var c := vtc[log.videoId];
        m[c := (if c in m then m[c] else {}) + UserIdSet(log.messages)]
      else m
  }

  /** Some log maps to channel `c`. */
  predicate SomeLogOf(logs: seq<ChatLog>, vtc: map<nat, string>, c: string)
  {
    exists i :: 0 <= i < |logs| && MapsTo(logs[i], vtc, c)
  }

  /** `u` chats in some log that maps to channel `c`. */
  predicate ChatsOn(logs: seq<ChatLog>, vtc: map<nat, string>, c: string, u: string)
  {
    exists i :: 0 <= i < |logs| && MapsTo(logs[i], vtc, c) && u in UserIdSet(logs[i].messages)
  }

  /** The channels of the map are those some log maps to; logs of videos
   *  no channel lists are ignored. */
  lemma {:induction false} ChannelUsersKeys(logs: seq<ChatLog>, vtc: map<nat, string>, c: string)
    ensures c in ChannelUsersOf(logs, vtc) <==> SomeLogOf(logs, vtc, c)
  {
    if logs != [] {
      var init := logs[..|logs| - 1];
      ChannelUsersKeys(init, vtc, c);
      if SomeLogOf(init, vtc, c) {
        var i :| 0 <= i < |init| && MapsTo(init[i], vtc, c);
        assert logs[i] == init[i];
      }
      if SomeLogOf(logs, vtc, c) {
        var i :| 0 <= i < |logs| && MapsTo(logs[i], vtc, c);
        if i < |init| {
          assert init[i] == logs[i];
        }
      }
    }
  }

  /** A channel's viewers are the chatters of the logs that map to it. */
  lemma {:induction false} ChannelUsersMembers(logs: seq<ChatLog>, vtc: map<nat, string>, c: string, u: string)
    requires c in ChannelUsersOf(logs, vtc)
    ensures u in ChannelUsersOf(logs, vtc)[c] <==> ChatsOn(logs, vtc, c, u)
  {
    var init := logs[..|logs| - 1];
    var log := logs[|logs| - 1];
    var m := ChannelUsersOf(init, vtc);
    if c in m {
      ChannelUsersMembers(init, vtc, c, u);
    }
    if ChatsOn(init, vtc, c, u) {
      var i :| 0 <= i < |init| && MapsTo(init[i], vtc, c) && u in UserIdSet(init[i].messages);
      assert logs[i] == init[i];
      ChannelUsersKeys(init, vtc, c);
    }
    if ChatsOn(logs, vtc, c, u) {
      var i :| 0 <= i < |logs| && MapsTo(logs[i], vtc, c) && u in UserIdSet(logs[i].messages);
      if i < |init| {
        assert init[i] == logs[i];
        ChannelUsersKeys(init, vtc, c);
      }
    }
  }

  /** `build_channel_user_map`. */
  method BuildChannelUserMap(logs: seq<ChatLog>, channels: seq<Channel>) returns (users: UserMap)
    ensures users == ChannelUsersOf(logs, VideoToChannel(channels))
  {
    var vtc := VideoToChannel(channels);
    users := map[];
    var i := 0;
    while i < |logs|
      invariant 0 <= i <= |logs|
      invariant users == ChannelUsersOf(logs[..i], vtc)
    {
      var log := logs[i];
      assert logs[..i + 1][..i] == logs[..i];
      if log.videoId in vtc {
        var c := vtc[log.videoId];
        var set0 := if c in users then users[c] else {};
        var grown := InsertUserIds(set0, log.messages);
        users := users[c := grown];
      }
      i := i + 1;
    }
    assert logs[..i] == logs;
  }

  // ---------------------------------------------------------------------
  // Nodes
  // ---------------------------------------------------------------------

  function UsersOf(users: UserMap, id: string): set<string>
  {
    if id in users then users[id] else {}
  }

  /** The node of a channel with at least one viewer. */
  function NodeOf(users: UserMap): Channel -> Option<ChannelNode>
  {
    (c: Channel) =>
      var count := |UsersOf(users, c.channelId)|;
      if count > 0 then Some(ChannelNode(c.channelId, c.name, c.follower, c.image, count)) else None
  }

  /** Sorting key for descending chat count. */
  function CountDesc(n: ChannelNode): real
  {
    -(n.chatCount as real)
  }

  /** The channels with a viewer, as nodes, by descending viewer count
   *  (stable), cut to `maxNodes` when one is given. */
  function TopNodes(channels: seq<Channel>, users: UserMap, maxNodes: Option<nat>): seq<ChannelNode>
  {
    var sorted := SortBy(FilterMap(channels, NodeOf(users)), CountDesc);
    if maxNodes.Some? && maxNodes.value < |sorted| then sorted[..maxNodes.value] else sorted
  }

  /** A node is a channel's node: its count is the size of its viewer set. */
  predicate Counted(n: ChannelNode, users: UserMap)
  {
    n.chatCount == |UsersOf(users, n.channelId)| && n.chatCount > 0
  }

  /** A channel's node is made of the channel and its viewer count. */
  predicate NodeFrom(channels: seq<Channel>, users: UserMap, n: ChannelNode)
  {
    exists i :: 0 <= i < |channels| && NodeOf(users)(channels[i]) == Some(n)
  }

  /** A top node is a channel's node, so its count is the positive size of
   *  its viewer set; without a cut every channel's node is a top node. */
  lemma TopNodesMember(channels: seq<Channel>, users: UserMap, maxNodes: Option<nat>, n: ChannelNode)
    ensures n in TopNodes(channels, users, maxNodes) ==> NodeFrom(channels, users, n) && Counted(n, users)
    ensures maxNodes.None? ==> (n in TopNodes(channels, users, maxNodes) <==> NodeFrom(channels, users, n))
  {
    TopNodesSub(channels, users, maxNodes, n);
    FilterMapMembers(channels, NodeOf(users), n);
    if n in TopNodes(channels, users, maxNodes) {
      var i :| 0 <= i < |channels| && NodeOf(users)(channels[i]) == Some(n);
      NodeCounted(channels[i], users, n);
    }
  }

  lemma TopNodesSub(channels: seq<Channel>, users: UserMap, maxNodes: Option<nat>, n: ChannelNode)
    ensures n in TopNodes(channels, users, maxNodes) ==> n in FilterMap(channels, NodeOf(users))
    ensures maxNodes.None? ==> (n in TopNodes(channels, users, maxNodes) <==> n in FilterMap(channels, NodeOf(users)))
  {
    var nodes := FilterMap(channels, NodeOf(users));
    var sorted := SortBy(nodes, CountDesc);
    SortByProps(nodes, CountDesc);
    assert n in sorted <==> n in multiset(nodes);
    if n in TopNodes(channels, users, maxNodes) {
      assert n in sorted;
    }
  }

  lemma NodeCounted(c: Channel, users: UserMap, n: ChannelNode)
    requires NodeOf(users)(c) == Some(n)
    ensures Counted(n, users) && n.channelId == c.channelId
  {
  }

  /** There are `min(maxNodes, n)` top nodes out of the `n` channels with a
   *  viewer (all `n` without a cut), by non-increasing count. */
  lemma TopNodesOrder(channels: seq<Channel>, users: UserMap, maxNodes: Option<nat>)
    ensures var top := TopNodes(channels, users, maxNodes);
            var n := |FilterMap(channels, NodeOf(users))|;
            && (maxNodes.Some? ==> |top| == (if maxNodes.value < n then maxNodes.value else n))
            && (maxNodes.None? ==> |top| == n)
            && forall k, l :: 0 <= k < l < |top| ==> top[k].chatCount >= top[l].chatCount
  {
    var nodes := FilterMap(channels, NodeOf(users));
    var sorted := SortBy(nodes, CountDesc);
    var top := TopNodes(channels, users, maxNodes);
    SortByProps(nodes, CountDesc);
    forall k, l | 0 <= k < l < |top| ensures top[k].chatCount >= top[l].chatCount {
      assert top[k] == sorted[k] && top[l] == sorted[l];
      assert CountDesc(sorted[k]) <= CountDesc(sorted[l]);
    }
  }

  /** The cut keeps nodes of the channels and drops none that has more
   *  viewers than a kept one. */
  lemma TopNodesRanks(channels: seq<Channel>, users: UserMap, maxNodes: Option<nat>)
    ensures var nodes := FilterMap(channels, NodeOf(users));
            var top := TopNodes(channels, users, maxNodes);
            && multiset(top) <= multiset(nodes)
            && forall x: ChannelNode, i :: x in multiset(nodes) - multiset(top) && 0 <= i < |top| ==> x.chatCount <= top[i].chatCount
  {
    var nodes := FilterMap(channels, NodeOf(users));
    var sorted := SortBy(nodes, CountDesc);
    var top := TopNodes(channels, users, maxNodes);
    SortByProps(nodes, CountDesc);
    PrefixRanks(sorted, |top|);
    assert top == sorted[..|top|];
  }

  /** In a list sorted by descending count, nothing past a prefix has more
   *  viewers than a node of the prefix. */
  lemma PrefixRanks(sorted: seq<ChannelNode>, k: nat)
    requires SortedBy(sorted, CountDesc) && k <= |sorted|
    ensures multiset(sorted[..k]) <= multiset(sorted)
    ensures forall x: ChannelNode, i :: x in multiset(sorted) - multiset(sorted[..k]) && 0 <= i < k ==> x.chatCount <= sorted[i].chatCount
  {
    var top, rest := sorted[..k], sorted[k..];
    assert sorted == top + rest;
    assert multiset(sorted) - multiset(top) == multiset(rest);
    forall x: ChannelNode, i | x in multiset(sorted) - multiset(top) && 0 <= i < k
      ensures x.chatCount <= sorted[i].chatCount
    {
      assert x in rest;
      var q :| 0 <= q < |rest| && rest[q] == x;
      assert sorted[k + q] == x;
      assert CountDesc(sorted[i]) <= CountDesc(sorted[k + q]);
    }
  }

  /** A channel's node left out by the cut has no more viewers than any
   *  kept node. */
  lemma TopNodesDropped(channels: seq<Channel>, users: UserMap, maxNodes: Option<nat>, x: ChannelNode, y: ChannelNode)
    requires NodeFrom(channels, users, x)
    requires x !in TopNodes(channels, users, maxNodes) && y in TopNodes(channels, users, maxNodes)
    ensures x.chatCount <= y.chatCount
  {
    var nodes := FilterMap(channels, NodeOf(users));
    var top := TopNodes(channels, users, maxNodes);
    FilterMapMembers(channels, NodeOf(users), x);
    TopNodesRanks(channels, users, maxNodes);
    assert x in multiset(nodes) - multiset(top);
    var p :| 0 <= p < |top| && top[p] == y;
  }

  // ---------------------------------------------------------------------
  // Links
  // ---------------------------------------------------------------------

  /** The link of nodes `a` and `b`: their common viewers, and that number
   *  over the smaller chat count (0 when that count is 0). */
  function LinkOf(a: ChannelNode, b: ChannelNode, users: UserMap): ChannelLink
  {
    var inter := |UsersOf(users, a.channelId) * UsersOf(users, b.channelId)|;
    var minCount := if a.chatCount <= b.chatCount then a.chatCount else b.chatCount;
    ChannelLink(a.channelId, b.channelId, inter, if minCount > 0 then inter as real / minCount as real else 0.0)
  }

  function RowLinks(nodes: seq<ChannelNode>, f: (ChannelNode, ChannelNode) -> ChannelLink, i: nat, j: nat): seq<ChannelLink>
    requires i < |nodes|
    decreases |nodes| - j
  {
    if j >= |nodes| then [] else [f(nodes[i], nodes[j])] + RowLinks(nodes, f, i, j + 1)
  }

  function LinksFrom(nodes: seq<ChannelNode>, f: (ChannelNode, ChannelNode) -> ChannelLink, i: nat): seq<ChannelLink>
    decreases |nodes| - i
  {
    if i >= |nodes| then [] else RowLinks(nodes, f, i, i + 1) + LinksFrom(nodes, f, i + 1)
  }

  /** One link per pair of nodes `i < j`, in the order of `i`, then `j`
   *  (the parallel collect keeps that order). */
  function AllLinks(nodes: seq<ChannelNode>, users: UserMap): seq<ChannelLink>
  {
    LinksFrom(nodes, LinkWith(users), 0)
  }

  function LinkWith(users: UserMap): (ChannelNode, ChannelNode) -> ChannelLink
  {
    (a: ChannelNode, b: ChannelNode) => LinkOf(a, b, users)
  }

  /** `l` is the link of two nodes `i < j`. */
  predicate PairLink(nodes: seq<ChannelNode>, users: UserMap, l: ChannelLink)
  {
    PairFrom(nodes, LinkWith(users), 0, l)
  }

  /** `l` is the link, by `f`, of node `i` and a node `t` with `j <= t`. */
  predicate RowHas(nodes: seq<ChannelNode>, f: (ChannelNode, ChannelNode) -> ChannelLink, i: nat, j: nat, l: ChannelLink)
    requires i < |nodes|
  {
    exists t :: j <= t < |nodes| && l == f(nodes[i], nodes[t])
  }

  /** `l` is the link, by `f`, of two nodes `a < b` with `i <= a`. */
  predicate PairFrom(nodes: seq<ChannelNode>, f: (ChannelNode, ChannelNode) -> ChannelLink, i: nat, l: ChannelLink)
  {
    exists a, b :: i <= a < b < |nodes| && l == f(nodes[a], nodes[b])
  }

  lemma {:induction false} RowLinksMembers(nodes: seq<ChannelNode>, f: (ChannelNode, ChannelNode) -> ChannelLink, i: nat, j: nat, l: ChannelLink)
    requires i < |nodes|
    ensures l in RowLinks(nodes, f, i, j) <==> RowHas(nodes, f, i, j, l)
    decreases |nodes| - j
  {
    if j < |nodes| {
      RowLinksMembers(nodes, f, i, j + 1, l);
      var here := f(nodes[i], nodes[j]);
      assert RowLinks(nodes, f, i, j) == [here] + RowLinks(nodes, f, i, j + 1);
      assert RowHas(nodes, f, i, j, l) <==> l == here || RowHas(nodes, f, i, j + 1, l) by {
        if RowHas(nodes, f, i, j, l) {
          var t :| j <= t < |nodes| && l == f(nodes[i], nodes[t]);
          if t > j {
            assert RowHas(nodes, f, i, j + 1, l);
          }
        }
        if RowHas(nodes, f, i, j + 1, l) {
          var t :| j + 1 <= t < |nodes| && l == f(nodes[i], nodes[t]);
          assert RowHas(nodes, f, i, j, l);
        }
        if l == here {
          assert RowHas(nodes, f, i, j, l);
        }
      }
    }
  }

  lemma {:induction false} RowLinksCount(nodes: seq<ChannelNode>, f: (ChannelNode, ChannelNode) -> ChannelLink, i: nat, j: nat)
    requires i < |nodes|
    ensures |RowLinks(nodes, f, i, j)| == if j >= |nodes| then 0 else |nodes| - j
    decreases |nodes| - j
  {
    if j < |nodes| {
      RowLinksCount(nodes, f, i, j + 1);
    }
  }

  lemma {:induction false} LinksFromMembers(nodes: seq<ChannelNode>, f: (ChannelNode, ChannelNode) -> ChannelLink, i: nat, l: ChannelLink)
    ensures l in LinksFrom(nodes, f, i) <==> PairFrom(nodes, f, i, l)
    decreases |nodes| - i
  {
    if i < |nodes| {
      RowLinksMembers(nodes, f, i, i + 1, l);
      LinksFromMembers(nodes, f, i + 1, l);
      assert PairFrom(nodes, f, i, l) <==> RowHas(nodes, f, i, i + 1, l) || PairFrom(nodes, f, i + 1, l) by {
        if PairFrom(nodes, f, i, l) {
          var a, b :| i <= a < b < |nodes| && l == f(nodes[a], nodes[b]);
          if a == i {
            assert RowHas(nodes, f, i, i + 1, l);
          } else {
            assert PairFrom(nodes, f, i + 1, l);
          }
        }
        if RowHas(nodes, f, i, i + 1, l) {
          var t :| i + 1 <= t < |nodes| && l == f(nodes[i], nodes[t]);
          assert PairFrom(nodes, f, i, l);
        }
        if PairFrom(nodes, f, i + 1, l) {
          var a, b :| i + 1 <= a < b < |nodes| && l == f(nodes[a], nodes[b]);
          assert PairFrom(nodes, f, i, l);
        }
      }
    }
  }

  lemma {:induction false} LinksFromCount(nodes: seq<ChannelNode>, f: (ChannelNode, ChannelNode) -> ChannelLink, i: nat)
    ensures 2 * |LinksFrom(nodes, f, i)| == if i >= |nodes| then 0 else (|nodes| - i) * (|nodes| - i - 1)
    decreases |nodes| - i
  {
    if i < |nodes| {
      RowLinksCount(nodes, f, i, i + 1);
      LinksFromCount(nodes, f, i + 1);
      var r := |nodes| - i;
      assert r * (r - 1) == 2 * (r - 1) + (r - 1) * (r - 2);
    }
  }

  /** Every link is the link of a pair of nodes, every pair has one, and
   *  there are n (n - 1) / 2 of them. */
  lemma AllLinksProps(nodes: seq<ChannelNode>, users: UserMap, l: ChannelLink)
    ensures l in AllLinks(nodes, users) <==> PairLink(nodes, users, l)
    ensures 2 * |AllLinks(nodes, users)| == |nodes| * (|nodes| - 1)
  {
    AllLinksMembers(nodes, users, l);
    LinksFromCount(nodes, LinkWith(users), 0);
  }

  lemma AllLinksMembers(nodes: seq<ChannelNode>, users: UserMap, l: ChannelLink)
    ensures l in AllLinks(nodes, users) <==> PairLink(nodes, users, l)
  {
    LinksFromMembers(nodes, LinkWith(users), 0, l);
  }

  /** A link between two counted nodes has a distance in [0, 1], positive
   *  exactly when they share a viewer. */
  lemma LinkBounds(a: ChannelNode, b: ChannelNode, users: UserMap)
    requires Counted(a, users) && Counted(b, users)
    ensures 0.0 <= LinkOf(a, b, users).distance <= 1.0
    ensures LinkOf(a, b, users).distance > 0.0 <==> LinkOf(a, b, users).inter > 0
  {
    var ua, ub := UsersOf(users, a.channelId), UsersOf(users, b.channelId);
    JaccardParts(ua, ub);
    var m := if a.chatCount <= b.chatCount then a.chatCount else b.chatCount;
    assert LinkOf(a, b, users).inter <= m;
    RatioBounds(LinkOf(a, b, users).inter, m);
  }

  /** The links that survive the `retain`. */
  predicate Kept(l: ChannelLink)
  {
    l.inter > 0 && l.distance > 0.0
  }

  /** Every channel id that is an end of one of the links. */
  function Endpoints(links: seq<ChannelLink>): (r: set<string>)
    ensures forall c :: c in r <==> exists k :: 0 <= k < |links| && (links[k].source == c || links[k].target == c)
  {
    if links == [] then {}
    else
      var last := links[|links| - 1];
      var init := links[..|links| - 1];
      assert forall k :: 0 <= k < |init| ==> init[k] == links[k];
      Endpoints(init) + {last.source, last.target}
  }

  /** The loop that collects `linked_channel_ids`. */
  method LinkedIds(links: seq<ChannelLink>) returns (ids: set<string>)
    ensures ids == Endpoints(links)
  {
    ids := {};
    for k := 0 to |links|
      invariant ids == Endpoints(links[..k])
    {
      assert links[..k + 1][..k] == links[..k];
      ids := ids + {links[k].source};
      ids := ids + {links[k].target};
    }
    assert links[..|links|] == links;
  }

  function Linked(ids: set<string>): ChannelNode -> bool
  {
    (n: ChannelNode) => n.channelId in ids
  }

  /** Sorting key for descending distance. */
  function DistanceDesc(l: ChannelLink): real
  {
    -l.distance
  }

  /** `total_pairs` as written, `n * (n - 1) / 2` on `usize`: with checked
   *  arithmetic (a debug build) `0 - 1` aborts, shown here as `None`. */
  function TotalPairsAsWritten(n: nat): (r: Option<nat>)
  {
    if n == 0 then None else Some(n * (n - 1) / 2)
  }

  /** With no node the progress-bar total aborts instead of being 0. */
  lemma TotalPairsNoNodes()
    ensures TotalPairsAsWritten(0) == None
  {
  }

  /** The intended total: `n * n.saturating_sub(1) / 2`. */
  function TotalPairs(n: nat): nat
  {
    n * (if n == 0 then 0 else n - 1) / 2
  }

  /** The intended total counts the links. */
  lemma TotalPairsCountsLinks(nodes: seq<ChannelNode>, users: UserMap)
    ensures TotalPairs(|nodes|) == |AllLinks(nodes, users)|
    ensures |nodes| > 0 ==> TotalPairsAsWritten(|nodes|) == Some(TotalPairs(|nodes|))
  {
    LinksFromCount(nodes, LinkWith(users), 0);
  }

  /** `calculate_channel_distances`. */
  method CalculateChannelDistances(logs: seq<ChatLog>, channels: seq<Channel>, maxNodes: Option<nat>)
    returns (nodes: seq<ChannelNode>, links: seq<ChannelLink>, totalPairs: nat)
    ensures var users := ChannelUsersOf(logs, VideoToChannel(channels));
            var top := TopNodes(channels, users, maxNodes);
            var kept := Filter(AllLinks(top, users), Kept);
            && nodes == Filter(top, Linked(Endpoints(kept)))
            && links == SortBy(kept, DistanceDesc)
            && totalPairs == TotalPairs(|top|)
  {
    var users := BuildChannelUserMap(logs, channels);
    var top := TopNodes(channels, users, maxNodes);
    totalPairs := TotalPairs(|top|);
    var all := AllLinks(top, users);
    var kept := Filter(all, Kept);
    var ids := LinkedIds(kept);
    nodes := Filter(top, Linked(ids));
    links := SortBy(kept, DistanceDesc);
  }

  /** The surviving links, by descending distance, are exactly the links of
   *  two counted nodes that share a viewer, with a distance in (0, 1]. */
  lemma KeptLinks(top: seq<ChannelNode>, users: UserMap, l: ChannelLink)
    requires forall k :: 0 <= k < |top| ==> Counted(top[k], users)
    ensures var links := SortBy(Filter(AllLinks(top, users), Kept), DistanceDesc);
            && SortedBy(links, DistanceDesc)
            && (l in links <==> PairLink(top, users, l) && l.inter > 0)
            && (l in links ==> 0.0 < l.distance <= 1.0)
  {
    var kept := Filter(AllLinks(top, users), Kept);
    var links := SortBy(kept, DistanceDesc);
    SortByProps(kept, DistanceDesc);
    AllLinksMembers(top, users, l);
    FilterMembers(AllLinks(top, users), Kept, l);
    assert l in links <==> l in multiset(kept);
    if PairLink(top, users, l) {
      var i, j :| 0 <= i < j < |top| && l == LinkOf(top[i], top[j], users);
      LinkBounds(top[i], top[j], users);
    }
  }

  /** The reported nodes are the top nodes that end a surviving link. */
  lemma ReportedNodes(top: seq<ChannelNode>, kept: seq<ChannelLink>, x: ChannelNode)
    ensures x in Filter(top, Linked(Endpoints(kept))) <==>
              x in top && x.channelId in Endpoints(SortBy(kept, DistanceDesc))
  {
    SortByProps(kept, DistanceDesc);
    FilterMembers(top, Linked(Endpoints(kept)), x);
    EndpointsOfPermutation(kept, SortBy(kept, DistanceDesc), x.channelId);
  }

  /** Both ends of every surviving link are reported nodes. */
  lemma LinkEndsReported(top: seq<ChannelNode>, users: UserMap, l: ChannelLink)
    ensures var kept := Filter(AllLinks(top, users), Kept);
            var nodes := Filter(top, Linked(Endpoints(kept)));
            l in SortBy(kept, DistanceDesc) ==>
              (exists y :: y in nodes && y.channelId == l.source)
              && (exists y :: y in nodes && y.channelId == l.target)
  {
    var kept := Filter(AllLinks(top, users), Kept);
    SortByProps(kept, DistanceDesc);
    if l in SortBy(kept, DistanceDesc) {
      assert l in multiset(kept);
      KeptEndsReported(top, users, l);
    }
  }

  lemma KeptEndsReported(top: seq<ChannelNode>, users: UserMap, l: ChannelLink)
    requires l in Filter(AllLinks(top, users), Kept)
    ensures var nodes := Filter(top, Linked(Endpoints(Filter(AllLinks(top, users), Kept))));
            && (exists y :: y in nodes && y.channelId == l.source)
            && (exists y :: y in nodes && y.channelId == l.target)
  {
    var kept := Filter(AllLinks(top, users), Kept);
    var ids := Endpoints(kept);
    FilterMembers(AllLinks(top, users), Kept, l);
    AllLinksMembers(top, users, l);
    var i, j :| 0 <= i < j < |top| && l == LinkOf(top[i], top[j], users);
    var k :| 0 <= k < |kept| && kept[k] == l;
    assert l.source in ids && l.target in ids;
    FilterMembers(top, Linked(ids), top[i]);
    FilterMembers(top, Linked(ids), top[j]);
  }

  /** What `calculate_channel_distances` promises, end to end: the links
   *  come by descending distance and are exactly the pairs of top nodes
   *  with common viewers, each with a distance in (0, 1] and both ends
   *  reported. */
  lemma DistancesProps(logs: seq<ChatLog>, channels: seq<Channel>, maxNodes: Option<nat>, l: ChannelLink)
    ensures var users := ChannelUsersOf(logs, VideoToChannel(channels));
            var top := TopNodes(channels, users, maxNodes);
            var kept := Filter(AllLinks(top, users), Kept);
            var links := SortBy(kept, DistanceDesc);
            var nodes := Filter(top, Linked(Endpoints(kept)));
            && SortedBy(links, DistanceDesc)
            && (l in links <==> PairLink(top, users, l) && l.inter > 0)
            && (l in links ==>
                  && 0.0 < l.distance <= 1.0
                  && (exists y :: y in nodes && y.channelId == l.source)
                  && (exists y :: y in nodes && y.channelId == l.target))
  {
    var users := ChannelUsersOf(logs, VideoToChannel(channels));
    var top := TopNodes(channels, users, maxNodes);
    forall k | 0 <= k < |top| ensures Counted(top[k], users) {
      TopNodesMember(channels, users, maxNodes, top[k]);
    }
    KeptLinks(top, users, l);
    LinkEndsReported(top, users, l);
  }

  lemma EndpointsOfPermutation(s: seq<ChannelLink>, t: seq<ChannelLink>, c: string)
    requires multiset(s) == multiset(t)
    ensures c in Endpoints(s) <==> c in Endpoints(t)
  {
    if c in Endpoints(s) {
      var k :| 0 <= k < |s| && (s[k].source == c || s[k].target == c);
      assert s[k] in multiset(t);
      var q :| 0 <= q < |t| && t[q] == s[k];
    }
    if c in Endpoints(t) {
      var k :| 0 <= k < |t| && (t[k].source == c || t[k].target == c);
      assert t[k] in multiset(s);
      var q :| 0 <= q < |s| && s[q] == t[k];
    }
  }

  // ---------------------------------------------------------------------
  // export_related_channel_links_json
  // ---------------------------------------------------------------------

  /** The blacklist as a set. */
  function BlackSet(blacklist: seq<string>): (r: set<string>)
    ensures forall c :: c in r <==> c in blacklist
  {
    set c | c in blacklist
  }

  /** A link enters the adjacency lists when it is close enough and neither
   *  end is blacklisted. */
  predicate Usable(l: ChannelLink, minDistance: real, bl: set<string>)
  {
    l.distance >= minDistance && l.source !in bl && l.target !in bl
  }

  function ListOf(adj: map<string, seq<RelatedItem>>, c: string): seq<RelatedItem>
  {
    if c in adj then adj[c] else []
  }

  /** One usable link, pushed to its source's list and then to its target's. */
  function PushLink(adj: map<string, seq<RelatedItem>>, l: ChannelLink): map<string, seq<RelatedItem>>
  {
    var a1 := adj[l.source := ListOf(adj, l.source) + [RelatedItem(l.target, l.inter, l.distance)]];
    a1[l.target := ListOf(a1, l.target) + [RelatedItem(l.source, l.inter, l.distance)]]
  }

  /** The two-way adjacency lists of the usable links, in link order. */
  function AdjOf(links: seq<ChannelLink>, minDistance: real, bl: set<string>): map<string, seq<RelatedItem>>
  {
    if links == [] then map[]
    else
      var adj := AdjOf(links[..|links| - 1], minDistance, bl);
      var l := links[|links| - 1];
      if Usable(l, minDistance, bl) then PushLink(adj, l) else adj
  }

  /** Link `l` puts item `it` on channel `c`'s list. */
  predicate Offers(l: ChannelLink, c: string, it: RelatedItem)
  {
    || (l.source == c && it == RelatedItem(l.target, l.inter, l.distance))
    || (l.target == c && it == RelatedItem(l.source, l.inter, l.distance))
  }

  /** Some usable link has `c` as an end. */
  predicate Touches(links: seq<ChannelLink>, minDistance: real, bl: set<string>, c: string)
  {
    exists k :: 0 <= k < |links| && Usable(links[k], minDistance, bl) && (links[k].source == c || links[k].target == c)
  }

  /** Some usable link puts `it` on `c`'s list. */
  predicate Listed(links: seq<ChannelLink>, minDistance: real, bl: set<string>, c: string, it: RelatedItem)
  {
    exists k :: 0 <= k < |links| && Usable(links[k], minDistance, bl) && Offers(links[k], c, it)
  }

  lemma PushLinkProps(adj: map<string, seq<RelatedItem>>, l: ChannelLink, c: string, it: RelatedItem)
    ensures c in PushLink(adj, l) <==> c in adj || c == l.source || c == l.target
    ensures it in ListOf(PushLink(adj, l), c) <==> it in ListOf(adj, c) || Offers(l, c, it)
  {
  }

  /** The channels with a list are the ends of usable links, and an item is
   *  on a channel's list exactly when a usable link offers it. */
  lemma AdjMembers(links: seq<ChannelLink>, minDistance: real, bl: set<string>, c: string, it: RelatedItem)
    ensures c in AdjOf(links, minDistance, bl) <==> Touches(links, minDistance, bl, c)
    ensures it in ListOf(AdjOf(links, minDistance, bl), c) <==> Listed(links, minDistance, bl, c, it)
  {
    AdjKeys(links, minDistance, bl, c);
    AdjListed(links, minDistance, bl, c, it);
  }

  lemma {:induction false} AdjKeys(links: seq<ChannelLink>, minDistance: real, bl: set<string>, c: string)
    ensures c in AdjOf(links, minDistance, bl) <==> Touches(links, minDistance, bl, c)
  {
    if links != [] {
      var init := links[..|links| - 1];
      var l := links[|links| - 1];
      AdjKeys(init, minDistance, bl, c);
      var it :| true;
      PushLinkProps(AdjOf(init, minDistance, bl), l, c, it);
      assert Touches(links, minDistance, bl, c) <==>
             Touches(init, minDistance, bl, c) || (Usable(l, minDistance, bl) && (l.source == c || l.target == c)) by {
        if Touches(init, minDistance, bl, c) {
          var k :| 0 <= k < |init| && Usable(init[k], minDistance, bl) && (init[k].source == c || init[k].target == c);
          assert links[k] == init[k];
        }
        if Touches(links, minDistance, bl, c) {
          var k :| 0 <= k < |links| && Usable(links[k], minDistance, bl) && (links[k].source == c || links[k].target == c);
          if k < |init| {
            assert init[k] == links[k];
          }
        }
      }
    }
  }

  lemma {:induction false} AdjListed(links: seq<ChannelLink>, minDistance: real, bl: set<string>, c: string, it: RelatedItem)
    ensures it in ListOf(AdjOf(links, minDistance, bl), c) <==> Listed(links, minDistance, bl, c, it)
  {
    if links != [] {
      var init := links[..|links| - 1];
      var l := links[|links| - 1];
      AdjListed(init, minDistance, bl, c, it);
      PushLinkProps(AdjOf(init, minDistance, bl), l, c, it);
      assert Listed(links, minDistance, bl, c, it) <==>
             Listed(init, minDistance, bl, c, it) || (Usable(l, minDistance, bl) && Offers(l, c, it)) by {
        if Listed(init, minDistance, bl, c, it) {
          var k :| 0 <= k < |init| && Usable(init[k], minDistance, bl) && Offers(init[k], c, it);
          assert links[k] == init[k];
        }
        if Listed(links, minDistance, bl, c, it) {
          var k :| 0 <= k < |links| && Usable(links[k], minDistance, bl) && Offers(links[k], c, it);
          if k < |init| {
            assert init[k] == links[k];
          }
        }
      }
    }
  }

  /** The lists are two-way: `t` is on `s`'s list with some figures exactly
   *  when `s` is on `t`'s with the same figures; no list belongs to a
   *  blacklisted channel or names one, and every item is close enough. */
  lemma AdjSymmetric(links: seq<ChannelLink>, minDistance: real, bl: set<string>, s: string, t: string, inter: nat, d: real)
    ensures var adj := AdjOf(links, minDistance, bl);
            RelatedItem(t, inter, d) in ListOf(adj, s) <==> RelatedItem(s, inter, d) in ListOf(adj, t)
    ensures var adj := AdjOf(links, minDistance, bl);
            RelatedItem(t, inter, d) in ListOf(adj, s) ==> s !in bl && t !in bl && d >= minDistance
    ensures s in AdjOf(links, minDistance, bl) ==> s !in bl
  {
    AdjMembers(links, minDistance, bl, s, RelatedItem(t, inter, d));
    AdjMembers(links, minDistance, bl, t, RelatedItem(s, inter, d));
    if Listed(links, minDistance, bl, s, RelatedItem(t, inter, d)) {
      var k :| 0 <= k < |links| && Usable(links[k], minDistance, bl) && Offers(links[k], s, RelatedItem(t, inter, d));
      assert Offers(links[k], t, RelatedItem(s, inter, d));
    }
    if Listed(links, minDistance, bl, t, RelatedItem(s, inter, d)) {
      var k :| 0 <= k < |links| && Usable(links[k], minDistance, bl) && Offers(links[k], t, RelatedItem(s, inter, d));
      assert Offers(links[k], s, RelatedItem(t, inter, d));
    }
  }

  /** The adjacency loop of `export_related_channel_links_json`. */
  method BuildAdjacency(links: seq<ChannelLink>, minDistance: real, blacklist: seq<string>)
    returns (adj: map<string, seq<RelatedItem>>)
    ensures adj == AdjOf(links, minDistance, BlackSet(blacklist))
  {
    var bl := BlackSet(blacklist);
    adj := map[];
    for k := 0 to |links|
      invariant adj == AdjOf(links[..k], minDistance, bl)
    {
      var l := links[k];
      assert links[..k + 1][..k] == links[..k];
      if l.distance >= minDistance {
        if l.source in bl || l.target in bl {
          continue;
        }
        var fromSource := if l.source in adj then adj[l.source] else [];
        adj := adj[l.source := fromSource + [RelatedItem(l.target, l.inter, l.distance)]];
        var fromTarget := if l.target in adj then adj[l.target] else [];
        adj := adj[l.target := fromTarget + [RelatedItem(l.source, l.inter, l.distance)]];
      }
    }
    assert links[..|links|] == links;
  }

  /** Sorting key for descending distance. */
  function ItemDesc(it: RelatedItem): real
  {
    -it.distance
  }

  /** A channel's `max_per_channel` closest neighbours (stable sort). */
  function Closest(neighbours: seq<RelatedItem>, maxPer: nat): seq<RelatedItem>
  {
    var sorted := SortBy(neighbours, ItemDesc);
    if maxPer < |sorted| then sorted[..maxPer] else sorted
  }

  /** The exported map: the closest neighbours of every channel that has
   *  any and is not blacklisted. */
  function RelatedOf(adj: map<string, seq<RelatedItem>>, maxPer: nat, bl: set<string>): map<string, seq<RelatedItem>>
  {
    map c | c in adj && c !in bl && Closest(adj[c], maxPer) != [] :: Closest(adj[c], maxPer)
  }

  /** A channel's closest list holds `min(maxPer, n)` of its neighbours,
   *  by descending distance. */
  lemma ClosestShape(neighbours: seq<RelatedItem>, maxPer: nat)
    ensures var top := Closest(neighbours, maxPer);
            && |top| == (if maxPer < |neighbours| then maxPer else |neighbours|)
            && SortedBy(top, ItemDesc)
            && multiset(top) <= multiset(neighbours)
  {
    var sorted := SortBy(neighbours, ItemDesc);
    var top := Closest(neighbours, maxPer);
    SortByProps(neighbours, ItemDesc);
    assert sorted == top + sorted[|top|..];
  }

  /** No neighbour left out of the closest list is closer than one kept. */
  lemma ClosestRanks(neighbours: seq<RelatedItem>, maxPer: nat, x: RelatedItem, y: RelatedItem)
    requires x in neighbours && x !in Closest(neighbours, maxPer) && y in Closest(neighbours, maxPer)
    ensures x.distance <= y.distance
  {
    var sorted := SortBy(neighbours, ItemDesc);
    var top := Closest(neighbours, maxPer);
    SortByProps(neighbours, ItemDesc);
    assert x in multiset(sorted);
    var q :| 0 <= q < |sorted| && sorted[q] == x;
    var p :| 0 <= p < |top| && top[p] == y;
    assert sorted[p] == y;
    assert ItemDesc(sorted[p]) <= ItemDesc(sorted[q]);
  }

  /** `export_related_channel_links_json` up to the JSON text: channels are
   *  visited in the map's own order, which the result does not depend on. */
  method ExportRelatedChannelLinks(links: seq<ChannelLink>, minDistance: real, maxPerChannel: nat, blacklist: seq<string>)
    returns (related: map<string, seq<RelatedItem>>)
    ensures related == RelatedOf(AdjOf(links, minDistance, BlackSet(blacklist)), maxPerChannel, BlackSet(blacklist))
  {
    var bl := BlackSet(blacklist);
    var adj := BuildAdjacency(links, minDistance, blacklist);
    var want := RelatedOf(adj, maxPerChannel, bl);
    related := map[];
    var todo := adj.Keys;
    while todo != {}
      invariant todo <= adj.Keys
      invariant forall c :: c in related <==> c in want && c !in todo
      invariant forall c :: c in related ==> related[c] == want[c]
      decreases todo
    {
      var c :| c in todo;
      todo := todo - {c};
      if c in bl {
        continue;
      }
      var top := Closest(adj[c], maxPerChannel);
      if top != [] {
        related := related[c := top];
      }
    }
    assert related.Keys == want.Keys;
  }

  /** What the export promises: every channel in it is an unlisted end of
   *  a usable link, with between 1 and `maxPerChannel` neighbours by
   *  descending distance, each at least `minDistance` away and none
   *  blacklisted; and every channel with a usable link is in it when
   *  `maxPerChannel` is positive. */
  lemma RelatedProps(links: seq<ChannelLink>, minDistance: real, maxPerChannel: nat, blacklist: seq<string>, c: string)
    ensures var bl := BlackSet(blacklist);
            var related := RelatedOf(AdjOf(links, minDistance, bl), maxPerChannel, bl);
            && (c in related <==> Touches(links, minDistance, bl, c) && maxPerChannel > 0)
            && (c in related ==>
                  && c !in blacklist
                  && 0 < |related[c]| <= maxPerChannel
                  && SortedBy(related[c], ItemDesc)
                  && forall it :: it in related[c] ==> it.target !in blacklist && it.distance >= minDistance)
  {
    var bl := BlackSet(blacklist);
    var adj := AdjOf(links, minDistance, bl);
    var related := RelatedOf(adj, maxPerChannel, bl);
    var it :| true;
    AdjMembers(links, minDistance, bl, c, it);
    if c in adj {
      ClosestShape(adj[c], maxPerChannel);
      assert adj[c] != [] by {
        var k :| 0 <= k < |links| && Usable(links[k], minDistance, bl) && (links[k].source == c || links[k].target == c);
        var l := links[k];
        var x := if l.source == c then RelatedItem(l.target, l.inter, l.distance) else RelatedItem(l.source, l.inter, l.distance);
        AdjMembers(links, minDistance, bl, c, x);
        assert Offers(l, c, x);
      }
      AdjSymmetric(links, minDistance, bl, c, c, 0, 0.0);
      forall x: RelatedItem | x in ListOf(adj, c) ensures x.target !in bl && x.distance >= minDistance {
        AdjSymmetric(links, minDistance, bl, c, x.target, x.inter, x.distance);
      }
      if c in related {
        forall x: RelatedItem | x in related[c] ensures x.target !in blacklist && x.distance >= minDistance {
          assert x in multiset(related[c]);
          assert x in multiset(adj[c]);
        }
      }
    }
  }
}
