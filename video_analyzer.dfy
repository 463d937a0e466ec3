/** Video relations (chzzk-chat/src/data/video_analyzer.rs): two replays
 *  are related when their time ranges overlap, with ten minutes of slack
 *  on the target's side, and their chatter sets are similar enough by the
 *  Jaccard measure. `find_related_replays` lists the replays related to one
 *  target video; `analyze_all_video_relations` does so for every video with
 *  a lower threshold. Replay times go through a `TimeParser`, the model of
 *  `parse_replay_time`. */
module VideoAnalyzer {
  import opened Wrappers
  import opened Seqs
  import opened Models

  /** Ten minutes: the slack added on both ends of the target's range. */
  const BUFFER_SEC: int := 600

  /** The least similarity `find_related_replays` reports. */
  const RELATED_THRESHOLD: real := 0.05

  /** The least similarity `analyze_all_video_relations` reports (its
   *  comment says 0.01; the code compares with 0.02). */
  const ALL_RELATED_THRESHOLD: real := 0.02

  datatype VideoRelation = VideoRelation(videoNo: nat, similarity: real, sharedUsers: nat, title: string, channelName: string)

  // ---------------------------------------------------------------------
  // is_time_range_overlapping
  // ---------------------------------------------------------------------

  /** The target range widened by ten minutes on both sides and the
   *  candidate range overlap, with strict comparisons at both ends. */
  predicate Overlapping(targetStart: int, targetEnd: int, candStart: int, candEnd: int)
  {
    targetStart - BUFFER_SEC < candEnd && candStart < targetEnd + BUFFER_SEC
  }

  /** The test does not depend on which range is the target. */
  lemma OverlapSymmetric(aStart: int, aEnd: int, bStart: int, bEnd: int)
    ensures Overlapping(aStart, aEnd, bStart, bEnd) <==> Overlapping(bStart, bEnd, aStart, aEnd)
  {
  }

  /** The documented examples, on one day starting at `day`: against a
   *  10:00-17:00 target, 05:00-15:00 and 15:00-19:00 overlap and
   *  18:00-21:00 does not. */
  lemma OverlapExamples(day: int)
    ensures Overlapping(day + 10 * 3600, day + 17 * 3600, day + 5 * 3600, day + 15 * 3600)
    ensures Overlapping(day + 10 * 3600, day + 17 * 3600, day + 15 * 3600, day + 19 * 3600)
    ensures !Overlapping(day + 10 * 3600, day + 17 * 3600, day + 18 * 3600, day + 21 * 3600)
  {
  }

  /** Touching the widened range is not enough: a candidate that ends
   *  exactly ten minutes before the target starts does not overlap. */
  lemma OverlapStrict(targetStart: int, targetEnd: int, candStart: int)
    requires candStart <= targetStart - BUFFER_SEC
    ensures !Overlapping(targetStart, targetEnd, candStart, targetStart - BUFFER_SEC)
    ensures Overlapping(targetStart, targetEnd, candStart, targetStart - BUFFER_SEC + 1) <==> candStart < targetEnd + BUFFER_SEC
  {
  }

  // ---------------------------------------------------------------------
  // calculate_user_overlap_similarity
  // ---------------------------------------------------------------------

  /** `calculate_user_overlap_similarity`: `(0, 0)` when either set is
   *  empty; otherwise the common part over the union, with the size of the
   *  common part. */
  function Jaccard(a: set<string>, b: set<string>): (real, nat)
  {
    if a == {} || b == {} then (0.0, 0)
    else
      var inter := |a * b|;
      var union := |a + b|;
      (if union > 0 then inter as real / union as real else 0.0, inter)
  }

  /** The similarity is symmetric, lies in [0, 1], is positive exactly when
   *  the sets share an element, is 1 for two equal non-empty sets, and times
   *  the size of the union gives the size of the common part. */
  lemma JaccardProps(a: set<string>, b: set<string>)
    ensures Jaccard(a, b) == Jaccard(b, a)
    ensures 0.0 <= Jaccard(a, b).0 <= 1.0
    ensures Jaccard(a, b).0 > 0.0 <==> a * b != {}
    ensures Jaccard(a, b).1 == |a * b|
    ensures a != {} && b != {} ==> Jaccard(a, b).0 * |a + b| as real == |a * b| as real
    ensures a != {} ==> Jaccard(a, a) == (1.0, |a|)
  {
    JaccardSymmetric(a, b);
    if a == {} || b == {} {
      assert a * b == {};
    } else {
      JaccardOfNonEmpty(a, b);
    }
    if a != {} {
      JaccardSelf(a);
    }
  }

  lemma JaccardSymmetric(a: set<string>, b: set<string>)
    ensures Jaccard(a, b) == Jaccard(b, a)
  {
    assert a * b == b * a && a + b == b + a;
  }

  lemma JaccardOfNonEmpty(a: set<string>, b: set<string>)
    requires a != {} && b != {}
    ensures 0.0 <= Jaccard(a, b).0 <= 1.0
    ensures Jaccard(a, b).0 > 0.0 <==> a * b != {}
    ensures Jaccard(a, b).1 == |a * b|
    ensures Jaccard(a, b).0 * |a + b| as real == |a * b| as real
  {
    JaccardParts(a, b);
    var x :| x in a;
    assert x in a + b;
    RatioBounds(|a * b|, |a + b|);
    var r := |a * b| as real / |a + b| as real;
    assert r * |a + b| as real == |a * b| as real;
  }

  lemma JaccardSelf(a: set<string>)
    requires a != {}
    ensures Jaccard(a, a) == (1.0, |a|)
  {
    var x :| x in a;
    assert a * a == a && a + a == a && |a| > 0;
    var n := |a| as real;
    assert n / n == 1.0;
  }

  // ---------------------------------------------------------------------
  // build_video_user_map
  // ---------------------------------------------------------------------

  /** `build_video_user_map`: every log adds the user ids of its messages to
   *  its video's set, so logs that share a video are merged. */
  method BuildVideoUserMap(logs: seq<ChatLog>) returns (videoUsers: Viewers)
    ensures videoUsers.Keys == VideoIds(logs)
    ensures forall v :: v in videoUsers ==> videoUsers[v] == UsersOfVideo(logs, v)
  {
    videoUsers := map[];
    for i := 0 to |logs|
      invariant ViewersOf(videoUsers, logs[..i])
    {
      var log := logs[i];
      var users := if log.videoId in videoUsers then videoUsers[log.videoId] else {};
      users := InsertUserIds(users, log.messages);
      ViewersStep(videoUsers, logs, i, users);
      videoUsers := videoUsers[log.videoId := users];
    }
    TakeAll(logs);
  }

  /** The users of a video, or none (`unwrap_or_default`). */
  function UsersIn(videoUsers: Viewers, v: nat): set<string>
  {
    if v in videoUsers then videoUsers[v] else {}
  }

  /** Looking a video up in the user map gives the union of the chatters of
   *  its logs, and no users for a video without a log. */
  lemma UsersInOf(videoUsers: Viewers, logs: seq<ChatLog>, v: nat)
    requires ViewersOf(videoUsers, logs)
    ensures UsersIn(videoUsers, v) == UsersOfVideo(logs, v)
  {
    if v !in videoUsers {
      UsersOfVideoAbsent(logs, v);
    }
  }

  // ---------------------------------------------------------------------
  // The candidate scan shared by both analyses
  // ---------------------------------------------------------------------

  /** The target of a scan: its video, its parsed range, its users and the
   *  least similarity reported. */
  datatype Query = Query(videoNo: nat, start: int, end: int, users: set<string>, threshold: real)

  /** A replay is reported for the query when it is another video, both of
   *  its times parse, its range overlaps the target's and its similarity to
   *  the target reaches the threshold. */
  predicate Qualifies(rp: Replay, q: Query, logs: seq<ChatLog>, parse: TimeParser)
  {
    rp.videoNo != q.videoNo
    && parse(rp.start).Some? && parse(rp.end).Some?
    && Overlapping(q.start, q.end, parse(rp.start).value, parse(rp.end).value)
    && Jaccard(q.users, UsersOfVideo(logs, rp.videoNo)).0 >= q.threshold
  }

  /** The record reported for replay `rp` of channel `c`. */
  function RelationFor(c: Channel, rp: Replay, q: Query, logs: seq<ChatLog>): VideoRelation
  {
    var sim := Jaccard(q.users, UsersOfVideo(logs, rp.videoNo));
    VideoRelation(rp.videoNo, sim.0, sim.1, rp.title, c.name)
  }

  /** The record of a replay of channel `c`, when it qualifies. */
  function RelationOf(c: Channel, q: Query, logs: seq<ChatLog>, parse: TimeParser): Replay -> Option<VideoRelation>
  {
    rp => if Qualifies(rp, q, logs, parse) then Some(RelationFor(c, rp, q, logs)) else None
  }

  /** The records of the qualifying replays among `rps`, in order. */
  function ChannelRelations(c: Channel, rps: seq<Replay>, q: Query, logs: seq<ChatLog>, parse: TimeParser): seq<VideoRelation>
  {
    FilterMap(rps, RelationOf(c, q, logs, parse))
  }

  /** The records of the qualifying replays, channel by channel. */
  function RelationsFrom(channels: seq<Channel>, q: Query, logs: seq<ChatLog>, parse: TimeParser): seq<VideoRelation>
  {
    if channels == [] then []
    else
      var c := channels[|channels| - 1];
      RelationsFrom(channels[..|channels| - 1], q, logs, parse) + ChannelRelations(c, c.replays, q, logs, parse)
  }

  /** Entry `k` of `rps` qualifies and `x` is its record. */
  predicate ListsAt(c: Channel, rps: seq<Replay>, k: int, q: Query, logs: seq<ChatLog>, parse: TimeParser, x: VideoRelation)
  {
    0 <= k < |rps| && Qualifies(rps[k], q, logs, parse) && x == RelationFor(c, rps[k], q, logs)
  }

  /** Replay `k` of channel `i` qualifies and `x` is its record. */
  predicate ListedAt(channels: seq<Channel>, i: int, k: int, q: Query, logs: seq<ChatLog>, parse: TimeParser, x: VideoRelation)
  {
    0 <= i < |channels| && ListsAt(channels[i], channels[i].replays, k, q, logs, parse, x)
  }

  lemma ChannelRelationsMembers(c: Channel, rps: seq<Replay>, q: Query, logs: seq<ChatLog>, parse: TimeParser, x: VideoRelation)
    ensures x in ChannelRelations(c, rps, q, logs, parse) <==> exists k :: ListsAt(c, rps, k, q, logs, parse, x)
  {
    var f := RelationOf(c, q, logs, parse);
    FilterMapMembers(rps, f, x);
    if exists k :: 0 <= k < |rps| && f(rps[k]) == Some(x) {
      var k :| 0 <= k < |rps| && f(rps[k]) == Some(x);
      assert ListsAt(c, rps, k, q, logs, parse, x);
    }
    if exists k :: ListsAt(c, rps, k, q, logs, parse, x) {
      var k :| ListsAt(c, rps, k, q, logs, parse, x);
      assert f(rps[k]) == Some(x);
    }
  }

  /** A record is in the scan exactly when it is the record of a qualifying
   *  replay of some channel. */
  lemma {:induction false} RelationsFromMembers(channels: seq<Channel>, q: Query, logs: seq<ChatLog>, parse: TimeParser, x: VideoRelation)
    ensures x in RelationsFrom(channels, q, logs, parse) <==> exists i, k :: ListedAt(channels, i, k, q, logs, parse, x)
  {
    if channels != [] {
      var init := channels[..|channels| - 1];
      var c := channels[|channels| - 1];
      RelationsFromMembers(init, q, logs, parse, x);
      ChannelRelationsMembers(c, c.replays, q, logs, parse, x);
      var before := RelationsFrom(init, q, logs, parse);
      var here := ChannelRelations(c, c.replays, q, logs, parse);
      assert RelationsFrom(channels, q, logs, parse) == before + here;
      assert x in before + here <==> x in before || x in here;
      if exists i, k :: ListedAt(init, i, k, q, logs, parse, x) {
        var i, k :| ListedAt(init, i, k, q, logs, parse, x);
        assert channels[i] == init[i];
        assert ListedAt(channels, i, k, q, logs, parse, x);
      }
      if exists k :: ListsAt(c, c.replays, k, q, logs, parse, x) {
        var k :| ListsAt(c, c.replays, k, q, logs, parse, x);
        assert channels[|channels| - 1] == c;
        assert ListedAt(channels, |channels| - 1, k, q, logs, parse, x);
      }
      if exists i, k :: ListedAt(channels, i, k, q, logs, parse, x) {
        var i, k :| ListedAt(channels, i, k, q, logs, parse, x);
        if i < |init| {
          assert channels[i] == init[i];
          assert ListedAt(init, i, k, q, logs, parse, x);
        } else {
          assert channels[i] == c;
          assert ListsAt(c, c.replays, k, q, logs, parse, x);
        }
      }
    }
  }

  /** The scan only looks at the times of the replays, so two parsers that
   *  agree on those give the same scan. */
  predicate AgreeOn(channels: seq<Channel>, p1: TimeParser, p2: TimeParser)
  {
    forall i, k :: 0 <= i < |channels| && 0 <= k < |channels[i].replays| ==>
      p1(channels[i].replays[k].start) == p2(channels[i].replays[k].start)
      && p1(channels[i].replays[k].end) == p2(channels[i].replays[k].end)
  }

  lemma {:induction false} ChannelRelationsAgree(c: Channel, rps: seq<Replay>, q: Query, logs: seq<ChatLog>, p1: TimeParser, p2: TimeParser)
    requires forall k :: 0 <= k < |rps| ==> p1(rps[k].start) == p2(rps[k].start) && p1(rps[k].end) == p2(rps[k].end)
    ensures ChannelRelations(c, rps, q, logs, p1) == ChannelRelations(c, rps, q, logs, p2)
  {
    if rps != [] {
      var init := rps[..|rps| - 1];
      var rp := rps[|rps| - 1];
      assert forall k :: 0 <= k < |init| ==> init[k] == rps[k];
      ChannelRelationsAgree(c, init, q, logs, p1, p2);
      assert RelationOf(c, q, logs, p1)(rp) == RelationOf(c, q, logs, p2)(rp);
    }
  }

  lemma {:induction false} RelationsAgree(channels: seq<Channel>, q: Query, logs: seq<ChatLog>, p1: TimeParser, p2: TimeParser)
    requires AgreeOn(channels, p1, p2)
    ensures RelationsFrom(channels, q, logs, p1) == RelationsFrom(channels, q, logs, p2)
  {
    if channels != [] {
      var init := channels[..|channels| - 1];
      var c := channels[|channels| - 1];
      assert forall i :: 0 <= i < |init| ==> init[i] == channels[i];
      RelationsAgree(init, q, logs, p1, p2);
      assert forall k :: 0 <= k < |c.replays| ==> p1(c.replays[k].start) == p2(c.replays[k].start) && p1(c.replays[k].end) == p2(c.replays[k].end) by {
        assert c == channels[|channels| - 1];
      }
      ChannelRelationsAgree(c, c.replays, q, logs, p1, p2);
    }
  }

  lemma ChannelRelationsStep(c: Channel, rps: seq<Replay>, k: nat, q: Query, logs: seq<ChatLog>, parse: TimeParser)
    requires k < |rps|
    ensures ChannelRelations(c, rps[..k + 1], q, logs, parse)
         == ChannelRelations(c, rps[..k], q, logs, parse)
            + (match RelationOf(c, q, logs, parse)(rps[k]) case None => [] case Some(x) => [x])
  {
    TakeSnoc(rps, k);
    assert rps[..k + 1][..k] == rps[..k];
  }

  lemma RelationsFromStep(channels: seq<Channel>, i: nat, q: Query, logs: seq<ChatLog>, parse: TimeParser)
    requires i < |channels|
    ensures RelationsFrom(channels[..i + 1], q, logs, parse)
         == RelationsFrom(channels[..i], q, logs, parse) + ChannelRelations(channels[i], channels[i].replays, q, logs, parse)
  {
    TakeSnoc(channels, i);
    assert channels[..i + 1][..i] == channels[..i];
  }

  /** One step of the inner loop: the target itself, a replay whose times do
   *  not parse, one outside the widened range and one below the threshold
   *  are skipped. */
  method CheckReplay(c: Channel, rp: Replay, q: Query, videoUsers: Viewers, ghost logs: seq<ChatLog>, parse: TimeParser)
    returns (r: Option<VideoRelation>)
    requires ViewersOf(videoUsers, logs)
    ensures r == RelationOf(c, q, logs, parse)(rp)
  {
    if rp.videoNo == q.videoNo {
      return None;
    }
    var candStart := parse(rp.start);
    if candStart.None? {
      return None;
    }
    var candEnd := parse(rp.end);
    if candEnd.None? {
      return None;
    }
    if !Overlapping(q.start, q.end, candStart.value, candEnd.value) {
      return None;
    }
    var candUsers := UsersIn(videoUsers, rp.videoNo);
    UsersInOf(videoUsers, logs, rp.videoNo);
    var sim := Jaccard(q.users, candUsers);
    if sim.0 >= q.threshold {
      return Some(VideoRelation(rp.videoNo, sim.0, sim.1, rp.title, c.name));
    }
    return None;
  }

  /** The inner loop over the replays of one channel. */
  method ScanChannel(c: Channel, q: Query, videoUsers: Viewers, ghost logs: seq<ChatLog>, parse: TimeParser)
    returns (rels: seq<VideoRelation>)
    requires ViewersOf(videoUsers, logs)
    ensures rels == ChannelRelations(c, c.replays, q, logs, parse)
  {
    rels := [];
    for k := 0 to |c.replays|
      invariant rels == ChannelRelations(c, c.replays[..k], q, logs, parse)
    {
      ChannelRelationsStep(c, c.replays, k, q, logs, parse);
      var r := CheckReplay(c, c.replays[k], q, videoUsers, logs, parse);
      if r.Some? {
        rels := rels + [r.value];
      }
    }
    TakeAll(c.replays);
  }

  /** The nested loop over every channel's replays. */
  method ScanRelations(channels: seq<Channel>, q: Query, videoUsers: Viewers, ghost logs: seq<ChatLog>, parse: TimeParser)
    returns (rels: seq<VideoRelation>)
    requires ViewersOf(videoUsers, logs)
    ensures rels == RelationsFrom(channels, q, logs, parse)
  {
    rels := [];
    for i := 0 to |channels|
      invariant rels == RelationsFrom(channels[..i], q, logs, parse)
    {
      var more := ScanChannel(channels[i], q, videoUsers, logs, parse);
      RelationsFromStep(channels, i, q, logs, parse);
      rels := rels + more;
    }
    TakeAll(channels);
  }

  /** Sorting key for descending similarity (`sort_by` is stable). */
  function SimilarityDesc(x: VideoRelation): real
  {
    -x.similarity
  }

  /** `listed` holds, by descending similarity, exactly the records of the
   *  qualifying replays; none of them is the target, and each has at least
   *  the threshold similarity. */
  ghost predicate Reports(listed: seq<VideoRelation>, channels: seq<Channel>, q: Query, logs: seq<ChatLog>, parse: TimeParser)
  {
    && (forall i, j :: 0 <= i < j < |listed| ==> listed[i].similarity >= listed[j].similarity)
    && (forall x :: x in listed <==> exists i, k :: ListedAt(channels, i, k, q, logs, parse, x))
    && (forall x :: x in listed ==> x.videoNo != q.videoNo && x.similarity >= q.threshold)
  }

  /** The sorted scan reports the qualifying replays. */
  lemma ListedProps(channels: seq<Channel>, q: Query, logs: seq<ChatLog>, parse: TimeParser)
    ensures Reports(SortBy(RelationsFrom(channels, q, logs, parse), SimilarityDesc), channels, q, logs, parse)
  {
    var rels := RelationsFrom(channels, q, logs, parse);
    var listed := SortBy(rels, SimilarityDesc);
    SortByProps(rels, SimilarityDesc);
    forall x ensures x in listed <==> exists i, k :: ListedAt(channels, i, k, q, logs, parse, x) {
      RelationsFromMembers(channels, q, logs, parse, x);
      assert x in listed <==> x in multiset(listed);
      assert x in rels <==> x in multiset(rels);
    }
    forall x | x in listed ensures x.videoNo != q.videoNo && x.similarity >= q.threshold {
      var i, k :| ListedAt(channels, i, k, q, logs, parse, x);
    }
  }

  /** A target without chatters is similar to nothing, so nothing is
   *  reported for a positive threshold. */
  lemma {:induction false} NoUsersChannel(c: Channel, rps: seq<Replay>, q: Query, logs: seq<ChatLog>, parse: TimeParser)
    requires q.users == {} && q.threshold > 0.0
    ensures ChannelRelations(c, rps, q, logs, parse) == []
  {
    if rps != [] {
      var rp := rps[|rps| - 1];
      NoUsersChannel(c, rps[..|rps| - 1], q, logs, parse);
      assert Jaccard(q.users, UsersOfVideo(logs, rp.videoNo)).0 == 0.0;
      assert RelationOf(c, q, logs, parse)(rp) == None;
    }
  }

  lemma {:induction false} NoUsersNoRelations(channels: seq<Channel>, q: Query, logs: seq<ChatLog>, parse: TimeParser)
    requires q.users == {} && q.threshold > 0.0
    ensures RelationsFrom(channels, q, logs, parse) == []
  {
    if channels != [] {
      NoUsersNoRelations(channels[..|channels| - 1], q, logs, parse);
      var c := channels[|channels| - 1];
      NoUsersChannel(c, c.replays, q, logs, parse);
    }
  }

  // ---------------------------------------------------------------------
  // find_related_replays
  // ---------------------------------------------------------------------

  /** What `find_related_replays` returns: an error when the target video is
   *  not among the replays or one of its times does not parse, and
   *  otherwise the related replays by descending similarity. */
  function RelatedOf(target: nat, channels: seq<Channel>, logs: seq<ChatLog>, parse: TimeParser): Result<seq<VideoRelation>>
  {
    match FindReplay(AllReplays(channels), target)
    case None => Err("Target video not found")
    case Some(rp) =>
      if parse(rp.start).None? then Err("Failed to parse target replay start time")
      else if parse(rp.end).None? then Err("Failed to parse target replay end time")
      else
        var q := Query(target, parse(rp.start).value, parse(rp.end).value, UsersOfVideo(logs, target), RELATED_THRESHOLD);
        Ok(SortBy(RelationsFrom(channels, q, logs, parse), SimilarityDesc))
  }

  /** `find_related_replays`. */
  method FindRelatedReplays(target: nat, channels: seq<Channel>, logs: seq<ChatLog>, parse: TimeParser)
    returns (r: Result<seq<VideoRelation>>)
    ensures r == RelatedOf(target, channels, logs, parse)
  {
    var found := FindReplay(AllReplays(channels), target);
    if found.None? {
      return Err("Target video not found");
    }
    var rp := found.value;
    var targetStart := parse(rp.start);
    if targetStart.None? {
      return Err("Failed to parse target replay start time");
    }
    var targetEnd := parse(rp.end);
    if targetEnd.None? {
      return Err("Failed to parse target replay end time");
    }
    var videoUsers := BuildVideoUserMap(logs);
    var targetUsers := UsersIn(videoUsers, target);
    UsersInOf(videoUsers, logs, target);
    var q := Query(target, targetStart.value, targetEnd.value, targetUsers, RELATED_THRESHOLD);
    var rels := ScanRelations(channels, q, videoUsers, logs, parse);
    return Ok(SortBy(rels, SimilarityDesc));
  }

  /** The target's replay is found and both of its times parse. */
  predicate TargetKnown(target: nat, channels: seq<Channel>, parse: TimeParser)
  {
    var found := FindReplay(AllReplays(channels), target);
    found.Some? && parse(found.value.start).Some? && parse(found.value.end).Some?
  }

  /** The first replay with the target's number is missing exactly when no
   *  channel lists the target. */
  lemma FindInChannels(channels: seq<Channel>, target: nat)
    ensures FindReplay(AllReplays(channels), target).None? <==>
              forall c, rp :: c in channels && rp in c.replays ==> rp.videoNo != target
  {
    var all := AllReplays(channels);
    FindReplayProps(all, target);
    if FindReplay(all, target).None? {
      forall c, rp | c in channels && rp in c.replays ensures rp.videoNo != target {
        assert rp in all;
        var k :| 0 <= k < |all| && all[k] == rp;
      }
    } else {
      var k :| 0 <= k < |all| && all[k] == FindReplay(all, target).value && all[k].videoNo == target;
      assert all[k] in all;
      var c :| c in channels && all[k] in c.replays;
    }
  }

  /** The query `find_related_replays` scans with, once the target is known. */
  function TargetQuery(target: nat, channels: seq<Channel>, logs: seq<ChatLog>, parse: TimeParser): Query
    requires TargetKnown(target, channels, parse)
  {
    var found := FindReplay(AllReplays(channels), target).value;
    Query(target, parse(found.start).value, parse(found.end).value, UsersOfVideo(logs, target), RELATED_THRESHOLD)
  }

  /** `find_related_replays` fails exactly when the target is unknown or its
   *  times do not parse; otherwise it lists, by descending similarity,
   *  exactly the other replays whose range overlaps the target's and whose
   *  similarity is at least 0.05, and nothing when the target has no
   *  chatters. */
  lemma RelatedProps(target: nat, channels: seq<Channel>, logs: seq<ChatLog>, parse: TimeParser)
    ensures RelatedOf(target, channels, logs, parse).Err? <==> !TargetKnown(target, channels, parse)
    ensures RelatedOf(target, channels, logs, parse).Ok? ==>
      var q := TargetQuery(target, channels, logs, parse);
      var listed := RelatedOf(target, channels, logs, parse).value;
      && Reports(listed, channels, q, logs, parse)
      && (UsersOfVideo(logs, target) == {} ==> listed == [])
  {
    if TargetKnown(target, channels, parse) {
      var q := TargetQuery(target, channels, logs, parse);
      assert RelatedOf(target, channels, logs, parse) == Ok(SortBy(RelationsFrom(channels, q, logs, parse), SimilarityDesc));
      ListedProps(channels, q, logs, parse);
      if UsersOfVideo(logs, target) == {} {
        NoUsersNoRelations(channels, q, logs, parse);
        assert SortBy<VideoRelation>([], SimilarityDesc) == [];
      }
    }
  }

  // ---------------------------------------------------------------------
  // analyze_all_video_relations
  // ---------------------------------------------------------------------

  /** The video number of every replay, in order (`all_video_nos`). */
  function VideoNos(rps: seq<Replay>): (r: seq<nat>)
    ensures |r| == |rps| && forall k :: 0 <= k < |rps| ==> r[k] == rps[k].videoNo
  {
    seq(|rps|, k requires 0 <= k < |rps| => rps[k].videoNo)
  }

  /** `replay_by_video_no`: every replay inserted in order, so a video
   *  number listed twice keeps its last replay. */
  function ReplayIndex(rps: seq<Replay>): map<nat, Replay>
  {
    if rps == [] then map[] else ReplayIndex(rps[..|rps| - 1])[rps[|rps| - 1].videoNo := rps[|rps| - 1]]
  }

  /** Replay `k` of `rps` is the last one with video number `v`. */
  predicate LastOf(rps: seq<Replay>, v: nat, k: int)
  {
    0 <= k < |rps| && rps[k].videoNo == v && forall j :: k < j < |rps| ==> rps[j].videoNo != v
  }

  /** The index holds every video number of the replays, each mapped to the
   *  last replay with that number. */
  lemma {:induction false} ReplayIndexProps(rps: seq<Replay>, v: nat)
    ensures v in ReplayIndex(rps) <==> exists k :: 0 <= k < |rps| && rps[k].videoNo == v
    ensures v in ReplayIndex(rps) ==> exists k :: LastOf(rps, v, k) && rps[k] == ReplayIndex(rps)[v]
  {
    if rps != [] {
      var init := rps[..|rps| - 1];
      var last := rps[|rps| - 1];
      ReplayIndexProps(init, v);
      assert ReplayIndex(rps) == ReplayIndex(init)[last.videoNo := last];
      if last.videoNo == v {
        assert LastOf(rps, v, |rps| - 1);
      } else {
        if v in ReplayIndex(init) {
          var k :| LastOf(init, v, k) && init[k] == ReplayIndex(init)[v];
          assert LastOf(rps, v, k);
        }
        if exists k :: 0 <= k < |rps| && rps[k].videoNo == v {
          var k :| 0 <= k < |rps| && rps[k].videoNo == v;
          assert init[k] == rps[k];
        }
      }
      if exists k :: 0 <= k < |init| && init[k].videoNo == v {
        var k :| 0 <= k < |init| && init[k].videoNo == v;
        assert rps[k] == init[k];
      }
    }
  }

  lemma ReplayIndexSnoc(rps: seq<Replay>, rp: Replay)
    ensures ReplayIndex(rps + [rp]) == ReplayIndex(rps)[rp.videoNo := rp]
  {
    assert (rps + [rp])[..|rps|] == rps;
  }

  lemma AllReplaysStep(channels: seq<Channel>, i: nat)
    requires i < |channels|
    ensures AllReplays(channels[..i + 1]) == AllReplays(channels[..i]) + channels[i].replays
  {
    TakeSnoc(channels, i);
    assert channels[..i + 1][..i] == channels[..i];
  }

  /** The loop that fills `replay_by_video_no`. */
  method BuildReplayIndex(channels: seq<Channel>) returns (index: map<nat, Replay>)
    ensures index == ReplayIndex(AllReplays(channels))
  {
    index := map[];
    for i := 0 to |channels|
      invariant index == ReplayIndex(AllReplays(channels[..i]))
    {
      var c := channels[i];
      ghost var before := AllReplays(channels[..i]);
      assert before + c.replays[..0] == before;
      for k := 0 to |c.replays|
        invariant index == ReplayIndex(before + c.replays[..k])
      {
        TakeSnoc(c.replays, k);
        assert before + c.replays[..k + 1] == (before + c.replays[..k]) + [c.replays[k]];
        ReplayIndexSnoc(before + c.replays[..k], c.replays[k]);
        index := index[c.replays[k].videoNo := c.replays[k]];
      }
      TakeAll(c.replays);
      AllReplaysStep(channels, i);
    }
    TakeAll(channels);
  }

  /** Both times of `rp` that parse are in the cache. */
  predicate Cached(cache: map<string, int>, rp: Replay, parse: TimeParser)
  {
    (parse(rp.start).Some? ==> rp.start in cache) && (parse(rp.end).Some? ==> rp.end in cache)
  }

  /** The cache as a parser: a time string is known exactly when cached. */
  function CacheParse(cache: map<string, int>): TimeParser
  {
    s => if s in cache then Some(cache[s]) else None
  }

  /** `time_cache`: every replay time that parses, parsed once. */
  method BuildTimeCache(channels: seq<Channel>, parse: TimeParser) returns (cache: map<string, int>)
    ensures forall s :: s in cache ==> parse(s) == Some(cache[s])
    ensures forall rp :: rp in AllReplays(channels) ==> Cached(cache, rp, parse)
  {
    cache := map[];
    for i := 0 to |channels|
      invariant forall s :: s in cache ==> parse(s) == Some(cache[s])
      invariant forall rp :: rp in AllReplays(channels[..i]) ==> Cached(cache, rp, parse)
    {
      var c := channels[i];
      for k := 0 to |c.replays|
        invariant forall s :: s in cache ==> parse(s) == Some(cache[s])
        invariant forall rp :: rp in AllReplays(channels[..i]) ==> Cached(cache, rp, parse)
        invariant forall j :: 0 <= j < k ==> Cached(cache, c.replays[j], parse)
      {
        var rp := c.replays[k];
        if rp.start !in cache {
          var t := parse(rp.start);
          if t.Some? {
            cache := cache[rp.start := t.value];
          }
        }
        if rp.end !in cache {
          var t := parse(rp.end);
          if t.Some? {
            cache := cache[rp.end := t.value];
          }
        }
      }
      AllReplaysStep(channels, i);
      forall rp | rp in AllReplays(channels[..i + 1]) ensures Cached(cache, rp, parse) {
        if rp !in AllReplays(channels[..i]) {
          assert rp in c.replays;
          var j :| 0 <= j < |c.replays| && c.replays[j] == rp;
        }
      }
    }
    TakeAll(channels);
  }

  /** Looked up through the cache, every replay time reads as it parses. */
  lemma CacheAgrees(cache: map<string, int>, channels: seq<Channel>, parse: TimeParser)
    requires forall s :: s in cache ==> parse(s) == Some(cache[s])
    requires forall rp :: rp in AllReplays(channels) ==> Cached(cache, rp, parse)
    ensures AgreeOn(channels, CacheParse(cache), parse)
  {
    forall i, k | 0 <= i < |channels| && 0 <= k < |channels[i].replays|
      ensures CacheParse(cache)(channels[i].replays[k].start) == parse(channels[i].replays[k].start)
      ensures CacheParse(cache)(channels[i].replays[k].end) == parse(channels[i].replays[k].end)
    {
      var rp := channels[i].replays[k];
      assert rp in channels[i].replays;
      assert rp in AllReplays(channels);
    }
  }

  /** The last replay with number `v` exists and both of its times parse. */
  predicate LastKnown(v: nat, channels: seq<Channel>, parse: TimeParser)
  {
    var index := ReplayIndex(AllReplays(channels));
    v in index && parse(index[v].start).Some? && parse(index[v].end).Some?
  }

  /** The query of target `v` in `analyze_all_video_relations`. */
  function AllQuery(v: nat, channels: seq<Channel>, logs: seq<ChatLog>, parse: TimeParser): Query
    requires LastKnown(v, channels, parse)
  {
    var rp := ReplayIndex(AllReplays(channels))[v];
    Query(v, parse(rp.start).value, parse(rp.end).value, UsersOfVideo(logs, v), ALL_RELATED_THRESHOLD)
  }

  /** The list of one target: none when its last replay's times do not parse
   *  or it has no chatters. */
  function TargetRelations(v: nat, channels: seq<Channel>, logs: seq<ChatLog>, parse: TimeParser): Option<seq<VideoRelation>>
  {
    if !LastKnown(v, channels, parse) || UsersOfVideo(logs, v) == {} then None
    else Some(SortBy(RelationsFrom(channels, AllQuery(v, channels, logs, parse), logs, parse), SimilarityDesc))
  }

  /** The lists of the targets `vs`, collected into a map. */
  function RelationsMap(vs: seq<nat>, channels: seq<Channel>, logs: seq<ChatLog>, parse: TimeParser): map<nat, seq<VideoRelation>>
  {
    if vs == [] then map[]
    else
      var m := RelationsMap(vs[..|vs| - 1], channels, logs, parse);
      var v := vs[|vs| - 1];
      match TargetRelations(v, channels, logs, parse)
      case None => m
      case Some(rels) => m[v := rels]
  }

  /** What `analyze_all_video_relations` returns. */
  function AllRelationsOf(channels: seq<Channel>, logs: seq<ChatLog>, parse: TimeParser): map<nat, seq<VideoRelation>>
  {
    RelationsMap(VideoNos(AllReplays(channels)), channels, logs, parse)
  }

  lemma {:induction false} RelationsMapProps(vs: seq<nat>, channels: seq<Channel>, logs: seq<ChatLog>, parse: TimeParser, v: nat)
    ensures v in RelationsMap(vs, channels, logs, parse) <==> v in vs && TargetRelations(v, channels, logs, parse).Some?
    ensures v in RelationsMap(vs, channels, logs, parse) ==>
              RelationsMap(vs, channels, logs, parse)[v] == TargetRelations(v, channels, logs, parse).value
  {
    if vs != [] {
      var init := vs[..|vs| - 1];
      RelationsMapProps(init, channels, logs, parse, v);
      InitLast(vs);
    }
  }

  lemma RelationsMapStep(vs: seq<nat>, i: nat, channels: seq<Channel>, logs: seq<ChatLog>, parse: TimeParser)
    requires i < |vs|
    ensures RelationsMap(vs[..i + 1], channels, logs, parse)
         == match TargetRelations(vs[i], channels, logs, parse)
            case None => RelationsMap(vs[..i], channels, logs, parse)
            case Some(rels) => RelationsMap(vs[..i], channels, logs, parse)[vs[i] := rels]
  {
    TakeSnoc(vs, i);
    assert vs[..i + 1][..i] == vs[..i];
  }

  /** `analyze_all_video_relations`, run sequentially: for every video
   *  number of the replays, its last replay is the target; targets whose
   *  times do not parse and targets without chatters are left out. */
  method AnalyzeAllVideoRelations(channels: seq<Channel>, logs: seq<ChatLog>, parse: TimeParser)
    returns (all: map<nat, seq<VideoRelation>>)
    ensures all == AllRelationsOf(channels, logs, parse)
  {
    var videoUsers := BuildVideoUserMap(logs);
    var allVideoNos := VideoNos(AllReplays(channels));
    var index := BuildReplayIndex(channels);
    var cache := BuildTimeCache(channels, parse);
    var cached := CacheParse(cache);
    CacheAgrees(cache, channels, parse);
    all := map[];
    for i := 0 to |allVideoNos|
      invariant all == RelationsMap(allVideoNos[..i], channels, logs, parse)
    {
      var v := allVideoNos[i];
      RelationsMapStep(allVideoNos, i, channels, logs, parse);
      if v !in index {
        continue;
      }
      var rp := index[v];
      ReplayIndexProps(AllReplays(channels), v);
      ghost var k :| LastOf(AllReplays(channels), v, k) && AllReplays(channels)[k] == rp;
      assert rp in AllReplays(channels);
      if rp.start !in cache || rp.end !in cache {
        continue;
      }
      var targetUsers := UsersIn(videoUsers, v);
      UsersInOf(videoUsers, logs, v);
      if targetUsers == {} {
        continue;
      }
      var q := Query(v, cache[rp.start], cache[rp.end], targetUsers, ALL_RELATED_THRESHOLD);
      assert q == AllQuery(v, channels, logs, parse);
      var rels := ScanRelations(channels, q, videoUsers, logs, cached);
      RelationsAgree(channels, q, logs, cached, parse);
      all := all[v := SortBy(rels, SimilarityDesc)];
    }
    TakeAll(allVideoNos);
  }

  /** A video has a list exactly when some replay has its number, the times
   *  of its last such replay parse and it has chatters; its list reports,
   *  by descending similarity, the other replays that overlap it with a
   *  similarity of at least 0.02. */
  lemma AllRelationsProps(channels: seq<Channel>, logs: seq<ChatLog>, parse: TimeParser, v: nat)
    ensures var all := AllRelationsOf(channels, logs, parse);
      && (v in all <==> LastKnown(v, channels, parse) && UsersOfVideo(logs, v) != {})
      && (v in all ==> Reports(all[v], channels, AllQuery(v, channels, logs, parse), logs, parse))
  {
    var rps := AllReplays(channels);
    var vs := VideoNos(rps);
    RelationsMapProps(vs, channels, logs, parse, v);
    ReplayIndexProps(rps, v);
    if LastKnown(v, channels, parse) {
      var k :| 0 <= k < |rps| && rps[k].videoNo == v;
      assert vs[k] == v;
      if UsersOfVideo(logs, v) != {} {
        ListedProps(channels, AllQuery(v, channels, logs, parse), logs, parse);
      }
    }
  }
}
