/** Per-log statistics (chzzk-chat/src/data/chat/analysis.rs, whose
 *  `analyze_chat_log` chzzk-chat/src/data/chat_analyzer.rs repeats nearly
 *  word for word): message counts per user and per nickname, the distinct
 *  users and nicknames, the first and last message time; the filter that
 *  drops crowded logs; and the lookup of a video's channel and replay. */
module Analysis {
  import opened Wrappers
  import opened Seqs
  import opened Models

  datatype ChatAnalysis = ChatAnalysis(
    totalMessages: nat,
    uniqueUsers: nat,
    uniqueNicknames: nat,
    messagesPerUser: map<string, nat>,
    messagesPerNickname: map<string, nat>,
    firstMessageTime: Option<int>,
    lastMessageTime: Option<int>,
    durationSeconds: Option<int>)

  /** The loop that fills a `HashMap` with `*entry(x).or_insert(0) += 1`
   *  for every value in turn. */
  method CountEach(xs: seq<string>) returns (m: map<string, nat>)
    ensures CountMapOf(m, xs)
  {
    m := map[];
    for i := 0 to |xs|
      invariant CountMapOf(m, xs[..i])
    {
      TakeSnoc(xs, i);
      CountMapSnoc(m, xs[..i], xs[i]);
      m := m[xs[i] := (if xs[i] in m then m[xs[i]] else 0) + 1];
    }
    TakeAll(xs);
  }

  function IntKey(t: int): real
  {
    t as real
  }

  /** An element no greater than any other is the least one. */
  lemma LeastIsMin(x: int, ts: seq<int>)
    requires x in ts && forall y :: y in ts ==> x <= y
    ensures x == MinOf(ts)
  {
    assert MinOf(ts) in ts;
  }

  /** An element no less than any other is the greatest one. */
  lemma GreatestIsMax(x: int, ts: seq<int>)
    requires x in ts && forall y :: y in ts ==> y <= x
    ensures x == MaxOf(ts)
  {
    assert MaxOf(ts) in ts;
  }

  /** A sorted rearrangement of timestamps starts with the earliest and
   *  ends with the latest. */
  lemma SortedEndsAreExtremes(s: seq<int>, ts: seq<int>)
    requires SortedBy(s, IntKey) && multiset(s) == multiset(ts) && |s| > 0
    ensures |ts| > 0 && s[0] == MinOf(ts) && s[|s| - 1] == MaxOf(ts)
  {
    assert s[0] in multiset(ts) && s[|s| - 1] in multiset(ts);
    forall y | y in ts ensures s[0] <= y <= s[|s| - 1] {
      assert y in multiset(s);
      var i :| 0 <= i < |s| && s[i] == y;
      assert IntKey(s[0]) <= IntKey(s[i]) <= IntKey(s[|s| - 1]);
    }
    LeastIsMin(s[0], ts);
    GreatestIsMax(s[|s| - 1], ts);
  }

  /** Sorting the timestamps puts the earliest first and the latest last. */
  lemma SortedTimestampEnds(ts: seq<int>)
    requires ts != []
    ensures |SortBy(ts, IntKey)| == |ts|
    ensures SortBy(ts, IntKey)[0] == MinOf(ts)
    ensures SortBy(ts, IntKey)[|ts| - 1] == MaxOf(ts)
  {
    SortByProps(ts, IntKey);
    SortedEndsAreExtremes(SortBy(ts, IntKey), ts);
  }

  /** What `analyze_chat_log` computes, stated as facts about the messages. */
  ghost predicate AnalysisOf(log: ChatLog, a: ChatAnalysis)
  {
    var msgs := log.messages;
    && a.totalMessages == |msgs|
    && a.uniqueUsers == |Distinct(UserIds(msgs))|
    && a.uniqueNicknames == |Distinct(Nicknames(msgs))|
    && CountMapOf(a.messagesPerUser, UserIds(msgs))
    && CountMapOf(a.messagesPerNickname, Nicknames(msgs))
    && (a.firstMessageTime.None? <==> msgs == [])
    && (a.lastMessageTime.None? <==> msgs == [])
    && (a.durationSeconds.None? <==> msgs == [])
    && (msgs != [] ==>
          && a.firstMessageTime.value == MinOf(Timestamps(msgs))
          && a.lastMessageTime.value == MaxOf(Timestamps(msgs))
          && a.durationSeconds.value == a.lastMessageTime.value - a.firstMessageTime.value)
  }

  /** `analyze_chat_log`. */
  method AnalyzeChatLog(log: ChatLog) returns (a: ChatAnalysis)
    ensures AnalysisOf(log, a)
  {
    var msgs := log.messages;
    var users := Distinct(UserIds(msgs));
    var nicknames := Distinct(Nicknames(msgs));
    var perUser := CountEach(UserIds(msgs));
    var perNickname := CountEach(Nicknames(msgs));
    var timestamps := SortBy(Timestamps(msgs), IntKey);
    var first, last, duration := None, None, None;
    if msgs != [] {
      SortedTimestampEnds(Timestamps(msgs));
      first := Some(timestamps[0]);
      last := Some(timestamps[|timestamps| - 1]);
      duration := Some(last.value - first.value);
    }
    a := ChatAnalysis(|msgs|, |users|, |nicknames|, perUser, perNickname, first, last, duration);
  }

  /** The fields of an analysis agree with each other: there are as many
   *  distinct users as per-user entries and no more than messages, the
   *  per-user counts (however the map's keys are enumerated) add up to the
   *  number of messages, and the same holds for nicknames; the duration is
   *  never negative and every message lies between the first and the last. */
  lemma AnalysisProps(log: ChatLog, a: ChatAnalysis, us: seq<string>, ns: seq<string>)
    requires AnalysisOf(log, a)
    requires NoDup(us) && forall u :: u in us <==> u in a.messagesPerUser
    requires NoDup(ns) && forall n :: n in ns <==> n in a.messagesPerNickname
    ensures a.uniqueUsers == |a.messagesPerUser| <= a.totalMessages
    ensures a.uniqueNicknames == |a.messagesPerNickname| <= a.totalMessages
    ensures Sum(ValuesAt(a.messagesPerUser, us)) == a.totalMessages
    ensures Sum(ValuesAt(a.messagesPerNickname, ns)) == a.totalMessages
    ensures a.durationSeconds.Some? ==> a.durationSeconds.value >= 0
    ensures a.firstMessageTime.Some? ==>
              forall i :: 0 <= i < |log.messages| ==>
                a.firstMessageTime.value <= log.messages[i].timestamp <= a.lastMessageTime.value
  {
    var msgs := log.messages;
    CountMapTotal(a.messagesPerUser, UserIds(msgs), us);
    CountMapTotal(a.messagesPerNickname, Nicknames(msgs), ns);
    DistinctCard(UserIds(msgs));
    DistinctCard(Nicknames(msgs));
    if msgs != [] {
      var ts := Timestamps(msgs);
      assert MinOf(ts) <= MaxOf(ts) by {
        assert ts[0] in ts;
      }
      forall i | 0 <= i < |msgs| ensures MinOf(ts) <= msgs[i].timestamp <= MaxOf(ts) {
        assert ts[i] in ts;
      }
    }
  }

  /** `analyze_chat_logs`: one analysis per log, in order. */
  method AnalyzeChatLogs(logs: seq<ChatLog>) returns (r: seq<ChatAnalysis>)
    ensures |r| == |logs| && forall i :: 0 <= i < |logs| ==> AnalysisOf(logs[i], r[i])
  {
    r := [];
    for i := 0 to |logs|
      invariant |r| == i && forall k :: 0 <= k < i ==> AnalysisOf(logs[k], r[k])
    {
      var a := AnalyzeChatLog(logs[i]);
      r := r + [a];
    }
  }

  /** The keep test of `filter_chat_logs_by_user_count`: strictly fewer
   *  distinct users than the limit. */
  function FewUsers(maxUserCount: nat): ChatLog -> bool
  {
    (log: ChatLog) => |Distinct(UserIds(log.messages))| < maxUserCount
  }

  /** `filter_chat_logs_by_user_count`. */
  function FilterChatLogsByUserCount(logs: seq<ChatLog>, maxUserCount: nat): seq<ChatLog>
  {
    Filter(logs, FewUsers(maxUserCount))
  }

  /** A log survives exactly when it has strictly fewer distinct users than
   *  the limit, and then with every one of its occurrences; the survivors
   *  keep their order, and no more come out than went in. */
  lemma FilterByUserCountProps(logs: seq<ChatLog>, maxUserCount: nat, log: ChatLog)
    ensures (log in FilterChatLogsByUserCount(logs, maxUserCount))
      <==> (log in logs && |Distinct(UserIds(log.messages))| < maxUserCount)
    ensures Count(FilterChatLogsByUserCount(logs, maxUserCount), log)
              == if |Distinct(UserIds(log.messages))| < maxUserCount then Count(logs, log) else 0
    ensures |FilterChatLogsByUserCount(logs, maxUserCount)| <= |logs|
  {
    FilterMembers(logs, FewUsers(maxUserCount), log);
    FilterCount(logs, FewUsers(maxUserCount), log);
  }

  /** `find_channel_and_replay`: the first channel, in order, with a replay
   *  of the video, together with that channel's first such replay. */
  function FindChannelAndReplay(videoId: nat, channels: seq<Channel>): (Option<Channel>, Option<Replay>)
  {
    if channels == [] then (None, None)
    else match FindReplay(channels[0].replays, videoId)
      case Some(rp) => (Some(channels[0]), Some(rp))
      case None => FindChannelAndReplay(videoId, channels[1..])
  }

  /** Some channel of `channels` has a replay of the video. */
  ghost predicate HasVideo(c: Channel, videoId: nat)
  {
    exists k :: 0 <= k < |c.replays| && c.replays[k].videoNo == videoId
  }

  /** Both halves are found or neither is; nothing is found exactly when no
   *  channel has a replay of the video; otherwise the channel is the first
   *  one that has it and the replay is that channel's first one. */
  lemma {:induction false} FindChannelAndReplayProps(videoId: nat, channels: seq<Channel>)
    ensures var r := FindChannelAndReplay(videoId, channels);
      && (r.0.Some? <==> r.1.Some?)
      && (r.0.None? <==> forall i :: 0 <= i < |channels| ==> !HasVideo(channels[i], videoId))
      && (r.0.Some? ==>
            exists i :: 0 <= i < |channels| && channels[i] == r.0.value
              && FindReplay(channels[i].replays, videoId) == r.1
              && forall j :: 0 <= j < i ==> !HasVideo(channels[j], videoId))
  {
    if channels != [] {
      var c := channels[0];
      FindReplayProps(c.replays, videoId);
      if FindReplay(c.replays, videoId).None? {
        FindChannelAndReplayProps(videoId, channels[1..]);
        assert !HasVideo(c, videoId);
        assert forall i :: 0 < i < |channels| ==> channels[i] == channels[1..][i - 1];
        var r := FindChannelAndReplay(videoId, channels);
        if r.0.Some? {
          var i :| 0 <= i < |channels[1..]| && channels[1..][i] == r.0.value
              && FindReplay(channels[1..][i].replays, videoId) == r.1
              && forall j :: 0 <= j < i ==> !HasVideo(channels[1..][j], videoId);
          assert channels[i + 1] == channels[1..][i];
          assert forall j :: 0 < j < i + 1 ==> channels[j] == channels[1..][j - 1];
        }
      } else {
        var k :| 0 <= k < |c.replays| && c.replays[k] == FindReplay(c.replays, videoId).value && c.replays[k].videoNo == videoId;
        assert HasVideo(channels[0], videoId);
      }
    }
  }
}
