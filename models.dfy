/** The records every component shares (chzzk-chat/src/data/models.rs): a
 *  channel with its replays, and a chat log with its messages. A chat
 *  timestamp is a whole number of seconds since the Unix epoch; the log
 *  format carries no sub-second part. */
module Models {
  import opened Wrappers
  import Seqs

  /** Seconds east of UTC of the fixed +09:00 (KST) offset. */
  const KST_OFFSET: int := 9 * 3600

  datatype Replay = Replay(
    title: string,
    start: string,
    end: string,
    videoNo: nat,
    thumbnail: Option<string>,
    tags: seq<string>,
    categoryKo: Option<string>)

  datatype Channel = Channel(
    name: string,
    follower: nat,
    channelId: string,
    image: Option<string>,
    replays: seq<Replay>)

  datatype ChatMessage = ChatMessage(timestamp: int, nickname: string, message: string, userId: string)

  datatype ChatLog = ChatLog(videoId: nat, messages: seq<ChatMessage>)

  /** `data/utils.rs::parse_replay_time`, a cascade of chrono parsers, is a
   *  parameter of type `TimeParser` wherever replay times are compared:
   *  `None` is its error, `Some(t)` the instant in epoch seconds. */
  type TimeParser = string -> Option<int>

  /** The user ids seen in a list of messages. */
  function UserIdSet(msgs: seq<ChatMessage>): set<string>
  {
    if msgs == [] then {} else UserIdSet(msgs[..|msgs| - 1]) + {msgs[|msgs| - 1].userId}
  }

  /** The set holds exactly the user ids of the messages. */
  lemma {:induction false} UserIdSetMembers(msgs: seq<ChatMessage>, u: string)
    ensures u in UserIdSet(msgs) <==> exists i :: 0 <= i < |msgs| && msgs[i].userId == u
  {
    if msgs != [] {
      var init := msgs[..|msgs| - 1];
      UserIdSetMembers(init, u);
      if u in UserIdSet(init) {
        var i :| 0 <= i < |init| && init[i].userId == u;
        assert msgs[i] == init[i];
      }
      if exists i :: 0 <= i < |msgs| && msgs[i].userId == u {
        var i :| 0 <= i < |msgs| && msgs[i].userId == u;
        if i < |init| {
          assert init[i] == msgs[i];
        }
      }
    }
  }

  /** The loop that inserts the user id of every message into a set. */
  method InsertUserIds(users: set<string>, msgs: seq<ChatMessage>) returns (r: set<string>)
    ensures r == users + UserIdSet(msgs)
  {
    r := users;
    var k := 0;
    while k < |msgs|
      invariant 0 <= k <= |msgs|
      invariant r == users + UserIdSet(msgs[..k])
    {
      assert msgs[..k + 1][..k] == msgs[..k];
      r := r + {msgs[k].userId};
      k := k + 1;
    }
    assert msgs[..k] == msgs;
  }

  function UserIds(msgs: seq<ChatMessage>): seq<string>
  {
    seq(|msgs|, i requires 0 <= i < |msgs| => msgs[i].userId)
  }

  function Nicknames(msgs: seq<ChatMessage>): seq<string>
  {
    seq(|msgs|, i requires 0 <= i < |msgs| => msgs[i].nickname)
  }

  function Timestamps(msgs: seq<ChatMessage>): seq<int>
  {
    seq(|msgs|, i requires 0 <= i < |msgs| => msgs[i].timestamp)
  }

  /** Every replay of every channel, channel by channel, in order (the
   *  source's `flat_map(|c| c.replays.iter())`). */
  function AllReplays(channels: seq<Channel>): (r: seq<Replay>)
    ensures forall rp :: rp in r <==> exists c :: c in channels && rp in c.replays
  {
    if channels == [] then []
    else AllReplays(channels[..|channels| - 1]) + channels[|channels| - 1].replays
  }

  /** The union of the user ids of every log of video `v`. */
  function UsersOfVideo(logs: seq<ChatLog>, v: nat): set<string>
  {
    if logs == [] then {}
    else
      var last := logs[|logs| - 1];
      UsersOfVideo(logs[..|logs| - 1], v) + (if last.videoId == v then UserIdSet(last.messages) else {})
  }

  /** The log is one of video `v` and has a message of `u`. */
  predicate ChattedIn(l: ChatLog, v: nat, u: string)
  {
    l.videoId == v && u in UserIdSet(l.messages)
  }

  /** A user belongs to a video exactly when some log of that video has a
   *  message of theirs. */
  lemma {:induction false} UsersOfVideoMembers(logs: seq<ChatLog>, v: nat, u: string)
    ensures u in UsersOfVideo(logs, v) <==> exists i :: 0 <= i < |logs| && ChattedIn(logs[i], v, u)
  {
    if logs != [] {
      var init, last := logs[..|logs| - 1], logs[|logs| - 1];
      UsersOfVideoMembers(init, v, u);
      assert UsersOfVideo(logs, v)
          == UsersOfVideo(init, v) + (if last.videoId == v then UserIdSet(last.messages) else {});
      if u in UsersOfVideo(init, v) {
        var i :| 0 <= i < |init| && ChattedIn(init[i], v, u);
        assert logs[i] == init[i];
      } else if ChattedIn(last, v, u) {
        assert logs[|logs| - 1] == last;
      }
      if exists i :: 0 <= i < |logs| && ChattedIn(logs[i], v, u) {
        var i :| 0 <= i < |logs| && ChattedIn(logs[i], v, u);
        if i < |init| {
          assert init[i] == logs[i];
        }
      }
    }
  }

  function VideoIds(logs: seq<ChatLog>): (r: set<nat>)
    ensures forall v :: v in r <==> exists i :: 0 <= i < |logs| && logs[i].videoId == v
  {
    if logs == [] then {} else VideoIds(logs[..|logs| - 1]) + {logs[|logs| - 1].videoId}
  }

  /** The chatters of every video, by video number. */
  type Viewers = map<nat, set<string>>

  /** `viewers` holds the viewer set of every video of `logs`, and no other
   *  key. */
  ghost predicate ViewersOf(viewers: Viewers, logs: seq<ChatLog>)
  {
    viewers.Keys == VideoIds(logs)
    && forall v :: v in viewers ==> viewers[v] == UsersOfVideo(logs, v)
  }

  lemma ViewersStep(viewers: Viewers, logs: seq<ChatLog>, i: nat, users: set<string>)
    requires i < |logs| && ViewersOf(viewers, logs[..i])
    requires users == (if logs[i].videoId in viewers then viewers[logs[i].videoId] else {}) + UserIdSet(logs[i].messages)
    ensures ViewersOf(viewers[logs[i].videoId := users], logs[..i + 1])
  {
    Seqs.TakeSnoc(logs, i);
    ViewersSnoc(viewers, logs[..i], logs[i], users);
  }

  lemma ViewersSnoc(viewers: Viewers, logs: seq<ChatLog>, log: ChatLog, users: set<string>)
    requires ViewersOf(viewers, logs)
    requires users == (if log.videoId in viewers then viewers[log.videoId] else {}) + UserIdSet(log.messages)
    ensures ViewersOf(viewers[log.videoId := users], logs + [log])
  {
    var grown := viewers[log.videoId := users];
    UsersOfVideoSnoc(logs, log, log.videoId);
    forall v | v in grown ensures grown[v] == UsersOfVideo(logs + [log], v) {
      UsersOfVideoSnoc(logs, log, v);
      if v == log.videoId && log.videoId !in viewers {
        UsersOfVideoAbsent(logs, v);
      }
    }
  }

  lemma {:induction false} UsersOfVideoAbsent(logs: seq<ChatLog>, v: nat)
    requires v !in VideoIds(logs)
    ensures UsersOfVideo(logs, v) == {}
  {
    if logs != [] {
      assert v !in VideoIds(logs[..|logs| - 1]);
      UsersOfVideoAbsent(logs[..|logs| - 1], v);
    }
  }

  lemma UsersOfVideoSnoc(logs: seq<ChatLog>, log: ChatLog, v: nat)
    ensures UsersOfVideo(logs + [log], v)
            == UsersOfVideo(logs, v) + (if log.videoId == v then UserIdSet(log.messages) else {})
    ensures VideoIds(logs + [log]) == VideoIds(logs) + {log.videoId}
  {
    assert (logs + [log])[..|logs|] == logs;
  }

  /** The first replay of `rps` with video number `v` (`find`). */
  function FindReplay(rps: seq<Replay>, v: nat): (r: Option<Replay>)
  {
    if rps == [] then None
    else if rps[0].videoNo == v then Some(rps[0])
    else FindReplay(rps[1..], v)
  }

  /** The search fails exactly when no replay has the video number, and
   *  otherwise finds the first one that has it. */
  lemma {:induction false} FindReplayProps(rps: seq<Replay>, v: nat)
    ensures FindReplay(rps, v).None? <==> forall k :: 0 <= k < |rps| ==> rps[k].videoNo != v
    ensures FindReplay(rps, v).Some? ==>
              exists k :: 0 <= k < |rps| && rps[k] == FindReplay(rps, v).value && rps[k].videoNo == v
                && forall j :: 0 <= j < k ==> rps[j].videoNo != v
  {
    if rps != [] && rps[0].videoNo != v {
      FindReplayProps(rps[1..], v);
      if FindReplay(rps, v).Some? {
        var k :| 0 <= k < |rps[1..]| && rps[1..][k] == FindReplay(rps, v).value && rps[1..][k].videoNo == v
                 && forall j :: 0 <= j < k ==> rps[1..][j].videoNo != v;
        assert rps[k + 1] == rps[1..][k];
        assert forall j :: 0 < j < k + 1 ==> rps[j] == rps[1..][j - 1];
      } else {
        assert forall k :: 0 < k < |rps| ==> rps[k] == rps[1..][k - 1];
      }
    }
  }
}
