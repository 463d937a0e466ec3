/** Chat timelines (chzzk-chat/src/data/timeline.rs): the messages of a log
 *  are counted per ten-minute bucket of the time elapsed since the earliest
 *  message, and the buckets are listed in increasing time. */
module Timeline {
  import opened Wrappers
  import opened Seqs
  import opened Models

  /** Ten minutes, the width of a bucket. */
  const INTERVAL_SEC: int := 600

  datatype TimelineEntry = TimelineEntry(time: int, count: nat)

  /** `start_time` is the earliest message time rendered as ISO 8601. */
  datatype VideoChatTimeline = VideoChatTimeline(videoId: nat, startTime: string, timeline: seq<TimelineEntry>)

  /** `(elapsed / 600) * 600` with Rust's `/` on `i64`, which truncates
   *  toward zero. */
  function Bucket(elapsed: int): int
  {
    (if elapsed >= 0 then elapsed / INTERVAL_SEC else -((-elapsed) / INTERVAL_SEC)) * INTERVAL_SEC
  }

  /** A non-negative elapsed time falls in the bucket that starts at the
   *  greatest multiple of 600 not above it. */
  lemma BucketProps(elapsed: int)
    requires elapsed >= 0
    ensures Bucket(elapsed) % INTERVAL_SEC == 0
    ensures 0 <= Bucket(elapsed) <= elapsed < Bucket(elapsed) + INTERVAL_SEC
  {
    var q := elapsed / INTERVAL_SEC;
    assert Bucket(elapsed) == q * INTERVAL_SEC;
    assert elapsed == q * INTERVAL_SEC + elapsed % INTERVAL_SEC;
    assert q >= 0;
  }

  /** The bucket of every message, counted from `first`. */
  function Buckets(msgs: seq<ChatMessage>, first: int): (r: seq<int>)
    ensures |r| == |msgs| && forall i :: 0 <= i < |msgs| ==> r[i] == Bucket(msgs[i].timestamp - first)
  {
    seq(|msgs|, i requires 0 <= i < |msgs| => Bucket(msgs[i].timestamp - first))
  }

  /** The `timeline_map` loop: one more message in the bucket of every
   *  message. */
  method CountBuckets(msgs: seq<ChatMessage>, first: int) returns (m: map<int, nat>)
    ensures CountMapOf(m, Buckets(msgs, first))
  {
    ghost var bs := Buckets(msgs, first);
    m := map[];
    for i := 0 to |msgs|
      invariant CountMapOf(m, bs[..i])
    {
      var b := Bucket(msgs[i].timestamp - first);
      TakeSnoc(bs, i);
      CountMapSnoc(m, bs[..i], b);
      m := m[b := (if b in m then m[b] else 0) + 1];
    }
    TakeAll(bs);
  }

  function Times(tl: seq<TimelineEntry>): (r: seq<int>)
    ensures |r| == |tl| && forall k :: 0 <= k < |tl| ==> r[k] == tl[k].time
  {
    seq(|tl|, k requires 0 <= k < |tl| => tl[k].time)
  }

  function Counts(tl: seq<TimelineEntry>): (r: seq<nat>)
    ensures |r| == |tl| && forall k :: 0 <= k < |tl| ==> r[k] == tl[k].count
  {
    seq(|tl|, k requires 0 <= k < |tl| => tl[k].count)
  }

  /** Every entry of `es` is an entry of the map `m`. */
  ghost predicate EntriesOf(es: seq<TimelineEntry>, m: map<int, nat>)
  {
    forall k :: 0 <= k < |es| ==> es[k].time in m && es[k].count == m[es[k].time]
  }

  /** `into_iter().map(..)`: the entries of the map, each once, in whatever
   *  order the map yields them. */
  method MapEntries(m: map<int, nat>) returns (es: seq<TimelineEntry>)
    ensures NoDup(Times(es)) && EntriesOf(es, m)
    ensures forall t :: t in Times(es) <==> t in m
  {
    es := [];
    var todo := m.Keys;
    while todo != {}
      invariant todo <= m.Keys
      invariant forall t :: t in m ==> (t in todo <==> t !in Times(es))
      invariant forall t :: t in Times(es) ==> t in m
      invariant NoDup(Times(es)) && EntriesOf(es, m)
      decreases |todo|
    {
      ghost var w := Pick(todo);
      var t :| t in todo;
      assert Times(es + [TimelineEntry(t, m[t])]) == Times(es) + [t];
      NoDupSnoc(Times(es), t);
      es := es + [TimelineEntry(t, m[t])];
      todo := todo - {t};
    }
  }

  function TimeKey(e: TimelineEntry): real
  {
    e.time as real
  }

  /** Entries of a map with distinct times are distinct. */
  lemma EntriesNoDup(es: seq<TimelineEntry>)
    requires NoDup(Times(es))
    ensures NoDup(es)
  {
    forall i, j | 0 <= i < j < |es| ensures es[i] != es[j] {
      assert Times(es)[i] != Times(es)[j];
    }
  }

  /** A rearrangement of entries of a map is again entries of the map, and
   *  has the same times. */
  lemma PermutedEntries(es: seq<TimelineEntry>, tl: seq<TimelineEntry>, m: map<int, nat>)
    requires multiset(es) == multiset(tl) && EntriesOf(es, m)
    ensures EntriesOf(tl, m)
    ensures forall t :: t in Times(tl) <==> t in Times(es)
  {
    forall k | 0 <= k < |tl| ensures tl[k].time in m && tl[k].count == m[tl[k].time] {
      assert tl[k] in multiset(tl);
      var j :| 0 <= j < |es| && es[j] == tl[k];
    }
    forall t ensures t in Times(tl) <==> t in Times(es) {
      if t in Times(tl) {
        var k :| 0 <= k < |tl| && Times(tl)[k] == t;
        assert tl[k] in multiset(tl);
        var j :| 0 <= j < |es| && es[j] == tl[k];
        assert Times(es)[j] == t;
      }
      if t in Times(es) {
        var j :| 0 <= j < |es| && Times(es)[j] == t;
        assert es[j] in multiset(es);
        var k :| 0 <= k < |tl| && tl[k] == es[j];
        assert Times(tl)[k] == t;
      }
    }
  }

  /** In a sorted list of distinct entries of a map, times strictly
   *  increase: two entries with the same time are the same entry. */
  lemma StrictTimes(tl: seq<TimelineEntry>, m: map<int, nat>)
    requires NoDup(tl) && EntriesOf(tl, m) && SortedBy(tl, TimeKey)
    ensures forall i, j :: 0 <= i < j < |tl| ==> tl[i].time < tl[j].time
  {
    forall i, j | 0 <= i < j < |tl| ensures tl[i].time < tl[j].time {
      assert tl[i] != tl[j];
      assert TimeKey(tl[i]) <= TimeKey(tl[j]);
    }
  }

  /** Sorting the entries of a map by time gives strictly increasing times. */
  lemma SortedEntries(es: seq<TimelineEntry>, m: map<int, nat>)
    requires NoDup(Times(es)) && EntriesOf(es, m)
    ensures var tl := SortBy(es, TimeKey);
      && (forall i, j :: 0 <= i < j < |tl| ==> tl[i].time < tl[j].time)
      && (forall t :: t in Times(tl) <==> t in Times(es))
      && EntriesOf(tl, m)
  {
    var tl := SortBy(es, TimeKey);
    SortByProps(es, TimeKey);
    EntriesNoDup(es);
    NoDupOfMultiset(es, tl);
    PermutedEntries(es, tl, m);
    StrictTimes(tl, m);
  }

  /** `tl` is the timeline of `msgs` counted from `first`: one entry per
   *  bucket that holds a message, in strictly increasing time, with the
   *  number of messages in that bucket. */
  ghost predicate TimelineOf(msgs: seq<ChatMessage>, first: int, tl: seq<TimelineEntry>)
  {
    var bs := Buckets(msgs, first);
    && (forall i, j :: 0 <= i < j < |tl| ==> tl[i].time < tl[j].time)
    && (forall t :: t in Times(tl) <==> t in bs)
    && (forall k :: 0 <= k < |tl| ==> tl[k].count == Count(bs, tl[k].time))
  }

  /** `calculate_chat_timeline`: `None` for a log without messages;
   *  otherwise the buckets of the log counted from its earliest message.
   *  The source sorts the messages to find that earliest time; the counts
   *  do not depend on the order in which the loop visits them. */
  method CalculateChatTimeline(log: ChatLog, formatTime: int -> string) returns (r: Option<VideoChatTimeline>)
    ensures r.None? <==> log.messages == []
    ensures r.Some? ==>
      && log.messages != []
      && r.value.videoId == log.videoId
      && r.value.startTime == formatTime(MinOf(Timestamps(log.messages)))
      && TimelineOf(log.messages, MinOf(Timestamps(log.messages)), r.value.timeline)
  {
    var msgs := log.messages;
    if msgs == [] {
      return None;
    }
    var first := MinOf(Timestamps(msgs));
    var m := CountBuckets(msgs, first);
    var es := MapEntries(m);
    var timeline := SortBy(es, TimeKey);
    SortedEntries(es, m);
    return Some(VideoChatTimeline(log.videoId, formatTime(first), timeline));
  }

  /** Only one timeline meets the description, so `TimelineOf` determines
   *  the result. */
  lemma TimelineUnique(msgs: seq<ChatMessage>, first: int, t1: seq<TimelineEntry>, t2: seq<TimelineEntry>)
    requires TimelineOf(msgs, first, t1) && TimelineOf(msgs, first, t2)
    ensures t1 == t2
  {
    StrictlySortedUnique(Times(t1), Times(t2));
    assert |t1| == |Times(t1)| == |Times(t2)| == |t2|;
    forall k | 0 <= k < |t1| ensures t1[k] == t2[k] {
      assert Times(t1)[k] == Times(t2)[k];
    }
  }

  /** Every time of the timeline of a non-empty log is a non-negative
   *  multiple of 600, and every count is at least 1. */
  lemma TimelineEntries(msgs: seq<ChatMessage>, tl: seq<TimelineEntry>)
    requires msgs != [] && TimelineOf(msgs, MinOf(Timestamps(msgs)), tl)
    ensures forall k :: 0 <= k < |tl| ==> tl[k].time >= 0 && tl[k].time % INTERVAL_SEC == 0 && tl[k].count >= 1
  {
    var first := MinOf(Timestamps(msgs));
    var bs := Buckets(msgs, first);
    forall k | 0 <= k < |tl| ensures tl[k].time >= 0 && tl[k].time % INTERVAL_SEC == 0 && tl[k].count >= 1 {
      assert Times(tl)[k] == tl[k].time;
      assert tl[k].time in Times(tl);
      BucketOfLog(msgs, tl[k].time);
      CountBounds(bs, tl[k].time);
    }
  }

  /** Every bucket of a log, counted from its earliest message, is a
   *  non-negative multiple of 600. */
  lemma BucketOfLog(msgs: seq<ChatMessage>, t: int)
    requires msgs != [] && t in Buckets(msgs, MinOf(Timestamps(msgs)))
    ensures t >= 0 && t % INTERVAL_SEC == 0
  {
    var first := MinOf(Timestamps(msgs));
    var bs := Buckets(msgs, first);
    var i :| 0 <= i < |bs| && bs[i] == t;
    assert Timestamps(msgs)[i] in Timestamps(msgs);
    BucketOfMessage(msgs, first, i);
  }

  lemma BucketOfMessage(msgs: seq<ChatMessage>, first: int, i: nat)
    requires i < |msgs| && first <= msgs[i].timestamp
    ensures Buckets(msgs, first)[i] >= 0 && Buckets(msgs, first)[i] % INTERVAL_SEC == 0
  {
    BucketProps(msgs[i].timestamp - first);
  }

  /** The timeline of a non-empty log starts at bucket 0, the bucket of the
   *  earliest message. */
  lemma TimelineStart(msgs: seq<ChatMessage>, tl: seq<TimelineEntry>)
    requires msgs != [] && TimelineOf(msgs, MinOf(Timestamps(msgs)), tl)
    ensures |tl| > 0 && tl[0].time == 0
  {
    var first := MinOf(Timestamps(msgs));
    var bs := Buckets(msgs, first);
    TimelineEntries(msgs, tl);
    var i :| 0 <= i < |msgs| && Timestamps(msgs)[i] == first;
    assert bs[i] == 0;
    assert bs[i] in bs;
    assert 0 in Times(tl);
    var k :| 0 <= k < |tl| && Times(tl)[k] == 0;
    assert tl[0].time <= tl[k].time;
  }

  /** The counts of a timeline add up to the number of messages. */
  lemma TimelineSum(msgs: seq<ChatMessage>, first: int, tl: seq<TimelineEntry>)
    requires TimelineOf(msgs, first, tl)
    ensures Sum(Counts(tl)) == |msgs|
  {
    var bs := Buckets(msgs, first);
    var ts := Times(tl);
    assert NoDup(ts) by {
      forall a, b | 0 <= a < b < |ts| ensures ts[a] != ts[b] {
        assert tl[a].time < tl[b].time;
      }
    }
    assert Counts(tl) == CountsOf(ts, bs);
    SumCountsOf(ts, bs);
  }

  /** The timeline of a non-empty log starts at bucket 0; every time is a
   *  non-negative multiple of 600; every count is at least 1; the counts
   *  add up to the number of messages. */
  lemma TimelineProps(msgs: seq<ChatMessage>, tl: seq<TimelineEntry>)
    requires msgs != [] && TimelineOf(msgs, MinOf(Timestamps(msgs)), tl)
    ensures |tl| > 0 && tl[0].time == 0
    ensures forall k :: 0 <= k < |tl| ==> tl[k].time >= 0 && tl[k].time % INTERVAL_SEC == 0 && tl[k].count >= 1
    ensures Sum(Counts(tl)) == |msgs|
  {
    TimelineEntries(msgs, tl);
    TimelineStart(msgs, tl);
    TimelineSum(msgs, MinOf(Timestamps(msgs)), tl);
  }

  function HasMessages(log: ChatLog): bool
  {
    log.messages != []
  }

  /** `v` is the timeline `calculate_chat_timeline` gives for `log`. */
  ghost predicate IsTimelineOf(log: ChatLog, formatTime: int -> string, v: VideoChatTimeline)
  {
    log.messages != []
    && v.videoId == log.videoId
    && v.startTime == formatTime(MinOf(Timestamps(log.messages)))
    && TimelineOf(log.messages, MinOf(Timestamps(log.messages)), v.timeline)
  }

  function VideoKey(v: VideoChatTimeline): real
  {
    v.videoId as real
  }

  /** `r` is the timelines of the logs with messages, in log order, sorted
   *  by video id. */
  ghost predicate ExtractedFrom(r: seq<VideoChatTimeline>, logs: seq<ChatLog>, formatTime: int -> string)
  {
    var ne := Filter(logs, HasMessages);
    exists ts: seq<VideoChatTimeline> ::
      |ts| == |ne| && (forall k :: 0 <= k < |ts| ==> IsTimelineOf(ne[k], formatTime, ts[k])) && r == SortBy(ts, VideoKey)
  }

  /** `extract_video_chat_timelines`: a timeline for every log with
   *  messages, sorted by video id (a stable sort). */
  method ExtractVideoChatTimelines(logs: seq<ChatLog>, formatTime: int -> string) returns (r: seq<VideoChatTimeline>)
    ensures ExtractedFrom(r, logs, formatTime)
  {
    var ts: seq<VideoChatTimeline> := [];
    for i := 0 to |logs|
      invariant |ts| == |Filter(logs[..i], HasMessages)|
      invariant forall k :: 0 <= k < |ts| ==> IsTimelineOf(Filter(logs[..i], HasMessages)[k], formatTime, ts[k])
    {
      var t := CalculateChatTimeline(logs[i], formatTime);
      TakeSnoc(logs, i);
      FilterSnoc(logs[..i], logs[i], HasMessages);
      if t.Some? {
        ts := ts + [t.value];
      }
    }
    TakeAll(logs);
    r := SortBy(ts, VideoKey);
  }

  /** The extracted list is sorted by video id, holds one timeline per log
   *  with messages, and every timeline in it is that of such a log. */
  lemma ExtractProps(r: seq<VideoChatTimeline>, logs: seq<ChatLog>, formatTime: int -> string)
    requires ExtractedFrom(r, logs, formatTime)
    ensures forall i, j :: 0 <= i < j < |r| ==> r[i].videoId <= r[j].videoId
    ensures |r| == |Filter(logs, HasMessages)|
    ensures forall v :: v in r ==> exists log :: log in logs && IsTimelineOf(log, formatTime, v)
  {
    var ne := Filter(logs, HasMessages);
    var ts: seq<VideoChatTimeline> :| |ts| == |ne| && (forall k :: 0 <= k < |ts| ==> IsTimelineOf(ne[k], formatTime, ts[k])) && r == SortBy(ts, VideoKey);
    SortByProps(ts, VideoKey);
    forall v | v in r ensures exists log :: log in logs && IsTimelineOf(log, formatTime, v) {
      assert v in multiset(r);
      var k :| 0 <= k < |ts| && ts[k] == v;
      assert ne[k] in ne;
      FilterMembers(logs, HasMessages, ne[k]);
    }
  }
}
