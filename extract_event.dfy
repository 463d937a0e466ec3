/** The `extract-event` command (chzzk-chat/src/command/extract_event.rs):
 *  option validation, the choice of chat logs (one video, or a channel's
 *  replays of the last N days), and the two writers that save the messages
 *  of every detected event, skipping an event whose interval was already
 *  saved. Files are returned as values instead of written. */
module ExtractEvent {
  import opened Wrappers
  import opened Seqs
  import opened Models
  import opened Text
  import EventDetect

  const SECONDS_PER_DAY: int := 86400

  datatype ExtractEventOpt = ExtractEventOpt(
    videoId: Option<nat>,
    channel: Option<string>,
    recentDays: Option<nat>,
    printHeader: string,
    printTimestamp: string,
    outputJson: string)

  // ---------------------------------------------------------------------
  // Options
  // ---------------------------------------------------------------------

  /** Rust's `str::parse::<bool>`: exactly `"true"` or `"false"`. */
  function ParseBool(s: string): Option<bool>
  {
    if s == "true" then Some(true) else if s == "false" then Some(false) else None
  }

  /** `parse::<bool>().unwrap_or(default)`. */
  function FlagOr(s: string, default: bool): bool
  {
    match ParseBool(s)
    case Some(b) => b
    case None => default
  }

  function BoolText(b: bool): string
  {
    if b then "true" else "false"
  }

  /** Only the two spellings parse, each to its own value; any other text
   *  gives the default. */
  lemma FlagProps(s: string, default: bool)
    ensures ParseBool(s).Some? <==> s == BoolText(true) || s == BoolText(false)
    ensures forall b: bool :: ParseBool(BoolText(b)) == Some(b)
    ensures ParseBool(s).None? ==> FlagOr(s, default) == default
  {
  }

  datatype Flags = Flags(printHeader: bool, printTimestamp: bool, outputJson: bool)

  /** The three flags with their defaults: no header, no timestamps, JSON. */
  function FlagsOf(o: ExtractEventOpt): Flags
  {
    Flags(FlagOr(o.printHeader, false), FlagOr(o.printTimestamp, false), FlagOr(o.outputJson, true))
  }

  datatype Mode = VideoMode(videoId: nat) | ChannelMode(channelId: string, recentDays: nat)

  /** The three checks of `run_extract_event`, in the source's order. */
  function ValidateOptions(o: ExtractEventOpt): Result<Mode>
  {
    if o.videoId.None? && o.channel.None? then Err("video_id 또는 channel 중 하나는 반드시 지정되어야 합니다")
    else if o.videoId.Some? && o.channel.Some? then Err("video_id와 channel은 함께 사용할 수 없습니다")
    else if o.channel.Some? && o.recentDays.None? then Err("channel을 사용할 때는 recent_days가 필수입니다")
    else if o.videoId.Some? then Ok(VideoMode(o.videoId.value))
    else Ok(ChannelMode(o.channel.value, o.recentDays.value))
  }

  /** The options are accepted exactly when one of video and channel is
   *  given and a channel comes with a day count; an accepted video mode
   *  carries the given video, an accepted channel mode the given channel
   *  and day count. */
  lemma ValidateProps(o: ExtractEventOpt)
    ensures ValidateOptions(o).Ok? <==>
      (o.videoId.Some? != o.channel.Some?) && (o.channel.Some? ==> o.recentDays.Some?)
    ensures forall v: nat :: ValidateOptions(o) == Ok(VideoMode(v)) <==> o.videoId == Some(v) && o.channel.None?
    ensures forall c: string, d: nat :: ValidateOptions(o) == Ok(ChannelMode(c, d)) <==>
      o.videoId.None? && o.channel == Some(c) && o.recentDays == Some(d)
  {
  }

  // ---------------------------------------------------------------------
  // Which chat logs
  // ---------------------------------------------------------------------

  /** The first chat log of the video (`find`). */
  function FindChatLog(logs: seq<ChatLog>, v: nat): Option<ChatLog>
  {
    if logs == [] then None
    else if logs[0].videoId == v then Some(logs[0])
    else FindChatLog(logs[1..], v)
  }

  /** The search fails exactly when no log has the video, and otherwise finds
   *  the first one that has it. */
  lemma {:induction false} FindChatLogProps(logs: seq<ChatLog>, v: nat)
    ensures FindChatLog(logs, v).None? <==> forall k :: 0 <= k < |logs| ==> logs[k].videoId != v
    ensures FindChatLog(logs, v).Some? ==>
      exists k :: 0 <= k < |logs| && logs[k] == FindChatLog(logs, v).value && logs[k].videoId == v
        && forall j :: 0 <= j < k ==> logs[j].videoId != v
  {
    if logs != [] && logs[0].videoId != v {
      FindChatLogProps(logs[1..], v);
      assert forall k :: 0 < k < |logs| ==> logs[k] == logs[1..][k - 1];
      if FindChatLog(logs, v).Some? {
        var k :| 0 <= k < |logs[1..]| && logs[1..][k] == FindChatLog(logs, v).value && logs[1..][k].videoId == v
                 && forall j :: 0 <= j < k ==> logs[1..][j].videoId != v;
        assert logs[k + 1] == logs[1..][k];
      }
    }
  }

  /** The first channel with the id (`find`). */
  function FindChannel(channels: seq<Channel>, id: string): Option<Channel>
  {
    if channels == [] then None
    else if channels[0].channelId == id then Some(channels[0])
    else FindChannel(channels[1..], id)
  }

  lemma {:induction false} FindChannelProps(channels: seq<Channel>, id: string)
    ensures FindChannel(channels, id).None? <==> forall k :: 0 <= k < |channels| ==> channels[k].channelId != id
    ensures FindChannel(channels, id).Some? ==>
      FindChannel(channels, id).value in channels && FindChannel(channels, id).value.channelId == id
  {
    if channels != [] && channels[0].channelId != id {
      FindChannelProps(channels[1..], id);
      assert forall k :: 0 < k < |channels| ==> channels[k] == channels[1..][k - 1];
    }
  }

  /** `now - Duration::days(recent_days)`. */
  function Cutoff(now: int, recentDays: nat): int
  {
    now - recentDays * SECONDS_PER_DAY
  }

  /** The video numbers of the channel's replays whose start parses and is
   *  not before the cutoff. */
  function RecentVideoIds(c: Channel, cutoff: int, parse: TimeParser): set<nat>
  {
    set k | 0 <= k < |c.replays| && parse(c.replays[k].start).Some? && parse(c.replays[k].start).value >= cutoff
      :: c.replays[k].videoNo
  }

  function OfVideos(ids: set<nat>): ChatLog -> bool
  {
    (log: ChatLog) => log.videoId in ids
  }

  /** The chat logs to process, or the error that stops the command: the
   *  video's first log, or the logs (in order) of the channel's recent
   *  replays. */
  function Targets(o: ExtractEventOpt, channels: seq<Channel>, logs: seq<ChatLog>, now: int, parse: TimeParser)
    : Result<seq<ChatLog>>
  {
    match ValidateOptions(o)
    case Err(e) => Err(e)
    case Ok(VideoMode(v)) =>
      (match FindChatLog(logs, v)
       case None => Err("Video ID " + NatToString(v) + " not found in chat logs")
       case Some(log) => Ok([log]))
    case Ok(ChannelMode(id, days)) =>
      match FindChannel(channels, id)
      case None => Err("Channel ID " + id + " not found")
      case Some(c) =>
        var matching := Filter(logs, OfVideos(RecentVideoIds(c, Cutoff(now, days), parse)));
        if matching == [] then
          Err("No chat logs found for channel " + id + " in the last " + NatToString(days) + " days")
        else Ok(matching)
  }

  /** Replay `k` of the channel is the log's video and started at or after
   *  the cutoff. */
  predicate RecentReplayOf(c: Channel, k: int, log: ChatLog, cutoff: int, parse: TimeParser)
  {
    && 0 <= k < |c.replays| && c.replays[k].videoNo == log.videoId
    && parse(c.replays[k].start).Some? && parse(c.replays[k].start).value >= cutoff
  }

  /** In channel mode the logs to process are, in order, exactly the logs of
   *  the channel's replays that started after the cutoff, and there is at
   *  least one of them. */
  lemma ChannelTargetsProps(o: ExtractEventOpt, channels: seq<Channel>, logs: seq<ChatLog>, now: int, parse: TimeParser,
                            log: ChatLog)
    requires ValidateOptions(o).Ok? && ValidateOptions(o).value.ChannelMode?
    requires Targets(o, channels, logs, now, parse).Ok?
    ensures var id := o.channel.value;
      && FindChannel(channels, id).Some?
      && var c := FindChannel(channels, id).value;
      && var ts := Targets(o, channels, logs, now, parse).value;
      && ts != []
      && (log in ts <==> log in logs && (exists k :: RecentReplayOf(c, k, log, Cutoff(now, o.recentDays.value), parse)))
  {
    var c := FindChannel(channels, o.channel.value).value;
    var cut := Cutoff(now, o.recentDays.value);
    var ids := RecentVideoIds(c, cut, parse);
    FilterMembers(logs, OfVideos(ids), log);
    if log.videoId in ids {
      var k :| 0 <= k < |c.replays| && parse(c.replays[k].start).Some? && parse(c.replays[k].start).value >= cut
               && c.replays[k].videoNo == log.videoId;
      assert RecentReplayOf(c, k, log, cut, parse);
    }
    if exists k :: RecentReplayOf(c, k, log, cut, parse) {
      var k :| RecentReplayOf(c, k, log, cut, parse);
      assert c.replays[k].videoNo in ids;
    }
  }

  // ---------------------------------------------------------------------
  // Interval de-duplication
  // ---------------------------------------------------------------------

  function IntervalKey(e: EventDetect.EventInterval): (int, int)
  {
    (e.startSec, e.endSec)
  }

  /** No earlier event of the list has the interval of event `i`. */
  predicate FirstOfInterval(events: seq<EventDetect.EventInterval>, i: nat)
    requires i < |events|
  {
    forall j :: 0 <= j < i ==> IntervalKey(events[j]) != IntervalKey(events[i])
  }

  /** The indices, below `n`, of the events that are saved. */
  function Kept(events: seq<EventDetect.EventInterval>, n: nat): (r: seq<nat>)
    requires n <= |events|
    ensures |r| <= n && forall a :: 0 <= a < |r| ==> r[a] < n
  {
    if n == 0 then []
    else Kept(events, n - 1) + (if FirstOfInterval(events, n - 1) then [n - 1] else [])
  }

  function KeysBelow(events: seq<EventDetect.EventInterval>, n: nat): set<(int, int)>
    requires n <= |events|
  {
    set j | 0 <= j < n :: IntervalKey(events[j])
  }

  /** The `seen_intervals` loop: an event is saved unless its interval is in
   *  the set of intervals seen so far; the saved and the skipped events are
   *  counted. */
  method DedupIntervals(events: seq<EventDetect.EventInterval>) returns (kept: seq<nat>, saved: nat, skipped: nat)
    ensures kept == Kept(events, |events|)
    ensures saved == |kept| && saved + skipped == |events|
  {
    var seen: set<(int, int)> := {};
    kept, saved, skipped := [], 0, 0;
    for i := 0 to |events|
      invariant kept == Kept(events, i) && seen == KeysBelow(events, i)
      invariant saved == |kept| && saved + skipped == i
    {
      var key := IntervalKey(events[i]);
      assert key in seen <==> !FirstOfInterval(events, i);
      assert KeysBelow(events, i + 1) == seen + {key};
      if key in seen {
        skipped := skipped + 1;
        continue;
      }
      seen := seen + {key};
      kept := kept + [i];
      saved := saved + 1;
    }
  }

  /** The kept indices increase. */
  lemma {:induction false} KeptIncreasing(events: seq<EventDetect.EventInterval>, n: nat)
    requires n <= |events|
    ensures forall a, b :: 0 <= a < b < |Kept(events, n)| ==> Kept(events, n)[a] < Kept(events, n)[b]
  {
    if n > 0 {
      KeptIncreasing(events, n - 1);
      var ks0 := Kept(events, n - 1);
      var ks := Kept(events, n);
      assert ks == ks0 + (if FirstOfInterval(events, n - 1) then [n - 1] else []);
      forall a, b | 0 <= a < b < |ks| ensures ks[a] < ks[b] {
        if b < |ks0| {
          assert ks[a] == ks0[a] && ks[b] == ks0[b];
        } else {
          assert ks[a] == ks0[a] && ks[b] == n - 1;
        }
      }
    }
  }

  /** An index is kept exactly when no earlier event has its interval. */
  lemma {:induction false} KeptMembers(events: seq<EventDetect.EventInterval>, n: nat)
    requires n <= |events|
    ensures forall i :: 0 <= i < n ==> (i in Kept(events, n) <==> FirstOfInterval(events, i))
  {
    if n > 0 {
      KeptMembers(events, n - 1);
      KeptIncreasing(events, n - 1);
      assert n - 1 !in Kept(events, n - 1);
    }
  }

  /** The interval of event `i` is the interval of some kept event. */
  lemma KeptCovers(events: seq<EventDetect.EventInterval>, n: nat, i: nat)
    requires i < n <= |events|
    ensures exists a :: 0 <= a < |Kept(events, n)| && IntervalKey(events[Kept(events, n)[a]]) == IntervalKey(events[i])
    decreases i
  {
    KeptMembers(events, n);
    var ks := Kept(events, n);
    if FirstOfInterval(events, i) {
      assert i in ks;
      var a :| 0 <= a < |ks| && ks[a] == i;
    } else {
      var j :| 0 <= j < i && IntervalKey(events[j]) == IntervalKey(events[i]);
      KeptCovers(events, n, j);
    }
  }

  /** The kept indices increase, are exactly the events whose interval no
   *  earlier event has, carry pairwise different intervals, and between
   *  them cover the interval of every event. */
  lemma KeptProps(events: seq<EventDetect.EventInterval>, n: nat)
    requires n <= |events|
    ensures var ks := Kept(events, n);
      && (forall a, b :: 0 <= a < b < |ks| ==> ks[a] < ks[b])
      && (forall a :: 0 <= a < |ks| ==> ks[a] < n)
      && (forall i :: 0 <= i < n ==> (i in ks <==> FirstOfInterval(events, i)))
      && (forall a, b :: 0 <= a < b < |ks| ==> IntervalKey(events[ks[a]]) != IntervalKey(events[ks[b]]))
      && (forall i :: 0 <= i < n ==> exists a :: 0 <= a < |ks| && IntervalKey(events[ks[a]]) == IntervalKey(events[i]))
  {
    var ks := Kept(events, n);
    KeptIncreasing(events, n);
    KeptMembers(events, n);
    forall a, b | 0 <= a < b < |ks| ensures IntervalKey(events[ks[a]]) != IntervalKey(events[ks[b]]) {
      assert ks[b] in ks && ks[a] < ks[b] < n;
      assert FirstOfInterval(events, ks[b]);
      assert IntervalKey(events[ks[a]]) != IntervalKey(events[ks[b]]);
    }
    forall i | 0 <= i < n ensures exists a :: 0 <= a < |ks| && IntervalKey(events[ks[a]]) == IntervalKey(events[i]) {
      KeptCovers(events, n, i);
    }
  }

  /** The images under `f` of the saved events, in order. */
  function MapKept<T>(events: seq<EventDetect.EventInterval>, f: nat -> T): seq<T>
  {
    var ks := Kept(events, |events|);
    seq(|ks|, a requires 0 <= a < |ks| => f(ks[a]))
  }

  /** Each image is that of the first event of its interval, and every
   *  such event has its image, at the place of its rank among them. */
  lemma MapKeptProps<T>(events: seq<EventDetect.EventInterval>, f: nat -> T)
    ensures |MapKept(events, f)| == |Kept(events, |events|)| <= |events|
    ensures forall a :: 0 <= a < |MapKept(events, f)| ==> MapKept(events, f)[a] == f(Kept(events, |events|)[a])
    ensures forall a :: 0 <= a < |MapKept(events, f)| ==>
      exists i: nat :: i < |events| && FirstOfInterval(events, i) && MapKept(events, f)[a] == f(i)
    ensures forall i: nat :: i < |events| && FirstOfInterval(events, i) ==>
      exists a :: 0 <= a < |MapKept(events, f)| && MapKept(events, f)[a] == f(i)
  {
    var ks := Kept(events, |events|);
    KeptMembers(events, |events|);
    forall a | 0 <= a < |MapKept(events, f)|
      ensures exists i: nat :: i < |events| && FirstOfInterval(events, i) && MapKept(events, f)[a] == f(i)
    {
      assert ks[a] in ks;
    }
    forall i: nat | i < |events| && FirstOfInterval(events, i)
      ensures exists a :: 0 <= a < |MapKept(events, f)| && MapKept(events, f)[a] == f(i)
    {
      var a :| 0 <= a < |ks| && ks[a] == i;
      assert MapKept(events, f)[a] == f(ks[a]);
    }
  }

  /** Image `a` is that of the `a`-th first event. */
  lemma MapKeptAt<T>(events: seq<EventDetect.EventInterval>, f: nat -> T, a: nat)
    requires a < |MapKept(events, f)|
    ensures var ks := Kept(events, |events|);
      a < |ks| && ks[a] < |events| && FirstOfInterval(events, ks[a]) && MapKept(events, f)[a] == f(ks[a])
  {
    var ks := Kept(events, |events|);
    KeptMembers(events, |events|);
    assert ks[a] in ks;
  }

  /** The first event of an interval has its image. */
  lemma MapKeptOf<T>(events: seq<EventDetect.EventInterval>, f: nat -> T, i: nat)
    requires i < |events| && FirstOfInterval(events, i)
    ensures f(i) in MapKept(events, f)
  {
    var ks := Kept(events, |events|);
    KeptMembers(events, |events|);
    var a :| 0 <= a < |ks| && ks[a] == i;
    assert MapKept(events, f)[a] == f(i);
  }

  /** Every interval has a first event: the earliest event carrying it. */
  lemma {:induction false} FirstOfEach(events: seq<EventDetect.EventInterval>, i: nat)
    requires i < |events|
    ensures exists j :: 0 <= j <= i && FirstOfInterval(events, j) && IntervalKey(events[j]) == IntervalKey(events[i])
    decreases i
  {
    if !FirstOfInterval(events, i) {
      var j :| 0 <= j < i && IntervalKey(events[j]) == IntervalKey(events[i]);
      FirstOfEach(events, j);
    }
  }

  // ---------------------------------------------------------------------
  // The messages of an event
  // ---------------------------------------------------------------------

  function InWindow(lo: int, hi: int): ChatMessage -> bool
  {
    (m: ChatMessage) => lo <= m.timestamp <= hi
  }

  function MessageTime(m: ChatMessage): real
  {
    m.timestamp as real
  }

  /** The messages whose time lies in `[lo, hi]`, both ends included, sorted
   *  by time with a stable sort (`filter`, then `sort_by_key`). */
  function WindowMessages(msgs: seq<ChatMessage>, lo: int, hi: int): seq<ChatMessage>
  {
    SortBy(Filter(msgs, InWindow(lo, hi)), MessageTime)
  }

  /** The window holds a message exactly when the log does and its time is
   *  in the closed interval, as many times as the log holds it; it is in
   *  time order, and messages of the same second keep the log's order. */
  lemma WindowProps(msgs: seq<ChatMessage>, lo: int, hi: int, m: ChatMessage, k: real)
    ensures (m in WindowMessages(msgs, lo, hi)) <==> (m in msgs && lo <= m.timestamp <= hi)
    ensures multiset(WindowMessages(msgs, lo, hi))[m] == if lo <= m.timestamp <= hi then multiset(msgs)[m] else 0
    ensures SortedBy(WindowMessages(msgs, lo, hi), MessageTime)
    ensures Filter(WindowMessages(msgs, lo, hi), HasKey(MessageTime, k))
         == Filter(Filter(msgs, InWindow(lo, hi)), HasKey(MessageTime, k))
  {
    var f := Filter(msgs, InWindow(lo, hi));
    SortByProps(f, MessageTime);
    SortByStable(f, MessageTime, k);
    FilterMembers(msgs, InWindow(lo, hi), m);
    FilterCount(msgs, InWindow(lo, hi), m);
    CountIsMultiplicity(f, m);
    CountIsMultiplicity(msgs, m);
    assert m in WindowMessages(msgs, lo, hi) <==> m in multiset(f);
  }

  lemma {:induction false} CountIsMultiplicity<T>(s: seq<T>, x: T)
    ensures Count(s, x) == multiset(s)[x]
  {
    if s != [] {
      CountIsMultiplicity(s[..|s| - 1], x);
      InitLast(s);
    }
  }

  /** The messages of one event: the window from the first message time plus
   *  its start to the first message time plus its end. */
  function EventMessages(log: ChatLog, first: int, e: EventDetect.EventInterval): seq<ChatMessage>
  {
    WindowMessages(log.messages, first + e.startSec, first + e.endSec)
  }

  function Texts(msgs: seq<ChatMessage>): (r: seq<string>)
    ensures |r| == |msgs| && forall i :: 0 <= i < |msgs| ==> r[i] == msgs[i].message
  {
    seq(|msgs|, i requires 0 <= i < |msgs| => msgs[i].message)
  }

  // ---------------------------------------------------------------------
  // save_event_chats_to_json
  // ---------------------------------------------------------------------

  datatype EventChatJson = EventChatJson(event: EventDetect.EventInterval, messages: seq<string>)

  datatype EventChatsJson = EventChatsJson(videoId: nat, firstMessageTime: string, events: seq<EventChatJson>)

  function JsonFileName(videoId: nat): string
  {
    NatToString(videoId) + "_chat.json"
  }

  /** What the writers take from outside: `date(t)` is the `%Y-%m-%d` of
   *  instant `t` on the +09:00 wall clock, `fixed2(x)` is Rust's `{:.2}` of
   *  a float. */
  datatype Formats = Formats(date: int -> string, fixed2: real -> string)

  /** `format("%Y-%m-%d %H:%M:%S %z")` of a time at +09:00. */
  function Zoned(fmt: Formats, t: int): string
  {
    fmt.date(t) + " " + HhColonMmColonSs(t) + " +0900"
  }

  /** The `{}` display of a time at +09:00, whose offset reads `+09:00`. */
  function Shown(fmt: Formats, t: int): string
  {
    fmt.date(t) + " " + HhColonMmColonSs(t) + " +09:00"
  }

  /** Both renderings end with the local clock and then the offset, so two
   *  times rendered alike have the same local time of day. */
  lemma RenderedClock(fmt: Formats, t: int, u: int)
    ensures var z := Zoned(fmt, t);
      |z| >= 14 && z[|z| - 14..|z| - 6] == HhColonMmColonSs(t) && z[|z| - 6..] == " +0900"
    ensures var w := Shown(fmt, t);
      |w| >= 15 && w[|w| - 15..|w| - 7] == HhColonMmColonSs(t) && w[|w| - 7..] == " +09:00"
    ensures Zoned(fmt, t) == Zoned(fmt, u) ==> LocalSecondOfDay(t) == LocalSecondOfDay(u)
    ensures Shown(fmt, t) == Shown(fmt, u) ==> LocalSecondOfDay(t) == LocalSecondOfDay(u)
  {
    ClockLength(t);
    ClockLength(u);
    var c := HhColonMmColonSs(t);
    var z := Zoned(fmt, t);
    assert z == (fmt.date(t) + " ") + c + " +0900";
    assert z[|z| - 14..|z| - 6] == c;
    var w := Shown(fmt, t);
    assert w == (fmt.date(t) + " ") + c + " +09:00";
    assert w[|w| - 15..|w| - 7] == c;
    if Zoned(fmt, t) == Zoned(fmt, u) || Shown(fmt, t) == Shown(fmt, u) {
      var z2 := Zoned(fmt, u);
      var w2 := Shown(fmt, u);
      assert z2 == (fmt.date(u) + " ") + HhColonMmColonSs(u) + " +0900";
      assert w2 == (fmt.date(u) + " ") + HhColonMmColonSs(u) + " +09:00";
      assert z2[|z2| - 14..|z2| - 6] == HhColonMmColonSs(u);
      assert w2[|w2| - 15..|w2| - 7] == HhColonMmColonSs(u);
      ClockReadBack(t, u);
    }
  }

  /** The entry of an event: the event and the texts of its messages. */
  function EntryOf(log: ChatLog, first: int, e: EventDetect.EventInterval): EventChatJson
  {
    EventChatJson(e, Texts(EventMessages(log, first, e)))
  }

  /** The entry of event `i`. */
  function Entry(log: ChatLog, det: EventDetect.Detection, i: nat): EventChatJson
    requires i < |det.events|
  {
    EntryOf(log, det.firstTime, EventAt(det, i))
  }

  /** Event `i`, and a placeholder past the last one. */
  function EventAt(det: EventDetect.Detection, i: nat): EventDetect.EventInterval
  {
    if i < |det.events| then det.events[i] else NO_EVENT
  }

  function EntryFn(log: ChatLog, det: EventDetect.Detection): nat -> EventChatJson
  {
    (i: nat) => EntryOf(log, det.firstTime, EventAt(det, i))
  }

  const NO_EVENT := EventDetect.EventInterval(0, 0, 0, 0.0, 0)

  /** The document `save_event_chats_to_json` writes: the video id, the
   *  first message time, and one entry per event whose interval was not
   *  saved before. */
  function JsonDoc(log: ChatLog, det: EventDetect.Detection, fmt: Formats): EventChatsJson
  {
    EventChatsJson(log.videoId, Zoned(fmt, det.firstTime), MapKept(det.events, EntryFn(log, det)))
  }

  /** The document holds the entry of the first event of each interval
   *  and nothing else (`JsonEntryAt` gives the order). */
  lemma JsonDocProps(log: ChatLog, det: EventDetect.Detection, fmt: Formats)
    ensures forall e :: e in JsonDoc(log, det, fmt).events ==>
      exists i: nat :: i < |det.events| && FirstOfInterval(det.events, i) && e == Entry(log, det, i)
    ensures forall i: nat :: i < |det.events| && FirstOfInterval(det.events, i) ==>
      Entry(log, det, i) in JsonDoc(log, det, fmt).events
  {
    forall e | e in JsonDoc(log, det, fmt).events
      ensures exists i: nat :: i < |det.events| && FirstOfInterval(det.events, i) && e == Entry(log, det, i)
    {
      var a :| 0 <= a < |JsonDoc(log, det, fmt).events| && JsonDoc(log, det, fmt).events[a] == e;
      JsonEntryAt(log, det, fmt, a);
    }
    forall i: nat | i < |det.events| && FirstOfInterval(det.events, i)
      ensures Entry(log, det, i) in JsonDoc(log, det, fmt).events
    {
      JsonEntryOf(log, det, fmt, i);
    }
  }

  /** Entry `a` of the document is that of the `a`-th saved event. */
  lemma JsonEntryAt(log: ChatLog, det: EventDetect.Detection, fmt: Formats, a: nat)
    requires a < |JsonDoc(log, det, fmt).events|
    ensures var ks := Kept(det.events, |det.events|);
      a < |ks| && ks[a] < |det.events| && FirstOfInterval(det.events, ks[a])
      && JsonDoc(log, det, fmt).events[a] == Entry(log, det, ks[a])
  {
    MapKeptAt(det.events, EntryFn(log, det), a);
  }

  /** The entry of the first event of an interval is in the document. */
  lemma JsonEntryOf(log: ChatLog, det: EventDetect.Detection, fmt: Formats, i: nat)
    requires i < |det.events| && FirstOfInterval(det.events, i)
    ensures Entry(log, det, i) in JsonDoc(log, det, fmt).events
  {
    MapKeptOf(det.events, EntryFn(log, det), i);
  }

  /** No interval is in the document twice, and the entries follow the
   *  order of their events. */
  lemma JsonDocDistinct(log: ChatLog, det: EventDetect.Detection, fmt: Formats)
    ensures forall a, b :: 0 <= a < b < |JsonDoc(log, det, fmt).events| ==>
      IntervalKey(JsonDoc(log, det, fmt).events[a].event) != IntervalKey(JsonDoc(log, det, fmt).events[b].event)
  {
    var f := EntryFn(log, det);
    MapKeptProps(det.events, f);
    var ks := Kept(det.events, |det.events|);
    KeptDistinct(det.events);
    var xs := MapKept(det.events, f);
    forall a | 0 <= a < |xs| ensures xs[a].event == det.events[ks[a]] {
      assert xs[a] == f(ks[a]);
    }
  }

  /** The saved events carry pairwise different intervals. */
  lemma KeptDistinct(events: seq<EventDetect.EventInterval>)
    ensures var ks := Kept(events, |events|);
      forall a, b :: 0 <= a < b < |ks| ==> IntervalKey(events[ks[a]]) != IntervalKey(events[ks[b]])
  {
    KeptProps(events, |events|);
  }

  /** Every event's interval is in the document. */
  lemma JsonDocCovers(log: ChatLog, det: EventDetect.Detection, fmt: Formats, i: nat)
    requires i < |det.events|
    ensures exists a :: (0 <= a < |JsonDoc(log, det, fmt).events|
      && IntervalKey(JsonDoc(log, det, fmt).events[a].event) == IntervalKey(det.events[i]))
  {
    FirstOfEach(det.events, i);
    var j :| 0 <= j <= i && FirstOfInterval(det.events, j) && IntervalKey(det.events[j]) == IntervalKey(det.events[i]);
    JsonDocProps(log, det, fmt);
    var a :| 0 <= a < |JsonDoc(log, det, fmt).events| && JsonDoc(log, det, fmt).events[a] == Entry(log, det, j);
  }

  /** `save_event_chats_to_json`: the file name and the document it writes. */
  method SaveEventChatsToJson(log: ChatLog, det: EventDetect.Detection, fmt: Formats)
    returns (name: string, doc: EventChatsJson, saved: nat, skipped: nat)
    ensures name == JsonFileName(log.videoId) && doc == JsonDoc(log, det, fmt)
    ensures saved == |doc.events| && saved + skipped == |det.events|
  {
    var kept;
    kept, saved, skipped := DedupIntervals(det.events);
    var items := seq(|kept|, a requires 0 <= a < |kept| => Entry(log, det, kept[a]));
    assert items == MapKept(det.events, EntryFn(log, det));
    name := JsonFileName(log.videoId);
    doc := EventChatsJson(log.videoId, Zoned(fmt, det.firstTime), items);
  }

  // ---------------------------------------------------------------------
  // save_event_chats_to_files
  // ---------------------------------------------------------------------

  /** `{video_id}_chat` when a header or timestamps are printed, otherwise
   *  `{video_id}_chat_raw`. */
  function FolderName(videoId: nat, printHeader: bool, printTimestamp: bool): string
  {
    NatToString(videoId) + (if printHeader || printTimestamp then "_chat" else "_chat_raw")
  }

  /** Seconds since local midnight at +09:00, the offset every parsed chat
   *  time carries. */
  function LocalSecondOfDay(t: int): (r: int)
    ensures 0 <= r < SECONDS_PER_DAY
  {
    (t + KST_OFFSET) % SECONDS_PER_DAY
  }

  /** `{:02}` of a number below 100. */
  function Pad2(n: nat): string
    requires n < 100
  {
    [DigitChar(n / 10), DigitChar(n % 10)]
  }

  /** Two digits that give back the number: the zero-padded rendering. */
  lemma Pad2Props(n: nat)
    requires n < 100
    ensures |Pad2(n)| == 2 && AllDigits(Pad2(n)) && DigitsValue(Pad2(n)) == n && Pad2(n) == ZeroPad(n, 2)
  {
    var hi, lo := DigitChar(n / 10), DigitChar(n % 10);
    var p := Pad2(n);
    assert p == [hi, lo];
    assert p[..1] == [hi] && [hi][..0] == [];
    assert DigitsValue([hi]) == DigitValue(hi) == n / 10;
    assert DigitsValue(p) == DigitsValue([hi]) * 10 + DigitValue(lo) == n;
    Pad2Padded(n);
  }

  lemma Pad2Padded(n: nat)
    requires n < 100
    ensures Pad2(n) == ZeroPad(n, 2)
  {
    if n < 10 {
      assert NatToString(n) == [DigitChar(n)];
      assert n / 10 == 0 && n % 10 == n;
      assert Zeros(1) == ['0'] == [DigitChar(0)];
      assert ZeroPad(n, 2) == Zeros(1) + [DigitChar(n)];
    } else {
      assert NatToString(n / 10) == [DigitChar(n / 10)];
      assert NatToString(n) == NatToString(n / 10) + [DigitChar(n % 10)];
      assert ZeroPad(n, 2) == NatToString(n);
    }
  }

  /** Hours, minutes and seconds of the local time, two digits each. */
  function ClockParts(t: int): (string, string, string)
  {
    var d := LocalSecondOfDay(t);
    (Pad2(d / 3600), Pad2(d % 3600 / 60), Pad2(d % 60))
  }

  /** `format("%H%M%S")`. */
  function Hhmmss(t: int): string
  {
    var (h, m, s) := ClockParts(t);
    h + m + s
  }

  /** `format("%H:%M:%S")`. */
  function HhColonMmColonSs(t: int): string
  {
    var (h, m, s) := ClockParts(t);
    h + ":" + m + ":" + s
  }

  /** Each clock part is two digits, and together they give back the local
   *  second of the day. */
  lemma ClockPartsProps(t: int)
    ensures var (h, m, s) := ClockParts(t);
      && |h| == 2 && |m| == 2 && |s| == 2
      && AllDigits(h) && AllDigits(m) && AllDigits(s)
      && DigitsValue(h) < 24 && DigitsValue(m) < 60 && DigitsValue(s) < 60
      && DigitsValue(h) * 3600 + DigitsValue(m) * 60 + DigitsValue(s) == LocalSecondOfDay(t)
  {
    var d := LocalSecondOfDay(t);
    Pad2Props(d / 3600);
    Pad2Props(d % 3600 / 60);
    Pad2Props(d % 60);
  }

  lemma ClockLength(t: int)
    ensures |HhColonMmColonSs(t)| == 8
  {
    ClockPartsProps(t);
  }

  /** The `HH:MM:SS` clock gives back the local second of the day. */
  lemma ClockReadBack(t: int, u: int)
    requires HhColonMmColonSs(t) == HhColonMmColonSs(u)
    ensures LocalSecondOfDay(t) == LocalSecondOfDay(u)
  {
    ClockPartsProps(t);
    ClockPartsProps(u);
    ClockFields(ClockParts(t).0, ClockParts(t).1, ClockParts(t).2, ClockParts(u).0, ClockParts(u).1, ClockParts(u).2);
  }

  lemma ClockFields(h: string, m: string, s: string, h2: string, m2: string, s2: string)
    requires |h| == 2 && |m| == 2 && |h2| == 2 && |m2| == 2
    requires h + ":" + m + ":" + s == h2 + ":" + m2 + ":" + s2
    ensures h == h2 && m == m2 && s == s2
  {
    var c := h + ":" + m + ":" + s;
    var c2 := h2 + ":" + m2 + ":" + s2;
    assert c[..2] == h && c2[..2] == h2;
    assert c[3..5] == m && c2[3..5] == m2;
    assert c[6..] == s && c2[6..] == s2;
  }

  /** A number below 100 has at most two digits. */
  lemma NatToStringShort(n: nat)
    requires n < 100
    ensures |NatToString(n)| <= 2
  {
    if n >= 10 {
      assert NatToString(n) == NatToString(n / 10) + [DigitChar(n % 10)];
    }
  }

  /** `event_{:03}_{HHMMSS}_{HHMMSS}.log` with the event's 1-based index. */
  function EventFileName(idx: nat, start: int, end: int): string
  {
    "event_" + ZeroPad(idx + 1, 3) + "_" + Hhmmss(start) + "_" + Hhmmss(end) + ".log"
  }

  /** A clock field is six digits that give back the local second of the
   *  day. */
  lemma HhmmssProps(t: int)
    ensures var c := Hhmmss(t);
      && |c| == 6 && AllDigits(c)
      && DigitsValue(c[..2]) * 3600 + DigitsValue(c[2..4]) * 60 + DigitsValue(c[4..]) == LocalSecondOfDay(t)
  {
    ClockPartsProps(t);
    var (h, m, sec) := ClockParts(t);
    var c := h + m + sec;
    assert c[..2] == h && c[2..4] == m && c[4..] == sec;
  }

  lemma PrefixOfConcat(a: string, b: string)
    ensures StartsWith(a + b, a)
  {
    assert (a + b)[..|a|] == a;
  }

  lemma SuffixOfConcat(a: string, b: string)
    ensures EndsWith(a + b, b)
  {
    assert (a + b)[|a + b| - |b|..] == b;
  }

  lemma HhmmssLength(t: int)
    ensures |Hhmmss(t)| == 6
  {
    HhmmssProps(t);
  }

  /** The layout of `event_{index}_{clock}_{clock}.log`. */
  lemma NameLayout(z: string, h1: string, h2: string)
    requires |h1| == 6 && |h2| == 6
    ensures var n := "event_" + z + "_" + h1 + "_" + h2 + ".log";
      && StartsWith(n, "event_") && EndsWith(n, ".log")
      && |n| == |z| + 24 && n[6..6 + |z|] == z && n[6 + |z|] == '_'
  {
    var rest := "_" + h1 + "_" + h2;
    var n := "event_" + z + "_" + h1 + "_" + h2 + ".log";
    assert n == "event_" + (z + rest + ".log");
    assert n == ("event_" + z + rest) + ".log";
    PrefixOfConcat("event_", z + rest + ".log");
    SuffixOfConcat("event_" + z + rest, ".log");
    assert n[6..6 + |z|] == z;
    assert n[6 + |z|] == ("event_" + z + rest)[6 + |z|] == rest[0];
  }

  /** The file name starts with `event_`, ends with `.log`, and its index
   *  field, digits up to the next `_`, gives back the 1-based index; for
   *  fewer than a thousand events it is 27 characters: three index digits
   *  and two six-digit clock fields. */
  lemma EventFileNameProps(idx: nat, start: int, end: int)
    ensures var n := EventFileName(idx, start, end); var z := ZeroPad(idx + 1, 3);
      && StartsWith(n, "event_") && EndsWith(n, ".log")
      && |n| == |z| + 24 && n[6..6 + |z|] == z && n[6 + |z|] == '_'
      && AllDigits(z) && DigitsValue(z) == idx + 1
      && (idx + 1 < 1000 ==> |n| == 27)
  {
    HhmmssLength(start);
    HhmmssLength(end);
    NameLayout(ZeroPad(idx + 1, 3), Hhmmss(start), Hhmmss(end));
    ZeroPadValue(idx + 1, 3);
    if idx + 1 < 1000 {
      NatToStringBelow1000(idx + 1);
    }
  }

  lemma NatToStringBelow1000(n: nat)
    requires n < 1000
    ensures |NatToString(n)| <= 3
  {
    if n >= 10 {
      assert NatToString(n) == NatToString(n / 10) + [DigitChar(n % 10)];
      NatToStringShort(n / 10);
    }
  }

  /** One written message line: `[HH:MM:SS] nickname: message` with
   *  timestamps, the bare message without. */
  function MessageLine(m: ChatMessage, printTimestamp: bool): string
  {
    if printTimestamp then "[" + HhColonMmColonSs(m.timestamp) + "] " + m.nickname + ": " + m.message
    else m.message
  }

  function MessageLines(msgs: seq<ChatMessage>, printTimestamp: bool): (r: seq<string>)
    ensures |r| == |msgs| && forall i :: 0 <= i < |msgs| ==> r[i] == MessageLine(msgs[i], printTimestamp)
  {
    seq(|msgs|, i requires 0 <= i < |msgs| => MessageLine(msgs[i], printTimestamp))
  }

  /** The header block of an event file: the 1-based event number and the
   *  video, the start and end times, the peak time with its z-score and
   *  count, the number of messages, and a blank line. */
  function HeaderLines(videoId: nat, first: int, idx: nat, e: EventDetect.EventInterval, total: nat, fmt: Formats)
    : seq<string>
  {
    [ "# Event #" + NatToString(idx + 1) + " - Video ID: " + NatToString(videoId),
      "# Start: " + Zoned(fmt, first + e.startSec),
      "# End: " + Zoned(fmt, first + e.endSec),
      "# Peak: " + Shown(fmt, first + e.peakSec) + " (z-score: " + fmt.fixed2(e.peakZ)
        + ", count: " + NatToString(e.peakCount) + ")",
      "# Total messages: " + NatToString(total),
      "" ]
  }

  /** One event file: its name, the event's messages and the lines
   *  written. */
  datatype EventFile = EventFile(name: string, messages: seq<ChatMessage>, lines: seq<string>)

  /** A file named `name` that holds `msgs`, written as the lines `head`
   *  followed by one line per message. */
  function WriteEventFile(name: string, msgs: seq<ChatMessage>, head: seq<string>, printTimestamp: bool): EventFile
  {
    EventFile(name, msgs, head + MessageLines(msgs, printTimestamp))
  }

  /** The file of event `e` at position `idx`, the first message being at
   *  `first`: the event's window of messages, after the header block when
   *  one is printed. */
  function FileOfEvent(log: ChatLog, first: int, idx: nat, e: EventDetect.EventInterval, printHeader: bool,
                       printTimestamp: bool, fmt: Formats): EventFile
  {
    var msgs := EventMessages(log, first, e);
    WriteEventFile(EventFileName(idx, first + e.startSec, first + e.endSec), msgs,
                   if printHeader then HeaderLines(log.videoId, first, idx, e, |msgs|, fmt) else [], printTimestamp)
  }

  function EventFileOf(log: ChatLog, det: EventDetect.Detection, idx: nat, printHeader: bool, printTimestamp: bool,
                       fmt: Formats): EventFile
    requires idx < |det.events|
  {
    FileOfEvent(log, det.firstTime, idx, EventAt(det, idx), printHeader, printTimestamp, fmt)
  }

  /** A written file starts with its header lines, and then holds one line
   *  per message, in the order of the messages. */
  lemma EventFileLayout(name: string, msgs: seq<ChatMessage>, head: seq<string>, printTimestamp: bool)
    ensures var f := WriteEventFile(name, msgs, head, printTimestamp);
      && f.name == name && f.messages == msgs
      && |f.lines| == |head| + |msgs| && f.lines[..|head|] == head
      && (forall i :: |head| <= i < |f.lines| ==> f.lines[i] == MessageLine(msgs[i - |head|], printTimestamp))
  {
    var l := head + MessageLines(msgs, printTimestamp);
    assert l[..|head|] == head;
  }

  /** The header block is six lines, the last blank; the second and third
   *  give the start and end times, and the count on the fifth gives back
   *  the number of messages. */
  lemma HeaderLinesProps(videoId: nat, first: int, idx: nat, e: EventDetect.EventInterval, total: nat, fmt: Formats)
    ensures var h := HeaderLines(videoId, first, idx, e, total, fmt);
      && |h| == 6 && h[5] == ""
      && h[1] == "# Start: " + Zoned(fmt, first + e.startSec)
      && h[2] == "# End: " + Zoned(fmt, first + e.endSec)
      && StartsWith(h[4], "# Total messages: ") && AllDigits(h[4][18..]) && DigitsValue(h[4][18..]) == total
  {
    var h := HeaderLines(videoId, first, idx, e, total, fmt);
    PrefixOfConcat("# Total messages: ", NatToString(total));
    assert h[4][18..] == NatToString(total);
    NatToStringRoundTrip(total);
  }

  /** The start and end clock of the header are those of the file name. */
  lemma HeaderClockIsNameClock(t: int)
    ensures var c := HhColonMmColonSs(t); var n := Hhmmss(t);
      |c| == 8 && |n| == 6 && c[..2] == n[..2] && c[3..5] == n[2..4] && c[6..] == n[4..]
  {
    ClockPartsProps(t);
  }

  function FileFn(log: ChatLog, det: EventDetect.Detection, printHeader: bool, printTimestamp: bool, fmt: Formats)
    : nat -> EventFile
  {
    (i: nat) => FileOfEvent(log, det.firstTime, i, EventAt(det, i), printHeader, printTimestamp, fmt)
  }

  /** The files `save_event_chats_to_files` writes, one per event whose
   *  interval was not saved before, numbered by the event's position in
   *  the whole list. */
  function EventFiles(log: ChatLog, det: EventDetect.Detection, printHeader: bool, printTimestamp: bool, fmt: Formats)
    : seq<EventFile>
  {
    MapKept(det.events, FileFn(log, det, printHeader, printTimestamp, fmt))
  }

  /** One file per distinct interval, each the file of the first event
   *  with it (`EventFileAt` gives the order). */
  lemma EventFilesProps(log: ChatLog, det: EventDetect.Detection, printHeader: bool, printTimestamp: bool, fmt: Formats)
    ensures |EventFiles(log, det, printHeader, printTimestamp, fmt)| <= |det.events|
    ensures forall file :: file in EventFiles(log, det, printHeader, printTimestamp, fmt) ==>
      exists i: nat :: i < |det.events| && FirstOfInterval(det.events, i)
        && file == EventFileOf(log, det, i, printHeader, printTimestamp, fmt)
    ensures forall i: nat :: i < |det.events| && FirstOfInterval(det.events, i) ==>
      EventFileOf(log, det, i, printHeader, printTimestamp, fmt) in EventFiles(log, det, printHeader, printTimestamp, fmt)
  {
    forall file | file in EventFiles(log, det, printHeader, printTimestamp, fmt)
      ensures exists i: nat :: (i < |det.events| && FirstOfInterval(det.events, i)
        && file == EventFileOf(log, det, i, printHeader, printTimestamp, fmt))
    {
      var a :| 0 <= a < |EventFiles(log, det, printHeader, printTimestamp, fmt)|
        && EventFiles(log, det, printHeader, printTimestamp, fmt)[a] == file;
      EventFileAt(log, det, printHeader, printTimestamp, fmt, a);
      var i := Kept(det.events, |det.events|)[a];
      assert i < |det.events| && FirstOfInterval(det.events, i)
        && file == EventFileOf(log, det, i, printHeader, printTimestamp, fmt);
    }
    forall i: nat | i < |det.events| && FirstOfInterval(det.events, i)
      ensures EventFileOf(log, det, i, printHeader, printTimestamp, fmt) in EventFiles(log, det, printHeader, printTimestamp, fmt)
    {
      EventFileIn(log, det, printHeader, printTimestamp, fmt, i);
    }
  }

  /** File `a` is that of the `a`-th saved event. */
  lemma EventFileAt(log: ChatLog, det: EventDetect.Detection, printHeader: bool, printTimestamp: bool, fmt: Formats,
                    a: nat)
    requires a < |EventFiles(log, det, printHeader, printTimestamp, fmt)|
    ensures var ks := Kept(det.events, |det.events|);
      a < |ks| && ks[a] < |det.events| && FirstOfInterval(det.events, ks[a])
      && EventFiles(log, det, printHeader, printTimestamp, fmt)[a] == EventFileOf(log, det, ks[a], printHeader, printTimestamp, fmt)
  {
    MapKeptAt(det.events, FileFn(log, det, printHeader, printTimestamp, fmt), a);
  }

  /** The file of the first event of an interval is written. */
  lemma EventFileIn(log: ChatLog, det: EventDetect.Detection, printHeader: bool, printTimestamp: bool, fmt: Formats,
                    i: nat)
    requires i < |det.events| && FirstOfInterval(det.events, i)
    ensures EventFileOf(log, det, i, printHeader, printTimestamp, fmt) in EventFiles(log, det, printHeader, printTimestamp, fmt)
  {
    MapKeptOf(det.events, FileFn(log, det, printHeader, printTimestamp, fmt), i);
  }

  /** The name of event `i`'s file. */
  function NameAt(det: EventDetect.Detection, i: nat): string
  {
    EventFileName(i, det.firstTime + EventAt(det, i).startSec, det.firstTime + EventAt(det, i).endSec)
  }

  function NameFn(det: EventDetect.Detection): nat -> string
  {
    (i: nat) => NameAt(det, i)
  }

  /** The names of the files, in order. */
  function EventFileNames(det: EventDetect.Detection): seq<string>
  {
    MapKept(det.events, NameFn(det))
  }

  /** Each file carries its name in `EventFileNames`. */
  lemma EventFileNamesAt(log: ChatLog, det: EventDetect.Detection, printHeader: bool, printTimestamp: bool,
                         fmt: Formats)
    ensures |EventFiles(log, det, printHeader, printTimestamp, fmt)| == |EventFileNames(det)|
    ensures forall a :: 0 <= a < |EventFileNames(det)| ==>
      EventFiles(log, det, printHeader, printTimestamp, fmt)[a].name == EventFileNames(det)[a]
  {
    MapKeptProps(det.events, FileFn(log, det, printHeader, printTimestamp, fmt));
    MapKeptProps(det.events, NameFn(det));
    forall a | 0 <= a < |EventFileNames(det)|
      ensures EventFiles(log, det, printHeader, printTimestamp, fmt)[a].name == EventFileNames(det)[a]
    {
      FileNameAt(log, det, printHeader, printTimestamp, fmt, a);
    }
  }

  lemma FileNameAt(log: ChatLog, det: EventDetect.Detection, printHeader: bool, printTimestamp: bool, fmt: Formats,
                   a: nat)
    requires a < |EventFiles(log, det, printHeader, printTimestamp, fmt)|
    ensures a < |EventFileNames(det)|
    ensures EventFiles(log, det, printHeader, printTimestamp, fmt)[a].name == EventFileNames(det)[a]
  {
    EventFileAt(log, det, printHeader, printTimestamp, fmt, a);
    var ks := Kept(det.events, |det.events|);
    MapKeptAt(det.events, NameFn(det), a);
    FileNameIsNameAt(log, det, ks[a], printHeader, printTimestamp, fmt);
  }

  /** No two files have the same name. */
  lemma EventFileNamesDistinct(log: ChatLog, det: EventDetect.Detection, printHeader: bool, printTimestamp: bool,
                               fmt: Formats)
    ensures forall a, b :: 0 <= a < b < |EventFiles(log, det, printHeader, printTimestamp, fmt)| ==>
      EventFiles(log, det, printHeader, printTimestamp, fmt)[a].name
      != EventFiles(log, det, printHeader, printTimestamp, fmt)[b].name
  {
    EventFileNamesAt(log, det, printHeader, printTimestamp, fmt);
    NamesDistinct(det);
  }

  lemma NamesDistinct(det: EventDetect.Detection)
    ensures forall a, b :: 0 <= a < b < |EventFileNames(det)| ==> EventFileNames(det)[a] != EventFileNames(det)[b]
  {
    NameFnInjective(det);
    MapKeptInjective(det.events, NameFn(det));
  }

  lemma NameFnInjective(det: EventDetect.Detection)
    ensures forall i: nat, j: nat :: i < j < |det.events| ==> NameFn(det)(i) != NameFn(det)(j)
  {
    forall i: nat, j: nat | i < j < |det.events| ensures NameFn(det)(i) != NameFn(det)(j) {
      NameAtDiffer(det, i, j);
    }
  }

  lemma NameAtDiffer(det: EventDetect.Detection, i: nat, j: nat)
    requires i != j
    ensures NameAt(det, i) != NameAt(det, j)
  {
    NameAtFields(det, i);
    NameAtFields(det, j);
    FieldsDiffer(NameAt(det, i), NameAt(det, j), ZeroPad(i + 1, 3), ZeroPad(j + 1, 3));
  }

  lemma NameAtFields(det: EventDetect.Detection, i: nat)
    ensures var n := NameAt(det, i); var z := ZeroPad(i + 1, 3);
      && 6 + |z| < |n| && n[6..6 + |z|] == z && n[6 + |z|] == '_' && AllDigits(z) && DigitsValue(z) == i + 1
  {
    EventFileNameProps(i, det.firstTime + EventAt(det, i).startSec, det.firstTime + EventAt(det, i).endSec);
  }

  /** Images of different events under an injective map stay different. */
  lemma MapKeptInjective<T>(events: seq<EventDetect.EventInterval>, f: nat -> T)
    requires forall i: nat, j: nat :: i < j < |events| ==> f(i) != f(j)
    ensures forall a, b :: 0 <= a < b < |MapKept(events, f)| ==> MapKept(events, f)[a] != MapKept(events, f)[b]
  {
    MapKeptProps(events, f);
    KeptIncreasing(events, |events|);
    var ks := Kept(events, |events|);
    forall a, b | 0 <= a < b < |MapKept(events, f)| ensures MapKept(events, f)[a] != MapKept(events, f)[b] {
      assert MapKept(events, f)[a] == f(ks[a]) && MapKept(events, f)[b] == f(ks[b]);
    }
  }

  lemma FileNameOf(log: ChatLog, det: EventDetect.Detection, idx: nat, printHeader: bool, printTimestamp: bool,
                   fmt: Formats)
    requires idx < |det.events|
    ensures EventFileOf(log, det, idx, printHeader, printTimestamp, fmt).name
         == EventFileName(idx, det.firstTime + det.events[idx].startSec, det.firstTime + det.events[idx].endSec)
  {
  }

  lemma FileNameIsNameAt(log: ChatLog, det: EventDetect.Detection, idx: nat, printHeader: bool, printTimestamp: bool,
                         fmt: Formats)
    requires idx < |det.events|
    ensures EventFileOf(log, det, idx, printHeader, printTimestamp, fmt).name == NameAt(det, idx)
  {
  }

  /** Files of different events differ in the index field of their
   *  names. */
  lemma NamesDiffer(i: nat, j: nat, s1: int, e1: int, s2: int, e2: int)
    requires i != j
    ensures EventFileName(i, s1, e1) != EventFileName(j, s2, e2)
  {
    EventFileNameProps(i, s1, e1);
    EventFileNameProps(j, s2, e2);
    FieldsDiffer(EventFileName(i, s1, e1), EventFileName(j, s2, e2), ZeroPad(i + 1, 3), ZeroPad(j + 1, 3));
  }

  /** Two names whose digit fields after the `event_` prefix, each ended by
   *  `_`, have different values are different. */
  lemma FieldsDiffer(u: string, w: string, z1: string, z2: string)
    requires 6 + |z1| < |u| && u[6..6 + |z1|] == z1 && u[6 + |z1|] == '_' && AllDigits(z1)
    requires 6 + |z2| < |w| && w[6..6 + |z2|] == z2 && w[6 + |z2|] == '_' && AllDigits(z2)
    requires DigitsValue(z1) != DigitsValue(z2)
    ensures u != w
  {
    if |z1| < |z2| {
      assert w[6 + |z1|] == z2[|z1|] && IsDigit(z2[|z1|]);
    } else if |z2| < |z1| {
      assert u[6 + |z2|] == z1[|z2|] && IsDigit(z1[|z2|]);
    }
  }

  /** `save_event_chats_to_files`: the folder and the files it writes. */
  method SaveEventChatsToFiles(log: ChatLog, det: EventDetect.Detection, printHeader: bool, printTimestamp: bool,
                               fmt: Formats)
    returns (folder: string, files: seq<EventFile>, saved: nat, skipped: nat)
    ensures folder == FolderName(log.videoId, printHeader, printTimestamp)
    ensures files == EventFiles(log, det, printHeader, printTimestamp, fmt)
    ensures saved == |files| && saved + skipped == |det.events|
  {
    var kept;
    kept, saved, skipped := DedupIntervals(det.events);
    folder := FolderName(log.videoId, printHeader, printTimestamp);
    files := seq(|kept|, a requires 0 <= a < |kept| => EventFileOf(log, det, kept[a], printHeader, printTimestamp, fmt));
    assert files == MapKept(det.events, FileFn(log, det, printHeader, printTimestamp, fmt));
  }

  // ---------------------------------------------------------------------
  // run_extract_event
  // ---------------------------------------------------------------------

  /** What the command writes for one log: a JSON file, or a folder of
   *  event files. */
  datatype Output =
    | JsonOutput(fileName: string, doc: EventChatsJson)
    | FilesOutput(folder: string, files: seq<EventFile>)

  function OutputName(o: Output): string
  {
    match o
    case JsonOutput(n, _) => n
    case FilesOutput(f, _) => f
  }

  /** The name under which a log's events are saved. */
  function OutputNameFor(log: ChatLog, flags: Flags): string
  {
    if flags.outputJson then JsonFileName(log.videoId)
    else FolderName(log.videoId, flags.printHeader, flags.printTimestamp)
  }

  function HasMessages(log: ChatLog): bool
  {
    log.messages != []
  }

  /** What the command writes for one log, given its detection. */
  function OutputFor(log: ChatLog, det: EventDetect.Detection, flags: Flags, fmt: Formats): Output
  {
    if flags.outputJson then JsonOutput(JsonFileName(log.videoId), JsonDoc(log, det, fmt))
    else FilesOutput(FolderName(log.videoId, flags.printHeader, flags.printTimestamp),
                     EventFiles(log, det, flags.printHeader, flags.printTimestamp, fmt))
  }

  /** `o` is what is saved for the log's detection (which is unique, by
   *  `EventDetect.DetectedUnique`). */
  ghost predicate SavedFor(log: ChatLog, o: Output, flags: Flags, fmt: Formats)
  {
    exists det :: EventDetect.Detected(log, det) && o == OutputFor(log, det, flags, fmt)
  }

  /** The output is stored under the log's name, in the chosen form. */
  lemma OutputForName(log: ChatLog, det: EventDetect.Detection, flags: Flags, fmt: Formats)
    ensures OutputName(OutputFor(log, det, flags, fmt)) == OutputNameFor(log, flags)
    ensures OutputFor(log, det, flags, fmt).JsonOutput? <==> flags.outputJson
  {
  }

  /** Detection and saving for one log: nothing when the log has no
   *  messages, since detection then finds nothing; otherwise what is saved
   *  for its detection. */
  method ProcessLog(log: ChatLog, flags: Flags, fmt: Formats) returns (out: Option<Output>)
    ensures out.None? <==> log.messages == []
    ensures out.Some? ==> SavedFor(log, out.value, flags, fmt)
    ensures out.Some? ==> OutputName(out.value) == OutputNameFor(log, flags) && (out.value.JsonOutput? <==> flags.outputJson)
  {
    var det := EventDetect.DetectEventIntervals(log);
    if det.None? {
      return None;
    }
    if flags.outputJson {
      var name, doc, _, _ := SaveEventChatsToJson(log, det.value, fmt);
      out := Some(JsonOutput(name, doc));
    } else {
      var folder, files, _, _ := SaveEventChatsToFiles(log, det.value, flags.printHeader, flags.printTimestamp, fmt);
      out := Some(FilesOutput(folder, files));
    }
    assert out.value == OutputFor(log, det.value, flags, fmt);
  }

  /** `out` is the log's output: what is saved for its detection, under
   *  its name. */
  ghost predicate OutputOk(log: ChatLog, out: (ChatLog, Output), flags: Flags, fmt: Formats)
  {
    out.0 == log && SavedFor(log, out.1, flags, fmt) && OutputName(out.1) == OutputNameFor(log, flags)
  }

  /** One output per log of `done`, in order. */
  ghost predicate OutputsFor(done: seq<ChatLog>, outs: seq<(ChatLog, Output)>, flags: Flags, fmt: Formats)
  {
    |outs| == |done| && forall k :: 0 <= k < |done| ==> OutputOk(done[k], outs[k], flags, fmt)
  }

  lemma OutputsForSnoc(done: seq<ChatLog>, outs: seq<(ChatLog, Output)>, log: ChatLog, o: Output, flags: Flags,
                       fmt: Formats)
    requires OutputsFor(done, outs, flags, fmt)
    requires SavedFor(log, o, flags, fmt) && OutputName(o) == OutputNameFor(log, flags)
    ensures OutputsFor(done + [log], outs + [(log, o)], flags, fmt)
  {
    var done', outs' := done + [log], outs + [(log, o)];
    assert OutputOk(log, (log, o), flags, fmt);
    forall k | 0 <= k < |done'| ensures OutputOk(done'[k], outs'[k], flags, fmt) {
      if k < |done| {
        assert done'[k] == done[k] && outs'[k] == outs[k];
      }
    }
  }

  /** The outputs are those of the logs with messages, in order; in video
   *  mode a log without messages is an error. */
  ghost predicate RunOutcome(video: bool, ts: seq<ChatLog>, flags: Flags, fmt: Formats,
                             r: Result<seq<(ChatLog, Output)>>)
  {
    && (r.Err? <==> video && |ts| > 0 && ts[0].messages == [])
    && (r.Ok? ==> OutputsFor(Filter(ts, HasMessages), r.value, flags, fmt))
  }

  /** Video mode: detection fails for a log without messages. */
  method RunVideo(log: ChatLog, flags: Flags, fmt: Formats) returns (r: Result<seq<(ChatLog, Output)>>)
    ensures RunOutcome(true, [log], flags, fmt, r)
  {
    assert Filter([log], HasMessages) == if HasMessages(log) then [log] else [] by {
      assert [log] == [] + [log];
      FilterSnoc([], log, HasMessages);
    }
    var out := ProcessLog(log, flags, fmt);
    if out.None? {
      return Err("Failed to detect events for video " + NatToString(log.videoId));
    }
    return Ok([(log, out.value)]);
  }

  /** Channel mode: every log with messages gets an output, in order; the
   *  others are passed over with a warning. */
  method RunChannel(ts: seq<ChatLog>, flags: Flags, fmt: Formats) returns (r: Result<seq<(ChatLog, Output)>>)
    ensures RunOutcome(false, ts, flags, fmt, r)
  {
    var outs: seq<(ChatLog, Output)> := [];
    for i := 0 to |ts|
      invariant OutputsFor(Filter(ts[..i], HasMessages), outs, flags, fmt)
    {
      TakeSnoc(ts, i);
      FilterSnoc(ts[..i], ts[i], HasMessages);
      var out := ProcessLog(ts[i], flags, fmt);
      if out.Some? {
        OutputsForSnoc(Filter(ts[..i], HasMessages), outs, ts[i], out.value, flags, fmt);
        outs := outs + [(ts[i], out.value)];
      }
    }
    TakeAll(ts);
    r := Ok(outs);
  }

  /** In video mode there is exactly one log to process. */
  lemma VideoTargetsOne(o: ExtractEventOpt, channels: seq<Channel>, logs: seq<ChatLog>, now: int, parse: TimeParser)
    requires Targets(o, channels, logs, now, parse).Ok? && o.videoId.Some?
    ensures Targets(o, channels, logs, now, parse).value == [Targets(o, channels, logs, now, parse).value[0]]
  {
  }

  /** `run_extract_event` with the loaded channels and logs, the current
   *  time and the replay-time parser as parameters. It fails as `Targets`
   *  does, or in video mode when the video's log has no messages (there is
   *  nothing to detect); in channel mode such a log is passed over. Every
   *  other log gets one output, in order. */
  method RunExtractEvent(o: ExtractEventOpt, channels: seq<Channel>, logs: seq<ChatLog>, now: int,
                         parse: TimeParser, fmt: Formats)
    returns (r: Result<seq<(ChatLog, Output)>>)
    ensures Targets(o, channels, logs, now, parse).Err? ==> r == Err(Targets(o, channels, logs, now, parse).error)
    ensures Targets(o, channels, logs, now, parse).Ok? ==>
      RunOutcome(o.videoId.Some?, Targets(o, channels, logs, now, parse).value, FlagsOf(o), fmt, r)
  {
    var flags := FlagsOf(o);
    var targets := Targets(o, channels, logs, now, parse);
    if targets.Err? {
      return Err(targets.error);
    }
    if o.videoId.Some? {
      VideoTargetsOne(o, channels, logs, now, parse);
      r := RunVideo(targets.value[0], flags, fmt);
    } else {
      r := RunChannel(targets.value, flags, fmt);
    }
  }
}
