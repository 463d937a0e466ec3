/** channel_with_replays.py: the per-channel summary of its replays — the
 *  latest replay, each replay's start/end window and the split of the
 *  summary into two output chunks. Videos are decoded JSON objects; the
 *  `strptime`/`strftime` pair is a parameter (`parse` reads a
 *  `%Y-%m-%d %H:%M:%S` text as seconds, `format` writes seconds back). */
module ChannelWithReplays {
  import opened Wrappers
  import opened Json

  type Video = Object

  const NO_START: string := "시작 시간 정보 없음"
  const NO_END: string := "종료 시간 정보 없음"
  const NO_TITLE: string := "제목 없음"

  // ---------------------------------------------------------------------
  // pick_latest_replay
  // ---------------------------------------------------------------------

  /** A video's `publishDateAt` as the selection loop sees it: absent or
   *  null (skipped), a number, or a value whose comparison with a number
   *  raises `TypeError`. */
  datatype Stamp = NoStamp | Num(t: real) | Unordered

  function StampOf(v: Video): (s: Stamp)
    ensures s.Num? <==> Numeric(Get(v, "publishDateAt")).Some?
  {
    match Get(v, "publishDateAt")
    case JNull => NoStamp
    case j => match Numeric(j)
      case None => Unordered
      case Some(t) => Num(t)
  }

  /** A video the loop can pick: its stamp beats the starting value -1. */
  predicate Stamped(v: Video)
  {
    StampOf(v).Num? && StampOf(v).t > -1.0
  }

  /** Among the first `n` videos, `i` has the largest stamp, and every
   *  earlier stamp is strictly smaller (the first of the maximal ones). */
  predicate LatestIn(vs: seq<Video>, n: nat, i: nat)
    requires n <= |vs|
  {
    i < n && Stamped(vs[i])
    && (forall j :: 0 <= j < n && StampOf(vs[j]).Num? ==> StampOf(vs[j]).t <= StampOf(vs[i]).t)
    && (forall j :: 0 <= j < i && StampOf(vs[j]).Num? ==> StampOf(vs[j]).t < StampOf(vs[i]).t)
  }

  predicate IsLatest(vs: seq<Video>, i: nat)
  {
    LatestIn(vs, |vs|, i)
  }

  /** The latest video is unique. */
  lemma LatestUnique(vs: seq<Video>, i: nat, j: nat)
    requires IsLatest(vs, i) && IsLatest(vs, j)
    ensures i == j
  {
  }

  /** `pick_latest_replay`: the first video with the largest numeric
   *  `publishDateAt` above -1 (strict `>`, starting from -1); with none,
   *  the first video, or `None` for an empty list. A stamp that is neither
   *  null nor a number makes the comparison raise. */
  method PickLatestReplay(videos: seq<Video>) returns (r: Result<Option<Video>>)
    ensures r.Err? <==> exists i :: 0 <= i < |videos| && StampOf(videos[i]).Unordered?
    ensures r.Ok? && (exists i :: 0 <= i < |videos| && Stamped(videos[i])) ==>
      exists i :: 0 <= i < |videos| && IsLatest(videos, i) && r.value == Some(videos[i])
    ensures r.Ok? && (forall i :: 0 <= i < |videos| ==> !Stamped(videos[i])) ==>
      r.value == if videos == [] then None else Some(videos[0])
  {
    var latest: Option<Video> := None;
    var latestTs: real := -1.0;
    ghost var best: nat := 0;
    var k := 0;
    while k < |videos|
      invariant 0 <= k <= |videos|
      invariant forall j :: 0 <= j < k ==> !StampOf(videos[j]).Unordered?
      invariant latest.None? ==> latestTs == -1.0 && forall j :: 0 <= j < k ==> !Stamped(videos[j])
      invariant latest.Some? ==> LatestIn(videos, k, best)
      invariant latest.Some? ==> latest == Some(videos[best]) && latestTs == StampOf(videos[best]).t
    {
      var v := videos[k];
      match StampOf(v) {
        case NoStamp =>
        case Unordered =>
          return Err("'>' not supported between the stamp and a number");
        case Num(t) =>
          if t > latestTs {
            latest := Some(v);
            latestTs := t;
            best := k;
          }
      }
      k := k + 1;
    }
    if latest.Some? {
      assert IsLatest(videos, best);
      return Ok(latest);
    }
    return Ok(if videos == [] then None else Some(videos[0]));
  }

  // ---------------------------------------------------------------------
  // get_duration_seconds, format_time_window
  // ---------------------------------------------------------------------

  /** `get_duration_seconds`: `int(video.get("durationSec"))`, or `None`
   *  where `int()` raises `TypeError` or `ValueError`. */
  function DurationSeconds(v: Video): (r: Option<int>)
    ensures Get(v, "durationSec").JInt? ==> r == Some(Get(v, "durationSec").i)
    ensures Get(v, "durationSec").JNull? ==> r.None?
  {
    PyInt(Get(v, "durationSec"))
  }

  /** A duration written by `str(n)` is read back as `n`. */
  lemma DurationFromText(v: Video, n: int, repr: Json -> string)
    requires Get(v, "durationSec") == JStr(PyStr(JInt(n), repr))
    ensures DurationSeconds(v) == Some(n)
  {
    PyIntOfStr(n, repr);
  }

  /** A fractional duration is truncated toward zero. */
  lemma DurationOfFloat(v: Video, f: real)
    requires Get(v, "durationSec") == JFloat(f)
    ensures DurationSeconds(v).Some?
    ensures var d := DurationSeconds(v).value;
      (f >= 0.0 ==> 0 <= d && d as real <= f < d as real + 1.0)
      && (f < 0.0 ==> d <= 0 && d as real - 1.0 < f <= d as real)
  {
  }

  /** `parse_datetime`: only a string can be parsed; anything else is the
   *  caught `TypeError`. */
  function ParseDatetime(value: Json, parse: string -> Option<int>): (r: Option<int>)
    ensures !value.JStr? ==> r.None?
  {
    if value.JStr? then parse(value.s) else None
  }

  /** `format_time_window`: both placeholders when the start does not
   *  parse; otherwise the formatted start, and the formatted start plus the
   *  duration, or the end placeholder when there is no duration. */
  function FormatTimeWindow(publishDate: Json, duration: Option<int>,
                            parse: string -> Option<int>, format: int -> string): (w: (string, string))
    ensures ParseDatetime(publishDate, parse).None? ==> w == (NO_START, NO_END)
    ensures ParseDatetime(publishDate, parse).Some? ==>
      var t := ParseDatetime(publishDate, parse).value;
      w.0 == format(t) && w.1 == (if duration.Some? then format(t + duration.value) else NO_END)
  {
    match ParseDatetime(publishDate, parse)
    case None => (NO_START, NO_END)
    case Some(t) => (format(t), if duration.Some? then format(t + duration.value) else NO_END)
  }

  /** A zero-length window ends where it starts, and the end is missing
   *  exactly when the start or the duration is. */
  lemma WindowEnds(publishDate: Json, duration: Option<int>,
                   parse: string -> Option<int>, format: int -> string)
    requires forall t :: format(t) != NO_END
    ensures var w := FormatTimeWindow(publishDate, duration, parse, format);
      (w.1 == NO_END <==> ParseDatetime(publishDate, parse).None? || duration.None?)
      && (duration == Some(0) && ParseDatetime(publishDate, parse).Some? ==> w.1 == w.0)
  {
  }

  // ---------------------------------------------------------------------
  // build_replay_entries
  // ---------------------------------------------------------------------

  datatype Entry = Entry(title: Json, start: string, end: string, videoNo: Json,
                         thumbnail: Json, tags: Json, categoryKo: Json)

  /** The summary entry of one video. The title defaults to "제목 없음"
   *  only when the key is missing (an explicit null stays null). */
  function EntryOf(v: Video, parse: string -> Option<int>, format: int -> string): (e: Entry)
    ensures e.title == GetOr(v, "title", JStr(NO_TITLE))
    ensures (e.start, e.end) == FormatTimeWindow(Get(v, "publishDate"), DurationSeconds(v), parse, format)
    ensures e.videoNo == Get(v, "videoNo") && e.thumbnail == Get(v, "thumbnailUrl")
    ensures e.tags == Get(v, "tags") && e.categoryKo == Get(v, "categoryKo")
  {
    var w := FormatTimeWindow(Get(v, "publishDate"), DurationSeconds(v), parse, format);
    Entry(GetOr(v, "title", JStr(NO_TITLE)), w.0, w.1, Get(v, "videoNo"),
          Get(v, "thumbnailUrl"), Get(v, "tags"), Get(v, "categoryKo"))
  }

  /** The default title appears for a video without a title key, and a
   *  present title is kept, null included. */
  lemma EntryTitle(v: Video, parse: string -> Option<int>, format: int -> string)
    ensures "title" !in v ==> EntryOf(v, parse, format).title == JStr(NO_TITLE)
    ensures "title" in v ==> EntryOf(v, parse, format).title == v["title"]
  {
  }

  /** `build_replay_entries`: one entry per video, in order. */
  method BuildReplayEntries(videos: seq<Video>, parse: string -> Option<int>, format: int -> string)
    returns (entries: seq<Entry>)
    ensures |entries| == |videos|
    ensures forall k :: 0 <= k < |videos| ==> entries[k] == EntryOf(videos[k], parse, format)
  {
    entries := [];
    for k := 0 to |videos|
      invariant |entries| == k
      invariant forall j :: 0 <= j < k ==> entries[j] == EntryOf(videos[j], parse, format)
    {
      entries := entries + [EntryOf(videos[k], parse, format)];
    }
  }

  // ---------------------------------------------------------------------
  // The output chunks of main
  // ---------------------------------------------------------------------

  /** The summary is written as two chunks split at a tenth of its length:
   *  together they are the whole summary, in order, and the first is never
   *  the larger. */
  function SplitChunks<T>(entries: seq<T>): (c: (seq<T>, seq<T>))
    ensures c.0 + c.1 == entries
    ensures |c.0| == |entries| / 10 && |c.0| <= |c.1|
  {
    var i := |entries| / 10;
    assert entries[..i] + entries[i..] == entries;
    (entries[..i], entries[i..])
  }
}
