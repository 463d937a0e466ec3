/** workflows/lambda/queueing-videos.py: the producer lambda that queues the
 *  replays that have no chat log yet. The S3 object, the GitHub download and
 *  `json.loads` are left to the caller (the decoded JSON values are inputs),
 *  the clock is the parameter `now` (seconds, UTC), `strptime` with
 *  `%Y-%m-%d %H:%M:%S` is the parameter `parse` (seconds, read as UTC) and
 *  the SQS call is the parameter `accepts`. */
module QueueingVideos {
  import opened Wrappers
  import opened Text
  import opened Json
  import opened S3Paths
  import Seqs

  // ---------------------------------------------------------------------
  // _normalize_github_raw
  // ---------------------------------------------------------------------

  /** A GitHub page URL whose content must be fetched with `raw=1`. */
  predicate NeedsRaw(u: string)
  {
    Contains(u, "github.com/") && Contains(u, "/blob/") && !Contains(u, "raw=1")
  }

  /** `_normalize_github_raw`: the stripped URL, with `raw=1` appended
   *  (after `&` when there is already a query, else after `?`) to a
   *  github.com `/blob/` URL that does not carry it yet. */
  function NormalizeGithubRaw(url: string): string
  {
    WithRaw(PyStrip(url))
  }

  /** The stripped URL with `raw=1` appended where it is needed. */
  function WithRaw(u: string): string
  {
    if NeedsRaw(u) then u + RawQuery(u) else u
  }

  /** `f"{sep}raw=1"` with `sep` chosen by whether the URL has a query. */
  function RawQuery(u: string): (q: string)
    ensures |q| == 6 && q[1..] == "raw=1"
  {
    if '?' in u then "&raw=1" else "?raw=1"
  }

  /** Normalising twice changes nothing more: the appended `raw=1` stops
   *  the second pass, and the result is already stripped. */
  lemma NormalizeIdempotent(url: string)
    ensures NormalizeGithubRaw(NormalizeGithubRaw(url)) == NormalizeGithubRaw(url)
  {
    var u := PyStrip(url);
    TrimByIdempotent(url, PyIsSpace);
    WithRawFixed(u);
  }

  /** On a stripped URL, `WithRaw` gives a stripped URL it leaves alone. */
  lemma WithRawFixed(u: string)
    requires PyStrip(u) == u
    ensures PyStrip(WithRaw(u)) == WithRaw(u) && WithRaw(WithRaw(u)) == WithRaw(u)
  {
    if NeedsRaw(u) {
      NonEmptyOfContains(u, "github.com/");
      RawAppended(u);
      StrippedFixed(u + RawQuery(u));
    }
  }

  /** Appending the query keeps the URL stripped and makes it carry `raw=1`. */
  lemma RawAppended(u: string)
    requires PyStrip(u) == u && u != []
    ensures PyStrip(u + RawQuery(u)) == u + RawQuery(u)
    ensures Contains(u + RawQuery(u), "raw=1")
  {
    var q := RawQuery(u);
    StripAppend(u, q);
    HasRawQuery(u, q);
  }

  lemma StrippedFixed(v: string)
    requires PyStrip(v) == v && Contains(v, "raw=1")
    ensures WithRaw(v) == v
  {
  }

  lemma NonEmptyOfContains(u: string, t: string)
    requires Contains(u, t) && t != []
    ensures u != []
  {
  }

  lemma StripAppend(u: string, q: string)
    requires PyStrip(u) == u && u != [] && |q| == 6 && q[1..] == "raw=1"
    ensures PyStrip(u + q) == u + q
  {
    TrimByProps(u, PyIsSpace);
    var v := u + q;
    assert v[0] == u[0];
    assert v[|v| - 1] == q[5] == '1';
    TrimByNoEdges(v, PyIsSpace);
  }

  lemma HasRawQuery(u: string, q: string)
    requires |q| == 6 && q[1..] == "raw=1"
    ensures Contains(u + q, "raw=1")
  {
    var v := u + q;
    assert v[|v| - 5..|v|] == q[1..];
    assert SubAt(v, "raw=1", |v| - 5);
  }

  // ---------------------------------------------------------------------
  // _load_have_ids_from_chatlists, after json.loads
  // ---------------------------------------------------------------------

  /** The items the list form keeps: `isinstance(x, (str, int))`, which
   *  admits booleans too. */
  predicate IsName(x: Json)
  {
    x.JStr? || x.JInt? || x.JBool?
  }

  /** The name one item of the `{"items": [...]}` form contributes: the item
   *  itself when it is a string or number, else its `filename`, else the
   *  basename of its `key`. */
  function NameOf(it: Json): (r: Option<Json>)
    ensures r.Some? ==> IsName(r.value)
    ensures IsName(it) ==> r == Some(it)
  {
    if IsName(it) then Some(it)
    else if it.JObj? then
      if Get(it.fields, "filename").JStr? then Some(Get(it.fields, "filename"))
      else if Get(it.fields, "key").JStr? then Some(JStr(AfterLast(Get(it.fields, "key").s, '/')))
      else None
    else None
  }

  /** The names the chat list yields in each accepted shape; any other
   *  shape yields none. */
  function NamesOf(obj: Json): seq<Json>
  {
    match obj
    case JList(xs) => Seqs.Filter(xs, IsName)
    case JObj(m) =>
      if Get(m, "items").JList? then Seqs.FilterMap(Get(m, "items").items, NameOf) else []
    case _ => []
  }

  /** Every name is a string or a number, whatever shape it came from. */
  lemma NamesAreNames(obj: Json, x: Json)
    requires x in NamesOf(obj)
    ensures IsName(x)
  {
    match obj
    case JList(xs) => Seqs.FilterMembers(xs, IsName, x);
    case JObj(m) =>
      Seqs.FilterMapMembers(Get(m, "items").items, NameOf, x);
    case _ =>
  }

  /** The id one name stands for: `str(x).strip()`, skipped when blank, with
   *  a `.json` suffix (any case) dropped. The blank test comes first, so
   *  ".json" itself stands for the empty id. */
  function IdOf(x: Json, repr: Json -> string): (r: Option<string>)
    ensures r.None? <==> PyStrip(PyStr(x, repr)) == []
  {
    var s := PyStrip(PyStr(x, repr));
    if s == [] then None
    else if HasJsonSuffix(s) then Some(s[..|s| - 5])
    else Some(s)
  }

  function IdFn(repr: Json -> string): Json -> Option<string>
  {
    x => IdOf(x, repr)
  }

  /** The set of ids of a list of names. */
  function IdSet(names: seq<Json>, repr: Json -> string): set<string>
  {
    Seqs.ImageSet(names, IdFn(repr))
  }

  /** The have-ids are exactly the ids of the names. */
  lemma IdSetMembers(names: seq<Json>, repr: Json -> string, s: string)
    ensures s in IdSet(names, repr) <==> exists k :: 0 <= k < |names| && IdOf(names[k], repr) == Some(s)
  {
    Seqs.ImageSetMembers(names, IdFn(repr), s);
    assert forall k :: 0 <= k < |names| ==> IdFn(repr)(names[k]) == IdOf(names[k], repr);
  }

  /** A file name `<stem>.json` (any case of the extension) stands for the
   *  stem; a plain name stands for itself. */
  lemma IdOfFileName(stem: string, ext: string, repr: Json -> string)
    requires stem == [] || !PyIsSpace(stem[0])
    requires |ext| == 5 && AsciiLower(ext) == ".json"
    ensures IdOf(JStr(stem + ext), repr) == Some(stem)
  {
    var s := stem + ext;
    assert ext[4] == s[|s| - 1];
    assert AsciiLower(ext)[4] == 'n';
    assert !PyIsSpace(s[|s| - 1]);
    if stem == [] {
      assert AsciiLower(ext)[0] == '.';
      assert !PyIsSpace(s[0]);
    }
    TrimByNoEdges(s, PyIsSpace);
    assert s[|s| - 5..] == ext;
    assert s[..|s| - 5] == stem;
  }

  /** The `{"key": ".../<name>"}` form names the file after the last `/`. */
  lemma NameOfKey(dir: string, name: string)
    requires '/' !in name
    ensures NameOf(JObj(map["key" := JStr(dir + "/" + name)])) == Some(JStr(name))
  {
    AfterLastOf(dir, name, '/');
  }

  /** The loop over the items of the `{"items": [...]}` form. */
  method CollectNames(items: seq<Json>) returns (names: seq<Json>)
    ensures names == Seqs.FilterMap(items, NameOf)
  {
    names := [];
    for k := 0 to |items|
      invariant names == Seqs.FilterMap(items[..k], NameOf)
    {
      Seqs.FilterMapConcat(items[..k], [items[k]], NameOf);
      assert items[..k + 1] == items[..k] + [items[k]];
      match NameOf(items[k]) {
        case None =>
        case Some(n) => names := names + [n];
      }
    }
    assert items[..|items|] == items;
  }

  /** The loop that turns the names into ids. */
  method CollectIds(names: seq<Json>, repr: Json -> string) returns (out: set<string>)
    ensures out == IdSet(names, repr)
  {
    out := {};
    for k := 0 to |names|
      invariant out == IdSet(names[..k], repr)
    {
      Seqs.ImageSetSnoc(names, k, IdFn(repr));
      var id := IdOf(names[k], repr);
      if id.Some? {
        out := out + {id.value};
      }
    }
    assert names[..|names|] == names;
  }

  /** `_load_have_ids_from_chatlists` on the decoded chat list. */
  method LoadHaveIds(obj: Json, repr: Json -> string) returns (out: set<string>)
    ensures out == IdSet(NamesOf(obj), repr)
  {
    var names: seq<Json> := [];
    if obj.JList? {
      names := Seqs.Filter(obj.items, IsName);
    } else if obj.JObj? && Get(obj.fields, "items").JList? {
      names := CollectNames(Get(obj.fields, "items").items);
    }
    out := CollectIds(names, repr);
  }

  // ---------------------------------------------------------------------
  // _extract_videoNos_from_channels_json, after json.loads
  // ---------------------------------------------------------------------

  const SECONDS_PER_DAY: int := 86400

  /** `RECENT_DAYS` (default 7), stripped and read with `int()`; a non-int
   *  or negative value raises `ValueError`. */
  function RecentDays(raw: Option<string>): Result<int>
  {
    ParseDays(DaysText(raw))
  }

  function ParseDays(text: string): (r: Result<int>)
    ensures r.Ok? <==> PyParseInt(text).Some? && PyParseInt(text).value >= 0
    ensures r.Ok? ==> PyParseInt(text) == Some(r.value) && r.value >= 0
  {
    match PyParseInt(text)
    case None => Err("Invalid RECENT_DAYS (must be int)")
    case Some(d) => if d < 0 then Err("Invalid RECENT_DAYS (must be >= 0)") else Ok(d)
  }

  function DaysText(raw: Option<string>): string
  {
    PyStrip(if raw.Some? then raw.value else "7")
  }

  /** Unset, the window is seven days; a decimal count of days is read
   *  as written. */
  lemma RecentDaysDefault()
    ensures RecentDays(None) == Ok(7)
  {
    RecentDaysOf(7);
    assert DaysText(None) == DaysText(Some(NatToString(7)));
  }

  lemma RecentDaysOf(n: nat)
    ensures RecentDays(Some(NatToString(n))) == Ok(n)
  {
    PyParseNat(n);
    DigitsAreBody(NatToString(n));
    TrimByNoEdges(NatToString(n), PyIsSpace);
  }

  /** A negative count raises. */
  lemma RecentDaysNegative(n: nat)
    requires n > 0
    ensures RecentDays(Some("-" + NatToString(n))).Err?
  {
    StripNegative(n, "-" + NatToString(n));
    PyParseNegative(n, "-" + NatToString(n));
  }

  /** The first instant still inside the window. */
  function Cutoff(now: int, days: int): int
  {
    now - days * SECONDS_PER_DAY
  }

  /** The video number one replay entry contributes: it must be an object
   *  with a non-null `videoNo` and an `end` text that is not blank, parses,
   *  and is not before the cutoff. */
  function ReplayVideoNo(rp: Json, cutoff: int, parse: string -> Option<int>, repr: Json -> string)
    : (r: Option<string>)
    ensures r.Some? ==> rp.JObj? && Get(rp.fields, "videoNo") != JNull
    ensures r.Some? ==> (Get(rp.fields, "end").JStr?
      && parse(PyStrip(Get(rp.fields, "end").s)).Some?
      && parse(PyStrip(Get(rp.fields, "end").s)).value >= cutoff)
    ensures r.Some? ==> r.value == PyStrip(PyStr(Get(rp.fields, "videoNo"), repr))
  {
    if !rp.JObj? then None
    else
      var v := Get(rp.fields, "videoNo");
      var e := Get(rp.fields, "end");
      if v == JNull || !e.JStr? || PyStrip(e.s) == [] then None
      else match parse(PyStrip(e.s))
        case None => None
        case Some(t) => if t < cutoff then None else Some(PyStrip(PyStr(v, repr)))
  }

  /** The replay list of one channel entry: `ch.get("replays", [])` when
   *  the entry is an object and that value is a list. */
  function ReplaysOf(ch: Json): seq<Json>
  {
    if ch.JObj? && GetOr(ch.fields, "replays", JList([])).JList? then
      GetOr(ch.fields, "replays", JList([])).items
    else []
  }

  function ReplayFn(cutoff: int, parse: string -> Option<int>, repr: Json -> string): Json -> Option<string>
  {
    rp => ReplayVideoNo(rp, cutoff, parse, repr)
  }

  function ReplayNos(rps: seq<Json>, cutoff: int, parse: string -> Option<int>, repr: Json -> string)
    : set<string>
  {
    Seqs.ImageSet(rps, ReplayFn(cutoff, parse, repr))
  }

  function ChannelFn(cutoff: int, parse: string -> Option<int>, repr: Json -> string): Json -> set<string>
  {
    ch => ReplayNos(ReplaysOf(ch), cutoff, parse, repr)
  }

  /** The numbers of all the replays of all the channel entries. */
  function ChannelNos(chs: seq<Json>, cutoff: int, parse: string -> Option<int>, repr: Json -> string)
    : set<string>
  {
    Seqs.UnionOf(chs, ChannelFn(cutoff, parse, repr))
  }

  predicate QueuedFrom(rps: seq<Json>, cutoff: int, parse: string -> Option<int>, repr: Json -> string, s: string)
  {
    exists j :: 0 <= j < |rps| && ReplayVideoNo(rps[j], cutoff, parse, repr) == Some(s)
  }

  lemma ReplayNosMembers(rps: seq<Json>, cutoff: int, parse: string -> Option<int>,
                         repr: Json -> string, s: string)
    ensures s in ReplayNos(rps, cutoff, parse, repr) <==> QueuedFrom(rps, cutoff, parse, repr, s)
  {
    Seqs.ImageSetMembers(rps, ReplayFn(cutoff, parse, repr), s);
  }

  /** The queued numbers are exactly those of some replay of some channel
   *  that passes every test of `ReplayVideoNo`. */
  lemma ChannelNosMembers(chs: seq<Json>, cutoff: int, parse: string -> Option<int>,
                          repr: Json -> string, s: string)
    ensures s in ChannelNos(chs, cutoff, parse, repr) <==>
      exists i :: 0 <= i < |chs| && QueuedFrom(ReplaysOf(chs[i]), cutoff, parse, repr, s)
  {
    var g := ChannelFn(cutoff, parse, repr);
    Seqs.UnionOfMembers(chs, g, s);
    forall i | 0 <= i < |chs|
      ensures s in g(chs[i]) <==> QueuedFrom(ReplaysOf(chs[i]), cutoff, parse, repr, s)
    {
      ReplayNosMembers(ReplaysOf(chs[i]), cutoff, parse, repr, s);
    }
  }

  /** The inner loop over one channel's replays. */
  method ScanReplays(rps: seq<Json>, cutoff: int, parse: string -> Option<int>, repr: Json -> string,
                     acc: set<string>) returns (vids: set<string>)
    ensures vids == acc + ReplayNos(rps, cutoff, parse, repr)
  {
    vids := acc;
    for j := 0 to |rps|
      invariant vids == acc + ReplayNos(rps[..j], cutoff, parse, repr)
    {
      Seqs.ImageSetSnoc(rps, j, ReplayFn(cutoff, parse, repr));
      var v := ReplayVideoNo(rps[j], cutoff, parse, repr);
      if v.Some? {
        vids := vids + {v.value};
      }
    }
    assert rps[..|rps|] == rps;
  }

  /** `_extract_videoNos_from_channels_json`: an invalid `RECENT_DAYS` or a
   *  document that is not a list raises; otherwise the numbers of the
   *  replays that ended no earlier than `now - RECENT_DAYS` days. */
  method ExtractVideoNos(data: Json, recentDays: Option<string>, now: int,
                         parse: string -> Option<int>, repr: Json -> string)
    returns (r: Result<set<string>>)
    ensures r.Err? <==> RecentDays(recentDays).Err? || !data.JList?
    ensures r.Ok? ==> r.value == ChannelNos(data.items, Cutoff(now, RecentDays(recentDays).value), parse, repr)
  {
    var days := RecentDays(recentDays);
    if days.Err? {
      return Err(days.error);
    }
    var cutoff := Cutoff(now, days.value);
    if !data.JList? {
      return Err("channels json must be a list");
    }
    var vids := ScanChannels(data.items, cutoff, parse, repr);
    return Ok(vids);
  }

  /** The outer loop over the channel entries. */
  method ScanChannels(chs: seq<Json>, cutoff: int, parse: string -> Option<int>, repr: Json -> string)
    returns (vids: set<string>)
    ensures vids == ChannelNos(chs, cutoff, parse, repr)
  {
    vids := {};
    for i := 0 to |chs|
      invariant vids == ChannelNos(chs[..i], cutoff, parse, repr)
    {
      Seqs.UnionOfSnoc(chs, i, ChannelFn(cutoff, parse, repr));
      vids := ScanReplays(ReplaysOf(chs[i]), cutoff, parse, repr, vids);
    }
    assert chs[..|chs|] == chs;
  }

  // ---------------------------------------------------------------------
  // missing = sorted(all_video_ids - have_ids)
  // ---------------------------------------------------------------------

  /** Python's `<` on strings: code-point order, a proper prefix first. */
  predicate LexLess(a: string, b: string)
    decreases |a|
  {
    if a == [] then b != []
    else b != [] && (a[0] < b[0] || (a[0] == b[0] && LexLess(a[1..], b[1..])))
  }

  lemma {:induction false} LexTotal(a: string, b: string)
    ensures a == b || LexLess(a, b) || LexLess(b, a)
    decreases |a|
  {
    if a != [] && b != [] && a[0] == b[0] {
      LexTotal(a[1..], b[1..]);
      if a[1..] == b[1..] {
        assert a == [a[0]] + a[1..] && b == [b[0]] + b[1..];
      }
    }
  }

  lemma {:induction false} LexTrans(a: string, b: string, c: string)
    requires LexLess(a, b) && LexLess(b, c)
    ensures LexLess(a, c)
    decreases |a|
  {
    if a != [] && a[0] == b[0] && b[0] == c[0] {
      LexTrans(a[1..], b[1..], c[1..]);
    }
  }

  predicate IsLeast(m: string, s: set<string>)
  {
    m in s && forall y :: y in s ==> y == m || LexLess(m, y)
  }

  lemma {:induction false} LeastExists(s: set<string>) returns (m: string)
    requires s != {}
    ensures IsLeast(m, s)
    decreases |s|
  {
    var x := Seqs.Pick(s);
    var rest := s - {x};
    if rest == {} {
      assert s == {x};
      m := x;
    } else {
      var m' := LeastExists(rest);
      LexTotal(x, m');
      if LexLess(x, m') {
        forall y | y in rest
          ensures LexLess(x, y)
        {
          if y != m' {
            LexTrans(x, m', y);
          }
        }
        m := x;
      } else {
        m := m';
      }
    }
  }

  lemma LeastIsAttained(s: set<string>)
    requires s != {}
    ensures exists m :: IsLeast(m, s)
  {
    var m := LeastExists(s);
  }

  ghost function Least(s: set<string>): (m: string)
    requires s != {}
    ensures IsLeast(m, s)
  {
    LeastIsAttained(s);
    var m :| IsLeast(m, s);
    m
  }

  /** `sorted()` of a set of strings. */
  ghost function SortedStrings(s: set<string>): (r: seq<string>)
    decreases |s|
  {
    if s == {} then [] else [Least(s)] + SortedStrings(s - {Least(s)})
  }

  /** `sorted()` lists every element once, in strictly increasing order. */
  lemma {:induction false} SortedStringsProps(s: set<string>)
    ensures |SortedStrings(s)| == |s|
    ensures forall x :: x in s <==> x in SortedStrings(s)
    ensures forall i, j :: 0 <= i < j < |SortedStrings(s)| ==> LexLess(SortedStrings(s)[i], SortedStrings(s)[j])
    decreases |s|
  {
    if s != {} {
      var m := Least(s);
      var rest := SortedStrings(s - {m});
      SortedStringsProps(s - {m});
      var r := SortedStrings(s);
      assert r == [m] + rest;
      forall i, j | 0 <= i < j < |r|
        ensures LexLess(r[i], r[j])
      {
        if i == 0 {
          assert r[j] == rest[j - 1] && r[j] in s - {m};
        } else {
          assert r[i] == rest[i - 1] && r[j] == rest[j - 1];
        }
      }
    }
  }

  /** `missing`: the queued numbers without a chat log, sorted. */
  ghost function Missing(all: set<string>, have: set<string>): (m: seq<string>)
  {
    SortedStrings(all - have)
  }

  /** `missing` holds every number that is queued and not had, once each,
   *  sorted, and nothing that is had. */
  lemma MissingProps(all: set<string>, have: set<string>)
    ensures forall x :: x in Missing(all, have) <==> x in all && x !in have
    ensures |Missing(all, have)| == |all - have|
    ensures forall i, j :: 0 <= i < j < |Missing(all, have)| ==>
      LexLess(Missing(all, have)[i], Missing(all, have)[j])
  {
    SortedStringsProps(all - have);
  }

  /** `sample_missing`: the first ten of `missing`. */
  ghost function SampleMissing(all: set<string>, have: set<string>): (r: seq<string>)
    ensures |r| <= 10 && |r| <= |Missing(all, have)| && r == Missing(all, have)[..|r|]
    ensures |Missing(all, have)| >= 10 ==> |r| == 10
  {
    var m := Missing(all, have);
    if |m| <= 10 then m else m[..10]
  }

  // ---------------------------------------------------------------------
  // _send_sqs_batch
  // ---------------------------------------------------------------------

  const BATCH_SIZE: nat := 10

  datatype Entry<T> = Entry(id: string, body: T)

  /** The entries of one batch: ids "0", "1", ... by position. */
  function BatchEntries<T>(batch: seq<T>): (es: seq<Entry<T>>)
    ensures |es| == |batch|
    ensures forall j :: 0 <= j < |batch| ==> es[j] == Entry(NatToString(j), batch[j])
  {
    seq(|batch|, j requires 0 <= j < |batch| => Entry(NatToString(j), batch[j]))
  }

  function Bodies<T>(sent: seq<seq<Entry<T>>>): seq<T>
  {
    if sent == [] then []
    else Bodies(sent[..|sent| - 1]) + BodiesOf(sent[|sent| - 1])
  }

  function BodiesOf<T>(es: seq<Entry<T>>): (r: seq<T>)
    ensures |r| == |es| && forall j :: 0 <= j < |es| ==> r[j] == es[j].body
  {
    seq(|es|, j requires 0 <= j < |es| => es[j].body)
  }

  /** A batch as sent: at most ten entries with the positional ids. */
  predicate WellFormedBatch<T>(es: seq<Entry<T>>)
  {
    1 <= |es| <= BATCH_SIZE && forall j :: 0 <= j < |es| ==> es[j].id == NatToString(j)
  }

  /** `_send_sqs_batch`: consecutive batches of ten; a batch the queue
   *  reports as failed stops the loop with `RuntimeError` (`ok` false).
   *  The bodies sent are, in order, the messages (all of them when `ok`),
   *  every batch but the last is full, and only the last can have been
   *  refused. */
  method SendSqsBatch<T>(messages: seq<T>, accepts: seq<Entry<T>> -> bool)
    returns (sent: seq<seq<Entry<T>>>, ok: bool)
    ensures forall b :: 0 <= b < |sent| ==> WellFormedBatch(sent[b])
    ensures forall b :: 0 <= b < |sent| - 1 ==> |sent[b]| == BATCH_SIZE && accepts(sent[b])
    ensures |Bodies(sent)| <= |messages| && Bodies(sent) == messages[..|Bodies(sent)|]
    ensures ok <==> Bodies(sent) == messages && forall b :: 0 <= b < |sent| ==> accepts(sent[b])
    ensures !ok ==> sent != [] && !accepts(sent[|sent| - 1])
  {
    sent := [];
    var i := 0;
    while i < |messages|
      invariant i <= |messages|
      invariant Bodies(sent) == messages[..i]
      invariant forall b :: 0 <= b < |sent| ==> WellFormedBatch(sent[b]) && accepts(sent[b])
      invariant forall b :: 0 <= b < |sent| - 1 ==> |sent[b]| == BATCH_SIZE
      invariant i < |messages| ==> forall b :: 0 <= b < |sent| ==> |sent[b]| == BATCH_SIZE
      decreases |messages| - i
    {
      var hi := if i + BATCH_SIZE < |messages| then i + BATCH_SIZE else |messages|;
      var entries := BatchEntries(messages[i..hi]);
      assert BodiesOf(entries) == messages[i..hi];
      assert messages[..i] + messages[i..hi] == messages[..hi];
      var prev := sent;
      sent := sent + [entries];
      assert sent[..|sent| - 1] == prev;
      if !accepts(entries) {
        ok := false;
        return;
      }
      i := hi;
    }
    assert messages[..|messages|] == messages;
    ok := true;
  }
}
