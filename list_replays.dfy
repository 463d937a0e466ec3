/** list_replays.py: the replay lister of the CHZZK API. The HTTP layer is
 *  an input: `send(k)` is the answer to attempt `k` of one `_request`,
 *  `search(q)` the outcome of the channel search for keyword `q`, and
 *  `fetch(id, page)` the outcome of the replay listing request for one
 *  page; `urlparse(url).path` is the parameter `urlPath`. */
module ListReplays {
  import opened Wrappers
  import opened Text
  import opened Json

  // ---------------------------------------------------------------------
  // _request
  // ---------------------------------------------------------------------

  /** One HTTP answer: the status code and the body decoded by `r.json()`
   *  (`None` when it does not decode). */
  datatype Reply = Reply(status: int, body: Option<Json>)

  /** What one attempt leads to: the content is returned, an error is
   *  raised, or the loop goes on after a back-off (`Retry`) or without one
   *  (`Pass`, a status `raise_for_status` lets through). */
  datatype Verdict = Accept(content: Json) | Refuse(msg: string) | Retry | Pass

  predicate Retryable(status: int)
  {
    status == 429 || status == 500 || status == 502 || status == 503
  }

  /** One round of `_request`: a 200 answer must be a JSON object whose
   *  `code` is 200, and then its `content` is the result; 429, 500, 502 and
   *  503 are retried; any other 4xx or 5xx raises `HTTPError`. */
  function Classify(reply: Reply): (v: Verdict)
    ensures v.Retry? <==> Retryable(reply.status)
    ensures v.Accept? <==> (reply.status == 200 && reply.body.Some? && reply.body.value.JObj?
      && IsCode200(Get(reply.body.value.fields, "code")) && "content" in reply.body.value.fields)
    ensures v.Pass? <==> reply.status != 200 && !Retryable(reply.status) && !(400 <= reply.status < 600)
  {
    if reply.status == 200 then
      match reply.body
      case None => Refuse("response is not JSON")
      case Some(j) =>
        if !j.JObj? then Refuse("response is not a JSON object")
        else if !IsCode200(Get(j.fields, "code")) then Refuse("API returned non-200 code")
        else if "content" !in j.fields then Refuse("KeyError: 'content'")
        else Accept(j.fields["content"])
    else if Retryable(reply.status) then Retry
    else if 400 <= reply.status < 600 then Refuse("HTTP error status")
    else Pass
  }

  function Pow2(n: nat): (r: nat)
    ensures r >= 1
  {
    if n == 0 then 1 else 2 * Pow2(n - 1)
  }

  /** The outcome of attempts `k`, `k + 1`, ...: the result, the number of
   *  attempts made and the back-off sleeps, in seconds. */
  datatype Attempts = Attempts(result: Result<Json>, tries: nat, sleeps: seq<real>)

  function RequestFrom(send: nat -> Reply, maxRetries: int, backoff: real, k: nat): Attempts
    decreases maxRetries - k
  {
    if k >= maxRetries then Attempts(Err("Failed after max_retries retries"), 0, [])
    else match Classify(send(k))
      case Accept(c) => Attempts(Ok(c), 1, [])
      case Refuse(e) => Attempts(Err(e), 1, [])
      case Retry =>
        var a := RequestFrom(send, maxRetries, backoff, k + 1);
        Attempts(a.result, a.tries + 1, [backoff * Pow2(k) as real] + a.sleeps)
      case Pass =>
        var a := RequestFrom(send, maxRetries, backoff, k + 1);
        Attempts(a.result, a.tries + 1, a.sleeps)
  }

  predicate GoesOn(v: Verdict)
  {
    v.Retry? || v.Pass?
  }

  /** At most `max_retries` attempts; every attempt but the last went on;
   *  a result is the content of the last attempt; stopping early means the
   *  last attempt returned or raised; one sleep at most per attempt. */
  lemma {:induction false} RequestShape(send: nat -> Reply, maxRetries: int, backoff: real, k: nat)
    ensures var a := RequestFrom(send, maxRetries, backoff, k);
      a.tries <= (if maxRetries - k > 0 then maxRetries - k else 0)
      && (forall j :: k <= j < k + a.tries - 1 ==> GoesOn(Classify(send(j))))
      && (a.result.Ok? ==> a.tries >= 1 && Classify(send(k + a.tries - 1)) == Accept(a.result.value))
      && (a.tries < maxRetries - k ==> a.tries >= 1 && !GoesOn(Classify(send(k + a.tries - 1))))
      && |a.sleeps| <= a.tries
    decreases maxRetries - k
  {
    if k < maxRetries && GoesOn(Classify(send(k))) {
      RequestShape(send, maxRetries, backoff, k + 1);
    }
  }

  /** The first attempt that does not go on decides: an answer with a
   *  JSON code other than 200, or an error status, raises at once. */
  lemma {:induction false} FirstFinalDecides(send: nat -> Reply, maxRetries: int, backoff: real,
                                             k: nat, i: nat)
    requires k <= i < maxRetries
    requires forall j :: k <= j < i ==> GoesOn(Classify(send(j)))
    requires !GoesOn(Classify(send(i)))
    ensures var a := RequestFrom(send, maxRetries, backoff, k);
      a.tries == i - k + 1
      && a.result == (if Classify(send(i)).Accept? then Ok(Classify(send(i)).content)
                      else Err(Classify(send(i)).msg))
    decreases i - k
  {
    if k < i {
      FirstFinalDecides(send, maxRetries, backoff, k + 1, i);
    }
  }

  /** The attempts done so far followed by the rest. */
  function Join(tries: nat, sleeps: seq<real>, rest: Attempts): Attempts
  {
    Attempts(rest.result, tries + rest.tries, sleeps + rest.sleeps)
  }

  /** `_request` with its retry loop. */
  method Request(send: nat -> Reply, maxRetries: int, backoff: real)
    returns (r: Result<Json>, tries: nat, sleeps: seq<real>)
    ensures Attempts(r, tries, sleeps) == RequestFrom(send, maxRetries, backoff, 0)
  {
    tries := 0;
    sleeps := [];
    assert [] + RequestFrom(send, maxRetries, backoff, 0).sleeps == RequestFrom(send, maxRetries, backoff, 0).sleeps;
    while tries < maxRetries
      invariant RequestFrom(send, maxRetries, backoff, 0)
        == Join(tries, sleeps, RequestFrom(send, maxRetries, backoff, tries))
      decreases maxRetries - tries
    {
      var v := Classify(send(tries));
      var rest := RequestFrom(send, maxRetries, backoff, tries + 1);
      match v {
        case Accept(c) =>
          assert sleeps + [] == sleeps;
          return Ok(c), tries + 1, sleeps;
        case Refuse(e) =>
          assert sleeps + [] == sleeps;
          return Err(e), tries + 1, sleeps;
        case Retry =>
          assert sleeps + ([backoff * Pow2(tries) as real] + rest.sleeps)
            == (sleeps + [backoff * Pow2(tries) as real]) + rest.sleeps;
          sleeps := sleeps + [backoff * Pow2(tries) as real];
        case Pass =>
      }
      tries := tries + 1;
    }
    assert sleeps + [] == sleeps;
    r := Err("Failed after max_retries retries");
  }

  // ---------------------------------------------------------------------
  // is_channel_id, extract_handle_or_id_from_url
  // ---------------------------------------------------------------------

  predicate IsLowerHex(c: char)
  {
    '0' <= c <= '9' || 'a' <= c <= 'f'
  }

  /** `re.fullmatch(r"[0-9a-f]{32}", s)`. */
  predicate IsChannelId(s: string)
  {
    |s| == 32 && forall i :: 0 <= i < |s| ==> IsLowerHex(s[i])
  }

  /** A channel id has no surrounding space and does not look like a URL,
   *  so the query normalisation leaves it alone. */
  lemma ChannelIdPlain(s: string)
    requires IsChannelId(s)
    ensures PyStrip(s) == s && !StartsWith(s, "http")
  {
    assert IsLowerHex(s[0]) && IsLowerHex(s[|s| - 1]);
    TrimByNoEdges(s, PyIsSpace);
    assert s[0] != 'h';
  }

  /** `urlparse(url).path.strip("/")`, then its last `/`-separated part
   *  (empty for an empty path). */
  function ExtractHandle(url: string, urlPath: string -> string): (r: string)
    ensures '/' !in r
    ensures EndsWith(TrimBy(urlPath(url), IsSlash), r)
  {
    var path := TrimBy(urlPath(url), IsSlash);
    if path == [] then [] else AfterLast(path, '/')
  }

  /** The handle of `https://host/<name>` or `https://host/<name>/` is the
   *  name. */
  lemma HandleOfPath(url: string, urlPath: string -> string, name: string)
    requires name != [] && '/' !in name
    requires urlPath(url) == "/" + name || urlPath(url) == "/" + name + "/"
    ensures ExtractHandle(url, urlPath) == name
  {
    SlashedName(urlPath(url), name);
    AfterLastNone(name, '/');
  }

  /** Trimming the slashes of `/<name>` or `/<name>/` leaves the name. */
  lemma SlashedName(p: string, name: string)
    requires name != [] && '/' !in name
    requires p == "/" + name || p == "/" + name + "/"
    ensures TrimBy(p, IsSlash) == name
  {
    assert p[1] == name[0] && p[1..][..|name|] == name;
    TrimStartOne(p, IsSlash);
    var a := p[1..];
    if p == "/" + name {
      assert a == name;
    } else {
      assert a[|a| - 2] == name[|name| - 1];
      TrimEndOne(a, IsSlash);
      assert a[..|a| - 1] == name;
    }
  }

  /** Trimming a text whose first character only is cut away. */
  lemma TrimStartOne(p: string, ws: char -> bool)
    requires |p| >= 2 && ws(p[0]) && !ws(p[1])
    ensures TrimStartBy(p, ws) == p[1..]
  {
    assert p[1..][0] == p[1];
  }

  /** Trimming a text whose last character only is cut away. */
  lemma TrimEndOne(a: string, ws: char -> bool)
    requires |a| >= 2 && ws(a[|a| - 1]) && !ws(a[|a| - 2])
    ensures TrimEndBy(a, ws) == a[..|a| - 1]
  {
    var b := a[..|a| - 1];
    assert b[|b| - 1] == a[|a| - 2];
  }

  /** Without the separator the whole text is the last piece. */
  lemma AfterLastNone(s: string, c: char)
    requires c !in s
    ensures AfterLast(s, c) == s
  {
    var r := AfterLast(s, c);
    assert |r| == |s|;
    assert r == s[|s| - |r|..];
  }

  // ---------------------------------------------------------------------
  // resolve_channel_id
  // ---------------------------------------------------------------------

  /** The query as the search sees it: stripped, and reduced to the last
   *  path segment when it starts with `http`. */
  function QueryKey(query: string, urlPath: string -> string): (q: string)
    ensures StartsWith(PyStrip(query), "http") ==> '/' !in q
    ensures !StartsWith(PyStrip(query), "http") ==> q == PyStrip(query)
  {
    var q := PyStrip(query);
    if StartsWith(q, "http") then ExtractHandle(q, urlPath) else q
  }

  /** `d.get("channel", {})` can be asked for `channelName`. */
  predicate Shaped(d: Json)
  {
    d.JObj? && GetOr(d.fields, "channel", JObj(map[])).JObj?
  }

  function ChannelOf(d: Json): Object
  {
    if Shaped(d) then GetOr(d.fields, "channel", JObj(map[])).fields else map[]
  }

  predicate IsExact(d: Json, q: string)
  {
    Get(ChannelOf(d), "channelName") == JStr(q)
  }

  /** The first search result whose channel is named exactly `q`. */
  function FirstExact(items: seq<Json>, q: string): (r: Option<nat>)
    ensures r.None? <==> forall j :: 0 <= j < |items| ==> !IsExact(items[j], q)
    ensures r.Some? ==> (r.value < |items| && IsExact(items[r.value], q)
      && forall j :: 0 <= j < r.value ==> !IsExact(items[j], q))
  {
    if items == [] then None
    else if IsExact(items[0], q) then Some(0)
    else match FirstExact(items[1..], q)
      case None => None
      case Some(i) =>
        assert forall j :: 1 <= j < i + 1 ==> items[j] == items[1..][j - 1];
        Some(i + 1)
  }

  /** The search results of a content, when the content can be read. */
  predicate Searchable(content: Json)
  {
    Truthy(content) && content.JObj? && Truthy(GetOr(content.fields, "data", JList([])))
    && GetOr(content.fields, "data", JList([])).JList?
    && (forall j :: 0 <= j < |GetOr(content.fields, "data", JList([])).items| ==>
          Shaped(GetOr(content.fields, "data", JList([])).items[j]))
  }

  /** The search half of `resolve_channel_id`: the first exact name match,
   *  else the first result, must have a truthy `channelId`. An empty or
   *  missing `data` raises "No channel found"; a content or result of the
   *  wrong kind raises on the `.get` or the iteration. */
  function ChannelIdOf(content: Json, q: string): (r: Result<Json>)
    ensures r.Ok? ==> Searchable(content) && Truthy(r.value)
  {
    if !Truthy(content) then Err("No channel found for query")
    else if !content.JObj? then Err("'content' has no attribute 'get'")
    else
      var data := GetOr(content.fields, "data", JList([]));
      if !Truthy(data) then Err("No channel found for query")
      else if !data.JList? then Err("search results are not objects")
      else if exists j :: 0 <= j < |data.items| && !Shaped(data.items[j]) then
        Err("search results are not objects")
      else
        var i := match FirstExact(data.items, q) case Some(i) => i case None => 0;
        var id := Get(ChannelOf(data.items[i]), "channelId");
        if !Truthy(id) then Err("Failed to resolve channelId for query") else Ok(id)
  }

  /** The selection rule: an exact name match wins, the earliest one; with
   *  no exact match the first result is used; the id is that channel's. */
  lemma PickRule(content: Json, q: string)
    requires ChannelIdOf(content, q).Ok?
    ensures var items := content.fields["data"].items;
      exists i :: 0 <= i < |items| && ChannelIdOf(content, q).value == Get(ChannelOf(items[i]), "channelId")
        && ((IsExact(items[i], q) && forall j :: 0 <= j < i ==> !IsExact(items[j], q))
            || (i == 0 && forall j :: 0 <= j < |items| ==> !IsExact(items[j], q)))
  {
    var items := content.fields["data"].items;
    var i := match FirstExact(items, q) case Some(i) => i case None => 0;
    assert ChannelIdOf(content, q).value == Get(ChannelOf(items[i]), "channelId");
  }

  /** A searchable content with a truthy id in the picked result resolves;
   *  the other direction is `ChannelIdOf`'s contract. */
  lemma ChannelIdFound(content: Json, q: string)
    requires Searchable(content)
    requires var items := content.fields["data"].items;
      var i := match FirstExact(items, q) case Some(i) => i case None => 0;
      Truthy(Get(ChannelOf(items[i]), "channelId"))
    ensures ChannelIdOf(content, q).Ok?
  {
  }

  /** `resolve_channel_id`; `search(q)` is the `_request` of the channel
   *  search for keyword `q`. */
  function Resolve(query: string, search: string -> Result<Json>, urlPath: string -> string): Result<Json>
  {
    var q := QueryKey(query, urlPath);
    if IsChannelId(q) then Ok(JStr(q))
    else match search(q)
      case Err(e) => Err(e)
      case Ok(content) => ChannelIdOf(content, q)
  }

  /** A key that is a channel id is the answer. */
  lemma ResolveId(query: string, search: string -> Result<Json>, urlPath: string -> string)
    requires IsChannelId(QueryKey(query, urlPath))
    ensures Resolve(query, search, urlPath) == Ok(JStr(QueryKey(query, urlPath)))
  {
  }

  /** Any other key is searched for, and resolves exactly when the search
   *  answers and a truthy id can be picked from its results. */
  lemma ResolveSearch(query: string, search: string -> Result<Json>, urlPath: string -> string)
    requires !IsChannelId(QueryKey(query, urlPath))
    ensures var q := QueryKey(query, urlPath);
      Resolve(query, search, urlPath).Ok? <==> search(q).Ok? && ChannelIdOf(search(q).value, q).Ok?
    ensures var q := QueryKey(query, urlPath);
      Resolve(query, search, urlPath).Ok? ==>
        Resolve(query, search, urlPath) == ChannelIdOf(search(q).value, q)
        && Searchable(search(q).value) && Truthy(Resolve(query, search, urlPath).value)
  {
  }

  /** A channel id, written with or without surrounding space, is returned
   *  as it is, whatever the search would answer. */
  lemma ResolveDirect(query: string, search: string -> Result<Json>, other: string -> Result<Json>,
                      urlPath: string -> string)
    requires IsChannelId(PyStrip(query))
    ensures Resolve(query, search, urlPath) == Ok(JStr(PyStrip(query)))
    ensures Resolve(query, search, urlPath) == Resolve(query, other, urlPath)
  {
    KeyIsId(query, urlPath);
    ResolveId(query, search, urlPath);
    ResolveId(query, other, urlPath);
  }

  /** A query that is a channel id up to surrounding space is its own key. */
  lemma KeyIsId(query: string, urlPath: string -> string)
    requires IsChannelId(PyStrip(query))
    ensures QueryKey(query, urlPath) == PyStrip(query)
  {
    ChannelIdPlain(PyStrip(query));
  }

  /** A channel URL whose last segment is an id resolves to that id without
   *  a search. */
  lemma ResolveUrl(query: string, search: string -> Result<Json>, urlPath: string -> string)
    requires StartsWith(PyStrip(query), "http")
    requires IsChannelId(ExtractHandle(PyStrip(query), urlPath))
    ensures Resolve(query, search, urlPath) == Ok(JStr(ExtractHandle(PyStrip(query), urlPath)))
  {
  }

  // ---------------------------------------------------------------------
  // _fetch_replays_page
  // ---------------------------------------------------------------------

  /** The fields one listed replay keeps, under their new names. */
  datatype Video = Video(videoNo: Json, videoId: Json, title: Json, publishDate: Json,
                         publishDateAt: Json, durationSec: Json, views: Json, category: Json,
                         categoryKo: Json, thumbnailUrl: Json, videoType: Json, tags: Json)

  function VideoOf(v: Object): Video
  {
    Video(Get(v, "videoNo"), Get(v, "videoId"), Get(v, "videoTitle"), Get(v, "publishDate"),
          Get(v, "publishDateAt"), Get(v, "duration"), Get(v, "readCount"), Get(v, "videoCategory"),
          Get(v, "videoCategoryValue"), Get(v, "thumbnailImageUrl"), Get(v, "videoType"), Get(v, "tags"))
  }

  /** The loop over a list of replays: each must be an object. */
  function VideosOf(items: seq<Json>): Result<seq<Video>>
  {
    if items == [] then Ok([])
    else match VideosOf(items[..|items| - 1])
      case Err(e) => Err(e)
      case Ok(vs) =>
        if items[|items| - 1].JObj? then Ok(vs + [VideoOf(items[|items| - 1].fields)])
        else Err("'v' has no attribute 'get'")
  }

  /** The list converts exactly when every entry is an object, one replay
   *  per entry, in order. */
  lemma {:induction false} VideosOfShape(items: seq<Json>)
    ensures VideosOf(items).Ok? <==> forall i :: 0 <= i < |items| ==> items[i].JObj?
    ensures VideosOf(items).Ok? ==> (|VideosOf(items).value| == |items|
      && forall i :: 0 <= i < |items| ==> VideosOf(items).value[i] == VideoOf(items[i].fields))
  {
    if items != [] {
      var init := items[..|items| - 1];
      VideosOfShape(init);
      assert forall i :: 0 <= i < |init| ==> init[i] == items[i];
    }
  }

  /** What `for v in data` visits: the entries of a list; an empty object
   *  or text visits nothing; the keys or characters of a non-empty one are
   *  texts, on which `.get` raises; other values are not iterable. */
  function DataVideos(data: Json): Result<seq<Video>>
  {
    match data
    case JList(items) => VideosOf(items)
    case JObj(m) => if m == map[] then Ok([]) else Err("'str' object has no attribute 'get'")
    case JStr(s) => if s == [] then Ok([]) else Err("'str' object has no attribute 'get'")
    case _ => Err("object is not iterable")
  }

  /** The page summary `_fetch_replays_page` returns. */
  datatype Page = Page(page: Json, size: Json, totalCount: Json, totalPages: Json,
                       channelId: Json, videos: seq<Video>)

  /** `_fetch_replays_page` given the content of the request. The content
   *  must be an object: a truthy value of another kind raises on `.get`
   *  while reading `data`, and a falsy one (null included) on the
   *  `content.get("page")` that follows. */
  function PageOf(content: Json, channelId: Json): Result<Page>
  {
    if !content.JObj? then Err("'content' has no attribute 'get'")
    else
      var c := content.fields;
      match DataVideos(GetOr(c, "data", JList([])))
      case Err(e) => Err(e)
      case Ok(vs) =>
        Ok(Page(Get(c, "page"), Get(c, "size"), Get(c, "totalCount"), Get(c, "totalPages"), channelId, vs))
  }

  /** A page can be read exactly when its content is an object whose
   *  `data` can be iterated; it carries the replays, the four counters of
   *  the content, and the channel id. */
  lemma PageOfShape(content: Json, channelId: Json)
    ensures PageOf(content, channelId).Ok? <==> content.JObj? && DataVideos(GetOr(content.fields, "data", JList([]))).Ok?
    ensures var r := PageOf(content, channelId);
      r.Ok? ==> (r.value.videos == DataVideos(GetOr(content.fields, "data", JList([]))).value
      && r.value.channelId == channelId
      && r.value.page == Get(content.fields, "page") && r.value.size == Get(content.fields, "size")
      && r.value.totalCount == Get(content.fields, "totalCount")
      && r.value.totalPages == Get(content.fields, "totalPages"))
  {
  }

  /** `_fetch_replays_page`. */
  method FetchReplaysPage(content: Json, channelId: Json) returns (r: Result<Page>)
    ensures r == PageOf(content, channelId)
  {
    if !content.JObj? {
      return Err("'content' has no attribute 'get'");
    }
    var c := content.fields;
    var data := GetOr(c, "data", JList([]));
    var vs := DataVideos(data);
    if data.JList? {
      vs := ScanVideos(data.items);
    }
    if vs.Err? {
      return Err(vs.error);
    }
    return Ok(Page(Get(c, "page"), Get(c, "size"), Get(c, "totalCount"), Get(c, "totalPages"), channelId, vs.value));
  }

  /** The loop of `_fetch_replays_page` over a list of replays. */
  method ScanVideos(items: seq<Json>) returns (r: Result<seq<Video>>)
    ensures r == VideosOf(items)
  {
    var vs: seq<Video> := [];
    for k := 0 to |items|
      invariant VideosOf(items[..k]) == Ok(vs)
    {
      assert items[..k + 1][..k] == items[..k];
      if !items[k].JObj? {
        assert VideosOf(items[..k + 1]).Err?;
        VideosOfPrefix(items, k + 1);
        return Err("'v' has no attribute 'get'");
      }
      vs := vs + [VideoOf(items[k].fields)];
    }
    assert items[..|items|] == items;
    return Ok(vs);
  }

  /** A failing prefix makes the whole list fail. */
  lemma {:induction false} VideosOfPrefix(items: seq<Json>, k: nat)
    requires k <= |items| && VideosOf(items[..k]).Err?
    ensures VideosOf(items) == VideosOf(items[..k])
    decreases |items| - k
  {
    if k < |items| {
      assert items[..k + 1][..k] == items[..k];
      VideosOfPrefix(items, k + 1);
    } else {
      assert items[..k] == items;
    }
  }

  /** `list_replays`: one page of a resolved channel. */
  method ListReplays(channel: string, search: string -> Result<Json>, urlPath: string -> string,
                     fetch: (Json, int) -> Result<Json>, page: int)
    returns (r: Result<Page>)
    ensures Resolve(channel, search, urlPath).Err? ==> r.Err?
    ensures Resolve(channel, search, urlPath).Ok? ==> r == PageAt(fetch, Resolve(channel, search, urlPath).value, page)
    ensures r.Ok? ==> r.value.channelId == Resolve(channel, search, urlPath).value
  {
    var id := Resolve(channel, search, urlPath);
    if id.Err? {
      return Err(id.error);
    }
    r := FetchPage(fetch, id.value, page);
  }

  /** The listing request for one page and its summary. */
  method FetchPage(fetch: (Json, int) -> Result<Json>, channelId: Json, page: int) returns (r: Result<Page>)
    ensures r == PageAt(fetch, channelId, page)
  {
    var content := fetch(channelId, page);
    if content.Err? {
      return Err(content.error);
    }
    r := FetchReplaysPage(content.value, channelId);
  }

  // ---------------------------------------------------------------------
  // list_replays_all
  // ---------------------------------------------------------------------

  const OUT_OF_FUEL: string := "more pages than the model follows"

  /** The loop variables of `list_replays_all`. */
  datatype Progress = Progress(page: int, fetched: nat, videos: seq<Video>, totalPages: Json, totalCount: Json)

  /** After one round the loop either stops or goes on. */
  datatype Round = Stop(st: Progress) | Continue(st: Progress)

  /** The page summary of page `p` of a channel: the listing request, then
   *  `_fetch_replays_page`. */
  function PageAt(fetch: (Json, int) -> Result<Json>, channelId: Json, p: int): Result<Page>
  {
    match fetch(channelId, p)
    case Err(e) => Err(e)
    case Ok(content) => PageOf(content, channelId)
  }

  function PagesOf(fetch: (Json, int) -> Result<Json>, channelId: Json): int -> Result<Page>
  {
    p => PageAt(fetch, channelId, p)
  }

  /** One round of the loop from `st`, with `pages(p)` the summary of page
   *  `p`: the first non-null `totalPages`/`totalCount` seen is kept; an
   *  empty page stops it; otherwise the page's replays are added and it
   *  stops after `max_pages` non-empty pages or once the page number
   *  reaches the known `totalPages` (which must then be a number). */
  function Step(pages: int -> Result<Page>, st: Progress, maxPages: Option<int>): Result<Round>
  {
    match pages(st.page)
    case Err(e) => Err(e)
    case Ok(res) =>
      var tp := if st.totalPages == JNull then res.totalPages else st.totalPages;
      var tc := if st.totalCount == JNull then res.totalCount else st.totalCount;
      if res.videos == [] then Ok(Stop(st.(totalPages := tp, totalCount := tc)))
      else
        var next := Progress(st.page + 1, st.fetched + 1, st.videos + res.videos, tp, tc);
        if maxPages.Some? && next.fetched >= maxPages.value then Ok(Stop(next))
        else if tp == JNull then Ok(Continue(next))
        else match Numeric(tp)
          case None => Err("'>=' not supported between int and totalPages")
          case Some(t) => if next.page as real >= t then Ok(Stop(next)) else Ok(Continue(next))
  }

  /** The page loop from `st`, following at most `fuel` more rounds. */
  function Collect(pages: int -> Result<Page>, st: Progress, maxPages: Option<int>, fuel: nat): Result<Progress>
    decreases fuel
  {
    if fuel == 0 then Err(OUT_OF_FUEL)
    else match Step(pages, st, maxPages)
      case Err(e) => Err(e)
      case Ok(Stop(fin)) => Ok(fin)
      case Ok(Continue(next)) => Collect(pages, next, maxPages, fuel - 1)
  }

  /** A loop that finished within `fuel` rounds finishes the same way with
   *  any larger bound: the bound only cuts off loops that would go on. */
  lemma {:induction false} CollectFuel(pages: int -> Result<Page>, st: Progress, maxPages: Option<int>,
                                       fuel: nat, more: nat)
    requires Collect(pages, st, maxPages, fuel).Ok? && fuel <= more
    ensures Collect(pages, st, maxPages, more) == Collect(pages, st, maxPages, fuel)
    decreases fuel
  {
    CollectUnfold(pages, st, maxPages, fuel);
    CollectUnfold(pages, st, maxPages, more);
    var o := Step(pages, st, maxPages);
    if o.Ok? && o.value.Continue? {
      CollectFuel(pages, o.value.st, maxPages, fuel - 1, more - 1);
    }
  }

  /** The replays of page `p`, or none when it cannot be read. */
  function PageVideos(pages: int -> Result<Page>, p: int): seq<Video>
  {
    if pages(p).Ok? then pages(p).value.videos else []
  }

  /** The `totalCount` page `p` reports, null when it cannot be read. */
  function PageCount(pages: int -> Result<Page>, p: int): Json
  {
    if pages(p).Ok? then pages(p).value.totalCount else JNull
  }

  /** The replays of `n` consecutive pages from `p`, in page order. */
  function VideosFrom(pages: int -> Result<Page>, p: int, n: nat): seq<Video>
    decreases n
  {
    if n == 0 then [] else PageVideos(pages, p) + VideosFrom(pages, p + 1, n - 1)
  }

  /** Pages `p` to `p + n - 1` all have replays. */
  predicate NonEmptyPages(pages: int -> Result<Page>, p: int, n: nat)
  {
    forall q :: p <= q < p + n ==> PageVideos(pages, q) != []
  }

  /** The stopping condition on `totalPages`. */
  predicate PastTotal(page: int, totalPages: Json)
  {
    Numeric(totalPages).Some? && page as real >= Numeric(totalPages).value
  }

  /** One round takes page `st.page`: a stop without it means the page was
   *  empty; taking it adds its replays and moves to the next page; going on
   *  means neither `max_pages` nor `totalPages` was reached. */
  lemma StepShape(pages: int -> Result<Page>, st: Progress, maxPages: Option<int>)
    requires Step(pages, st, maxPages).Ok?
    ensures var o := Step(pages, st, maxPages).value;
      var v := PageVideos(pages, st.page);
      (o.st.fetched == st.fetched ==> o.Stop? && v == [] && o.st.page == st.page && o.st.videos == st.videos)
      && (o.st.fetched != st.fetched ==>
            v != [] && o.st.fetched == st.fetched + 1 && o.st.page == st.page + 1
            && o.st.videos == st.videos + v)
      && (o.Continue? ==> o.st.fetched != st.fetched)
      && (o.Continue? && maxPages.Some? ==> o.st.fetched < maxPages.value)
      && (o.Stop? ==> v == [] || (maxPages.Some? && o.st.fetched >= maxPages.value)
                      || PastTotal(o.st.page, o.st.totalPages))
      && (st.totalCount == JNull && PageCount(pages, st.page) == JNull ==> o.st.totalCount == JNull)
  {
  }

  /** `Collect` unfolded by one round. */
  lemma CollectUnfold(pages: int -> Result<Page>, st: Progress, maxPages: Option<int>, fuel: nat)
    requires fuel > 0
    ensures Step(pages, st, maxPages).Err? ==>
      Collect(pages, st, maxPages, fuel) == Err(Step(pages, st, maxPages).error)
    ensures Step(pages, st, maxPages).Ok? && Step(pages, st, maxPages).value.Stop? ==>
      Collect(pages, st, maxPages, fuel) == Ok(Step(pages, st, maxPages).value.st)
    ensures Step(pages, st, maxPages).Ok? && Step(pages, st, maxPages).value.Continue? ==>
      Collect(pages, st, maxPages, fuel) == Collect(pages, Step(pages, st, maxPages).value.st, maxPages, fuel - 1)
  {
  }

  /** What the page loop accomplishes: the pages it took are consecutive
   *  and all non-empty, their replays are concatenated in page order, it
   *  never takes more than `max_pages` pages (the first one aside), and it
   *  stopped for one of its three reasons. */
  lemma CollectShape(pages: int -> Result<Page>, st: Progress, maxPages: Option<int>, fuel: nat)
    requires Collect(pages, st, maxPages, fuel).Ok?
    ensures var fin := Collect(pages, st, maxPages, fuel).value;
      var n := fin.fetched - st.fetched;
      fin.fetched >= st.fetched && fin.page == st.page + n
      && fin.videos == st.videos + VideosFrom(pages, st.page, n)
      && NonEmptyPages(pages, st.page, n)
      && (maxPages.Some? ==> fin.fetched <= (if maxPages.value > st.fetched + 1 then maxPages.value else st.fetched + 1))
      && (PageVideos(pages, fin.page) == []
          || (maxPages.Some? && fin.fetched >= maxPages.value)
          || PastTotal(fin.page, fin.totalPages))
  {
    CollectTakes(pages, st, maxPages, fuel);
    CollectStops(pages, st, maxPages, fuel);
  }

  /** The pages the loop takes are consecutive and non-empty, and their
   *  replays are appended in page order. */
  lemma {:induction false} CollectTakes(pages: int -> Result<Page>, st: Progress, maxPages: Option<int>, fuel: nat)
    requires Collect(pages, st, maxPages, fuel).Ok?
    ensures var fin := Collect(pages, st, maxPages, fuel).value;
      var n := fin.fetched - st.fetched;
      fin.fetched >= st.fetched && fin.page == st.page + n
      && fin.videos == st.videos + VideosFrom(pages, st.page, n)
      && NonEmptyPages(pages, st.page, n)
    decreases fuel
  {
    StepShape(pages, st, maxPages);
    CollectUnfold(pages, st, maxPages, fuel);
    var o := Step(pages, st, maxPages).value;
    var v := PageVideos(pages, st.page);
    if o.Continue? {
      var next := o.st;
      CollectTakes(pages, next, maxPages, fuel - 1);
      var fin := Collect(pages, next, maxPages, fuel - 1).value;
      var m := fin.fetched - next.fetched;
      var rest := VideosFrom(pages, next.page, m);
      assert VideosFrom(pages, st.page, m + 1) == v + rest;
      calc {
        fin.videos;
        next.videos + rest;
        (st.videos + v) + rest;
        st.videos + (v + rest);
      }
    } else if o.st.fetched != st.fetched {
      assert VideosFrom(pages, st.page, 1) == v + [];
    }
  }

  /** The loop takes at most `max_pages` pages (the first one aside) and
   *  stops at an empty page, at `max_pages` or past `totalPages`. */
  lemma {:induction false} CollectStops(pages: int -> Result<Page>, st: Progress, maxPages: Option<int>, fuel: nat)
    requires Collect(pages, st, maxPages, fuel).Ok?
    ensures var fin := Collect(pages, st, maxPages, fuel).value;
      (maxPages.Some? ==> fin.fetched <= (if maxPages.value > st.fetched + 1 then maxPages.value else st.fetched + 1))
      && (PageVideos(pages, fin.page) == []
          || (maxPages.Some? && fin.fetched >= maxPages.value)
          || PastTotal(fin.page, fin.totalPages))
    decreases fuel
  {
    StepShape(pages, st, maxPages);
    CollectUnfold(pages, st, maxPages, fuel);
    var o := Step(pages, st, maxPages).value;
    if o.Continue? {
      CollectStops(pages, o.st, maxPages, fuel - 1);
    }
  }

  /** With no page and no starting value reporting a `totalCount`, none is
   *  known at the end. */
  lemma {:induction false} CountUnknown(pages: int -> Result<Page>, st: Progress, maxPages: Option<int>, fuel: nat)
    requires Collect(pages, st, maxPages, fuel).Ok?
    requires st.totalCount == JNull
    requires forall p :: st.page <= p ==> PageCount(pages, p) == JNull
    ensures Collect(pages, st, maxPages, fuel).value.totalCount == JNull
    decreases fuel
  {
    StepShape(pages, st, maxPages);
    CollectUnfold(pages, st, maxPages, fuel);
    var o := Step(pages, st, maxPages).value;
    if o.Continue? {
      CountUnknown(pages, o.st, maxPages, fuel - 1);
    }
  }

  /** What `list_replays_all` returns. */
  datatype Listing = Listing(channelId: Json, page: int, size: int, fetchedPages: nat,
                             totalPages: Json, totalCount: Json, videos: seq<Video>)

  function Start(startPage: int): Progress
  {
    Progress(startPage, 0, [], JNull, JNull)
  }

  /** `list_replays_all`: the resolved channel, then its listing. */
  function ListAll(channel: string, search: string -> Result<Json>, urlPath: string -> string,
                   fetch: (Json, int) -> Result<Json>, size: int, startPage: int,
                   maxPages: Option<int>, fuel: nat): Result<Listing>
  {
    match Resolve(channel, search, urlPath)
    case Err(e) => Err(e)
    case Ok(id) => ListFrom(fetch, id, size, startPage, maxPages, fuel)
  }

  /** The listing of a resolved channel: the loop from `start_page`, and
   *  `totalCount` falling back to the number of replays collected. */
  function ListFrom(fetch: (Json, int) -> Result<Json>, id: Json, size: int, startPage: int,
                    maxPages: Option<int>, fuel: nat): Result<Listing>
  {
    match Collect(PagesOf(fetch, id), Start(startPage), maxPages, fuel)
    case Err(e) => Err(e)
    case Ok(fin) =>
      Ok(Listing(id, startPage, size, fin.fetched, fin.totalPages,
                 if fin.totalCount == JNull then JInt(|fin.videos|) else fin.totalCount, fin.videos))
  }

  /** The listing holds the replays of `fetchedPages` consecutive non-empty
   *  pages from `start_page`, in order; `totalCount` is never null, and with
   *  no page reporting one it is the number of replays. */
  lemma ListFromShape(fetch: (Json, int) -> Result<Json>, id: Json, size: int, startPage: int,
                      maxPages: Option<int>, fuel: nat)
    requires ListFrom(fetch, id, size, startPage, maxPages, fuel).Ok?
    ensures var l := ListFrom(fetch, id, size, startPage, maxPages, fuel).value;
      l.channelId == id && l.page == startPage && l.size == size
      && l.videos == VideosFrom(PagesOf(fetch, id), startPage, l.fetchedPages)
      && NonEmptyPages(PagesOf(fetch, id), startPage, l.fetchedPages)
      && (maxPages.Some? ==> l.fetchedPages <= (if maxPages.value > 1 then maxPages.value else 1))
      && l.totalCount != JNull
    ensures (forall p :: startPage <= p ==> PageCount(PagesOf(fetch, id), p) == JNull) ==>
      ListFrom(fetch, id, size, startPage, maxPages, fuel).value.totalCount
      == JInt(|ListFrom(fetch, id, size, startPage, maxPages, fuel).value.videos|)
  {
    CollectShape(PagesOf(fetch, id), Start(startPage), maxPages, fuel);
    var fin := Collect(PagesOf(fetch, id), Start(startPage), maxPages, fuel).value;
    assert [] + fin.videos == fin.videos;
    if forall p :: startPage <= p ==> PageCount(PagesOf(fetch, id), p) == JNull {
      CountUnknown(PagesOf(fetch, id), Start(startPage), maxPages, fuel);
    }
  }

  /** A listing is the listing of the channel the query resolves to. */
  lemma ListAllOf(channel: string, search: string -> Result<Json>, urlPath: string -> string,
                  fetch: (Json, int) -> Result<Json>, size: int, startPage: int,
                  maxPages: Option<int>, fuel: nat)
    ensures Resolve(channel, search, urlPath).Err? ==>
      ListAll(channel, search, urlPath, fetch, size, startPage, maxPages, fuel).Err?
    ensures Resolve(channel, search, urlPath).Ok? ==>
      ListAll(channel, search, urlPath, fetch, size, startPage, maxPages, fuel)
      == ListFrom(fetch, Resolve(channel, search, urlPath).value, size, startPage, maxPages, fuel)
  {
  }

  /** One round of the loop of `list_replays_all`. */
  method TakePage(fetch: (Json, int) -> Result<Json>, channelId: Json, pages: int -> Result<Page>,
                  st: Progress, maxPages: Option<int>)
    returns (o: Result<Round>)
    requires forall p {:trigger PageAt(fetch, channelId, p)} :: pages(p) == PageAt(fetch, channelId, p)
    ensures o == Step(pages, st, maxPages)
  {
    assert pages(st.page) == PageAt(fetch, channelId, st.page);
    var res := FetchPage(fetch, channelId, st.page);
    if res.Err? {
      return Err(res.error);
    }
    var page := res.value;
    var tp := if st.totalPages == JNull then page.totalPages else st.totalPages;
    var tc := if st.totalCount == JNull then page.totalCount else st.totalCount;
    if page.videos == [] {
      return Ok(Stop(st.(totalPages := tp, totalCount := tc)));
    }
    var next := Progress(st.page + 1, st.fetched + 1, st.videos + page.videos, tp, tc);
    if maxPages.Some? && next.fetched >= maxPages.value {
      return Ok(Stop(next));
    }
    if tp == JNull {
      return Ok(Continue(next));
    }
    var t := Numeric(tp);
    if t.None? {
      return Err("'>=' not supported between int and totalPages");
    }
    if next.page as real >= t.value {
      return Ok(Stop(next));
    }
    return Ok(Continue(next));
  }

  /** `list_replays_all`: the channel, the page loop, the listing. */
  method ListReplaysAll(channel: string, search: string -> Result<Json>, urlPath: string -> string,
                        fetch: (Json, int) -> Result<Json>, size: int, startPage: int,
                        maxPages: Option<int>, fuel: nat)
    returns (r: Result<Listing>)
    ensures r == ListAll(channel, search, urlPath, fetch, size, startPage, maxPages, fuel)
  {
    var id := Resolve(channel, search, urlPath);
    if id.Err? {
      return Err(id.error);
    }
    var fin := FollowPages(fetch, id.value, PagesOf(fetch, id.value), startPage, maxPages, fuel);
    if fin.Err? {
      return Err(fin.error);
    }
    var st := fin.value;
    var count := if st.totalCount == JNull then JInt(|st.videos|) else st.totalCount;
    return Ok(Listing(id.value, startPage, size, st.fetched, st.totalPages, count, st.videos));
  }

  /** The `while True` loop of `list_replays_all`, one round per
   *  iteration. */
  method FollowPages(fetch: (Json, int) -> Result<Json>, channelId: Json, pages: int -> Result<Page>,
                     startPage: int, maxPages: Option<int>, fuel: nat)
    returns (r: Result<Progress>)
    requires forall p {:trigger PageAt(fetch, channelId, p)} :: pages(p) == PageAt(fetch, channelId, p)
    ensures r == Collect(pages, Start(startPage), maxPages, fuel)
  {
    var st := Start(startPage);
    var left := fuel;
    while true
      invariant Collect(pages, Start(startPage), maxPages, fuel) == Collect(pages, st, maxPages, left)
      decreases left
    {
      if left == 0 {
        return Err(OUT_OF_FUEL);
      }
      var o := TakePage(fetch, channelId, pages, st, maxPages);
      CollectUnfold(pages, st, maxPages, left);
      if o.Err? {
        return Err(o.error);
      }
      if o.value.Stop? {
        return Ok(o.value.st);
      }
      st := o.value.st;
      left := left - 1;
    }
  }
}
