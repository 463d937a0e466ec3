/** infra/lambda/extract-chat-from-video.py: the consumer lambda that takes
 *  a video id from a queue message, pages through the video's chat API and
 *  writes one `[time] nickname: text (user)` line per chat into
 *  `<prefix>chatLog-<id>.log`. The environment variables are inputs, the
 *  chat API is the parameter `fetch` (the decoded JSON of the page for a
 *  video id and a `playerMessageTime` token), and the Python built-ins the
 *  writer relies on (`float()` of a text, `json.loads`, `repr`, and the
 *  `+09:00` `strftime` of a time stamp) are the fields of `Env`. */
module ExtractChat {
  import opened Wrappers
  import opened Text
  import opened Json
  import Seqs
  import ChatLoader

  const DEFAULT_BUCKET: string := "chzzk-chats-bucket"
  const DEFAULT_PREFIX: string := "raw/chats/"
  const UNKNOWN: string := "Unknown"
  const DEFAULT_TIMEOUT_SEC: int := 30
  const DEFAULT_MAX_PAGES: int := 5000
  const DEFAULT_DELAY_MS: int := 100
  const FIRST_TOKEN: string := "0"
  const LOG_PREFIX: string := "chatLog-"
  const LOG_SUFFIX: string := ".log"

  /** The Python built-ins the line writer depends on. */
  datatype Env = Env(parseFloat: string -> Option<real>, format: real -> string,
                     parseJson: string -> Option<Json>, repr: Json -> string)

  // ---------------------------------------------------------------------
  // _env_int
  // ---------------------------------------------------------------------

  /** `_env_int`: an unset or blank variable gives the default, otherwise
   *  `int()` of the stripped text, or `ValueError`. */
  function EnvInt(raw: Option<string>, default: int): Result<int>
  {
    if raw.None? then Ok(default)
    else
      var t := PyStrip(raw.value);
      if t == [] then Ok(default)
      else match PyParseInt(t)
        case None => Err("Invalid setting (must be int)")
        case Some(n) => Ok(n)
  }

  /** An unset or blank variable gives the default; any other value is
   *  read by `int()`, and a text `int()` rejects raises. */
  lemma EnvIntCases(raw: Option<string>, default: int)
    ensures raw.None? || PyStrip(raw.value) == [] ==> EnvInt(raw, default) == Ok(default)
    ensures raw.Some? && PyStrip(raw.value) != [] ==>
      (EnvInt(raw, default).Ok? <==> PyParseInt(PyStrip(raw.value)).Some?)
      && (EnvInt(raw, default).Ok? ==> PyParseInt(PyStrip(raw.value)) == Some(EnvInt(raw, default).value))
  {
  }

  /** A setting written as `str(i)` is read back as `i`. */
  lemma EnvIntOf(i: int, default: int)
    ensures EnvInt(Some(IntToString(i)), default) == Ok(i)
  {
    PyParseIntRoundTrip(i);
    EnvIntOfText(IntToString(i), i, default);
  }

  lemma EnvIntOfText(s: string, n: int, default: int)
    requires PyParseInt(s) == Some(n)
    ensures EnvInt(Some(s), default) == Ok(n)
  {
    PyParseIntStrips(s);
    ParsedEdges(TrimBy(s, PyIntSpace));
  }

  // ---------------------------------------------------------------------
  // _get_output_target
  // ---------------------------------------------------------------------

  /** One value of the target: the message's field when it is a non-blank
   *  string, else the environment variable, else the default. */
  function Chosen(v: Json, env: Option<string>, default: string): string
  {
    if v.JStr? && PyStrip(v.s) != [] then v.s
    else if env.Some? then env.value
    else default
  }

  /** `_get_output_target`: the chosen bucket and prefix, stripped, the
   *  prefix ending with `/`. */
  function GetOutputTarget(msg: Object, envBucket: Option<string>, envPrefix: Option<string>)
    : (t: (string, string))
    ensures t.0 == PyStrip(Chosen(Get(msg, "output_bucket"), envBucket, DEFAULT_BUCKET))
    ensures EndsWith(t.1, "/")
    ensures var p := PyStrip(Chosen(Get(msg, "output_prefix"), envPrefix, DEFAULT_PREFIX));
      t.1 == p || t.1 == p + "/"
  {
    var bucket := PyStrip(Chosen(Get(msg, "output_bucket"), envBucket, DEFAULT_BUCKET));
    var prefix := PyStrip(Chosen(Get(msg, "output_prefix"), envPrefix, DEFAULT_PREFIX));
    (bucket, if EndsWith(prefix, "/") then prefix else prefix + "/")
  }

  /** The message's own fields win over the environment. */
  lemma MessageTargetWins(msg: Object, envBucket: Option<string>, envPrefix: Option<string>)
    requires Get(msg, "output_bucket").JStr? && PyStrip(Get(msg, "output_bucket").s) != []
    ensures GetOutputTarget(msg, envBucket, envPrefix).0 == PyStrip(Get(msg, "output_bucket").s)
    ensures GetOutputTarget(msg, envBucket, envPrefix) == GetOutputTarget(msg, None, envPrefix)
  {
  }

  /** A target read back from a message that names it is the same target:
   *  the normalisation is idempotent. */
  lemma OutputTargetStable(msg: Object, envBucket: Option<string>, envPrefix: Option<string>,
                           again: Object)
    requires GetOutputTarget(msg, envBucket, envPrefix).0 != []
    requires Get(again, "output_bucket") == JStr(GetOutputTarget(msg, envBucket, envPrefix).0)
    requires Get(again, "output_prefix") == JStr(GetOutputTarget(msg, envBucket, envPrefix).1)
    ensures GetOutputTarget(again, None, None) == GetOutputTarget(msg, envBucket, envPrefix)
  {
    var t := GetOutputTarget(msg, envBucket, envPrefix);
    TargetStripped(msg, envBucket, envPrefix);
    ChosenStripped(t.0, DEFAULT_BUCKET);
    ChosenStripped(t.1, DEFAULT_PREFIX);
  }

  lemma TargetStripped(msg: Object, envBucket: Option<string>, envPrefix: Option<string>)
    ensures var t := GetOutputTarget(msg, envBucket, envPrefix);
      PyStrip(t.0) == t.0 && PyStrip(t.1) == t.1 && t.1 != []
  {
    TrimByIdempotent(Chosen(Get(msg, "output_bucket"), envBucket, DEFAULT_BUCKET), PyIsSpace);
    SlashedStripped(Chosen(Get(msg, "output_prefix"), envPrefix, DEFAULT_PREFIX));
  }

  /** The prefix half of `_get_output_target` gives a stripped, non-empty
   *  text. */
  lemma SlashedStripped(c: string)
    ensures var p := PyStrip(c);
      var q := if EndsWith(p, "/") then p else p + "/";
      PyStrip(q) == q && q != []
  {
    var p := PyStrip(c);
    TrimByIdempotent(c, PyIsSpace);
    if !EndsWith(p, "/") {
      PrefixStable(p);
    }
  }

  lemma ChosenStripped(s: string, default: string)
    requires PyStrip(s) == s && s != []
    ensures Chosen(JStr(s), None, default) == s
  {
  }

  lemma PrefixStable(p: string)
    requires PyStrip(p) == p
    ensures PyStrip(p + "/") == p + "/"
  {
    TrimByEdges(p, PyIsSpace);
    SlashEdges(p);
    TrimByNoEdges(p + "/", PyIsSpace);
  }

  lemma SlashEdges(p: string)
    requires EdgesNotIn(p, PyIsSpace)
    ensures EdgesNotIn(p + "/", PyIsSpace)
  {
    var q := p + "/";
    assert q[|q| - 1] == '/';
    assert !PyIsSpace('/');
    if p != [] {
      assert q[0] == p[0];
    }
  }

  // ---------------------------------------------------------------------
  // _safe_nickname
  // ---------------------------------------------------------------------

  /** `str(d.get("nickname") or "Unknown")`. */
  function NicknameOf(d: Object, repr: Json -> string): string
  {
    var n := Get(d, "nickname");
    if Truthy(n) then PyStr(n, repr) else UNKNOWN
  }

  /** `_safe_nickname`: the nickname of a profile object, or of the object
   *  a profile text decodes to; "Unknown" for an empty or "null" profile,
   *  undecodable text, or anything else. */
  function SafeNickname(profile: Json, parseJson: string -> Option<Json>, repr: Json -> string)
    : (r: string)
    ensures !Truthy(profile) || profile == JStr("null") ==> r == UNKNOWN
    ensures !profile.JObj? && !profile.JStr? ==> r == UNKNOWN
    ensures profile.JObj? ==> r == NicknameOf(profile.fields, repr)
    ensures profile.JStr? && (parseJson(profile.s).None? || !parseJson(profile.s).value.JObj?) ==> r == UNKNOWN
  {
    if !Truthy(profile) || profile == JStr("null") then UNKNOWN
    else match profile
      case JObj(d) => NicknameOf(d, repr)
      case JStr(s) => (match parseJson(s) case Some(JObj(d)) => NicknameOf(d, repr) case _ => UNKNOWN)
      case _ => UNKNOWN
  }

  /** A profile text reads the same as the object it decodes to. */
  lemma NicknameOfText(s: string, d: Object, parseJson: string -> Option<Json>, repr: Json -> string)
    requires parseJson(s) == Some(JObj(d)) && s != "" && s != "null"
    ensures SafeNickname(JStr(s), parseJson, repr) == SafeNickname(JObj(d), parseJson, repr)
  {
  }

  /** A nickname string is kept as it is, and as long as `repr` never
   *  gives the empty text, no nickname is empty. */
  lemma NicknameNonEmpty(profile: Json, parseJson: string -> Option<Json>, repr: Json -> string)
    requires forall j :: repr(j) != []
    ensures SafeNickname(profile, parseJson, repr) != []
    ensures profile.JObj? && Get(profile.fields, "nickname").JStr? && Get(profile.fields, "nickname").s != [] ==>
      SafeNickname(profile, parseJson, repr) == Get(profile.fields, "nickname").s
  {
    var r := SafeNickname(profile, parseJson, repr);
    if r != UNKNOWN {
      var d: Object :| d == (if profile.JObj? then profile.fields else parseJson(profile.s).value.fields);
      NicknameOfNonEmpty(d, repr);
    }
  }

  lemma NicknameOfNonEmpty(d: Object, repr: Json -> string)
    requires forall j :: repr(j) != []
    ensures NicknameOf(d, repr) != []
  {
    var n := Get(d, "nickname");
    if Truthy(n) && n.JInt? {
      assert IntToString(n.i) != [];
    }
  }

  // ---------------------------------------------------------------------
  // One chat line
  // ---------------------------------------------------------------------

  /** `float(message_time) / 1000.0`; `None` for the `TypeError` or
   *  `ValueError` that make the loop skip the chat. */
  function MessageSeconds(t: Json, parseFloat: string -> Option<real>): (r: Option<real>)
    ensures Numeric(t).Some? ==> r == Some(Numeric(t).value / 1000.0)
    ensures t.JStr? ==> (r.Some? <==> parseFloat(t.s).Some?)
    ensures t.JNull? || t.JList? || t.JObj? ==> r.None?
  {
    match t
    case JBool(b) => Some(if b then 1.0 / 1000.0 else 0.0)
    case JInt(i) => Some(i as real / 1000.0)
    case JFloat(f) => Some(f / 1000.0)
    case JStr(s) => (match parseFloat(s) case None => None case Some(f) => Some(f / 1000.0))
    case _ => None
  }

  /** `.replace("\r", " ").replace("\n", " ")`. */
  function OneLine(s: string): (r: string)
    ensures '\r' !in r && '\n' !in r
  {
    ReplaceChar(ReplaceChar(s, '\r', ' '), '\n', ' ')
  }

  /** The written chat text. */
  function CleanText(s: string): string
  {
    PyStrip(OneLine(s))
  }

  /** The written text is one stripped line, and trimming it again by
   *  Rust's whitespace rule, as the log reader does, changes nothing. */
  lemma CleanTextProps(s: string)
    ensures '\r' !in CleanText(s) && '\n' !in CleanText(s)
    ensures PyStrip(CleanText(s)) == CleanText(s) && RustTrim(CleanText(s)) == CleanText(s)
  {
    var o := OneLine(s);
    var r := CleanText(s);
    TrimByProps(o, PyIsSpace);
    TrimByIdempotent(o, PyIsSpace);
    var i := |o| - |TrimStartBy(o, PyIsSpace)|;
    forall k | 0 <= k < |r|
      ensures r[k] != '\r' && r[k] != '\n'
    {
      assert r[k] == o[i + k];
    }
    TrimByNoEdges(r, RustIsWhitespace);
  }

  /** The four pieces of a written line. */
  datatype Pieces = Pieces(ts: string, nick: string, text: string, uid: string)

  function Render(p: Pieces): string
  {
    ChatLoader.RenderChatLine(p.ts, p.nick, p.text, p.uid)
  }

  /** What one entry of `videoChats` writes: nothing for a non-object or a
   *  time that is not a number; otherwise the formatted time, the safe
   *  nickname, the cleaned `content` and the stripped `userIdHash`
   *  (`str()` of each, with "" for a missing key). */
  function ChatPieces(chat: Json, env: Env): (r: Option<Pieces>)
    ensures r.Some? <==> chat.JObj? && MessageSeconds(Get(chat.fields, "messageTime"), env.parseFloat).Some?
  {
    if !chat.JObj? then None
    else
      var m := chat.fields;
      match MessageSeconds(Get(m, "messageTime"), env.parseFloat)
      case None => None
      case Some(t) =>
        Some(Pieces(env.format(t),
                    SafeNickname(Get(m, "profile"), env.parseJson, env.repr),
                    CleanText(PyStr(GetOr(m, "content", JStr("")), env.repr)),
                    PyStrip(PyStr(GetOr(m, "userIdHash", JStr("")), env.repr))))
  }

  function ChatLine(chat: Json, env: Env): Option<string>
  {
    match ChatPieces(chat, env)
    case None => None
    case Some(p) => Some(Render(p))
  }

  function ChatLineFn(env: Env): Json -> Option<string>
  {
    c => ChatLine(c, env)
  }

  /** A rendered line starts with `[` and ends with `)`, so trimming leaves
   *  it as it is. */
  lemma RenderedTrimmed(p: Pieces)
    ensures RustTrim(Render(p)) == Render(p)
  {
    ChatLoader.RenderedIs(p.ts, p.nick, p.text, p.uid);
    var s := Render(p);
    assert s[0] == '[' && s[|s| - 1] == ')';
    TrimByNoEdges(s, RustIsWhitespace);
  }

  /** Round trip with the log reader: a written line whose pieces the
   *  reader's pattern can take apart is read back with exactly the written
   *  text as its message. */
  lemma ChatLineReadsBack(chat: Json, env: Env, p: Pieces)
    requires ChatPieces(chat, env) == Some(p)
    requires ChatLoader.Readable(p.ts, p.nick, p.text, p.uid)
    ensures ChatLoader.LineMessage(Render(p)) == ChatLoader.MessageOf(ChatLoader.Captures(p.ts, p.nick, p.text, p.uid))
    ensures ChatLoader.LineMessage(Render(p)).Some? ==> ChatLoader.LineMessage(Render(p)).value.message == p.text
  {
    RenderedTrimmed(p);
    ChatLoader.ParseRendered(p.ts, p.nick, p.text, p.uid);
    ChatLoader.LineMessageIsParseOfTrim(Render(p));
    var m := chat.fields;
    CleanTextProps(PyStr(GetOr(m, "content", JStr("")), env.repr));
  }

  /** A written line is one line of the file as long as the time, the
   *  nickname and the user id have no line break; the text never has. */
  lemma RenderedPlain(chat: Json, env: Env, p: Pieces)
    requires ChatPieces(chat, env) == Some(p)
    requires '\n' !in p.ts && '\n' !in p.nick && '\n' !in p.uid
    ensures ChatLoader.PlainLine(Render(p))
  {
    var m := chat.fields;
    assert '\n' !in p.text by {
      CleanTextProps(PyStr(GetOr(m, "content", JStr("")), env.repr));
    }
    RenderPlain(p);
  }

  lemma RenderPlain(p: Pieces)
    requires '\n' !in p.ts && '\n' !in p.nick && '\n' !in p.text && '\n' !in p.uid
    ensures ChatLoader.PlainLine(Render(p))
  {
    ChatLoader.RenderedIs(p.ts, p.nick, p.text, p.uid);
    var s := Render(p);
    assert s[|s| - 1] == ')';
  }

  /** The lines one page writes, in order. */
  function PageLines(chats: seq<Json>, env: Env): seq<string>
  {
    Seqs.FilterMap(chats, ChatLineFn(env))
  }

  /** The inner loop over the chats of one page. */
  method WritePage(chats: seq<Json>, env: Env) returns (lines: seq<string>)
    ensures lines == PageLines(chats, env)
  {
    lines := [];
    for j := 0 to |chats|
      invariant lines == Seqs.FilterMap(chats[..j], ChatLineFn(env))
    {
      Seqs.FilterMapSnoc(chats, j, ChatLineFn(env));
      var l := ChatLine(chats[j], env);
      assert ChatLineFn(env)(chats[j]) == l;
      if l.Some? {
        lines := lines + [l.value];
      }
    }
    assert chats[..|chats|] == chats;
  }

  // ---------------------------------------------------------------------
  // The page loop of _write_chatlog_to_tmp
  // ---------------------------------------------------------------------

  function ContentOf(data: Object): Object
  {
    if Get(data, "content").JObj? then Get(data, "content").fields else map[]
  }

  function VideoChats(content: Object): seq<Json>
  {
    if Get(content, "videoChats").JList? then Get(content, "videoChats").items else []
  }

  /** What one fetched page leads to: stop without writing, write and stop,
   *  or write and continue with the next token. */
  datatype Step = Halt | Last(lines: seq<string>) | Next(lines: seq<string>, token: string)

  /** One round of the loop: a code other than 200 or an empty chat list
   *  stops it; otherwise the page's lines are written, and the loop goes on
   *  only when `nextPlayerMessageTime` is present, not blank after `str()`
   *  and stripping, and not the token just used. */
  function PageStep(data: Object, cur: string, env: Env): (o: Step)
    ensures o.Halt? <==> !IsCode200(Get(data, "code")) || VideoChats(ContentOf(data)) == []
    ensures !o.Halt? ==> o.lines == PageLines(VideoChats(ContentOf(data)), env)
    ensures o.Next? ==> o.token != [] && o.token != cur && PyStrip(o.token) == o.token
  {
    if !IsCode200(Get(data, "code")) then Halt
    else
      var content := ContentOf(data);
      var chats := VideoChats(content);
      if chats == [] then Halt
      else
        var lines := PageLines(chats, env);
        var nxt := Get(content, "nextPlayerMessageTime");
        if nxt == JNull then Last(lines)
        else
          var t := PyStrip(PyStr(nxt, env.repr));
          TrimByIdempotent(PyStr(nxt, env.repr), PyIsSpace);
          if t == [] || t == cur then Last(lines) else Next(lines, t)
  }

  /** The pages written before a result, added in front of it. */
  function Prepend(lines: seq<string>, r: Result<(nat, seq<string>)>): Result<(nat, seq<string>)>
  {
    match r
    case Err(e) => Err(e)
    case Ok((p, more)) => Ok((p, lines + more))
  }

  /** The loop from token `cur` with `pages` pages done: the number of
   *  pages written and the lines, or the `RuntimeError` once `max_pages`
   *  pages have been written and the loop has not stopped. */
  function Crawl(fetch: (string, string) -> Object, videoId: string, cur: string, pages: nat,
                 maxPages: int, env: Env): Result<(nat, seq<string>)>
    decreases maxPages - pages
  {
    if pages >= maxPages then Err("Exceeded CHZZK_MAX_PAGES")
    else match PageStep(fetch(videoId, cur), cur, env)
      case Halt => Ok((pages, []))
      case Last(lines) => Ok((pages + 1, lines))
      case Next(lines, t) => Prepend(lines, Crawl(fetch, videoId, t, pages + 1, maxPages, env))
  }

  lemma PrependAssoc(a: seq<string>, b: seq<string>, r: Result<(nat, seq<string>)>)
    ensures Prepend(a, Prepend(b, r)) == Prepend(a + b, r)
  {
    if r.Ok? {
      assert a + (b + r.value.1) == (a + b) + r.value.1;
    }
  }

  /** The loop never writes more than `max_pages` pages, and it raises only
   *  when every one of the pages it was allowed went on to a next token. */
  lemma {:induction false} CrawlBound(fetch: (string, string) -> Object, videoId: string, cur: string,
                                      pages: nat, maxPages: int, env: Env)
    ensures Crawl(fetch, videoId, cur, pages, maxPages, env).Ok? ==>
      pages <= Crawl(fetch, videoId, cur, pages, maxPages, env).value.0 <= maxPages
    decreases maxPages - pages
  {
    if pages < maxPages {
      var o := PageStep(fetch(videoId, cur), cur, env);
      if o.Next? {
        CrawlBound(fetch, videoId, o.token, pages + 1, maxPages, env);
      }
    }
  }

  lemma PrependNil(r: Result<(nat, seq<string>)>)
    ensures Prepend([], r) == r
  {
    if r.Ok? {
      assert [] + r.value.1 == r.value.1;
    }
  }

  /** One round of the loop, taken apart. */
  lemma CrawlUnfold(fetch: (string, string) -> Object, videoId: string, cur: string, pages: nat,
                    maxPages: int, env: Env)
    requires pages < maxPages
    ensures var o := PageStep(fetch(videoId, cur), cur, env);
      (o.Halt? ==> Crawl(fetch, videoId, cur, pages, maxPages, env) == Ok((pages, [])))
      && (o.Last? ==> Crawl(fetch, videoId, cur, pages, maxPages, env) == Ok((pages + 1, o.lines)))
      && (o.Next? ==>
            Crawl(fetch, videoId, cur, pages, maxPages, env)
            == Prepend(o.lines, Crawl(fetch, videoId, o.token, pages + 1, maxPages, env)))
  {
  }

  /** The page loop. */
  method WriteChatLog(fetch: (string, string) -> Object, videoId: string, maxPages: int, env: Env)
    returns (r: Result<(nat, seq<string>)>)
    ensures r == Crawl(fetch, videoId, FIRST_TOKEN, 0, maxPages, env)
  {
    var cur := FIRST_TOKEN;
    var pages: nat := 0;
    var written: seq<string> := [];
    PrependNil(Crawl(fetch, videoId, FIRST_TOKEN, 0, maxPages, env));
    while true
      invariant Crawl(fetch, videoId, FIRST_TOKEN, 0, maxPages, env)
        == Prepend(written, Crawl(fetch, videoId, cur, pages, maxPages, env))
      decreases maxPages - pages
    {
      if pages >= maxPages {
        return Err("Exceeded CHZZK_MAX_PAGES");
      }
      var data := fetch(videoId, cur);
      var step := PageStep(data, cur, env);
      CrawlUnfold(fetch, videoId, cur, pages, maxPages, env);
      if step.Halt? {
        assert written + [] == written;
        return Ok((pages, written));
      }
      var lines := WritePage(VideoChats(ContentOf(data)), env);
      if step.Last? {
        return Ok((pages + 1, written + lines));
      }
      PrependAssoc(written, lines, Crawl(fetch, videoId, step.token, pages + 1, maxPages, env));
      written := written + lines;
      pages := pages + 1;
      cur := step.token;
    }
  }

  // ---------------------------------------------------------------------
  // handler
  // ---------------------------------------------------------------------

  /** The environment variables the lambda reads. */
  datatype Settings = Settings(bucket: Option<string>, prefix: Option<string>, timeoutSec: Option<string>,
                               maxPages: Option<string>, delayMs: Option<string>)

  /** The queue message of the first record, or `None` when there is no
   *  record. A text body is decoded, and one that does not decode stands
   *  for `{"video_id": body}`; a body that is not an object, a record
   *  that is not an object and a record list that is not a list raise. */
  function ReadMessage(event: Object, parseJson: string -> Option<Json>): (r: Result<Option<Object>>)
    ensures r == Ok(None) <==> !Truthy(GetOr(event, "Records", JList([])))
    ensures var records := GetOr(event, "Records", JList([]));
      Truthy(records) && (!records.JList? || !records.items[0].JObj?) ==> r.Err?
    ensures var records := GetOr(event, "Records", JList([]));
      Truthy(records) && records.JList? && records.items[0].JObj? ==>
        var body := GetOr(records.items[0].fields, "body", JStr(""));
        && (body.JStr? && parseJson(body.s).None? ==> r == Ok(Some(map["video_id" := JStr(body.s)])))
        && (body.JStr? && parseJson(body.s).Some? ==> (r.Ok? <==> parseJson(body.s).value.JObj?))
        && (!body.JStr? ==> (r.Ok? <==> body.JObj?))
  {
    var records := GetOr(event, "Records", JList([]));
    if !Truthy(records) then Ok(None)
    else if !records.JList? || !records.items[0].JObj? then Err("malformed Records")
    else
      var body := GetOr(records.items[0].fields, "body", JStr(""));
      var msg := if body.JStr? then
          (match parseJson(body.s) case Some(j) => j case None => JObj(map["video_id" := JStr(body.s)]))
        else body;
      if msg.JObj? then Ok(Some(msg.fields)) else Err("message is not an object")
  }

  /** `str(msg.get("video_id", "")).strip()`; an explicit null reads as
   *  "None". */
  function VideoIdOf(msg: Object, repr: Json -> string): string
  {
    PyStrip(PyStr(GetOr(msg, "video_id", JStr("")), repr))
  }

  function ChatLogName(videoId: string): string
  {
    LOG_PREFIX + videoId + LOG_SUFFIX
  }

  /** The upload the handler prepares for one message. */
  datatype Job = Job(videoId: string, bucket: string, key: string, maxPages: int)

  /** Everything `handler` decides before the page loop: no job for an
   *  empty batch; a blank video id or an invalid integer setting raises;
   *  otherwise the output target, `<prefix>chatLog-<id>.log` and the
   *  page bound. */
  function PlanJob(event: Object, settings: Settings, env: Env): (r: Result<Option<Job>>)
    ensures r == Ok(None) <==> ReadMessage(event, env.parseJson) == Ok(None)
    ensures ReadMessage(event, env.parseJson).Err? ==> r.Err?
    ensures ReadMessage(event, env.parseJson).Ok? && ReadMessage(event, env.parseJson).value.Some? ==>
      var msg := ReadMessage(event, env.parseJson).value.value;
      (VideoIdOf(msg, env.repr) == [] ==> r.Err?)
      && (r.Ok? ==> (r.value.Some? && r.value.value.videoId == VideoIdOf(msg, env.repr)
          && var t := GetOutputTarget(msg, settings.bucket, settings.prefix);
             r.value.value.bucket == t.0 && r.value.value.key == t.1 + ChatLogName(r.value.value.videoId)))
      && (VideoIdOf(msg, env.repr) != [] ==>
          (r.Ok? <==> (EnvInt(settings.timeoutSec, DEFAULT_TIMEOUT_SEC).Ok?
                       && EnvInt(settings.maxPages, DEFAULT_MAX_PAGES).Ok?
                       && EnvInt(settings.delayMs, DEFAULT_DELAY_MS).Ok?)))
    ensures r.Ok? && r.value.Some? ==> r.value.value.maxPages == EnvInt(settings.maxPages, DEFAULT_MAX_PAGES).value
  {
    match ReadMessage(event, env.parseJson)
    case Err(e) => Err(e)
    case Ok(None) => Ok(None)
    case Ok(Some(msg)) =>
      var id := VideoIdOf(msg, env.repr);
      if id == [] then Err("missing video_id")
      else
        var t := GetOutputTarget(msg, settings.bucket, settings.prefix);
        var timeout := EnvInt(settings.timeoutSec, DEFAULT_TIMEOUT_SEC);
        var maxPages := EnvInt(settings.maxPages, DEFAULT_MAX_PAGES);
        var delay := EnvInt(settings.delayMs, DEFAULT_DELAY_MS);
        if timeout.Err? then Err(timeout.error)
        else if maxPages.Err? then Err(maxPages.error)
        else if delay.Err? then Err(delay.error)
        else Ok(Some(Job(id, t.0, t.1 + ChatLogName(id), maxPages.value)))
  }

  /** The uploaded object is named after the video: its last path segment
   *  is `chatLog-<id>.log`, which the log reader maps back to the video
   *  number. */
  lemma KeyNamesVideo(event: Object, settings: Settings, env: Env, n: nat)
    requires PlanJob(event, settings, env).Ok? && PlanJob(event, settings, env).value.Some?
    requires PlanJob(event, settings, env).value.value.videoId == NatToString(n)
    requires n < ChatLoader.U64_LIMIT
    ensures var key := PlanJob(event, settings, env).value.value.key;
      AfterLast(key, '/') == ChatLogName(NatToString(n))
      && ChatLoader.ExtractVideoIdFromFilename(AfterLast(key, '/')) == Some(n)
  {
    var msg := ReadMessage(event, env.parseJson).value.value;
    var prefix := GetOutputTarget(msg, settings.bucket, settings.prefix).1;
    NameReadsBack(n);
    LastSegment(prefix, ChatLogName(NatToString(n)));
  }

  /** The log name of a video number has no `/` and reads back as the
   *  number. */
  lemma NameReadsBack(n: nat)
    requires n < ChatLoader.U64_LIMIT
    ensures '/' !in ChatLogName(NatToString(n))
    ensures ChatLoader.ExtractVideoIdFromFilename(ChatLogName(NatToString(n))) == Some(n)
  {
    var name := ChatLogName(NatToString(n));
    DigitsNoSlash(NatToString(n));
    assert '/' !in name by {
      assert name == "chatLog-" + NatToString(n) + ".log";
    }
    assert name == ChatLoader.FILE_PREFIX + NatToString(n) + ChatLoader.FILE_SUFFIX;
    ChatLoader.ExtractRoundTrip(n);
  }

  /** A name without `/` put in a folder is the folder path's last
   *  segment. */
  lemma LastSegment(prefix: string, name: string)
    requires EndsWith(prefix, "/") && '/' !in name
    ensures AfterLast(prefix + name, '/') == name
  {
    var dir := prefix[..|prefix| - 1];
    assert prefix == dir + ['/'] by {
      assert prefix[|prefix| - 1..] == "/";
    }
    assert prefix + name == dir + ['/'] + name;
    AfterLastOf(dir, name, '/');
  }

  lemma DigitsNoSlash(d: string)
    requires AllDigits(d)
    ensures '/' !in d
  {
    forall k | 0 <= k < |d| ensures d[k] != '/' {
      assert IsDigit(d[k]);
    }
  }

  /** What the handler answers. */
  datatype Answer = NoRecords | Uploaded(videoId: string, bucket: string, key: string, pages: nat, lines: nat)

  /** `handler`, with the upload left out: the job, then the page loop. */
  method Handler(event: Object, settings: Settings, fetch: (string, string) -> Object, env: Env)
    returns (r: Result<Answer>, log: seq<string>)
    ensures PlanJob(event, settings, env) == Ok(None) ==> r == Ok(NoRecords) && log == []
    ensures PlanJob(event, settings, env).Err? ==> r.Err?
    ensures PlanJob(event, settings, env).Ok? && PlanJob(event, settings, env).value.Some? ==>
      var job := PlanJob(event, settings, env).value.value;
      var c := Crawl(fetch, job.videoId, FIRST_TOKEN, 0, job.maxPages, env);
      (r.Err? <==> c.Err?)
      && (r.Ok? ==> r.value == Uploaded(job.videoId, job.bucket, job.key, c.value.0, |c.value.1|)
                    && log == c.value.1)
  {
    log := [];
    var plan := PlanJob(event, settings, env);
    if plan.Err? {
      return Err(plan.error), [];
    }
    if plan.value.None? {
      return Ok(NoRecords), [];
    }
    var job := plan.value.value;
    var stats := WriteChatLog(fetch, job.videoId, job.maxPages, env);
    if stats.Err? {
      return Err(stats.error), [];
    }
    log := stats.value.1;
    r := Ok(Uploaded(job.videoId, job.bucket, job.key, stats.value.0, |log|));
  }
}
