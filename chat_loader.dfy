/** The chat-log reader of chzzk-chat/src/data/chat/loader.rs (and its older
 *  copy chzzk-chat/src/data/chat_loader.rs): the file-name pattern
 *  `chatLog-(\d+)\.log`, the line pattern
 *  `\[(\d{4}-\d{2}-\d{2} \d{2}:\d{2}:\d{2})\] ([^:]+): (.+) \(([^)]+)\)` and
 *  the filter over the lines of a file. Both patterns are unanchored, so the
 *  model searches for the leftmost position where a match starts and, at
 *  that position, takes the captures a backtracking engine gives: `[^:]+`
 *  ends at the first ':', and the greedy `(.+)` ends at the LAST " (" that
 *  is followed by a non-empty `[^)]+` and a ')'. */
module ChatLoader {
  import opened Wrappers
  import opened Text
  import opened Models
  import Seqs

  /** `u64::MAX + 1`: digit strings denoting this or more fail `parse::<u64>()`. */
  const U64_LIMIT: nat := 0x1_0000_0000_0000_0000

  const FILE_PREFIX: string := "chatLog-"
  const FILE_SUFFIX: string := ".log"

  /** Length of the run of ASCII digits that starts at `i`. */
  function DigitRunLength(s: string, i: nat): (k: nat)
    requires i <= |s|
    ensures i + k <= |s| && AllDigits(s[i..i + k])
    ensures i + k == |s| || !IsDigit(s[i + k])
    decreases |s| - i
  {
    if i < |s| && IsDigit(s[i]) then
      var k := DigitRunLength(s, i + 1);
      assert s[i..i + 1 + k] == [s[i]] + s[i + 1..i + 1 + k];
      1 + k
    else 0
  }

  /** The digits captured by `chatLog-(\d+)\.log` when a match starts at `p`.
   *  `\d+` is greedy and '.' is not a digit, so only the whole digit run can
   *  be followed by ".log". */
  function FileNameMatchAt(s: string, p: nat): (r: Option<string>)
    requires p <= |s|
    ensures r.Some? ==> |r.value| >= 1 && AllDigits(r.value) && SubAt(s, FILE_PREFIX + r.value + FILE_SUFFIX, p)
  {
    var a := p + |FILE_PREFIX|;
    if a <= |s| && s[p..a] == FILE_PREFIX then
      var k := DigitRunLength(s, a);
      if k >= 1 && a + k + |FILE_SUFFIX| <= |s| && s[a + k..a + k + |FILE_SUFFIX|] == FILE_SUFFIX then
        assert s[p..a + k + |FILE_SUFFIX|] == FILE_PREFIX + s[a..a + k] + FILE_SUFFIX;
        Some(s[a..a + k])
      else None
    else None
  }

  /** The leftmost match at or after `p`. */
  function FindFileNameMatch(s: string, p: nat): (r: Option<string>)
    requires p <= |s|
    ensures r.Some? ==> |r.value| >= 1 && AllDigits(r.value)
    ensures r.Some? ==> exists q :: p <= q <= |s| && SubAt(s, FILE_PREFIX + r.value + FILE_SUFFIX, q)
    decreases |s| - p
  {
    match FileNameMatchAt(s, p)
    case Some(d) => Some(d)
    case None => if p == |s| then None else FindFileNameMatch(s, p + 1)
  }

  /** `extract_video_id_from_filename`: the number in the leftmost
   *  "chatLog-<digits>.log" of the name, if it fits in a u64. */
  function ExtractVideoIdFromFilename(name: string): (r: Option<nat>)
    ensures r.Some? ==> r.value < U64_LIMIT
    ensures r.Some? ==> exists d: string, q :: 0 <= q <= |name| && |d| >= 1 && AllDigits(d)
                          && SubAt(name, FILE_PREFIX + d + FILE_SUFFIX, q) && DigitsValue(d) == r.value
  {
    match FindFileNameMatch(name, 0)
    case None => None
    case Some(d) =>
      var v := DigitsValue(d);
      if v < U64_LIMIT then Some(v) else None
  }

  /** The name a log file gets for video `n` loads back as `n`. */
  lemma ExtractRoundTrip(n: nat)
    requires n < U64_LIMIT
    ensures ExtractVideoIdFromFilename(FILE_PREFIX + NatToString(n) + FILE_SUFFIX) == Some(n)
  {
    var d := NatToString(n);
    var s := FILE_PREFIX + d + FILE_SUFFIX;
    assert s[..8] == FILE_PREFIX;
    assert s[8..8 + |d|] == d;
    assert s[8 + |d|] == '.';
    DigitRunFrom(s, 8, |d|);
    assert s[8 + |d|..8 + |d| + 4] == FILE_SUFFIX;
    assert FileNameMatchAt(s, 0) == Some(d);
    NatToStringRoundTrip(n);
  }

  lemma {:induction false} DigitRunFrom(s: string, i: nat, k: nat)
    requires i + k <= |s| && AllDigits(s[i..i + k])
    requires i + k == |s| || !IsDigit(s[i + k])
    ensures DigitRunLength(s, i) == k
    decreases k
  {
    if k > 0 {
      assert IsDigit(s[i..i + k][0]);
      assert s[i + 1..i + k] == s[i..i + k][1..];
      DigitRunFrom(s, i + 1, k - 1);
    }
  }

  /** A name that holds no "chatLog-" yields nothing. */
  lemma ExtractWithoutPrefix(name: string)
    requires !Contains(name, FILE_PREFIX)
    ensures ExtractVideoIdFromFilename(name) == None
  {
    forall q | 0 <= q <= |name| ensures FileNameMatchAt(name, q).None? {
      if FileNameMatchAt(name, q).Some? {
        var d := FileNameMatchAt(name, q).value;
        assert name[q..q + 8] == (FILE_PREFIX + d + FILE_SUFFIX)[..8];
        assert SubAt(name, FILE_PREFIX, q);
      }
    }
    NoMatchFrom(name, 0);
  }

  /** The unit test's name without the pattern. */
  lemma ExtractInvalid()
    ensures ExtractVideoIdFromFilename("invalid.log") == None
  {
    var s := "invalid.log";
    assert !Contains(s, FILE_PREFIX) by {
      forall q | 0 <= q <= |s| ensures !SubAt(s, FILE_PREFIX, q) {
        if q + 8 <= |s| {
          assert s[q] != 'c';
        }
      }
    }
    ExtractWithoutPrefix(s);
  }

  lemma {:induction false} NoMatchFrom(s: string, p: nat)
    requires p <= |s|
    requires forall q :: p <= q <= |s| ==> FileNameMatchAt(s, q).None?
    ensures FindFileNameMatch(s, p).None?
    decreases |s| - p
  {
    if p < |s| {
      NoMatchFrom(s, p + 1);
    }
  }

  /** A number past `u64::MAX` in a well-formed name is rejected. */
  lemma ExtractOverflow(n: nat)
    requires n >= U64_LIMIT
    ensures ExtractVideoIdFromFilename(FILE_PREFIX + NatToString(n) + FILE_SUFFIX) == None
  {
    var d := NatToString(n);
    var s := FILE_PREFIX + d + FILE_SUFFIX;
    assert s[..8] == FILE_PREFIX;
    assert s[8..8 + |d|] == d;
    assert s[8 + |d|] == '.';
    DigitRunFrom(s, 8, |d|);
    assert s[8 + |d|..8 + |d| + 4] == FILE_SUFFIX;
    assert FileNameMatchAt(s, 0) == Some(d);
    NatToStringRoundTrip(n);
  }

  // ---------------------------------------------------------------------
  // Chat lines
  // ---------------------------------------------------------------------

  /** The character class expected at each of the 19 positions of
   *  `\d{4}-\d{2}-\d{2} \d{2}:\d{2}:\d{2}`. */
  predicate ShapeCharOk(i: nat, c: char)
  {
    if i == 4 || i == 7 then c == '-'
    else if i == 10 then c == ' '
    else if i == 13 || i == 16 then c == ':'
    else IsDigit(c)
  }

  predicate TimestampShape(t: string)
  {
    |t| == 19 && forall i :: 0 <= i < 19 ==> ShapeCharOk(i, t[i])
  }

  datatype Captures = Captures(timestamp: string, nickname: string, message: string, userId: string)

  /** The first index at or after `i` that holds `c`, or `|s|`. */
  function NextChar(s: string, i: nat, c: char): (j: nat)
    requires i <= |s|
    ensures i <= j <= |s| && (j < |s| ==> s[j] == c)
    ensures forall k :: i <= k < j ==> s[k] != c
    decreases |s| - i
  {
    if i == |s| || s[i] == c then i else NextChar(s, i + 1, c)
  }

  lemma {:induction false} NextCharAt(s: string, i: nat, c: char, k: nat)
    requires i <= k < |s| && s[k] == c
    requires forall j :: i <= j < k ==> s[j] != c
    ensures NextChar(s, i, c) == k
    decreases k - i
  {
    if i < k {
      NextCharAt(s, i + 1, c, k);
    }
  }

  /** ` \(([^)]+)\)` matched at `q`: the index of the closing ')', which is
   *  the first ')' after the '(' and not right after it. */
  function TailAt(s: string, q: nat): (r: Option<nat>)
    ensures r.Some? ==> q + 2 < r.value < |s|
  {
    if q + 2 <= |s| && s[q] == ' ' && s[q + 1] == '(' then
      var j := NextChar(s, q + 2, ')');
      if q + 2 < j < |s| then Some(j) else None
    else None
  }

  function TailFinder(s: string): nat -> Option<nat>
  {
    (q: nat) => TailAt(s, q)
  }

  /** Backtracking out of a greedy group: the largest `q` in `(lo, hi]` at
   *  which `hit` succeeds, with what it gives there. */
  function LastHit(hit: nat -> Option<nat>, lo: nat, hi: nat): (r: Option<(nat, nat)>)
    requires lo < hi
    ensures r.Some? ==> lo < r.value.0 <= hi && hit(r.value.0) == Some(r.value.1)
    ensures r.Some? ==> forall q :: r.value.0 < q <= hi ==> hit(q).None?
    ensures r.None? ==> forall q :: lo < q <= hi ==> hit(q).None?
    decreases hi
  {
    match hit(hi)
    case Some(e) => Some((hi, e))
    case None => if hi == lo + 1 then None else LastHit(hit, lo, hi - 1)
  }

  lemma {:induction false} LastHitFrom(hit: nat -> Option<nat>, lo: nat, hi: nat, q: nat)
    requires lo < q <= hi
    requires hit(q).Some?
    requires forall q' :: q < q' <= hi ==> hit(q').None?
    ensures LastHit(hit, lo, hi) == Some((q, hit(q).value))
    decreases hi
  {
    if hi > q {
      LastHitFrom(hit, lo, hi - 1, q);
    }
  }

  /** `\[<timestamp>\] ` at `p`. */
  predicate HeaderAt(s: string, p: nat)
  {
    p + 22 <= |s| && s[p] == '[' && TimestampShape(s[p + 1..p + 20]) && s[p + 20] == ']' && s[p + 21] == ' '
  }

  /** `([^:]+): ` from `g`: the group ends at the first ':', which must be
   *  followed by a space. */
  function NickEnd(s: string, g: nat): (r: Option<nat>)
    requires g <= |s|
    ensures r.Some? ==> g < r.value && r.value + 1 < |s| && s[r.value] == ':' && s[r.value + 1] == ' '
  {
    var c := NextChar(s, g, ':');
    if g < c && c + 1 < |s| && s[c + 1] == ' ' then Some(c) else None
  }

  /** `(.+) \(([^)]+)\)` from `lo`: the end of the message group and the
   *  index of the closing ')'. The message spans no '\n' and ends at the last
   *  place where the tail matches. */
  function BodyAt(s: string, lo: nat): (r: Option<(nat, nat)>)
    requires lo <= |s|
    ensures r.Some? ==> lo < r.value.0 && r.value.0 + 2 < r.value.1 < |s|
  {
    var hi := NextChar(s, lo, '\n');
    if hi > lo then
      var r := LastHit(TailFinder(s), lo, hi);
      if r.Some? then
        assert TailAt(s, r.value.0) == Some(r.value.1);
        r
      else r
    else None
  }

  /** Where a match of the line pattern lies: it starts at `start`, the
   *  nickname ends at the ':' at `colon`, the message ends at `msgEnd` and
   *  the user id at the ')' at `close`. */
  datatype Spans = Spans(start: nat, colon: nat, msgEnd: nat, close: nat)

  predicate SpansIn(s: string, sp: Spans)
  {
    sp.start + 22 < sp.colon && sp.colon + 2 < sp.msgEnd && sp.msgEnd + 2 < sp.close < |s|
  }

  function CapturesOf(s: string, sp: Spans): Captures
    requires SpansIn(s, sp)
  {
    Captures(s[sp.start + 1..sp.start + 20], s[sp.start + 22..sp.colon], s[sp.colon + 2..sp.msgEnd], s[sp.msgEnd + 2..sp.close])
  }

  /** The line pattern matched at `p`. */
  function LineMatchAt(s: string, p: nat): (r: Option<Spans>)
    requires p <= |s|
    ensures r.Some? ==> r.value.start == p && SpansIn(s, r.value)
  {
    if !HeaderAt(s, p) then None
    else match NickEnd(s, p + 22)
      case None => None
      case Some(c) =>
        match BodyAt(s, c + 2)
        case None => None
        case Some(qe) => Some(Spans(p, c, qe.0, qe.1))
  }

  /** The leftmost match at or after `p`. */
  function FindLineMatch(s: string, p: nat): (r: Option<Spans>)
    requires p <= |s|
    ensures r.Some? ==> p <= r.value.start && SpansIn(s, r.value)
    decreases |s| - p
  {
    match LineMatchAt(s, p)
    case Some(sp) => Some(sp)
    case None => if p == |s| then None else FindLineMatch(s, p + 1)
  }

  // --- chrono's NaiveDateTime::parse_from_str(_, "%Y-%m-%d %H:%M:%S") ---

  predicate IsLeapYear(y: nat)
  {
    (y % 4 == 0 && y % 100 != 0) || y % 400 == 0
  }

  function DaysInMonth(y: nat, m: nat): nat
    requires 1 <= m <= 12
  {
    if m == 2 then (if IsLeapYear(y) then 29 else 28)
    else if m == 4 || m == 6 || m == 9 || m == 11 then 30
    else 31
  }

  /** Days from 0000-01-01 to the first day of year `y` (proleptic Gregorian). */
  function DaysBeforeYear(y: nat): nat
  {
    365 * y + (y + 3) / 4 - (y + 99) / 100 + (y + 399) / 400
  }

  function DaysBeforeMonth(y: nat, m: nat): nat
    requires 1 <= m <= 12
  {
    if m == 1 then 0 else DaysBeforeMonth(y, m - 1) + DaysInMonth(y, m - 1)
  }

  /** Days from 1970-01-01 to the given civil date. */
  function EpochDay(y: nat, m: nat, d: nat): int
    requires 1 <= m <= 12
  {
    DaysBeforeYear(y) + DaysBeforeMonth(y, m) + d - 1 - DaysBeforeYear(1970)
  }

  function Field(t: string, i: nat, j: nat): nat
    requires TimestampShape(t) && i <= j <= 19
    requires forall k :: i <= k < j ==> IsDigit(t[k])
  {
    DigitsValue(t[i..j])
  }

  /** The instant a "YYYY-MM-DD HH:MM:SS" text names, counted in seconds
   *  from 1970-01-01 00:00:00 of the same wall clock; `None` for an invalid
   *  calendar date or time of day. Second 60 is chrono's leap second: the
   *  last second of the minute plus a whole second of nanoseconds. Only
   *  `timestamp()`, which drops the nanoseconds, reads it as second 59,
   *  and that is the reading kept here; chrono's differences, ordering
   *  and `%S` rendering still tell it apart from second 59. */
  function ParseNaiveTimestamp(t: string): (r: Option<int>)
  {
    if !TimestampShape(t) then None
    else
      assert forall k :: 0 <= k < 4 ==> IsDigit(t[k]) by { assert forall k :: 0 <= k < 4 ==> ShapeCharOk(k, t[k]); }
      assert forall k :: 5 <= k < 7 ==> IsDigit(t[k]) by { assert forall k :: 5 <= k < 7 ==> ShapeCharOk(k, t[k]); }
      assert forall k :: 8 <= k < 10 ==> IsDigit(t[k]) by { assert forall k :: 8 <= k < 10 ==> ShapeCharOk(k, t[k]); }
      assert forall k :: 11 <= k < 13 ==> IsDigit(t[k]) by { assert forall k :: 11 <= k < 13 ==> ShapeCharOk(k, t[k]); }
      assert forall k :: 14 <= k < 16 ==> IsDigit(t[k]) by { assert forall k :: 14 <= k < 16 ==> ShapeCharOk(k, t[k]); }
      assert forall k :: 17 <= k < 19 ==> IsDigit(t[k]) by { assert forall k :: 17 <= k < 19 ==> ShapeCharOk(k, t[k]); }
      var y, mo, d := Field(t, 0, 4), Field(t, 5, 7), Field(t, 8, 10);
      var h, mi, s := Field(t, 11, 13), Field(t, 14, 16), Field(t, 17, 19);
      if 1 <= mo <= 12 && 1 <= d <= DaysInMonth(y, mo) && h <= 23 && mi <= 59 && s <= 60 then
        Some(EpochDay(y, mo, d) * 86400 + h * 3600 + mi * 60 + (if s == 60 then 59 else s))
      else None
  }

  /** A leap second `:60` names the same whole-second instant as `:59` of
   *  the same minute. */
  lemma LeapSecondIsLast(t: string, u: string)
    requires TimestampShape(t) && TimestampShape(u) && t[..17] == u[..17]
    requires t[17..19] == "60" && u[17..19] == "59"
    ensures ParseNaiveTimestamp(t) == ParseNaiveTimestamp(u)
  {
    assert forall i, j :: 0 <= i <= j <= 17 ==> t[i..j] == t[..17][i..j] == u[..17][i..j] == u[i..j];
    TwoDigits(t[17..19]);
    TwoDigits(u[17..19]);
  }

  lemma TwoDigits(w: string)
    requires |w| == 2 && AllDigits(w)
    ensures DigitsValue(w) == DigitValue(w[0]) * 10 + DigitValue(w[1])
  {
    var h := w[..1];
    assert h[..0] == [] && h[0] == w[0];
    assert DigitsValue(h) == DigitValue(w[0]);
    assert w[..|w| - 1] == h;
  }

  /** `parse_chat_line`: the timestamp text is read in the fixed +09:00
   *  offset, nickname and message are trimmed, the user id is kept as
   *  captured. */
  function ParseChatLine(line: string): (r: Option<ChatMessage>)
    ensures r.Some? ==> r.value.nickname == RustTrim(r.value.nickname) && r.value.message == RustTrim(r.value.message)
  {
    match FindLineMatch(line, 0)
    case None => None
    case Some(sp) => MessageOf(CapturesOf(line, sp))
  }

  /** The message the captures of a line stand for. */
  function MessageOf(c: Captures): (r: Option<ChatMessage>)
    ensures r.Some? ==> r.value.nickname == RustTrim(r.value.nickname) && r.value.message == RustTrim(r.value.message)
  {
    match ParseNaiveTimestamp(c.timestamp)
    case None => None
    case Some(local) =>
      TrimByIdempotent(c.nickname, RustIsWhitespace);
      TrimByIdempotent(c.message, RustIsWhitespace);
      Some(ChatMessage(local - KST_OFFSET, RustTrim(c.nickname), RustTrim(c.message), c.userId))
  }

  /** The line format `[ts] nick: text (uid)`. */
  function RenderChatLine(ts: string, nick: string, text: string, uid: string): string
  {
    Concat(["[", ts, "] ", nick, ": ", text, " (", uid, ")"])
  }

  function Concat(parts: seq<string>): string
  {
    if parts == [] then "" else parts[0] + Concat(parts[1..])
  }

  lemma RenderedIs(ts: string, nick: string, text: string, uid: string)
    ensures RenderChatLine(ts, nick, text, uid) == "[" + (ts + ("] " + (nick + (": " + (text + (" (" + (uid + ")")))))))
  {
    var ps := ["[", ts, "] ", nick, ": ", text, " (", uid, ")"];
    assert Concat(ps[8..]) == ")" by { assert ps[8..][1..] == []; }
    assert Concat(ps[7..]) == uid + ")" by { assert ps[7..][1..] == ps[8..]; }
    assert Concat(ps[6..]) == " (" + (uid + ")") by { assert ps[6..][1..] == ps[7..]; }
    assert Concat(ps[5..]) == text + (" (" + (uid + ")")) by { assert ps[5..][1..] == ps[6..]; }
    assert Concat(ps[4..]) == ": " + (text + (" (" + (uid + ")"))) by { assert ps[4..][1..] == ps[5..]; }
    assert Concat(ps[3..]) == nick + (": " + (text + (" (" + (uid + ")")))) by { assert ps[3..][1..] == ps[4..]; }
    assert Concat(ps[2..]) == "] " + (nick + (": " + (text + (" (" + (uid + ")"))))) by { assert ps[2..][1..] == ps[3..]; }
    assert Concat(ps[1..]) == ts + ("] " + (nick + (": " + (text + (" (" + (uid + ")")))))) by { assert ps[1..][1..] == ps[2..]; }
  }

  /** The pieces a rendered line can be read back from: a nickname without
   *  ':', a non-empty text on one line, and a non-empty user id with no
   *  parenthesis. Only a " (" inside the id could let the greedy message
   *  group run past it, since the tail needs the space before the '('; the
   *  condition asked here is simpler and stronger than that. */
  predicate Readable(ts: string, nick: string, text: string, uid: string)
  {
    TimestampShape(ts) && |nick| >= 1 && ':' !in nick && |text| >= 1 && '\n' !in text
    && |uid| >= 1 && '(' !in uid && ')' !in uid
  }

  /** Round trip: a rendered line parses back to the nickname, message and
   *  user id it was built from (nickname and message up to trimming). */
  lemma ParseRendered(ts: string, nick: string, text: string, uid: string)
    requires Readable(ts, nick, text, uid)
    ensures ParseChatLine(RenderChatLine(ts, nick, text, uid)) == MessageOf(Captures(ts, nick, text, uid))
  {
    var sp := RenderedSpans(ts, nick, text, uid);
    ParseFromMatch(RenderChatLine(ts, nick, text, uid), sp);
  }

  lemma ParseFromMatch(s: string, sp: Spans)
    requires LineMatchAt(s, 0) == Some(sp)
    ensures SpansIn(s, sp) && ParseChatLine(s) == MessageOf(CapturesOf(s, sp))
  {
  }

  /** Where the pieces of a rendered line lie. */
  lemma RenderedSpans(ts: string, nick: string, text: string, uid: string) returns (sp: Spans)
    requires Readable(ts, nick, text, uid)
    ensures LineMatchAt(RenderChatLine(ts, nick, text, uid), 0) == Some(sp)
    ensures SpansIn(RenderChatLine(ts, nick, text, uid), sp)
    ensures CapturesOf(RenderChatLine(ts, nick, text, uid), sp) == Captures(ts, nick, text, uid)
  {
    sp := PieceSpans(nick, text, uid);
    MatchOfRendered(ts, nick, text, uid);
    CapturesOfRendered(ts, nick, text, uid);
  }

  /** Where the groups of a rendered line lie. */
  function PieceSpans(nick: string, text: string, uid: string): Spans
  {
    Spans(0, 22 + |nick|, 24 + |nick| + |text|, 26 + |nick| + |text| + |uid|)
  }

  /** What follows the nickname's ": " in a rendered line. */
  function RenderTail(text: string, uid: string): string
  {
    Concat([text, " (", uid, ")"])
  }

  lemma RenderTailIs(text: string, uid: string)
    ensures RenderTail(text, uid) == text + (" (" + (uid + ")"))
  {
    var ps := [text, " (", uid, ")"];
    assert Concat(ps[3..]) == ")" by { assert ps[3..][1..] == []; }
    assert Concat(ps[2..]) == uid + ")" by { assert ps[2..][1..] == ps[3..]; }
    assert Concat(ps[1..]) == " (" + (uid + ")") by { assert ps[1..][1..] == ps[2..]; }
  }

  /** The layout of a rendered line: the header, then the nickname and the
   *  rest of the line. */
  predicate Layout(s: string, ts: string, nick: string, text: string, uid: string)
  {
    |s| >= 22 && s[0] == '[' && s[1..20] == ts && s[20] == ']' && s[21] == ' '
    && s[22..] == nick + (": " + (text + (" (" + (uid + ")"))))
  }

  /** A rendered line, piece by piece. */
  lemma RenderedPieces(ts: string, nick: string, text: string, uid: string)
    requires |ts| == 19
    ensures Layout(RenderChatLine(ts, nick, text, uid), ts, nick, text, uid)
  {
    var s := RenderChatLine(ts, nick, text, uid);
    RenderedIs(ts, nick, text, uid);
    var x1 := ts + ("] " + (nick + (": " + (text + (" (" + (uid + ")"))))));
    assert s[1..] == x1;
    assert s[22..] == x1[21..];
    assert x1[19..] == "] " + (nick + (": " + (text + (" (" + (uid + ")")))));
    assert s[1..20] == x1[..19];
    assert s[20] == x1[19] && s[21] == x1[20];
  }

  lemma MatchOfRendered(ts: string, nick: string, text: string, uid: string)
    requires Readable(ts, nick, text, uid)
    ensures LineMatchAt(RenderChatLine(ts, nick, text, uid), 0) == Some(PieceSpans(nick, text, uid))
  {
    HeadOfRendered(ts, nick, text, uid);
    RestOfRendered(ts, nick, text, uid);
    MatchFromRest(RenderChatLine(ts, nick, text, uid), nick, text, uid);
  }

  lemma MatchFromRest(s: string, nick: string, text: string, uid: string)
    requires 24 + |nick| <= |s| && HeaderAt(s, 0) && NickEnd(s, 22) == Some(22 + |nick|)
    requires s[24 + |nick|..] == RenderTail(text, uid)
    requires |text| >= 1 && '\n' !in text && |uid| >= 1 && '(' !in uid && ')' !in uid
    ensures LineMatchAt(s, 0) == Some(PieceSpans(nick, text, uid))
  {
    BodyOfRest(s, 24 + |nick|, text, uid);
    MatchFromParts(s, 0, 22 + |nick|, 24 + |nick| + |text|, 26 + |nick| + |text| + |uid|);
  }

  lemma HeadOfRendered(ts: string, nick: string, text: string, uid: string)
    requires Readable(ts, nick, text, uid)
    ensures var s := RenderChatLine(ts, nick, text, uid);
            22 <= |s| && HeaderAt(s, 0) && NickEnd(s, 22) == Some(22 + |nick|)
  {
    RenderedPieces(ts, nick, text, uid);
    HeadAndNick(RenderChatLine(ts, nick, text, uid), ts, nick, text + (" (" + (uid + ")")));
  }

  lemma RestOfRendered(ts: string, nick: string, text: string, uid: string)
    requires Readable(ts, nick, text, uid)
    ensures var s := RenderChatLine(ts, nick, text, uid);
            24 + |nick| <= |s| && s[24 + |nick|..] == RenderTail(text, uid)
  {
    RenderedPieces(ts, nick, text, uid);
    RestSlice(RenderChatLine(ts, nick, text, uid), nick, text + (" (" + (uid + ")")));
    RenderTailIs(text, uid);
  }

  lemma CapturesOfRendered(ts: string, nick: string, text: string, uid: string)
    requires Readable(ts, nick, text, uid)
    ensures SpansIn(RenderChatLine(ts, nick, text, uid), PieceSpans(nick, text, uid))
    ensures CapturesOf(RenderChatLine(ts, nick, text, uid), PieceSpans(nick, text, uid)) == Captures(ts, nick, text, uid)
  {
    var s := RenderChatLine(ts, nick, text, uid);
    RenderedPieces(ts, nick, text, uid);
    PieceSlices(s, nick, text, uid);
    CapturesOfPieces(s, ts, nick, text, uid);
  }

  lemma HeadAndNick(s: string, ts: string, nick: string, rest: string)
    requires TimestampShape(ts) && |nick| >= 1 && ':' !in nick
    requires |s| >= 22 && s[0] == '[' && s[1..20] == ts && s[20] == ']' && s[21] == ' '
    requires s[22..] == nick + (": " + rest)
    ensures HeaderAt(s, 0) && NickEnd(s, 22) == Some(22 + |nick|)
  {
    NickOfRest(s, 22, nick, rest);
  }

  lemma CapturesOfPieces(s: string, ts: string, nick: string, text: string, uid: string)
    requires |s| == 27 + |nick| + |text| + |uid| && s[1..20] == ts
    requires var c := 22 + |nick|; var q := 24 + |nick| + |text|;
             s[22..c] == nick && s[c + 2..q] == text && s[q + 2..q + 2 + |uid|] == uid
    ensures var sp := Spans(0, 22 + |nick|, 24 + |nick| + |text|, 26 + |nick| + |text| + |uid|);
            |nick| >= 1 && |text| >= 1 && |uid| >= 1 ==> SpansIn(s, sp) && CapturesOf(s, sp) == Captures(ts, nick, text, uid)
  {
  }

  lemma RestSlice(s: string, nick: string, rest: string)
    requires |s| >= 22 && s[22..] == nick + (": " + rest)
    ensures |s| == 24 + |nick| + |rest| && s[24 + |nick|..] == rest
  {
    assert s[24 + |nick|..] == s[22..][|nick| + 2..];
  }

  lemma PieceSlices(s: string, nick: string, text: string, uid: string)
    requires |s| >= 22 && s[22..] == nick + (": " + (text + (" (" + (uid + ")"))))
    ensures var c := 22 + |nick|; var q := 24 + |nick| + |text|;
            |s| == 27 + |nick| + |text| + |uid|
            && s[c + 2..] == text + (" (" + (uid + ")"))
            && s[22..c] == nick && s[c + 2..q] == text && s[q + 2..q + 2 + |uid|] == uid
  {
    var x3 := nick + (": " + (text + (" (" + (uid + ")"))));
    var x5 := text + (" (" + (uid + ")"));
    var x7 := uid + ")";
    var c := 22 + |nick|;
    var q := 24 + |nick| + |text|;
    assert s[c + 2..] == x5 by { assert s[c + 2..] == x3[|nick| + 2..]; assert x3[|nick|..] == ": " + x5; }
    assert s[q + 2..] == x7 by { assert s[q + 2..] == x5[|text| + 2..]; assert x5[|text|..] == " (" + x7; }
    assert s[22..c] == nick by { assert s[22..c] == x3[..|nick|]; }
    assert s[c + 2..q] == text by { assert s[c + 2..q] == x5[..|text|]; }
    assert s[q + 2..q + 2 + |uid|] == uid by { assert s[q + 2..q + 2 + |uid|] == x7[..|uid|]; }
  }

  lemma MatchFromParts(s: string, p: nat, c: nat, q: nat, e: nat)
    requires p <= |s| && HeaderAt(s, p) && NickEnd(s, p + 22) == Some(c) && BodyAt(s, c + 2) == Some((q, e))
    ensures LineMatchAt(s, p) == Some(Spans(p, c, q, e))
  {
  }

  /** A line that goes on `nick: rest` from `g` on. */
  lemma NickOfRest(s: string, g: nat, nick: string, rest: string)
    requires g <= |s| && s[g..] == nick + (": " + rest) && |nick| >= 1 && ':' !in nick
    ensures NickEnd(s, g) == Some(g + |nick|)
  {
    var t := s[g..];
    assert t[|nick|] == ':' && t[|nick| + 1] == ' ';
    forall j | g <= j < g + |nick| ensures s[j] != ':' {
      assert s[j] == t[j - g] == nick[j - g];
    }
    NextCharAt(s, g, ':', g + |nick|);
  }

  /** A line that ends `text (uid)` from `lo` on. */
  lemma BodyOfRest(s: string, lo: nat, text: string, uid: string)
    requires lo <= |s| && s[lo..] == RenderTail(text, uid)
    requires |text| >= 1 && '\n' !in text && |uid| >= 1 && '(' !in uid && ')' !in uid
    ensures BodyAt(s, lo) == Some((lo + |text|, lo + |text| + 2 + |uid|))
  {
    RenderTailIs(text, uid);
    var q := lo + |text|;
    forall j | lo <= j < q + 2 ensures s[j] != '\n' {
      assert s[j] == s[lo..][j - lo];
      if j < q {
        assert s[lo..][j - lo] == text[j - lo];
      }
    }
    NextCharAtLeast(s, lo, '\n', |text| + 2);
    assert s[q..] == " (" + (uid + ")") by { assert s[q..] == s[lo..][|text|..]; }
    RenderedTail(s, q, uid);
    NoLaterTail(s, q, uid);
    BodyFromHit(s, lo, q, q + 2 + |uid|);
  }

  lemma BodyFromHit(s: string, lo: nat, q: nat, e: nat)
    requires lo <= |s| && lo < q <= NextChar(s, lo, '\n') && TailAt(s, q) == Some(e)
    requires forall q' :: q < q' ==> TailAt(s, q').None?
    ensures BodyAt(s, lo) == Some((q, e))
  {
    var hi := NextChar(s, lo, '\n');
    var f := TailFinder(s);
    assert f(q) == Some(e);
    assert forall q' :: q < q' <= hi ==> f(q').None?;
    LastHitFrom(f, lo, hi, q);
  }

  /** After ` (uid)` starts at `q`, no later position starts a tail. */
  lemma NoLaterTail(s: string, q: nat, uid: string)
    requires q <= |s| && s[q..] == " (" + (uid + ")") && '(' !in uid
    ensures forall q' :: q < q' ==> TailAt(s, q').None?
  {
    forall q': nat | q < q' ensures TailAt(s, q').None? {
      if q' + 1 < |s| {
        assert s[q' + 1] == s[q..][q' + 1 - q];
        assert s[q..][q' + 1 - q] == ')' || s[q..][q' + 1 - q] == uid[q' - q - 1];
      }
    }
  }

  /** The tail ` (uid)` that ends a line. */
  lemma RenderedTail(s: string, q: nat, uid: string)
    requires q + 2 <= |s| && s[q..] == " (" + (uid + ")") && |uid| >= 1 && ')' !in uid
    ensures TailAt(s, q) == Some(q + 2 + |uid|)
  {
    var t := s[q..];
    assert s[q] == t[0] && s[q + 1] == t[1];
    assert s[q + 2 + |uid|] == t[2 + |uid|] == ')';
    forall j | q + 2 <= j < q + 2 + |uid| ensures s[j] != ')' {
      assert s[j] == t[j - q] == uid[j - q - 2];
    }
    NextCharAt(s, q + 2, ')', q + 2 + |uid|);
  }

  lemma {:induction false} NextCharAtLeast(s: string, i: nat, c: char, k: nat)
    requires i + k <= |s|
    requires forall j :: i <= j < i + k ==> s[j] != c
    ensures NextChar(s, i, c) >= i + k
    decreases k
  {
    if k > 0 {
      NextCharAtLeast(s, i + 1, c, k - 1);
    }
  }

  lemma IndexOfAt(s: string, c: char, k: nat)
    requires k < |s| && s[k] == c && c !in s[..k]
    ensures IndexOf(s, c) == Some(k)
  {
    var r := IndexOf(s, c);
    assert c in s;
    assert r.value <= k by {
      assert s[r.value] == c;
      assert forall i :: 0 <= i < k ==> s[i] != c by { assert forall i :: 0 <= i < k ==> s[i] == s[..k][i]; }
    }
    assert forall i :: 0 <= i < r.value ==> s[i] != c by { assert forall i :: 0 <= i < r.value ==> s[i] == s[..r.value][i]; }
  }

  /** The calendar arithmetic on the unit test's sample: 2025-10-24
   *  18:03:15 at +09:00 is 1761296595 seconds after the epoch. */
  lemma SampleInstant()
    ensures EpochDay(2025, 10, 24) * 86400 + 18 * 3600 + 3 * 60 + 15 - KST_OFFSET == 1761296595
  {
    assert DaysBeforeMonth(2025, 10) == 273;
  }

  /** The unit test's sample line and the message it stands for. */
  const SAMPLE_TS: string := "2025-10-24 18:03:15"
  const SAMPLE_NICK: string := "1연지"
  const SAMPLE_TEXT: string := "머타타"
  const SAMPLE_UID: string := "f2959e925442442d133ed215d603786d"

  /** The sample line `[2025-10-24 18:03:15] 1연지: 머타타
   *  (f2959e925442442d133ed215d603786d)`, written with the line writer,
   *  parses to its nickname, message and user id, stamped 1761296595. */
  lemma SampleLine()
    ensures ParseChatLine(RenderChatLine(SAMPLE_TS, SAMPLE_NICK, SAMPLE_TEXT, SAMPLE_UID))
         == Some(ChatMessage(1761296595, SAMPLE_NICK, SAMPLE_TEXT, SAMPLE_UID))
  {
    SampleReadable();
    ParseRendered(SAMPLE_TS, SAMPLE_NICK, SAMPLE_TEXT, SAMPLE_UID);
    SampleMessage();
  }

  lemma SampleReadable()
    ensures Readable(SAMPLE_TS, SAMPLE_NICK, SAMPLE_TEXT, SAMPLE_UID)
  {
    assert forall i :: 0 <= i < 19 ==> ShapeCharOk(i, SAMPLE_TS[i]);
  }

  lemma SampleFields()
    ensures TimestampShape(SAMPLE_TS)
    ensures ParseNaiveTimestamp(SAMPLE_TS) == Some(EpochDay(2025, 10, 24) * 86400 + 18 * 3600 + 3 * 60 + 15)
  {
    SampleReadable();
    SampleDate();
    SampleTime();
  }

  /** The date fields of the sample stamp. */
  lemma SampleDate()
    ensures SAMPLE_TS[0..4] == "2025" && SAMPLE_TS[5..7] == "10" && SAMPLE_TS[8..10] == "24"
    ensures DigitsValue(SAMPLE_TS[0..4]) == 2025 && DigitsValue(SAMPLE_TS[5..7]) == 10
    ensures DigitsValue(SAMPLE_TS[8..10]) == 24
  {
    var t := SAMPLE_TS;
    assert t[0..4] == "2025";
    assert t[5..7] == "10";
    assert t[8] == '2' && t[9] == '4';
    assert t[8..10] == "24";
    assert DigitsValue("2") == 2 && DigitsValue("20") == 20 && DigitsValue("202") == 202;
    assert "2025"[..3] == "202";
    assert DigitsValue("10") == 10 && DigitsValue("24") == 24;
  }

  /** The time-of-day fields of the sample stamp. */
  lemma SampleTime()
    ensures SAMPLE_TS[11..13] == "18" && SAMPLE_TS[14..16] == "03" && SAMPLE_TS[17..19] == "15"
    ensures DigitsValue(SAMPLE_TS[11..13]) == 18 && DigitsValue(SAMPLE_TS[14..16]) == 3
    ensures DigitsValue(SAMPLE_TS[17..19]) == 15
  {
    var t := SAMPLE_TS;
    assert t[11..13] == "18";
    assert t[14..16] == "03";
    assert t[17..19] == "15";
    assert DigitsValue("18") == 18 && DigitsValue("03") == 3 && DigitsValue("15") == 15;
  }

  lemma SampleMessage()
    ensures MessageOf(Captures(SAMPLE_TS, SAMPLE_NICK, SAMPLE_TEXT, SAMPLE_UID))
         == Some(ChatMessage(1761296595, SAMPLE_NICK, SAMPLE_TEXT, SAMPLE_UID))
  {
    SampleFields();
    SampleInstant();
    TrimByNoEdges(SAMPLE_NICK, RustIsWhitespace);
    TrimByNoEdges(SAMPLE_TEXT, RustIsWhitespace);
  }

  /** A blank line never matches, so the loader's blank check only skips work. */
  lemma EmptyLineNone()
    ensures ParseChatLine("") == None
  {
  }

  // ---------------------------------------------------------------------
  // The lines of a file
  // ---------------------------------------------------------------------

  function DropTrailingCR(l: string): string
  {
    if |l| > 0 && l[|l| - 1] == '\r' then l[..|l| - 1] else l
  }

  /** Rust's `str::lines`: split after each '\n', drop the '\n' and a '\r'
   *  just before it; a final line ending adds no empty line. */
  function RustLines(s: string): seq<string>
    decreases |s|
  {
    if s == [] then []
    else match IndexOf(s, '\n')
      case None => [s]
      case Some(i) => [DropTrailingCR(s[..i])] + RustLines(s[i + 1..])
  }

  /** One line of `load_chat_log`: trimmed, skipped when blank, parsed. */
  function LineMessage(l: string): Option<ChatMessage>
  {
    var t := RustTrim(l);
    if t == [] then None else ParseChatLine(t)
  }

  /** The blank check only skips work: a line yields exactly what its
   *  trimmed text parses to. */
  lemma LineMessageIsParseOfTrim(l: string)
    ensures LineMessage(l) == ParseChatLine(RustTrim(l))
  {
    if RustTrim(l) == [] {
      EmptyLineNone();
    }
  }

  /** `load_chat_log` after the file is read: the messages of the lines that
   *  parse, in file order. */
  function LoadMessages(content: string): (r: seq<ChatMessage>)
    ensures |r| <= |RustLines(content)|
  {
    Seqs.FilterMap(RustLines(content), LineMessage)
  }

  /** The text of a file whose lines are `ls`, each ended by '\n'. */
  function Terminated(ls: seq<string>): string
  {
    if ls == [] then "" else ls[0] + "\n" + Terminated(ls[1..])
  }

  predicate PlainLine(l: string)
  {
    '\n' !in l && DropTrailingCR(l) == l
  }

  /** Splitting a file into lines undoes writing them one per line. */
  lemma {:induction false} RustLinesTerminated(ls: seq<string>)
    requires forall i :: 0 <= i < |ls| ==> PlainLine(ls[i])
    ensures RustLines(Terminated(ls)) == ls
  {
    if ls != [] {
      var s := Terminated(ls);
      var l := ls[0];
      assert PlainLine(l);
      assert s[..|l|] == l && s[|l|] == '\n';
      IndexOfAt(s, '\n', |l|);
      assert s[|l| + 1..] == Terminated(ls[1..]);
      RustLinesTerminated(ls[1..]);
    }
  }

  /** Loading a file of written lines gives the messages of those lines. */
  lemma LoadTerminated(ls: seq<string>)
    requires forall i :: 0 <= i < |ls| ==> PlainLine(ls[i])
    ensures LoadMessages(Terminated(ls)) == Seqs.FilterMap(ls, LineMessage)
  {
    RustLinesTerminated(ls);
  }
}
