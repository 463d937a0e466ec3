/** Character and string helpers: the two whitespace classes (Rust's
 *  `char::is_whitespace` and Python's `str.isspace`), trimming, prefixes,
 *  splitting, joining and decimal rendering and parsing. */
module Text {
  import opened Wrappers

  predicate IsDigit(c: char)
  {
    '0' <= c <= '9'
  }

  predicate AllDigits(s: string)
  {
    forall i :: 0 <= i < |s| ==> IsDigit(s[i])
  }

  function DigitValue(c: char): nat
    requires IsDigit(c)
  {
    (c as int - '0' as int) as nat
  }

  function DigitChar(d: nat): (c: char)
    requires d < 10
    ensures IsDigit(c) && DigitValue(c) == d
  {
    ('0' as int + d) as char
  }

  /** The value of a run of ASCII digits, most significant first. */
  function DigitsValue(s: string): nat
    requires AllDigits(s)
  {
    if s == [] then 0 else DigitsValue(s[..|s| - 1]) * 10 + DigitValue(s[|s| - 1])
  }

  /** Decimal rendering of a natural number, as Rust's `{}` and Python's
   *  `str()` print it. */
  function NatToString(n: nat): (s: string)
    ensures |s| >= 1 && AllDigits(s)
    ensures s[0] == '0' ==> n == 0
  {
    if n < 10 then [DigitChar(n)] else NatToString(n / 10) + [DigitChar(n % 10)]
  }

  lemma {:induction false} NatToStringRoundTrip(n: nat)
    ensures DigitsValue(NatToString(n)) == n
  {
    if n >= 10 {
      NatToStringRoundTrip(n / 10);
      var s := NatToString(n);
      assert s[..|s| - 1] == NatToString(n / 10);
    }
  }

  /** Python `str()` of an int. */
  function IntToString(i: int): string
  {
    if i < 0 then "-" + NatToString(-i) else NatToString(i)
  }

  /** `format!("{:0w}", n)`: the decimal digits, left-padded with zeros to at
   *  least `w` characters. */
  function ZeroPad(n: nat, w: nat): (s: string)
    ensures |s| == if w > |NatToString(n)| then w else |NatToString(n)|
    ensures AllDigits(s)
  {
    var d := NatToString(n);
    if w > |d| then Zeros(w - |d|) + d else d
  }

  /** `k` zero digits. */
  function Zeros(k: nat): (z: string)
    ensures |z| == k && forall i :: 0 <= i < k ==> z[i] == '0'
  {
    seq(k, _ => '0')
  }

  lemma {:induction false} ZerosValue(k: nat)
    ensures AllDigits(Zeros(k))
    ensures DigitsValue(Zeros(k)) == 0
  {
    if k > 0 {
      var z := Zeros(k);
      assert z[..k - 1] == Zeros(k - 1);
      ZerosValue(k - 1);
    }
  }

  lemma {:induction false} LeadingZerosValue(k: nat, s: string)
    requires AllDigits(s)
    ensures AllDigits(Zeros(k) + s)
    ensures DigitsValue(Zeros(k) + s) == DigitsValue(s)
  {
    var z := Zeros(k);
    if s == [] {
      assert z + s == z;
      ZerosValue(k);
    } else {
      LeadingZerosValue(k, s[..|s| - 1]);
      assert (z + s)[..|z + s| - 1] == z + s[..|s| - 1];
    }
  }

  /** Zero padding does not change the number the digits denote. */
  lemma ZeroPadValue(n: nat, w: nat)
    ensures DigitsValue(ZeroPad(n, w)) == n
  {
    if w > |NatToString(n)| {
      PaddedValue(n, w);
    } else {
      NatToStringRoundTrip(n);
    }
  }

  lemma PaddedValue(n: nat, w: nat)
    requires w > |NatToString(n)|
    ensures DigitsValue(ZeroPad(n, w)) == n
  {
    var d := NatToString(n);
    var z := Zeros(w - |d|);
    NatToStringRoundTrip(n);
    LeadingZerosValue(w - |d|, d);
    assert ZeroPad(n, w) == z + d;
  }

  // ---------------------------------------------------------------------
  // Whitespace and trimming
  // ---------------------------------------------------------------------

  /** Rust's `char::is_whitespace` (the Unicode White_Space property). */
  predicate RustIsWhitespace(c: char)
  {
    ('\t' <= c <= '\r') || c == ' ' || c == '\U{85}' || c == '\U{A0}' || c == '\U{1680}'
    || ('\U{2000}' <= c <= '\U{200A}') || c == '\U{2028}' || c == '\U{2029}'
    || c == '\U{202F}' || c == '\U{205F}' || c == '\U{3000}'
  }

  /** Python's `str.isspace` for one character, which is also what `\s`
   *  matches in a `str` regular expression; it adds the four ASCII
   *  information separators to the Unicode White_Space set. */
  predicate PyIsSpace(c: char)
  {
    RustIsWhitespace(c) || ('\U{1C}' <= c <= '\U{1F}')
  }

  function TrimStartBy(s: string, ws: char -> bool): (r: string)
    ensures |r| <= |s| && r == s[|s| - |r|..]
    ensures r != [] ==> !ws(r[0])
    ensures forall i :: 0 <= i < |s| - |r| ==> ws(s[i])
  {
    if s == [] || !ws(s[0]) then s else TrimStartBy(s[1..], ws)
  }

  function TrimEndBy(s: string, ws: char -> bool): (r: string)
    ensures |r| <= |s| && r == s[..|r|]
    ensures r != [] ==> !ws(r[|r| - 1])
    ensures forall i :: |r| <= i < |s| ==> ws(s[i])
  {
    if s == [] || !ws(s[|s| - 1]) then s else TrimEndBy(s[..|s| - 1], ws)
  }

  function TrimBy(s: string, ws: char -> bool): (r: string)
  {
    TrimEndBy(TrimStartBy(s, ws), ws)
  }

  /** Rust's `str::trim`. */
  function RustTrim(s: string): string
  {
    TrimBy(s, RustIsWhitespace)
  }

  /** Python's `str.strip()` with no argument. */
  function PyStrip(s: string): string
  {
    TrimBy(s, PyIsSpace)
  }

  /** Trimming the start by a wider class cuts nothing more once the
   *  narrower trim starts outside the wider class. */
  lemma {:induction false} TrimStartWider(s: string, w1: char -> bool, w2: char -> bool)
    requires forall c :: w1(c) ==> w2(c)
    requires TrimStartBy(s, w1) != [] ==> !w2(TrimStartBy(s, w1)[0])
    ensures TrimStartBy(s, w2) == TrimStartBy(s, w1)
    decreases |s|
  {
    if s != [] && w1(s[0]) {
      TrimStartWider(s[1..], w1, w2);
    }
  }

  /** The same at the end. */
  lemma {:induction false} TrimEndWider(s: string, w1: char -> bool, w2: char -> bool)
    requires forall c :: w1(c) ==> w2(c)
    requires TrimEndBy(s, w1) != [] ==> !w2(TrimEndBy(s, w1)[|TrimEndBy(s, w1)| - 1])
    ensures TrimEndBy(s, w2) == TrimEndBy(s, w1)
    decreases |s|
  {
    if s != [] && w1(s[|s| - 1]) {
      TrimEndWider(s[..|s| - 1], w1, w2);
    }
  }

  /** Trimming by a wider class gives the same string when the narrower
   *  trim has no character of the wider class at either end. */
  lemma TrimWider(s: string, w1: char -> bool, w2: char -> bool)
    requires forall c :: w1(c) ==> w2(c)
    requires EdgesNotIn(TrimBy(s, w1), w2)
    ensures TrimBy(s, w2) == TrimBy(s, w1)
  {
    var u := TrimStartBy(s, w1);
    if u != [] {
      TrimEndKeepsFirst(u, w1);
    }
    TrimStartWider(s, w1, w2);
    TrimEndWider(u, w1, w2);
  }

  /** Trimming the end of a string that starts outside the class keeps its
   *  first character. */
  lemma TrimEndKeepsFirst(u: string, w: char -> bool)
    requires u != [] && !w(u[0])
    ensures TrimEndBy(u, w) != [] && TrimEndBy(u, w)[0] == u[0]
  {
  }

  predicate EdgesNotIn(s: string, ws: char -> bool)
  {
    s == [] || (!ws(s[0]) && !ws(s[|s| - 1]))
  }

  /** A trimmed string has no whitespace at either end, is a contiguous piece
   *  of the input, and only whitespace was cut away. */
  lemma TrimByProps(s: string, ws: char -> bool)
    ensures EdgesNotIn(TrimBy(s, ws), ws)
    ensures SubAt(s, TrimBy(s, ws), |s| - |TrimStartBy(s, ws)|)
  {
    TrimByEdges(s, ws);
    TrimBySub(s, ws);
  }

  lemma TrimByEdges(s: string, ws: char -> bool)
    ensures EdgesNotIn(TrimBy(s, ws), ws)
  {
    var a := TrimStartBy(s, ws);
    var r := TrimEndBy(a, ws);
    if r != [] {
      assert r[0] == a[0];
    }
  }

  lemma TrimBySub(s: string, ws: char -> bool)
    ensures SubAt(s, TrimBy(s, ws), |s| - |TrimStartBy(s, ws)|)
  {
    var a := TrimStartBy(s, ws);
    var r := TrimEndBy(a, ws);
    SubOfSlices(s, a, r, |s| - |a|);
  }

  lemma SubOfSlices(s: string, a: string, r: string, i: nat)
    requires i <= |s| && a == s[i..] && |r| <= |a| && r == a[..|r|]
    ensures SubAt(s, r, i)
  {
    assert s[i..i + |r|] == s[i..][..|r|];
  }

  lemma TrimByNoEdges(s: string, ws: char -> bool)
    requires EdgesNotIn(s, ws)
    ensures TrimBy(s, ws) == s
  {
  }

  /** Trimming twice trims nothing more. */
  lemma TrimByIdempotent(s: string, ws: char -> bool)
    ensures TrimBy(TrimBy(s, ws), ws) == TrimBy(s, ws)
  {
    TrimByProps(s, ws);
    TrimByNoEdges(TrimBy(s, ws), ws);
  }

  /** A trimmed string is empty exactly when the input is all whitespace. */
  lemma TrimByEmpty(s: string, ws: char -> bool)
    ensures TrimBy(s, ws) == [] <==> forall i :: 0 <= i < |s| ==> ws(s[i])
  {
    var a := TrimStartBy(s, ws);
    if a != [] {
      assert !ws(s[|s| - |a|]);
      assert TrimEndBy(a, ws) != [];
    }
  }

  // ---------------------------------------------------------------------
  // Prefixes, suffixes, search
  // ---------------------------------------------------------------------

  predicate IsSlash(c: char)
  {
    c == '/'
  }

  predicate StartsWith(s: string, p: string)
  {
    |p| <= |s| && s[..|p|] == p
  }

  predicate EndsWith(s: string, p: string)
  {
    |p| <= |s| && s[|s| - |p|..] == p
  }

  /** `sub` occurs in `s` starting at index `i`. */
  predicate SubAt(s: string, sub: string, i: int)
  {
    0 <= i && i + |sub| <= |s| && s[i..i + |sub|] == sub
  }

  /** Python's `sub in s`. */
  predicate Contains(s: string, sub: string)
  {
    exists i :: 0 <= i <= |s| && SubAt(s, sub, i)
  }

  /** Containment survives appending text on either side. */
  lemma ContainsExtend(a: string, s: string, b: string, sub: string)
    requires Contains(s, sub)
    ensures Contains(a + s + b, sub)
  {
    var i :| 0 <= i <= |s| && SubAt(s, sub, i);
    assert (a + s + b)[|a| + i..|a| + i + |sub|] == sub;
    assert SubAt(a + s + b, sub, |a| + i);
  }

  /** The piece after the last `c` (the whole string when there is none):
   *  Python's `s.rsplit(c, 1)[-1]` and Rust's `rsplit(c).next()`. */
  function AfterLast(s: string, c: char): (r: string)
    ensures c !in r
    ensures EndsWith(s, r)
    ensures |r| < |s| ==> s[|s| - |r| - 1] == c
  {
    if s == [] then []
    else if s[|s| - 1] == c then []
    else AfterLast(s[..|s| - 1], c) + [s[|s| - 1]]
  }

  /** The piece after the last separator is what follows it. */
  lemma {:induction false} AfterLastOf(dir: string, name: string, c: char)
    requires c !in name
    ensures AfterLast(dir + [c] + name, c) == name
    decreases |name|
  {
    var s := dir + [c] + name;
    if name != [] {
      var init := name[..|name| - 1];
      assert s[..|s| - 1] == dir + [c] + init;
      AfterLastOf(dir, init, c);
      assert name == init + [name[|name| - 1]];
    }
  }

  /** Index of the first `c` in `s`, if any. */
  function IndexOf(s: string, c: char): (r: Option<nat>)
    ensures r.None? <==> c !in s
    ensures r.Some? ==> r.value < |s| && s[r.value] == c && c !in s[..r.value]
  {
    if s == [] then None
    else if s[0] == c then Some(0)
    else match IndexOf(s[1..], c)
      case None => None
      case Some(i) => Some(i + 1)
  }

  /** Python's `s.split(c, 1)` when it yields two parts. */
  function SplitOnce(s: string, c: char): (r: Option<(string, string)>)
    ensures r.None? <==> c !in s
    ensures r.Some? ==> s == r.value.0 + [c] + r.value.1 && c !in r.value.0
  {
    match IndexOf(s, c)
    case None => None
    case Some(i) => Some((s[..i], s[i + 1..]))
  }

  /** `sep.join(parts)`. */
  function Join(sep: string, parts: seq<string>): string
  {
    if parts == [] then ""
    else if |parts| == 1 then parts[0]
    else Join(sep, parts[..|parts| - 1]) + sep + parts[|parts| - 1]
  }

  /** Python's `str.replace` for one character. */
  function ReplaceChar(s: string, a: char, b: char): (r: string)
    ensures |r| == |s|
    ensures forall i :: 0 <= i < |s| ==> r[i] == (if s[i] == a then b else s[i])
  {
    seq(|s|, i requires 0 <= i < |s| => if s[i] == a then b else s[i])
  }

  /** ASCII lower-casing. */
  function AsciiLower(s: string): (r: string)
    ensures |r| == |s|
  {
    seq(|s|, i requires 0 <= i < |s| => if 'A' <= s[i] <= 'Z' then (s[i] as int + 32) as char else s[i])
  }

  // ---------------------------------------------------------------------
  // Python int()
  // ---------------------------------------------------------------------

  predicate PyIntBody(s: string)
  {
    |s| > 0 && IsDigit(s[0]) && IsDigit(s[|s| - 1])
    && (forall i :: 0 <= i < |s| ==> IsDigit(s[i]) || s[i] == '_')
    && (forall i :: 0 <= i < |s| - 1 ==> !(s[i] == '_' && s[i + 1] == '_'))
  }

  function DropUnderscores(s: string): (r: string)
    ensures (forall i :: 0 <= i < |s| ==> IsDigit(s[i]) || s[i] == '_') ==> AllDigits(r)
  {
    if s == [] then [] else DropUnderscores(s[..|s| - 1]) + (if s[|s| - 1] == '_' then [] else [s[|s| - 1]])
  }

  function ParseUnsigned(body: string): Option<nat>
  {
    if PyIntBody(body) then Some(DigitsValue(DropUnderscores(body))) else None
  }

  /** The whitespace `int()` skips around its literal. Below U+007F a
   *  character is passed through unchanged and only space and `\t\n\v\f\r`
   *  are skipped, so the information separators U+001C..U+001F, which
   *  `str.isspace` accepts, are not; above it every `str.isspace`
   *  character is skipped. */
  predicate PyIntSpace(c: char)
  {
    if c < '\U{7F}' then c == ' ' || ('\t' <= c <= '\r') else PyIsSpace(c)
  }

  /** Python's `int(s)` on a string: surrounding `int()` whitespace is
   *  ignored, one optional sign, ASCII digits with single underscores
   *  between them; `None` stands for the `ValueError`. */
  function PyParseInt(s: string): (r: Option<int>)
  {
    ParseSigned(TrimBy(s, PyIntSpace))
  }

  /** On a text `str.strip` has already stripped, `int()` strips nothing
   *  more: every `int()` whitespace character is `str.isspace`. */
  lemma PyParseIntStripped(s: string)
    ensures PyParseInt(PyStrip(s)) == ParseSigned(PyStrip(s))
  {
    var t := PyStrip(s);
    assert EdgesNotIn(t, PyIntSpace) by {
      if t != [] {
        assert !PyIsSpace(t[0]) && !PyIsSpace(t[|t| - 1]);
      }
    }
    TrimByNoEdges(t, PyIntSpace);
  }

  /** An information separator before the digits is not skipped: `int()`
   *  of `"\x1c7"` raises, although `str.strip` removes the separator. */
  lemma PyParseIntSeparator()
    ensures PyParseInt(SEPARATED_SEVEN) == None
    ensures PyStrip(SEPARATED_SEVEN) == "7"
  {
    SeparatorKept();
    SeparatorStripped();
  }

  /** The text `"\x1c7"`: a file separator, then the digit 7. */
  const SEPARATED_SEVEN: string := "\U{1C}7"

  /** `int()` keeps the separator and then rejects the text. */
  lemma SeparatorKept()
    ensures TrimBy(SEPARATED_SEVEN, PyIntSpace) == SEPARATED_SEVEN
    ensures ParseSigned(SEPARATED_SEVEN) == None
  {
    SeparatorNotIntSpace();
    SeparatorNotLiteral();
  }

  lemma SeparatorNotIntSpace()
    ensures TrimBy(SEPARATED_SEVEN, PyIntSpace) == SEPARATED_SEVEN
  {
    var s := SEPARATED_SEVEN;
    assert !PyIntSpace(s[0]) && !PyIntSpace(s[1]);
    TrimByNoEdges(s, PyIntSpace);
  }

  lemma SeparatorNotLiteral()
    ensures ParseSigned(SEPARATED_SEVEN) == None
  {
    var s := SEPARATED_SEVEN;
    assert !IsDigit(s[0]) && s[0] != '-' && s[0] != '+';
    assert !PyIntBody(s);
  }

  /** `str.strip` removes the separator. */
  lemma SeparatorStripped()
    ensures PyStrip(SEPARATED_SEVEN) == "7"
  {
    var s := SEPARATED_SEVEN;
    assert PyIsSpace(s[0]) && s[1..] == "7";
    assert !PyIsSpace('7');
    assert TrimStartBy(s, PyIsSpace) == TrimStartBy("7", PyIsSpace) == "7";
    assert TrimEndBy("7", PyIsSpace) == "7";
  }


  /** A literal `int()` accepts starts with a sign or a digit and ends
   *  with a digit, so neither end is `str.isspace`. */
  lemma ParsedEdges(t: string)
    requires ParseSigned(t).Some?
    ensures t != [] && !PyIsSpace(t[0]) && !PyIsSpace(t[|t| - 1])
  {
    if |t| > 0 && (t[0] == '-' || t[0] == '+') {
      assert PyIntBody(t[1..]);
      assert t[|t| - 1] == t[1..][|t[1..]| - 1];
    } else {
      assert PyIntBody(t);
    }
  }

  /** Whatever `int()` accepts it accepts after `str.strip` as well, with
   *  the same value: the wider strip cuts only the whitespace around the
   *  literal. */
  lemma PyParseIntStrips(s: string)
    requires PyParseInt(s).Some?
    ensures PyStrip(s) == TrimBy(s, PyIntSpace)
    ensures PyParseInt(PyStrip(s)) == PyParseInt(s)
  {
    var t := TrimBy(s, PyIntSpace);
    ParsedEdges(t);
    TrimWider(s, PyIntSpace, PyIsSpace);
    PyParseIntStripped(s);
  }

  function ParseSigned(t: string): Option<int>
  {
    if |t| > 0 && (t[0] == '-' || t[0] == '+') then
      match ParseUnsigned(t[1..])
      case None => None
      case Some(v) => Some(if t[0] == '-' then -(v as int) else v as int)
    else
      match ParseUnsigned(t)
      case None => None
      case Some(v) => Some(v)
  }

  lemma {:induction false} DropUnderscoresDigits(s: string)
    requires AllDigits(s)
    ensures DropUnderscores(s) == s
  {
    if s != [] {
      DropUnderscoresDigits(s[..|s| - 1]);
    }
  }

  lemma DigitsAreBody(d: string)
    requires |d| >= 1 && AllDigits(d)
    ensures PyIntBody(d) && DropUnderscores(d) == d
    ensures EdgesNotIn(d, PyIsSpace) && EdgesNotIn(d, PyIntSpace)
  {
    DropUnderscoresDigits(d);
    assert IsDigit(d[0]) && IsDigit(d[|d| - 1]);
    assert forall i :: 0 <= i < |d| - 1 ==> IsDigit(d[i]);
  }

  lemma ParseUnsignedDigits(d: string)
    requires |d| >= 1 && AllDigits(d)
    ensures ParseUnsigned(d) == Some(DigitsValue(d))
  {
    DigitsAreBody(d);
  }

  lemma PyParseNat(n: nat)
    ensures PyParseInt(NatToString(n)) == Some(n as int)
  {
    var d := NatToString(n);
    DigitsAreBody(d);
    TrimByNoEdges(d, PyIntSpace);
    ParseNatDigits(n);
  }

  lemma ParseNatDigits(n: nat)
    ensures ParseSigned(NatToString(n)) == Some(n as int)
  {
    var d := NatToString(n);
    DigitsAreBody(d);
    NatToStringRoundTrip(n);
    ParseUnsignedDigits(d);
  }

  lemma StripNegative(n: nat, s: string)
    requires s == "-" + NatToString(n)
    ensures PyStrip(s) == s && TrimBy(s, PyIntSpace) == s
  {
    var d := NatToString(n);
    DigitsAreBody(d);
    assert !PyIsSpace(s[0]) && s[|s| - 1] == d[|d| - 1];
    TrimByNoEdges(s, PyIsSpace);
    TrimByNoEdges(s, PyIntSpace);
  }

  lemma ParseNegative(n: nat, s: string)
    requires s == "-" + NatToString(n)
    ensures ParseSigned(s) == Some(-(n as int))
  {
    var d := NatToString(n);
    assert s[1..] == d;
    NatToStringRoundTrip(n);
    ParseUnsignedDigits(d);
  }

  lemma PyParseNegative(n: nat, s: string)
    requires s == "-" + NatToString(n)
    ensures PyParseInt(s) == Some(-(n as int))
  {
    StripNegative(n, s);
    ParseNegative(n, s);
  }

  /** `int(str(i)) == i`. */
  lemma PyParseIntRoundTrip(i: int)
    ensures PyParseInt(IntToString(i)) == Some(i)
  {
    if i < 0 {
      PyParseNegative(-i, IntToString(i));
    } else {
      PyParseNat(i);
    }
  }

  // ---------------------------------------------------------------------
  // Python str.splitlines()
  // ---------------------------------------------------------------------

  /** The line boundaries of Python's `str.splitlines`. */
  predicate PyLineBreak(c: char)
  {
    c == '\n' || c == '\r' || c == '\U{0B}' || c == '\U{0C}' || ('\U{1C}' <= c <= '\U{1E}')
    || c == '\U{85}' || c == '\U{2028}' || c == '\U{2029}'
  }

  predicate NoLineBreak(s: string)
  {
    forall i :: 0 <= i < |s| ==> !PyLineBreak(s[i])
  }

  /** The index of the first line boundary. */
  function FirstBreak(s: string): (r: Option<nat>)
    ensures r.None? <==> NoLineBreak(s)
    ensures r.Some? ==> r.value < |s| && PyLineBreak(s[r.value]) && NoLineBreak(s[..r.value])
  {
    if s == [] then None
    else if PyLineBreak(s[0]) then Some(0)
    else match FirstBreak(s[1..])
      case None => None
      case Some(i) => assert s[..i + 1] == [s[0]] + s[1..][..i]; Some(i + 1)
  }

  /** `str.splitlines()`: the text between boundaries, where `\r\n` counts as
   *  one boundary and a boundary at the very end starts no extra line. */
  function PySplitLines(s: string): (r: seq<string>)
    ensures forall k :: 0 <= k < |r| ==> NoLineBreak(r[k])
    decreases |s|
  {
    if s == [] then []
    else match FirstBreak(s)
      case None => [s]
      case Some(i) =>
        var skip := if s[i] == '\r' && i + 1 < |s| && s[i + 1] == '\n' then 2 else 1;
        [s[..i]] + PySplitLines(s[i + skip..])
  }

  /** A line without boundaries followed by `\n` splits off as the first
   *  line. */
  lemma SplitLinesCons(a: string, b: string)
    requires NoLineBreak(a)
    ensures PySplitLines(a + "\n" + b) == [a] + PySplitLines(b)
  {
    var s := a + "\n" + b;
    assert s[..|a|] == a;
    assert FirstBreak(s[..|a|]).None?;
    FirstBreakAt(s, |a|);
    assert s[|a| + 1..] == b;
  }

  /** A non-empty text without boundaries is one line. */
  lemma SplitLinesOne(a: string)
    requires NoLineBreak(a) && a != []
    ensures PySplitLines(a) == [a]
  {
  }

  /** The first boundary is at `i` when there is one at `i` and none before. */
  lemma {:induction false} FirstBreakAt(s: string, i: nat)
    requires i < |s| && PyLineBreak(s[i]) && NoLineBreak(s[..i])
    ensures FirstBreak(s) == Some(i)
  {
    if i > 0 {
      assert s[1..][..i - 1] == s[1..i];
      assert !PyLineBreak(s[..i][0]);
      FirstBreakAt(s[1..], i - 1);
    }
  }

  /** `sep.join` taken apart at the front. */
  lemma {:induction false} JoinCons(sep: string, a: string, rest: seq<string>)
    requires rest != []
    ensures Join(sep, [a] + rest) == a + sep + Join(sep, rest)
    decreases |rest|
  {
    var parts := [a] + rest;
    assert parts[..|parts| - 1] == [a] + rest[..|rest| - 1];
    if |rest| > 1 {
      JoinCons(sep, a, rest[..|rest| - 1]);
    }
  }

  /** Joining lines with `\n` and splitting again gives the lines back,
   *  unless the last one is empty (a final boundary starts no line). */
  lemma {:induction false} SplitJoin(ls: seq<string>)
    requires forall k :: 0 <= k < |ls| ==> NoLineBreak(ls[k])
    requires ls == [] || ls[|ls| - 1] != []
    ensures PySplitLines(Join("\n", ls)) == ls
  {
    if |ls| == 1 {
      SplitLinesOne(ls[0]);
    } else if |ls| > 1 {
      var rest := ls[1..];
      assert ls == [ls[0]] + rest;
      JoinCons("\n", ls[0], rest);
      SplitLinesCons(ls[0], Join("\n", rest));
      SplitJoin(rest);
    }
  }
}
