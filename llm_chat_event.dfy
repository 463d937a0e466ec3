/** The chat-text preparation of chzzk-chat/llm-chat-event.py: in-line
 *  compression of repeated laughter and punctuation, the "noise only" line
 *  test, the cleaning and run-length de-duplication of lines, removal of
 *  the `[HH:MM:SS] : ` prefix, the three-line answer format check, and the
 *  pipeline that prepares the text handed to the language models. The
 *  model calls themselves are not part of this module. */
module LlmChatEvent {
  import opened Wrappers
  import opened Seqs
  import opened Text

  // ---------------------------------------------------------------------
  // compress_repeats
  // ---------------------------------------------------------------------

  /** The characters whose runs of three or more are shortened to two, in
   *  the order the substitutions are applied. */
  const REPEAT_CHARS: seq<char> := ['ㅋ', 'ㅎ', 'ㅠ', 'ㅜ', '!', '?', '~', '.']

  /** The number of leading elements equal to `c`. */
  function LeadRun<T(==)>(s: seq<T>, c: T): (k: nat)
    ensures k <= |s|
  {
    if s == [] || s[0] != c then 0 else 1 + LeadRun(s[1..], c)
  }

  /** The leading run is all `c` and stops at an element that is not. */
  lemma {:induction false} LeadRunProps<T>(s: seq<T>, c: T)
    ensures forall i :: 0 <= i < LeadRun(s, c) ==> s[i] == c
    ensures LeadRun(s, c) < |s| ==> s[LeadRun(s, c)] != c
  {
    if s != [] && s[0] == c {
      LeadRunProps(s[1..], c);
      forall i | 1 <= i < LeadRun(s, c)
        ensures s[i] == c
      {
        assert s[i] == s[1..][i - 1];
      }
    }
  }

  /** A run of `k` equal leading elements that stops at `k` has length
   *  `k`. */
  lemma {:induction false} LeadRunIs<T>(s: seq<T>, c: T, k: nat)
    requires k <= |s|
    requires forall i :: 0 <= i < k ==> s[i] == c
    requires k < |s| ==> s[k] != c
    ensures LeadRun(s, c) == k
  {
    if k > 0 {
      LeadRunIs(s[1..], c, k - 1);
    }
  }

  /** One substitution `(c)\1{2,}` -> `\1\1`: scanning from the left, every
   *  maximal run of three or more `c` becomes exactly two; everything else is
   *  copied. */
  function CompressChar(s: string, c: char): (r: string)
    ensures |r| <= |s|
    decreases |s|
  {
    if s == [] then [] else Block(s, c) + CompressChar(s[Skip(s, c)..], c)
  }

  /** The substitution keeps the first two and the last character. */
  lemma CompressCharEnds(s: string, c: char)
    ensures |s| <= 1 ==> CompressChar(s, c) == s
    ensures |s| >= 2 ==> |CompressChar(s, c)| >= 2 && CompressChar(s, c)[0] == s[0] && CompressChar(s, c)[1] == s[1]
    ensures s != [] ==> CompressChar(s, c)[|CompressChar(s, c)| - 1] == s[|s| - 1]
  {
    if |s| == 1 {
      CompressCharShort(s, c);
    } else if |s| >= 2 {
      CompressCharFirstTwo(s, c);
    }
    if s != [] {
      CompressCharLast(s, c);
    }
  }

  lemma CompressCharHead(s: string, c: char)
    requires s != []
    ensures |CompressChar(s, c)| >= 1 && CompressChar(s, c)[0] == s[0]
  {
    CompressCharStep(s, c);
    assert Block(s, c)[0] == s[0];
  }

  lemma CompressCharShort(s: string, c: char)
    requires |s| == 1
    ensures CompressChar(s, c) == s
  {
    CompressCharStep(s, c);
    assert s[1..] == [];
  }

  lemma CompressCharFirstTwo(s: string, c: char)
    requires |s| >= 2
    ensures |CompressChar(s, c)| >= 2 && CompressChar(s, c)[0] == s[0] && CompressChar(s, c)[1] == s[1]
  {
    var k := Skip(s, c);
    CompressCharStep(s, c);
    if k == 1 {
      CompressCharHead(s[1..], c);
    } else {
      LeadRunProps(s, c);
      assert s[1] == c;
      assert |Block(s, c)| >= 2 && Block(s, c)[0] == s[0] && Block(s, c)[1] == s[1];
    }
  }

  lemma {:induction false} CompressCharLast(s: string, c: char)
    requires s != []
    ensures |CompressChar(s, c)| >= 1 && CompressChar(s, c)[|CompressChar(s, c)| - 1] == s[|s| - 1]
    decreases |s|
  {
    var k := Skip(s, c);
    var b := Block(s, c);
    CompressCharStep(s, c);
    var rest := CompressChar(s[k..], c);
    assert CompressChar(s, c) == b + rest;
    if k < |s| {
      CompressCharLast(s[k..], c);
      assert rest[|rest| - 1] == s[|s| - 1];
    } else {
      LeadRunProps(s, c);
      assert s[k..] == [];
      assert b[|b| - 1] == s[|s| - 1];
    }
  }

  /** No three consecutive `c`. */
  predicate NoLongRun(s: string, c: char)
  {
    forall i :: 0 <= i && i + 2 < |s| ==> !(s[i] == c && s[i + 1] == c && s[i + 2] == c)
  }

  /** How many characters the next step of the substitution consumes: one
   *  character that is not `c`, or the whole run of `c`. */
  function Skip(s: string, c: char): (k: nat)
    requires s != []
    ensures 1 <= k <= |s|
  {
    if s[0] != c then 1 else LeadRun(s, c)
  }

  /** What that step writes for the consumed characters. */
  function Block(s: string, c: char): (b: string)
    requires s != []
  {
    if s[0] != c then [s[0]] else if LeadRun(s, c) >= 3 then [c, c] else s[..LeadRun(s, c)]
  }

  lemma CompressCharStep(s: string, c: char)
    requires s != []
    ensures CompressChar(s, c) == Block(s, c) + CompressChar(s[Skip(s, c)..], c)
  {
  }

  lemma NoLongRunSuffix(s: string, k: nat, d: char)
    requires k <= |s| && NoLongRun(s, d)
    ensures NoLongRun(s[k..], d)
  {
    forall i | 0 <= i && i + 2 < |s[k..]|
      ensures !(s[k..][i] == d && s[k..][i + 1] == d && s[k..][i + 2] == d)
    {
      assert s[k..][i] == s[i + k] && s[k..][i + 1] == s[i + k + 1] && s[k..][i + 2] == s[i + k + 2];
    }
  }

  /** At most two characters before text that does not start with `c` form
   *  no run of three `c`. */
  lemma ShortBlockNoRun(b: string, rest: string, c: char)
    requires |b| <= 2 && NoLongRun(rest, c) && (rest == [] || rest[0] != c)
    ensures NoLongRun(b + rest, c)
  {
    var t := b + rest;
    forall i | 0 <= i && i + 2 < |t|
      ensures !(t[i] == c && t[i + 1] == c && t[i + 2] == c)
    {
      if i >= |b| {
        assert t[i] == rest[i - |b|] && t[i + 1] == rest[i - |b| + 1] && t[i + 2] == rest[i - |b| + 2];
      } else if i + 1 >= |b| {
        assert t[i + 1] == rest[0];
      } else {
        assert t[i + 2] == rest[0];
      }
    }
  }

  /** Characters other than `d` before text with no run of three `d` form
   *  none either. */
  lemma ForeignBlockNoRun(b: string, rest: string, d: char)
    requires forall i :: 0 <= i < |b| ==> b[i] != d
    requires NoLongRun(rest, d)
    ensures NoLongRun(b + rest, d)
  {
    var t := b + rest;
    forall i | 0 <= i && i + 2 < |t|
      ensures !(t[i] == d && t[i + 1] == d && t[i + 2] == d)
    {
      if i >= |b| {
        assert t[i] == rest[i - |b|] && t[i + 1] == rest[i - |b| + 1] && t[i + 2] == rest[i - |b| + 2];
      } else {
        assert t[i] == b[i];
      }
    }
  }

  lemma ConsNoRun(x: char, rest: string, d: char)
    requires NoLongRun(rest, d)
    requires |rest| >= 2 ==> !(x == d && rest[0] == d && rest[1] == d)
    ensures NoLongRun([x] + rest, d)
  {
    var t := [x] + rest;
    forall i | 0 <= i && i + 2 < |t|
      ensures !(t[i] == d && t[i + 1] == d && t[i + 2] == d)
    {
      if i >= 1 {
        assert t[i] == rest[i - 1] && t[i + 1] == rest[i] && t[i + 2] == rest[i + 1];
      }
    }
  }

  /** After the substitution for `c`, no run of three `c` is left. */
  lemma {:induction false} CompressCharNoRun(s: string, c: char)
    ensures NoLongRun(CompressChar(s, c), c)
    decreases |s|
  {
    if s != [] {
      var k := Skip(s, c);
      CompressCharStep(s, c);
      CompressCharNoRun(s[k..], c);
      CompressCharEnds(s[k..], c);
      if s[0] == c {
        LeadRunProps(s, c);
        ShortBlockNoRun(Block(s, c), CompressChar(s[k..], c), c);
      } else {
        ConsNoRun(s[0], CompressChar(s[k..], c), c);
      }
    }
  }

  /** The substitution for `c` creates no run of another character. */
  lemma {:induction false} CompressCharKeeps(s: string, c: char, d: char)
    requires d != c && NoLongRun(s, d)
    ensures NoLongRun(CompressChar(s, c), d)
    decreases |s|
  {
    if s != [] {
      var k := Skip(s, c);
      CompressCharStep(s, c);
      NoLongRunSuffix(s, k, d);
      CompressCharKeeps(s[k..], c, d);
      var rest := CompressChar(s[k..], c);
      if s[0] == c {
        LeadRunProps(s, c);
        ForeignBlockNoRun(Block(s, c), rest, d);
      } else {
        CompressCharEnds(s[k..], c);
        ConsNoRun(s[0], rest, d);
      }
    }
  }

  /** Without a run of three `c`, a step writes what it consumes. */
  lemma BlockIsPrefix(s: string, c: char)
    requires s != [] && NoLongRun(s, c)
    ensures Block(s, c) == s[..Skip(s, c)]
  {
    LeadRunProps(s, c);
    if |s| >= 3 {
      assert !(s[0] == c && s[1] == c && s[2] == c);
    }
  }

  /** Text with no run of three `c` is left as it is. */
  lemma {:induction false} CompressCharNoop(s: string, c: char)
    requires NoLongRun(s, c)
    ensures CompressChar(s, c) == s
    decreases |s|
  {
    if s != [] {
      var k := Skip(s, c);
      CompressCharStep(s, c);
      NoLongRunSuffix(s, k, c);
      CompressCharNoop(s[k..], c);
      BlockIsPrefix(s, c);
      calc {
        CompressChar(s, c);
        Block(s, c) + CompressChar(s[k..], c);
        s[..k] + s[k..];
        { assert s[..k] + s[k..] == s; }
        s;
      }
    }
  }

  /** A step deletes only copies of `c`. */
  lemma BlockOthers(s: string, c: char, p: char -> bool)
    requires s != [] && !p(c)
    ensures Filter(Block(s, c), p) == Filter(s[..Skip(s, c)], p)
  {
    if s[0] == c {
      LeadRunProps(s, c);
      FilterNone(Block(s, c), p);
      FilterNone(s[..Skip(s, c)], p);
    }
  }

  /** The substitution for `c` deletes only copies of `c`: the characters a
   *  predicate false on `c` selects are the same before and after. */
  lemma {:induction false} CompressCharOthers(s: string, c: char, p: char -> bool)
    requires !p(c)
    ensures Filter(CompressChar(s, c), p) == Filter(s, p)
    decreases |s|
  {
    if s != [] {
      var k := Skip(s, c);
      var b := Block(s, c);
      calc {
        Filter(CompressChar(s, c), p);
        { CompressCharStep(s, c); }
        Filter(b + CompressChar(s[k..], c), p);
        { FilterConcat(b, CompressChar(s[k..], c), p); }
        Filter(b, p) + Filter(CompressChar(s[k..], c), p);
        { BlockOthers(s, c, p); CompressCharOthers(s[k..], c, p); }
        Filter(s[..k], p) + Filter(s[k..], p);
        { FilterConcat(s[..k], s[k..], p); }
        Filter(s[..k] + s[k..], p);
        { assert s[..k] + s[k..] == s; }
        Filter(s, p);
      }
    }
  }

  lemma {:induction false} FilterNone<T(!new)>(s: seq<T>, p: T -> bool)
    requires forall i :: 0 <= i < |s| ==> !p(s[i])
    ensures Filter(s, p) == []
  {
    if s != [] {
      FilterNone(s[..|s| - 1], p);
    }
  }

  /** The first `n` substitutions, in order. */
  function CompressUpTo(s: string, n: nat): string
    requires n <= |REPEAT_CHARS|
  {
    if n == 0 then s else CompressChar(CompressUpTo(s, n - 1), REPEAT_CHARS[n - 1])
  }

  /** The value of `compress_repeats(s)`. */
  function Compressed(s: string): string
  {
    CompressUpTo(s, |REPEAT_CHARS|)
  }

  /** `compress_repeats`: the eight substitutions applied one after the
   *  other. */
  method CompressRepeats(s: string) returns (out: string)
    ensures out == Compressed(s)
  {
    out := s;
    for i := 0 to |REPEAT_CHARS|
      invariant out == CompressUpTo(s, i)
    {
      out := CompressChar(out, REPEAT_CHARS[i]);
    }
  }

  predicate IsRepeatChar(c: char)
  {
    c in REPEAT_CHARS
  }

  predicate NotRepeatChar(c: char)
  {
    !IsRepeatChar(c)
  }

  /** Text without runs of three of any repeat character. */
  predicate NoLongRuns(s: string)
  {
    forall j :: 0 <= j < |REPEAT_CHARS| ==> NoLongRun(s, REPEAT_CHARS[j])
  }

  lemma {:induction false} CompressUpToNoRuns(s: string, n: nat)
    requires n <= |REPEAT_CHARS|
    ensures forall j :: 0 <= j < n ==> NoLongRun(CompressUpTo(s, n), REPEAT_CHARS[j])
  {
    if n > 0 {
      var t := CompressUpTo(s, n - 1);
      var c := REPEAT_CHARS[n - 1];
      CompressUpToNoRuns(s, n - 1);
      CompressCharNoRun(t, c);
      forall j | 0 <= j < n - 1
        ensures NoLongRun(CompressChar(t, c), REPEAT_CHARS[j])
      {
        CompressCharKeeps(t, c, REPEAT_CHARS[j]);
      }
    }
  }

  lemma {:induction false} CompressUpToEnds(s: string, n: nat)
    requires n <= |REPEAT_CHARS|
    ensures |CompressUpTo(s, n)| <= |s|
    ensures s != [] ==> CompressUpTo(s, n) != [] && CompressUpTo(s, n)[0] == s[0]
    ensures s != [] ==> CompressUpTo(s, n)[|CompressUpTo(s, n)| - 1] == s[|s| - 1]
  {
    if n > 0 {
      CompressUpToEnds(s, n - 1);
      CompressCharEnds(CompressUpTo(s, n - 1), REPEAT_CHARS[n - 1]);
    }
  }

  lemma {:induction false} CompressUpToOthers(s: string, n: nat)
    requires n <= |REPEAT_CHARS|
    ensures Filter(CompressUpTo(s, n), NotRepeatChar) == Filter(s, NotRepeatChar)
  {
    if n > 0 {
      CompressUpToOthers(s, n - 1);
      CompressCharOthers(CompressUpTo(s, n - 1), REPEAT_CHARS[n - 1], NotRepeatChar);
    }
  }

  lemma {:induction false} CompressUpToNoop(s: string, n: nat)
    requires n <= |REPEAT_CHARS| && NoLongRuns(s)
    ensures CompressUpTo(s, n) == s
  {
    if n > 0 {
      CompressUpToNoop(s, n - 1);
      CompressCharNoop(s, REPEAT_CHARS[n - 1]);
    }
  }

  /** `compress_repeats` leaves no run of three of any of the eight
   *  characters, never lengthens the text, keeps its first and last
   *  character, deletes nothing but repeat characters, and changes nothing
   *  when applied a second time. */
  lemma CompressedProps(s: string)
    ensures NoLongRuns(Compressed(s))
    ensures |Compressed(s)| <= |s|
    ensures s != [] ==> Compressed(s) != [] && Compressed(s)[0] == s[0]
    ensures s != [] ==> Compressed(s)[|Compressed(s)| - 1] == s[|s| - 1]
    ensures Filter(Compressed(s), NotRepeatChar) == Filter(s, NotRepeatChar)
    ensures Compressed(Compressed(s)) == Compressed(s)
  {
    CompressUpToNoRuns(s, |REPEAT_CHARS|);
    CompressUpToEnds(s, |REPEAT_CHARS|);
    CompressUpToOthers(s, |REPEAT_CHARS|);
    CompressUpToNoop(Compressed(s), |REPEAT_CHARS|);
  }

  /** `k` copies of `x`. */
  function Repeat<T>(x: T, k: nat): (r: seq<T>)
    ensures |r| == k && forall i :: 0 <= i < k ==> r[i] == x
  {
    seq(k, _ => x)
  }

  /** Text after `x` that does not continue its last run does not change
   *  the first step on `x`. */
  lemma SkipBlockConcat(x: string, z: string, c: char)
    requires x != []
    requires z == [] || x[|x| - 1] != c || z[0] != c
    ensures Skip(x + z, c) == Skip(x, c) && Block(x + z, c) == Block(x, c)
  {
    if x[0] == c {
      var k := LeadRun(x, c);
      LeadRunProps(x, c);
      LeadRunIs(x + z, c, k);
      assert (x + z)[..k] == x[..k];
    }
  }

  /** The substitution works run by run: it distributes over a split that
   *  does not cut a run of `c`. */
  lemma {:induction false} CompressCharConcat(x: string, z: string, c: char)
    requires x == [] || z == [] || x[|x| - 1] != c || z[0] != c
    ensures CompressChar(x + z, c) == CompressChar(x, c) + CompressChar(z, c)
    decreases |x|
  {
    if x == [] {
      assert x + z == z;
    } else {
      var k := Skip(x, c);
      SkipBlockConcat(x, z, c);
      assert (x + z)[k..] == x[k..] + z;
      CompressCharConcat(x[k..], z, c);
      var b := Block(x, c);
      var r1 := CompressChar(x[k..], c);
      var r2 := CompressChar(z, c);
      CompressCharStep(x + z, c);
      CompressCharStep(x, c);
      ConcatAssoc(b, r1, r2);
    }
  }

  /** A run of three or more `c` becomes exactly two; a shorter one is
   *  kept. */
  lemma CompressCharRun(c: char, k: nat)
    ensures CompressChar(Repeat(c, k), c) == if k >= 3 then [c, c] else Repeat(c, k)
  {
    if k > 0 {
      var r := Repeat(c, k);
      LeadRunIs(r, c, k);
      CompressCharStep(r, c);
      assert r[k..] == [];
    }
  }

  /** Inside any text, a maximal run of three or more `c` is replaced by
   *  exactly two and the text around it is handled on its own. */
  lemma RunBecomesTwo(x: string, k: nat, y: string, c: char)
    requires k >= 3
    requires x == [] || x[|x| - 1] != c
    requires y == [] || y[0] != c
    ensures CompressChar(x + (Repeat(c, k) + y), c) == CompressChar(x, c) + ([c, c] + CompressChar(y, c))
  {
    CompressCharConcat3(x, Repeat(c, k), y, c);
    CompressCharRun(c, k);
  }

  lemma CompressCharConcat3(x: string, r: string, y: string, c: char)
    requires r != [] && r[0] == c && r[|r| - 1] == c
    requires x == [] || x[|x| - 1] != c
    requires y == [] || y[0] != c
    ensures CompressChar(x + (r + y), c) == CompressChar(x, c) + (CompressChar(r, c) + CompressChar(y, c))
  {
    assert (r + y)[0] == c;
    CompressCharConcat(x, r + y, c);
    CompressCharConcat(r, y, c);
  }

  // ---------------------------------------------------------------------
  // is_noise_only_line
  // ---------------------------------------------------------------------

  /** The consonants and vowels of `[ㅋㅎㅌㅠㅜㄷㅇㅈ]{2,}`. */
  const LAUGH_JAMO: set<char> := {'ㅋ', 'ㅎ', 'ㅌ', 'ㅠ', 'ㅜ', 'ㄷ', 'ㅇ', 'ㅈ'}
  /** The marks of `[!?~.]{1,}`. */
  const MARKS: set<char> := {'!', '?', '~', '.'}
  /** The syllables of `캬+|와+|오+|헉+|엥+`. */
  const EXCLAMATIONS: set<char> := {'캬', '와', '오', '헉', '엥'}
  /** Every character any noise alternative can contain. */
  const NOISE_CHARS: set<char> := LAUGH_JAMO + MARKS + EXCLAMATIONS + {'어', '에', 'z', 'Z'}

  predicate AllIn(w: string, cs: set<char>)
  {
    forall i :: 0 <= i < |w| ==> w[i] in cs
  }

  /** A whole-string match of one alternative of the noise pattern. */
  predicate IsNoiseWord(w: string)
  {
    (|w| >= 2 && AllIn(w, LAUGH_JAMO))
    || (|w| >= 1 && AllIn(w, MARKS))
    || (|w| >= 1 && w[0] in EXCLAMATIONS && AllIn(w, {w[0]}))
    || (|w| >= 1 && (w[0] == '어' || w[0] == '에') && AllIn(w[1..], {'?'}))
    || (|w| >= 2 && (w[0] == 'z' || w[0] == 'Z') && AllIn(w, {w[0]}))
  }

  predicate NotSpace(c: char)
  {
    !PyIsSpace(c)
  }

  /** `re.sub(r"\s+", "", s)`. */
  function RemoveWhitespace(s: string): string
  {
    Filter(s, NotSpace)
  }

  /** `is_noise_only_line`: after deleting all whitespace, the line is one
   *  noise word. */
  predicate IsNoiseOnlyLine(s: string)
  {
    IsNoiseWord(RemoveWhitespace(s))
  }

  lemma NoiseWordChars(w: string)
    ensures IsNoiseWord(w) ==> AllIn(w, NOISE_CHARS)
  {
    if |w| >= 1 && (w[0] == '어' || w[0] == '에') && AllIn(w[1..], {'?'}) {
      forall i | 1 <= i < |w|
        ensures w[i] in NOISE_CHARS
      {
        assert w[1..][i - 1] == w[i];
      }
    }
  }

  /** A line with a visible character outside every noise alternative is
   *  kept, whatever else it contains. */
  lemma NotNoise(s: string, i: nat)
    requires i < |s| && !PyIsSpace(s[i]) && s[i] !in NOISE_CHARS
    ensures !IsNoiseOnlyLine(s)
  {
    var w := RemoveWhitespace(s);
    FilterMembers(s, NotSpace, s[i]);
    NoiseWordChars(w);
    assert s[i] in w;
  }

  /** Whitespace anywhere in the line does not matter. */
  lemma NoiseIgnoresSpaces(a: string, sp: string, b: string)
    requires forall i :: 0 <= i < |sp| ==> PyIsSpace(sp[i])
    ensures IsNoiseOnlyLine(a + sp + b) == IsNoiseOnlyLine(a + b)
  {
    calc {
      RemoveWhitespace(a + sp + b);
      { FilterConcat(a + sp, b, NotSpace); FilterConcat(a, sp, NotSpace); }
      Filter(a, NotSpace) + Filter(sp, NotSpace) + Filter(b, NotSpace);
      { FilterNone(sp, NotSpace); }
      Filter(a, NotSpace) + Filter(b, NotSpace);
      { FilterConcat(a, b, NotSpace); }
      RemoveWhitespace(a + b);
    }
  }

  lemma RemoveWhitespaceNone(s: string)
    requires forall i :: 0 <= i < |s| ==> NotSpace(s[i])
    ensures RemoveWhitespace(s) == s
  {
    FilterAll(s, NotSpace);
  }

  /** Laughter split by a space is still noise. */
  lemma SpacedLaughIsNoise()
    ensures IsNoiseOnlyLine("ㅋㅋ ㅋ")
  {
    NoiseIgnoresSpaces("ㅋㅋ", " ", "ㅋ");
    assert "ㅋㅋ" + " " + "ㅋ" == "ㅋㅋ ㅋ";
    RemoveWhitespaceNone("ㅋㅋ" + "ㅋ");
  }

  /** One laugh alone is not noise: the pattern wants two. */
  lemma SingleLaughIsNotNoise()
    ensures !IsNoiseOnlyLine("ㅋ")
  {
    RemoveWhitespaceNone("ㅋ");
  }

  /** A word followed by laughter is kept. */
  lemma WordWithLaughIsNotNoise()
    ensures !IsNoiseOnlyLine("네ㅋㅋ")
  {
    NotNoise("네ㅋㅋ", 0);
  }

  /** An exclamation with question marks is noise. */
  lemma ExclamationIsNoise()
    ensures IsNoiseOnlyLine("어??")
  {
    RemoveWhitespaceNone("어??");
    assert "어??"[1..] == "??";
  }

  // ---------------------------------------------------------------------
  // preprocess_chat_lines: cleaning
  // ---------------------------------------------------------------------

  /** What the first loop keeps of one line: the stripped, compressed text,
   *  unless the stripped line is empty or the compressed one is noise. */
  function CleanLine(ln: string): Option<string>
  {
    var s := PyStrip(ln);
    if s == [] then None
    else
      var t := Compressed(s);
      if IsNoiseOnlyLine(t) then None else Some(t)
  }

  /** A kept line is compressed, non-empty, not noise, and has no
   *  surrounding whitespace. */
  lemma CleanLineProps(ln: string)
    requires CleanLine(ln).Some?
    ensures var t := CleanLine(ln).value;
            t != [] && !IsNoiseOnlyLine(t) && NoLongRuns(t) && PyStrip(t) == t
  {
    var s := PyStrip(ln);
    var t := Compressed(s);
    CompressedProps(s);
    TrimByProps(ln, PyIsSpace);
    assert EdgesNotIn(t, PyIsSpace);
    TrimByNoEdges(t, PyIsSpace);
  }

  /** Every line the first loop keeps has the properties above, and comes
   *  from a line of the input. */
  lemma CleanedLinesProps(lines: seq<string>, t: string)
    requires t in FilterMap(lines, CleanLine)
    ensures t != [] && !IsNoiseOnlyLine(t) && NoLongRuns(t) && PyStrip(t) == t
    ensures exists i :: 0 <= i < |lines| && t == Compressed(PyStrip(lines[i]))
  {
    FilterMapMembers(lines, CleanLine, t);
    var i :| 0 <= i < |lines| && CleanLine(lines[i]) == Some(t);
    CleanLineProps(lines[i]);
  }

  // ---------------------------------------------------------------------
  // preprocess_chat_lines: run-length de-duplication
  // ---------------------------------------------------------------------

  /** The maximal runs of equal consecutive elements, with their lengths. */
  function Runs<T(==)>(xs: seq<T>): (rs: seq<(T, nat)>)
    ensures xs != [] ==> rs != [] && rs[0].0 == xs[0]
    decreases |xs|
  {
    if xs == [] then [] else [(xs[0], LeadRun(xs, xs[0]))] + Runs(xs[LeadRun(xs, xs[0])..])
  }

  /** The sequence a list of runs stands for. */
  function Expand<T>(rs: seq<(T, nat)>): seq<T>
  {
    if rs == [] then [] else Repeat(rs[0].0, rs[0].1) + Expand(rs[1..])
  }

  function SumCounts<T>(rs: seq<(T, nat)>): nat
  {
    if rs == [] then 0 else rs[0].1 + SumCounts(rs[1..])
  }

  /** Runs are non-empty and two neighbouring runs hold different values. */
  predicate MaximalRuns<T(==)>(rs: seq<(T, nat)>)
  {
    (forall i :: 0 <= i < |rs| ==> rs[i].1 >= 1)
    && (forall i :: 0 <= i < |rs| - 1 ==> rs[i].0 != rs[i + 1].0)
  }

  lemma {:induction false} RunsExpand<T>(xs: seq<T>)
    ensures Expand(Runs(xs)) == xs
    decreases |xs|
  {
    if xs != [] {
      var k := LeadRun(xs, xs[0]);
      LeadRunProps(xs, xs[0]);
      RunsExpand(xs[k..]);
      calc {
        Expand(Runs(xs));
        { assert Runs(xs) == [(xs[0], k)] + Runs(xs[k..]); assert Runs(xs)[1..] == Runs(xs[k..]); }
        Repeat(xs[0], k) + Expand(Runs(xs[k..]));
        { assert xs[..k] == Repeat(xs[0], k); }
        xs[..k] + xs[k..];
        { assert xs[..k] + xs[k..] == xs; }
        xs;
      }
    }
  }

  lemma {:induction false} RunsMaximal<T>(xs: seq<T>)
    ensures MaximalRuns(Runs(xs))
    decreases |xs|
  {
    if xs != [] {
      var k := LeadRun(xs, xs[0]);
      var rest := Runs(xs[k..]);
      var rs := Runs(xs);
      RunsMaximal(xs[k..]);
      LeadRunProps(xs, xs[0]);
      assert rs == [(xs[0], k)] + rest;
      if rest != [] {
        assert rest[0].0 == xs[k];
      }
      forall i | 0 <= i < |rs|
        ensures rs[i].1 >= 1
      {
        if i > 0 {
          assert rs[i] == rest[i - 1];
        }
      }
      forall i | 0 <= i < |rs| - 1
        ensures rs[i].0 != rs[i + 1].0
      {
        if i > 0 {
          assert rs[i] == rest[i - 1] && rs[i + 1] == rest[i];
        }
      }
    }
  }

  lemma {:induction false} SumCountsExpand<T>(rs: seq<(T, nat)>)
    ensures SumCounts(rs) == |Expand(rs)|
  {
    if rs != [] {
      SumCountsExpand(rs[1..]);
    }
  }

  /** The runs stand for the input, are maximal, and their lengths add up to
   *  the input's length. */
  lemma RunsProps<T>(xs: seq<T>)
    ensures Expand(Runs(xs)) == xs
    ensures MaximalRuns(Runs(xs))
    ensures SumCounts(Runs(xs)) == |xs|
  {
    RunsExpand(xs);
    RunsMaximal(xs);
    SumCountsExpand(Runs(xs));
  }

  /** Maximal runs that stand for `xs` are the runs of `xs`: the
   *  decomposition is unique. */
  lemma {:induction false} RunsUnique<T>(rs: seq<(T, nat)>, xs: seq<T>)
    requires MaximalRuns(rs) && Expand(rs) == xs
    ensures rs == Runs(xs)
    decreases |rs|
  {
    if rs != [] {
      var x, k := rs[0].0, rs[0].1;
      var tail := rs[1..];
      assert MaximalRuns(tail) by {
        forall i | 0 <= i < |tail| - 1
          ensures tail[i].0 != tail[i + 1].0
        {
          assert tail[i] == rs[i + 1] && tail[i + 1] == rs[i + 2];
        }
      }
      var ys := Expand(tail);
      assert xs == Repeat(x, k) + ys;
      if tail != [] {
        assert ys == Repeat(tail[0].0, tail[0].1) + Expand(tail[1..]);
        assert ys[0] == tail[0].0;
        assert xs[k] == ys[0];
      }
      LeadRunIs(xs, x, k);
      assert xs[k..] == ys;
      RunsUnique(tail, ys);
    }
  }

  /** `k` copies of one value form one run. */
  lemma RunsOfRepeat<T>(x: T, k: nat)
    requires k >= 1
    ensures Runs(Repeat(x, k)) == [(x, k)]
  {
    var r := Repeat(x, k);
    LeadRunIs(r, x, k);
    assert r[k..] == [];
  }

  /** Splitting where two different values meet splits the runs. */
  lemma {:induction false} RunsConcat<T>(a: seq<T>, b: seq<T>)
    requires a == [] || b == [] || a[|a| - 1] != b[0]
    ensures Runs(a + b) == Runs(a) + Runs(b)
    decreases |a|
  {
    if a == [] {
      assert a + b == b;
    } else {
      var k := LeadRun(a, a[0]);
      LeadRunProps(a, a[0]);
      LeadRunIs(a + b, a[0], k);
      assert (a + b)[0] == a[0];
      assert (a + b)[k..] == a[k..] + b;
      RunsConcat(a[k..], b);
      ConcatAssoc([(a[0], k)], Runs(a[k..]), Runs(b));
    }
  }

  /** A run of `k` equal lines rendered as the loop writes it: one line
   *  tagged `(xk)` when `k` reaches the threshold, else the lines
   *  themselves. */
  function Tagged(s: string, k: nat): string
  {
    s + " (x" + NatToString(k) + ")"
  }

  function RenderRun(r: (string, nat), dedupRunMin: int): seq<string>
  {
    if r.1 >= dedupRunMin then [Tagged(r.0, r.1)] else Repeat(r.0, r.1)
  }

  function Render(rs: seq<(string, nat)>, dedupRunMin: int): seq<string>
  {
    if rs == [] then [] else RenderRun(rs[0], dedupRunMin) + Render(rs[1..], dedupRunMin)
  }

  lemma {:induction false} RenderConcat(rs: seq<(string, nat)>, qs: seq<(string, nat)>, dedupRunMin: int)
    ensures Render(rs + qs, dedupRunMin) == Render(rs, dedupRunMin) + Render(qs, dedupRunMin)
    decreases |rs|
  {
    if rs == [] {
      assert rs + qs == qs;
    } else {
      assert (rs + qs)[1..] == rs[1..] + qs;
      RenderConcat(rs[1..], qs, dedupRunMin);
    }
  }

  /** The output of the second loop for the cleaned lines. */
  function Deduplicated(cleaned: seq<string>, dedupRunMin: int): seq<string>
  {
    Render(Runs(cleaned), dedupRunMin)
  }

  /** The runs of a list with a maximal run of `x` in the middle. */
  lemma RunsAround<T>(a: seq<T>, x: T, k: nat, b: seq<T>)
    requires k >= 1
    requires a == [] || a[|a| - 1] != x
    requires b == [] || b[0] != x
    ensures Runs(a + Repeat(x, k) + b) == Runs(a) + ([(x, k)] + Runs(b))
  {
    var r := Repeat(x, k);
    calc {
      Runs(a + r + b);
      { assert a + r + b == a + (r + b); }
      Runs(a + (r + b));
      { RunsConcat(a, r + b); }
      Runs(a) + Runs(r + b);
      { RunsConcat(r, b); RunsOfRepeat(x, k); }
      Runs(a) + ([(x, k)] + Runs(b));
    }
  }

  lemma RenderAround(rs: seq<(string, nat)>, x: string, k: nat, qs: seq<(string, nat)>, dedupRunMin: int)
    ensures Render(rs + ([(x, k)] + qs), dedupRunMin)
         == Render(rs, dedupRunMin) + RenderRun((x, k), dedupRunMin) + Render(qs, dedupRunMin)
  {
    calc {
      Render(rs + ([(x, k)] + qs), dedupRunMin);
      { RenderConcat(rs, [(x, k)] + qs, dedupRunMin); }
      Render(rs, dedupRunMin) + Render([(x, k)] + qs, dedupRunMin);
      { assert ([(x, k)] + qs)[1..] == qs; }
      Render(rs, dedupRunMin) + (RenderRun((x, k), dedupRunMin) + Render(qs, dedupRunMin));
    }
  }

  /** Inside any list, a maximal run of `k` equal lines becomes one tagged
   *  line when `k` reaches the threshold and is copied otherwise; the lines
   *  around it are handled on their own. */
  lemma DedupRun(a: seq<string>, x: string, k: nat, b: seq<string>, dedupRunMin: int)
    requires k >= 1
    requires a == [] || a[|a| - 1] != x
    requires b == [] || b[0] != x
    ensures Deduplicated(a + Repeat(x, k) + b, dedupRunMin)
         == Deduplicated(a, dedupRunMin)
            + (if k >= dedupRunMin then [Tagged(x, k)] else Repeat(x, k))
            + Deduplicated(b, dedupRunMin)
  {
    RunsAround(a, x, k, b);
    RenderAround(Runs(a), x, k, Runs(b), dedupRunMin);
  }

  /** With a threshold above every run length nothing is merged. */
  lemma {:induction false} RenderShortRuns(rs: seq<(string, nat)>, dedupRunMin: int)
    requires forall i :: 0 <= i < |rs| ==> rs[i].1 < dedupRunMin
    ensures Render(rs, dedupRunMin) == Expand(rs)
  {
    if rs != [] {
      RenderShortRuns(rs[1..], dedupRunMin);
    }
  }

  /** De-duplication never lengthens the list; a threshold above its length
   *  leaves it as it is. */
  lemma {:induction false} DeduplicatedLength(rs: seq<(string, nat)>, dedupRunMin: int)
    requires forall i :: 0 <= i < |rs| ==> rs[i].1 >= 1
    ensures |Render(rs, dedupRunMin)| <= SumCounts(rs)
  {
    if rs != [] {
      DeduplicatedLength(rs[1..], dedupRunMin);
    }
  }

  lemma RunsBound<T>(xs: seq<T>)
    ensures forall i :: 0 <= i < |Runs(xs)| ==> Runs(xs)[i].1 <= |xs|
  {
    RunsProps(xs);
    forall i | 0 <= i < |Runs(xs)|
      ensures Runs(xs)[i].1 <= |xs|
    {
      SumCountsBound(Runs(xs), i);
    }
  }

  lemma {:induction false} SumCountsBound<T>(rs: seq<(T, nat)>, i: nat)
    requires i < |rs|
    ensures rs[i].1 <= SumCounts(rs)
  {
    if i > 0 {
      SumCountsBound(rs[1..], i - 1);
    }
  }

  lemma DeduplicatedProps(cleaned: seq<string>, dedupRunMin: int)
    ensures |Deduplicated(cleaned, dedupRunMin)| <= |cleaned|
    ensures dedupRunMin > |cleaned| ==> Deduplicated(cleaned, dedupRunMin) == cleaned
  {
    RunsProps(cleaned);
    DeduplicatedLength(Runs(cleaned), dedupRunMin);
    if dedupRunMin > |cleaned| {
      RunsBound(cleaned);
      RenderShortRuns(Runs(cleaned), dedupRunMin);
    }
  }

  /** Every rendered line is a cleaned line or one tagged with its run's
   *  length. */
  lemma {:induction false} RenderMembers(rs: seq<(string, nat)>, dedupRunMin: int, l: string)
    requires l in Render(rs, dedupRunMin)
    ensures exists i :: 0 <= i < |rs| && (l == rs[i].0 || l == Tagged(rs[i].0, rs[i].1))
  {
    if l in RenderRun(rs[0], dedupRunMin) {
      assert l == rs[0].0 || l == Tagged(rs[0].0, rs[0].1);
    } else {
      RenderMembers(rs[1..], dedupRunMin, l);
      var i :| 0 <= i < |rs[1..]| && (l == rs[1..][i].0 || l == Tagged(rs[1..][i].0, rs[1..][i].1));
      assert rs[1..][i] == rs[i + 1];
    }
  }

  lemma {:induction false} RunsMembers<T>(xs: seq<T>, i: nat)
    requires i < |Runs(xs)|
    ensures Runs(xs)[i].0 in xs
    decreases |xs|
  {
    var k := LeadRun(xs, xs[0]);
    if i > 0 {
      RunsMembers(xs[k..], i - 1);
    }
  }

  lemma TaggedNotNoise(s: string, k: nat)
    ensures Tagged(s, k) != [] && !IsNoiseOnlyLine(Tagged(s, k))
  {
    var t := Tagged(s, k);
    assert t[|s| + 1] == '(';
    NotNoise(t, |s| + 1);
  }

  /** `preprocess_chat_lines` as a value. */
  function Preprocessed(lines: seq<string>, dedupRunMin: int): seq<string>
  {
    Deduplicated(FilterMap(lines, CleanLine), dedupRunMin)
  }

  /** A tagged copy of a stripped line is stripped as well. */
  lemma TaggedStripped(s: string, k: nat)
    requires s != [] && PyStrip(s) == s
    ensures PyStrip(Tagged(s, k)) == Tagged(s, k)
  {
    var t := Tagged(s, k);
    TrimByProps(s, PyIsSpace);
    assert t[0] == s[0] && t[|t| - 1] == ')';
    TrimByNoEdges(t, PyIsSpace);
  }

  /** No output line is empty or noise, and none has surrounding
   *  whitespace. */
  lemma PreprocessedClean(lines: seq<string>, dedupRunMin: int, l: string)
    requires l in Preprocessed(lines, dedupRunMin)
    ensures l != [] && !IsNoiseOnlyLine(l) && PyStrip(l) == l
  {
    var cleaned := FilterMap(lines, CleanLine);
    RenderMembers(Runs(cleaned), dedupRunMin, l);
    var i :| 0 <= i < |Runs(cleaned)| && (l == Runs(cleaned)[i].0 || l == Tagged(Runs(cleaned)[i].0, Runs(cleaned)[i].1));
    if l == Runs(cleaned)[i].0 {
      RunsMembers(cleaned, i);
      CleanedLinesProps(lines, l);
    } else {
      var x := Runs(cleaned)[i].0;
      RunsMembers(cleaned, i);
      CleanedLinesProps(lines, x);
      TaggedNotNoise(x, Runs(cleaned)[i].1);
      TaggedStripped(x, Runs(cleaned)[i].1);
    }
  }

  /** The first loop of `preprocess_chat_lines`. */
  method CleanChatLines(lines: seq<string>) returns (cleaned: seq<string>)
    ensures cleaned == FilterMap(lines, CleanLine)
  {
    cleaned := [];
    for i := 0 to |lines|
      invariant cleaned == FilterMap(lines[..i], CleanLine)
    {
      assert lines[..i + 1][..i] == lines[..i];
      var s := PyStrip(lines[i]);
      if s == [] {
        continue;
      }
      s := CompressRepeats(s);
      if IsNoiseOnlyLine(s) {
        continue;
      }
      cleaned := cleaned + [s];
    }
    assert lines[..|lines|] == lines;
  }

  /** One round of the run loop: `j - i` equal lines from `i`, stopped by a
   *  different line or the end. */
  lemma RunStep(cleaned: seq<string>, i: nat, j: nat, dedupRunMin: int)
    requires i < j <= |cleaned|
    requires forall t :: i <= t < j ==> cleaned[t] == cleaned[i]
    requires j < |cleaned| ==> cleaned[j] != cleaned[i]
    ensures Render(Runs(cleaned[i..]), dedupRunMin)
         == RenderRun((cleaned[i], j - i), dedupRunMin) + Render(Runs(cleaned[j..]), dedupRunMin)
    ensures cleaned[i..j] == Repeat(cleaned[i], j - i)
  {
    var xs := cleaned[i..];
    LeadRunIs(xs, cleaned[i], j - i);
    assert xs[j - i..] == cleaned[j..];
    assert Runs(xs) == [(cleaned[i], j - i)] + Runs(cleaned[j..]);
  }

  lemma ConcatAssoc<T>(a: seq<T>, b: seq<T>, c: seq<T>)
    ensures a + b + c == a + (b + c)
  {
  }

  /** The inner loop: the end of the run of lines equal to `cleaned[i]`. */
  method RunEnd(cleaned: seq<string>, i: nat) returns (j: nat)
    requires i < |cleaned|
    ensures i < j <= |cleaned|
    ensures forall t :: i <= t < j ==> cleaned[t] == cleaned[i]
    ensures j < |cleaned| ==> cleaned[j] != cleaned[i]
  {
    j := i + 1;
    while j < |cleaned| && cleaned[j] == cleaned[i]
      invariant i + 1 <= j <= |cleaned|
      invariant forall t :: i <= t < j ==> cleaned[t] == cleaned[i]
    {
      j := j + 1;
    }
  }

  /** The second loop of `preprocess_chat_lines`, over `i` and `j`. */
  method DeduplicateRuns(cleaned: seq<string>, dedupRunMin: int) returns (out: seq<string>)
    ensures out == Deduplicated(cleaned, dedupRunMin)
  {
    out := [];
    var i := 0;
    var n := |cleaned|;
    while i < n
      invariant 0 <= i <= n
      invariant out + Render(Runs(cleaned[i..]), dedupRunMin) == Render(Runs(cleaned), dedupRunMin)
    {
      var j := RunEnd(cleaned, i);
      var runLen := j - i;
      RunStep(cleaned, i, j, dedupRunMin);
      ghost var prev := out;
      ghost var rendered := RenderRun((cleaned[i], runLen), dedupRunMin);
      ghost var rest := Render(Runs(cleaned[j..]), dedupRunMin);
      ConcatAssoc(prev, rendered, rest);
      if runLen >= dedupRunMin {
        out := out + [Tagged(cleaned[i], runLen)];
      } else {
        out := out + cleaned[i..j];
      }
      assert out == prev + rendered;
      i := j;
    }
    RenderRunsNil(cleaned[i..], dedupRunMin);
  }

  lemma RenderRunsNil(xs: seq<string>, dedupRunMin: int)
    requires |xs| == 0
    ensures Render(Runs(xs), dedupRunMin) == []
  {
  }

  /** `preprocess_chat_lines`: the cleaning loop, then the run loop. */
  method PreprocessChatLines(lines: seq<string>, dedupRunMin: int) returns (out: seq<string>)
    ensures out == Preprocessed(lines, dedupRunMin)
  {
    var cleaned := CleanChatLines(lines);
    out := DeduplicateRuns(cleaned, dedupRunMin);
  }

  // ---------------------------------------------------------------------
  // strip_timestamps
  // ---------------------------------------------------------------------

  /** `[\d{2}:\d{2}:\d{2}]`, with ASCII digits. */
  predicate IsStamp(p: string)
  {
    |p| == 10 && p[0] == '[' && IsDigit(p[1]) && IsDigit(p[2]) && p[3] == ':'
    && IsDigit(p[4]) && IsDigit(p[5]) && p[6] == ':' && IsDigit(p[7]) && IsDigit(p[8])
    && p[9] == ']'
  }

  predicate AllSpace(s: string)
  {
    forall i :: 0 <= i < |s| ==> PyIsSpace(s[i])
  }

  /** The number of leading whitespace characters (`\s*`, taken
   *  greedily). */
  function LeadSpaces(s: string): (k: nat)
    ensures k <= |s|
    ensures forall i :: 0 <= i < k ==> PyIsSpace(s[i])
    ensures k < |s| ==> !PyIsSpace(s[k])
  {
    if s == [] || !PyIsSpace(s[0]) then 0 else 1 + LeadSpaces(s[1..])
  }

  lemma {:induction false} LeadSpacesIs(s: string, k: nat)
    requires k <= |s| && AllSpace(s[..k]) && (k < |s| ==> !PyIsSpace(s[k]))
    ensures LeadSpaces(s) == k
  {
    if k > 0 {
      assert PyIsSpace(s[..k][0]);
      assert s[1..][..k - 1] == s[..k][1..];
      LeadSpacesIs(s[1..], k - 1);
    }
  }

  /** The length of a match of `\s*:\s*` at the start of `u`. */
  function SpacedColon(u: string): (r: Option<nat>)
    ensures r.Some? ==> 1 <= r.value <= |u|
  {
    var k := LeadSpaces(u);
    if k < |u| && u[k] == ':' then Some(k + 1 + LeadSpaces(u[k + 1..])) else None
  }

  /** Where a match of `^\[\d{2}:\d{2}:\d{2}\]\s*:\s*` ends, if the line
   *  starts with one. */
  function StampEnd(l: string): (r: Option<nat>)
    ensures r.Some? ==> 10 < r.value <= |l|
  {
    if |l| < 10 || !IsStamp(l[..10]) then None
    else match SpacedColon(l[10..])
      case None => None
      case Some(n) => Some(10 + n)
  }

  /** `TS_PREFIX_RE.sub("", line)`: the pattern is anchored, so at most the
   *  one leading match is removed. */
  function StripStamp(l: string): string
  {
    match StampEnd(l)
    case None => l
    case Some(e) => l[e..]
  }

  /** What `\s*:\s*` consumes is spaces, one colon and spaces, and the
   *  spaces are taken greedily. */
  lemma SpacedColonShape(u: string)
    requires SpacedColon(u).Some?
    ensures var n := SpacedColon(u).value;
            (exists k :: 0 <= k < n && AllSpace(u[..k]) && u[k] == ':' && AllSpace(u[k + 1..n]))
            && (n < |u| ==> !PyIsSpace(u[n]))
  {
    var n := SpacedColon(u).value;
    var k := LeadSpaces(u);
    var v := u[k + 1..];
    var m := LeadSpaces(v);
    assert AllSpace(u[..k]) by {
      forall i | 0 <= i < k
        ensures PyIsSpace(u[..k][i])
      {
        assert u[..k][i] == u[i];
      }
    }
    var w := u[k + 1..n];
    assert AllSpace(w) by {
      forall i | 0 <= i < |w|
        ensures PyIsSpace(w[i])
      {
        assert w[i] == v[i];
      }
    }
    if n < |u| {
      assert u[n] == v[m];
    }
  }

  /** What is removed is a stamp followed by a match of `\s*:\s*`. */
  lemma StampEndShape(l: string)
    requires StampEnd(l).Some?
    ensures IsStamp(l[..10]) && SpacedColon(l[10..]) == Some(StampEnd(l).value - 10)
  {
  }

  /** `\s*:\s*` in front of text that does not start with a space matches
   *  up to that text. */
  lemma SpacedColonOf(sp1: string, sp2: string, t: string)
    requires AllSpace(sp1) && AllSpace(sp2)
    requires t == [] || !PyIsSpace(t[0])
    ensures SpacedColon(sp1 + ":" + sp2 + t) == Some(|sp1| + 1 + |sp2|)
  {
    var u := sp1 + ":" + sp2 + t;
    assert u[..|sp1|] == sp1;
    LeadSpacesIs(u, |sp1|);
    var v := u[|sp1| + 1..];
    assert v == sp2 + t;
    assert v[..|sp2|] == sp2;
    LeadSpacesIs(v, |sp2|);
  }

  /** A line written as a stamp, a colon between spaces and the message has
   *  the message left after stripping. */
  lemma StripStampRoundTrip(stamp: string, sp1: string, sp2: string, t: string)
    requires IsStamp(stamp) && AllSpace(sp1) && AllSpace(sp2)
    requires t == [] || !PyIsSpace(t[0])
    ensures StripStamp(stamp + sp1 + ":" + sp2 + t) == t
  {
    var l := stamp + sp1 + ":" + sp2 + t;
    assert l[..10] == stamp;
    assert l[10..] == sp1 + ":" + sp2 + t;
    SpacedColonOf(sp1, sp2, t);
    assert l[10 + |sp1| + 1 + |sp2|..] == t;
  }

  /** A line that does not start with `[` is untouched. */
  lemma StripStampKeeps(l: string)
    requires l == [] || l[0] != '['
    ensures StripStamp(l) == l
  {
  }

  /** Stripping leaves a suffix of the line. */
  lemma StripStampSuffix(l: string)
    ensures |StripStamp(l)| <= |l| && StripStamp(l) == l[|l| - |StripStamp(l)|..]
  {
  }

  function StrippedLines(ls: seq<string>): (r: seq<string>)
    ensures |r| == |ls|
  {
    seq(|ls|, i requires 0 <= i < |ls| => StripStamp(ls[i]))
  }

  /** `strip_timestamps(raw_text)`. */
  function StripTimestamps(raw: string): string
  {
    Join("\n", StrippedLines(PySplitLines(raw)))
  }

  lemma SuffixNoBreak(l: string, r: string)
    requires NoLineBreak(l) && |r| <= |l| && r == l[|l| - |r|..]
    ensures NoLineBreak(r)
  {
    forall i | 0 <= i < |r|
      ensures !PyLineBreak(r[i])
    {
      assert r[i] == l[|l| - |r| + i];
    }
  }

  lemma StripStampNoBreak(l: string)
    requires NoLineBreak(l)
    ensures NoLineBreak(StripStamp(l))
  {
    StripStampSuffix(l);
    SuffixNoBreak(l, StripStamp(l));
  }

  /** Splitting the result again gives one stripped line per input line,
   *  unless the last one became empty (then Python's `splitlines` drops
   *  it). */
  lemma StripTimestampsLines(raw: string)
    requires var r := StrippedLines(PySplitLines(raw)); r == [] || r[|r| - 1] != []
    ensures PySplitLines(StripTimestamps(raw)) == StrippedLines(PySplitLines(raw))
    ensures |PySplitLines(StripTimestamps(raw))| == |PySplitLines(raw)|
  {
    var ls := PySplitLines(raw);
    var r := StrippedLines(ls);
    forall k | 0 <= k < |r|
      ensures NoLineBreak(r[k])
    {
      StripStampNoBreak(ls[k]);
    }
    SplitJoin(r);
  }

  // ---------------------------------------------------------------------
  // ensure_three_lines
  // ---------------------------------------------------------------------

  /** `ln.strip()` for a line that is not blank. */
  function NonBlank(ln: string): Option<string>
  {
    if PyStrip(ln) == [] then None else Some(PyStrip(ln))
  }

  /** `[ln.strip() for ln in text.splitlines() if ln.strip()]`. */
  function NonBlankLines(text: string): seq<string>
  {
    FilterMap(PySplitLines(text), NonBlank)
  }

  /** The answer has exactly three non-blank lines, starting with
   *  `EVIDENCE:`, `SUMMARY:` and `TITLE:` in that order. */
  predicate EnsureThreeLines(outText: string)
  {
    var ls := NonBlankLines(outText);
    |ls| == 3 && StartsWith(ls[0], "EVIDENCE:") && StartsWith(ls[1], "SUMMARY:")
    && StartsWith(ls[2], "TITLE:")
  }

  /** Stripping keeps a leading part whose edges are visible. */
  lemma StripKeepsPrefix(p: string, x: string)
    requires p != [] && !PyIsSpace(p[0]) && !PyIsSpace(p[|p| - 1])
    ensures StartsWith(PyStrip(p + x), p)
  {
    var s := p + x;
    assert TrimStartBy(s, PyIsSpace) == s;
    var r := TrimEndBy(s, PyIsSpace);
    assert s[|p| - 1] == p[|p| - 1];
    assert |r| >= |p|;
    assert r[..|p|] == s[..|p|] == p;
  }

  lemma NonBlankHeaded(p: string, x: string)
    requires p != [] && !PyIsSpace(p[0]) && !PyIsSpace(p[|p| - 1])
    ensures NonBlank(p + x).Some? && StartsWith(NonBlank(p + x).value, p)
  {
    StripKeepsPrefix(p, x);
  }

  /** Three lines without boundaries, joined by `\n`, split back into three
   *  when the last is not empty. */
  lemma SplitThree(e: string, m: string, t: string)
    requires NoLineBreak(e) && NoLineBreak(m) && NoLineBreak(t) && t != []
    ensures PySplitLines(e + "\n" + m + "\n" + t) == [e, m, t]
  {
    assert e + "\n" + m + "\n" + t == e + "\n" + (m + "\n" + t);
    SplitLinesCons(e, m + "\n" + t);
    SplitLinesCons(m, t);
    SplitLinesOne(t);
  }

  lemma FilterMapThree<T, U>(a: T, b: T, c: T, f: T -> Option<U>)
    requires f(a).Some? && f(b).Some? && f(c).Some?
    ensures FilterMap([a, b, c], f) == [f(a).value, f(b).value, f(c).value]
  {
    assert [a, b, c][..2] == [a, b];
    assert [a, b][..1] == [a];
    assert [a][..0] == [];
    assert FilterMap([a], f) == [f(a).value];
    assert FilterMap([a, b], f) == [f(a).value] + [f(b).value];
  }

  /** Three lines headed `EVIDENCE:`, `SUMMARY:` and `TITLE:` pass the
   *  check, whatever follows each head. */
  lemma EnsureThreeLinesAccepts(x: string, y: string, z: string)
    requires NoLineBreak(x) && NoLineBreak(y) && NoLineBreak(z)
    ensures EnsureThreeLines("EVIDENCE:" + x + "\n" + ("SUMMARY:" + y) + "\n" + ("TITLE:" + z))
  {
    var e, m, t := "EVIDENCE:" + x, "SUMMARY:" + y, "TITLE:" + z;
    HeadsProper();
    HeadedLine("EVIDENCE:", x);
    HeadedLine("SUMMARY:", y);
    HeadedLine("TITLE:", z);
    NonBlankThree(e, m, t);
  }

  lemma NonBlankThree(e: string, m: string, t: string)
    requires NoLineBreak(e) && NoLineBreak(m) && NoLineBreak(t) && t != []
    requires NonBlank(e).Some? && NonBlank(m).Some? && NonBlank(t).Some?
    ensures NonBlankLines(e + "\n" + m + "\n" + t) == [NonBlank(e).value, NonBlank(m).value, NonBlank(t).value]
  {
    SplitThree(e, m, t);
    FilterMapThree(e, m, t, NonBlank);
  }

  /** A header word: visible at both ends and without a line boundary. */
  predicate ProperHead(h: string)
  {
    h != [] && !PyIsSpace(h[0]) && !PyIsSpace(h[|h| - 1]) && NoLineBreak(h)
  }

  lemma HeadsProper()
    ensures ProperHead("EVIDENCE:") && ProperHead("SUMMARY:") && ProperHead("TITLE:")
  {
  }

  lemma HeadedLine(h: string, x: string)
    requires ProperHead(h) && NoLineBreak(x)
    ensures NoLineBreak(h + x) && h + x != []
    ensures NonBlank(h + x).Some? && StartsWith(NonBlank(h + x).value, h)
  {
    HeadedNoBreak(h, x);
    NonBlankHeaded(h, x);
  }

  lemma HeadedNoBreak(h: string, x: string)
    requires NoLineBreak(h) && NoLineBreak(x)
    ensures NoLineBreak(h + x)
  {
    forall i | 0 <= i < |h + x|
      ensures !PyLineBreak((h + x)[i])
    {
      if i >= |h| {
        assert (h + x)[i] == x[i - |h|];
      }
    }
  }

  /** Blank lines anywhere do not matter. */
  lemma EnsureThreeLinesSkipsBlank(a: string, b: string)
    requires NoLineBreak(a) && AllSpace(a)
    ensures NonBlankLines(a + "\n" + b) == NonBlankLines(b)
  {
    TrimByEmpty(a, PyIsSpace);
    assert NonBlank(a).None?;
    assert FilterMap([a], NonBlank) == [] by {
      assert [a][..0] == [];
    }
    calc {
      NonBlankLines(a + "\n" + b);
      { SplitLinesCons(a, b); }
      FilterMap([a] + PySplitLines(b), NonBlank);
      { FilterMapConcat([a], PySplitLines(b), NonBlank); }
      FilterMap([a], NonBlank) + NonBlankLines(b);
      { assert [] + NonBlankLines(b) == NonBlankLines(b); }
      NonBlankLines(b);
    }
  }

  // ---------------------------------------------------------------------
  // main: preparing the chat text
  // ---------------------------------------------------------------------

  /** `--denoise` forces cleaning on, otherwise `--no_denoise` turns the
   *  default off. */
  function DoDenoise(denoise: bool, noDenoise: bool): (r: bool)
    ensures r <==> denoise || !noDenoise
  {
    if denoise then true else !noDenoise
  }

  function Max(a: int, b: int): int
  {
    if a >= b then a else b
  }

  /** `lines[-max_lines:]` when `max_lines` is positive and exceeded. */
  function KeepLast(ls: seq<string>, maxLines: int): (r: seq<string>)
    ensures maxLines > 0 ==> |r| <= maxLines
    ensures |r| <= |ls| && r == ls[|ls| - |r|..]
    ensures (maxLines <= 0 || |ls| <= maxLines) ==> r == ls
    ensures maxLines > 0 && |ls| > maxLines ==> |r| == maxLines
  {
    if maxLines > 0 && |ls| > maxLines then ls[|ls| - maxLines..] else ls
  }

  /** The lines the models are shown. */
  function PreparedLines(raw: string, doDenoise: bool, dedupRunMin: int, maxLines: int): seq<string>
  {
    var lines := PySplitLines(StripTimestamps(raw));
    KeepLast(if doDenoise then Preprocessed(lines, Max(2, dedupRunMin)) else FilterMap(lines, NonBlank), maxLines)
  }

  /** The chat text prepared in `main`: stamps stripped, lines cleaned and
   *  de-duplicated with a threshold of at least two (or only stripped and
   *  non-blank without cleaning), then cut to the last `maxLines`. */
  method PrepareChatText(raw: string, denoise: bool, noDenoise: bool, dedupRunMin: int, maxLines: int)
    returns (lines: seq<string>, chatText: string)
    ensures lines == PreparedLines(raw, DoDenoise(denoise, noDenoise), dedupRunMin, maxLines)
    ensures chatText == Join("\n", lines)
  {
    var cleaned := StripTimestamps(raw);
    lines := PySplitLines(cleaned);
    var doDenoise := true;
    if noDenoise {
      doDenoise := false;
    }
    if denoise {
      doDenoise := true;
    }
    if doDenoise {
      lines := PreprocessChatLines(lines, Max(2, dedupRunMin));
    } else {
      lines := FilterMap(lines, NonBlank);
    }
    if maxLines > 0 && |lines| > maxLines {
      lines := lines[|lines| - maxLines..];
    }
    chatText := Join("\n", lines);
  }

  lemma NonBlankMembers(lines: seq<string>, l: string)
    requires l in FilterMap(lines, NonBlank)
    ensures l != [] && PyStrip(l) == l
  {
    FilterMapMembers(lines, NonBlank, l);
    var j :| 0 <= j < |lines| && NonBlank(lines[j]) == Some(l);
    TrimByIdempotent(lines[j], PyIsSpace);
  }

  lemma KeepLastMembers(ls: seq<string>, maxLines: int, l: string)
    requires l in KeepLast(ls, maxLines)
    ensures l in ls
  {
    var r := KeepLast(ls, maxLines);
    var i :| 0 <= i < |r| && r[i] == l;
    assert l == ls[|ls| - |r| + i];
  }

  /** No prepared line is blank or has surrounding whitespace, and none is
   *  noise when cleaning is on. */
  lemma PreparedLinesProps(raw: string, doDenoise: bool, dedupRunMin: int, maxLines: int, l: string)
    requires l in PreparedLines(raw, doDenoise, dedupRunMin, maxLines)
    ensures l != [] && PyStrip(l) == l
    ensures doDenoise ==> !IsNoiseOnlyLine(l)
  {
    var lines := PySplitLines(StripTimestamps(raw));
    var all := if doDenoise then Preprocessed(lines, Max(2, dedupRunMin)) else FilterMap(lines, NonBlank);
    KeepLastMembers(all, maxLines, l);
    if doDenoise {
      PreprocessedClean(lines, Max(2, dedupRunMin), l);
    } else {
      NonBlankMembers(lines, l);
    }
  }
}
