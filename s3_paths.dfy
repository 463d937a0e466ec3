/** The input helpers the two S3 lambdas share: a required non-blank string
 *  field of the event (`_req` in workflows/lambda/queueing-videos.py,
 *  `_require_str` in infra/lambda/s3-lists.py) and the split of an
 *  `s3://bucket/key` or `bucket/key` path (`_parse_s3_uri` and
 *  `_parse_s3_path`). Each pair applies the same test and differs only in
 *  the text of its `ValueError`; the texts here are those of
 *  queueing-videos.py, and `S3Lists.ReadRequest` substitutes the
 *  s3-lists.py ones. */
module S3Paths {
  import opened Wrappers
  import opened Text
  import opened Json

  const SCHEME: string := "s3://"

  /** `event.get(key)` must be a string that is not blank; the stripped
   *  string is returned, otherwise `ValueError`. */
  function RequireStr(event: Object, key: string): (r: Result<string>)
    ensures r.Ok? <==> Get(event, key).JStr? && PyStrip(Get(event, key).s) != []
    ensures r.Ok? ==> r.value == PyStrip(Get(event, key).s)
    ensures r.Ok? ==> r.value != [] && EdgesNotIn(r.value, PyIsSpace)
  {
    var v := Get(event, key);
    if v.JStr? && PyStrip(v.s) != [] then
      TrimByEdges(v.s, PyIsSpace);
      Ok(PyStrip(v.s))
    else Err("event['" + key + "'] is required (non-empty string).")
  }

  /** The path with an optional leading `s3://` removed. */
  function Unscheme(p: string): string
  {
    if StartsWith(p, SCHEME) then p[|SCHEME|..] else p
  }

  /** The canonical spelling of a bucket and key. */
  function S3Uri(bucket: string, key: string): string
  {
    SCHEME + (bucket + "/" + key)
  }

  /** Strip, drop `s3://`, split at the first `/`; both parts must be
   *  non-empty, otherwise `ValueError`. The key may contain further `/`. */
  function ParseS3Path(path: string): (r: Result<(string, string)>)
    ensures r.Ok? ==> r.value.0 != [] && r.value.1 != [] && '/' !in r.value.0
  {
    match SplitOnce(Unscheme(PyStrip(path)), '/')
    case None => Err("S3 uri must be like s3://bucket/key")
    case Some((b, k)) =>
      if b == [] || k == [] then Err("S3 uri must be like s3://bucket/key")
      else Ok((b, k))
  }

  /** What was accepted is exactly a bucket and a key joined by `/`, with or
   *  without the scheme, up to surrounding whitespace. */
  lemma ParsedShape(path: string)
    ensures ParseS3Path(path).Ok? ==> var (b, k) := ParseS3Path(path).value;
      PyStrip(path) == S3Uri(b, k) || PyStrip(path) == b + "/" + k
  {
    var p := PyStrip(path);
    match SplitOnce(Unscheme(p), '/')
    case None =>
    case Some((b, k)) => UnschemedShape(p, b, k);
  }

  lemma UnschemedShape(p: string, b: string, k: string)
    requires SplitOnce(Unscheme(p), '/') == Some((b, k))
    ensures p == S3Uri(b, k) || p == b + "/" + k
  {
    var u := Unscheme(p);
    assert u == b + "/" + k;
    if StartsWith(p, SCHEME) {
      assert p == p[..|SCHEME|] + p[|SCHEME|..];
    }
  }

  /** A bucket and key that can be written as a path and read back. */
  predicate Splittable(bucket: string, key: string)
  {
    bucket != [] && '/' !in bucket && key != []
    && !PyIsSpace(bucket[0]) && !PyIsSpace(key[|key| - 1])
  }

  /** Round trip: the canonical `s3://bucket/key` spelling parses back to
   *  the bucket and the key. */
  lemma ParseS3Uri(bucket: string, key: string)
    requires Splittable(bucket, key)
    ensures ParseS3Path(S3Uri(bucket, key)) == Ok((bucket, key))
  {
    var s := S3Uri(bucket, key);
    var u := bucket + "/" + key;
    assert s == SCHEME + u;
    assert s[0] == 's' && s[|s| - 1] == key[|key| - 1];
    TrimByNoEdges(s, PyIsSpace);
    assert s[..|SCHEME|] == SCHEME;
    assert s[|SCHEME|..] == u;
    SplitAtFirst(bucket, key, '/');
  }

  /** Round trip for the bare `bucket/key` spelling, unless the bucket is
   *  `s3:` (then the text reads as a scheme). */
  lemma ParseBarePath(bucket: string, key: string)
    requires Splittable(bucket, key) && bucket != "s3:"
    ensures ParseS3Path(bucket + "/" + key) == Ok((bucket, key))
  {
    var u := bucket + "/" + key;
    assert u[0] == bucket[0] && u[|u| - 1] == key[|key| - 1];
    TrimByNoEdges(u, PyIsSpace);
    if |bucket| > 3 {
      assert u[3] == bucket[3];
    } else if |bucket| == 3 {
      assert u[..3] == bucket;
    } else {
      assert u[|bucket|] == '/';
    }
    assert !StartsWith(u, SCHEME);
    SplitAtFirst(bucket, key, '/');
  }

  /** `s.lower().endswith(".json")`: a name ending in `.json` in any letter
   *  case. */
  predicate HasJsonSuffix(s: string)
  {
    |s| >= 5 && AsciiLower(s[|s| - 5..]) == ".json"
  }

  /** A name written with a lower-case `.json` has the suffix. */
  lemma JsonSuffixOf(stem: string)
    ensures HasJsonSuffix(stem + ".json")
  {
    var s := stem + ".json";
    assert s[|s| - 5..] == ".json";
    var l := AsciiLower(".json");
    assert l[0] == '.' && l[1] == 'j' && l[2] == 's' && l[3] == 'o' && l[4] == 'n';
  }

  lemma SplitAtFirst(a: string, b: string, c: char)
    requires c !in a
    ensures SplitOnce(a + [c] + b, c) == Some((a, b))
  {
    IndexOfAfter(a, b, c);
    var s := a + [c] + b;
    assert s[..|a|] == a && s[|a| + 1..] == b;
  }

  lemma {:induction false} IndexOfAfter(a: string, b: string, c: char)
    requires c !in a
    ensures IndexOf(a + [c] + b, c) == Some(|a|)
  {
    if a != [] {
      assert (a + [c] + b)[1..] == a[1..] + [c] + b;
      IndexOfAfter(a[1..], b, c);
    }
  }
}
