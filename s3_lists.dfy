/** infra/lambda/s3-lists.py: the lambda that lists the files directly under
 *  an S3 prefix and writes the list as JSON to an output path. The event is
 *  a decoded JSON value; the pages `list_objects_v2` returns are an input
 *  (`pages`), the UTC time stamp `%Y%m%dT%H%M%SZ` of the run is the
 *  parameter `ts`, and `isoformat()` of a modification time is the
 *  parameter `iso`. */
module S3Lists {
  import opened Wrappers
  import opened Text
  import opened Json
  import opened S3Paths
  import Seqs

  // ---------------------------------------------------------------------
  // The listing prefix and the output key
  // ---------------------------------------------------------------------

  /** The prefix used as a folder: a `/` is appended unless it is already
   *  there (an empty prefix, which `_require_str` never lets through, is
   *  left empty). */
  function FolderPrefix(prefix: string): (r: string)
    ensures r == prefix || r == prefix + "/"
    ensures prefix != [] ==> EndsWith(r, "/")
  {
    if prefix != [] && !EndsWith(prefix, "/") then prefix + "/" else prefix
  }

  /** Normalising the prefix twice changes nothing more. */
  lemma FolderPrefixIdempotent(prefix: string)
    ensures FolderPrefix(FolderPrefix(prefix)) == FolderPrefix(prefix)
  {
  }

  /** `out_key`: a folder gets `<ts>.json` inside it, a `.json` name (in any
   *  case) is used as it is, and any other key is treated as a folder:
   *  trailing slashes trimmed, then `/<ts>.json`. */
  function OutputKey(keyOrPrefix: string, ts: string): string
  {
    if EndsWith(keyOrPrefix, "/") then keyOrPrefix + ts + ".json"
    else if HasJsonSuffix(keyOrPrefix) then keyOrPrefix
    else TrimEndBy(keyOrPrefix, IsSlash) + "/" + ts + ".json"
  }

  /** The output key in each of the three cases; in the third the
   *  `rstrip('/')` removes nothing, since the key does not end with `/`. */
  lemma OutputKeyCases(keyOrPrefix: string, ts: string)
    ensures EndsWith(keyOrPrefix, "/") ==> OutputKey(keyOrPrefix, ts) == keyOrPrefix + ts + ".json"
    ensures !EndsWith(keyOrPrefix, "/") && HasJsonSuffix(keyOrPrefix) ==>
      OutputKey(keyOrPrefix, ts) == keyOrPrefix
    ensures !EndsWith(keyOrPrefix, "/") && !HasJsonSuffix(keyOrPrefix) ==>
      OutputKey(keyOrPrefix, ts) == keyOrPrefix + "/" + ts + ".json"
  {
    if !EndsWith(keyOrPrefix, "/") && keyOrPrefix != [] {
      assert !IsSlash(keyOrPrefix[|keyOrPrefix| - 1]) by {
        assert keyOrPrefix[|keyOrPrefix| - 1..] == [keyOrPrefix[|keyOrPrefix| - 1]];
      }
    }
  }

  /** Whatever the case, the object written is a `.json` file inside the
   *  requested path. */
  lemma OutputKeyIsJson(keyOrPrefix: string, ts: string)
    ensures HasJsonSuffix(OutputKey(keyOrPrefix, ts))
    ensures StartsWith(OutputKey(keyOrPrefix, ts), keyOrPrefix)
  {
    OutputKeyCases(keyOrPrefix, ts);
    var k := OutputKey(keyOrPrefix, ts);
    if EndsWith(keyOrPrefix, "/") {
      JsonSuffixOf(keyOrPrefix + ts);
      assert k == (keyOrPrefix + ts) + ".json";
      assert k[..|keyOrPrefix|] == keyOrPrefix;
    } else if !HasJsonSuffix(keyOrPrefix) {
      JsonSuffixOf(keyOrPrefix + "/" + ts);
      assert k == (keyOrPrefix + "/" + ts) + ".json";
      assert k[..|keyOrPrefix|] == keyOrPrefix;
    }
  }

  // ---------------------------------------------------------------------
  // The items
  // ---------------------------------------------------------------------

  /** One entry of a page's `Contents`: its key, `Size` (null when absent)
   *  and `LastModified` in seconds, when present. */
  datatype S3Object = S3Object(key: string, size: Json, lastModified: Option<int>)

  /** One entry of the written list. */
  datatype Item = Item(key: string, filename: string, size: Json, lastModified: Option<string>)

  /** The item an object contributes: none for the prefix key itself and for
   *  a "folder" key ending in `/`; otherwise its key, the name after the
   *  last `/`, its size and its modification time in ISO form. */
  function ItemOf(o: S3Object, prefix: string, iso: int -> string): Option<Item>
  {
    if o.key == prefix || EndsWith(o.key, "/") then None
    else
      var lm := if o.lastModified.Some? then Some(iso(o.lastModified.value)) else None;
      Some(Item(o.key, AfterLast(o.key, '/'), o.size, lm))
  }

  /** An object yields an item exactly when it is a file other than the
   *  prefix; the item keeps its key and size, its file name is the last
   *  segment of the key, and it has a time exactly when the object has. */
  lemma ItemOfShape(o: S3Object, prefix: string, iso: int -> string)
    ensures ItemOf(o, prefix, iso).Some? <==> o.key != prefix && !EndsWith(o.key, "/")
    ensures ItemOf(o, prefix, iso).Some? ==> var it := ItemOf(o, prefix, iso).value;
      it.key == o.key && it.size == o.size
      && '/' !in it.filename && EndsWith(o.key, it.filename)
      && (|it.filename| < |o.key| ==> o.key[|o.key| - |it.filename| - 1] == '/')
      && (it.lastModified.Some? <==> o.lastModified.Some?)
  {
  }

  function ItemFn(prefix: string, iso: int -> string): S3Object -> Option<Item>
  {
    o => ItemOf(o, prefix, iso)
  }

  /** The items of all the pages, in listing order. */
  function Items(pages: seq<seq<S3Object>>, prefix: string, iso: int -> string): seq<Item>
  {
    Seqs.FilterMap(Seqs.Flatten(pages), ItemFn(prefix, iso))
  }

  /** An item is listed exactly when some object of some page yields it:
   *  a file under the prefix, never the prefix itself nor a folder key. */
  lemma ItemsMembers(pages: seq<seq<S3Object>>, prefix: string, iso: int -> string, it: Item)
    ensures it in Items(pages, prefix, iso) <==>
      exists i :: 0 <= i < |Seqs.Flatten(pages)| && ItemOf(Seqs.Flatten(pages)[i], prefix, iso) == Some(it)
  {
    var objs := Seqs.Flatten(pages);
    Seqs.FilterMapMembers(objs, ItemFn(prefix, iso), it);
    assert forall i :: 0 <= i < |objs| ==> ItemFn(prefix, iso)(objs[i]) == ItemOf(objs[i], prefix, iso);
  }

  /** Every listed item is a file: its key is neither the prefix nor a
   *  folder, and its file name is the last path segment. */
  lemma ItemsAreFiles(pages: seq<seq<S3Object>>, prefix: string, iso: int -> string, it: Item)
    requires it in Items(pages, prefix, iso)
    ensures it.key != prefix && !EndsWith(it.key, "/")
    ensures '/' !in it.filename && EndsWith(it.key, it.filename)
  {
    ItemsMembers(pages, prefix, iso, it);
    var objs := Seqs.Flatten(pages);
    var i :| 0 <= i < |objs| && ItemOf(objs[i], prefix, iso) == Some(it);
    ItemOfShape(objs[i], prefix, iso);
  }

  /** The loop over the pages. */
  method ListItems(pages: seq<seq<S3Object>>, prefix: string, iso: int -> string)
    returns (items: seq<Item>)
    ensures items == Items(pages, prefix, iso)
  {
    items := [];
    for p := 0 to |pages|
      invariant items == Seqs.FilterMap(Seqs.Flatten(pages[..p]), ItemFn(prefix, iso))
    {
      Seqs.FlattenSnoc(pages, p);
      Seqs.FilterMapConcat(Seqs.Flatten(pages[..p]), pages[p], ItemFn(prefix, iso));
      var more := ScanPage(pages[p], prefix, iso);
      items := items + more;
    }
    assert pages[..|pages|] == pages;
  }

  /** The loop over the entries of one page. */
  method ScanPage(page: seq<S3Object>, prefix: string, iso: int -> string) returns (items: seq<Item>)
    ensures items == Seqs.FilterMap(page, ItemFn(prefix, iso))
  {
    items := [];
    for j := 0 to |page|
      invariant items == Seqs.FilterMap(page[..j], ItemFn(prefix, iso))
    {
      Seqs.FilterMapSnoc(page, j, ItemFn(prefix, iso));
      var it := ItemOf(page[j], prefix, iso);
      assert ItemFn(prefix, iso)(page[j]) == it;
      if it.Some? {
        items := items + [it.value];
      }
    }
    assert page[..|page|] == page;
  }

  // ---------------------------------------------------------------------
  // handler
  // ---------------------------------------------------------------------

  /** What the handler reads from its event. */
  datatype Request = Request(bucket: string, prefix: string, outBucket: string, outKey: string)

  /** This lambda's wording of the missing-field error; the test itself is
   *  `RequireStr`. */
  function MissingField(key: string): string
  {
    "event['" + key + "'] (non-empty string) is required."
  }

  /** The input half of `handler`: the event must be an object with the
   *  three required strings, and the output path must split into a bucket
   *  and a key. */
  function ReadRequest(event: Json, ts: string): (r: Result<Request>)
    ensures r.Ok? <==> (event.JObj? && RequireStr(event.fields, "bucket").Ok?
      && RequireStr(event.fields, "prefix").Ok? && RequireStr(event.fields, "output_bucket_path").Ok?
      && ParseS3Path(RequireStr(event.fields, "output_bucket_path").value).Ok?)
    ensures r.Ok? ==> (r.value.bucket == RequireStr(event.fields, "bucket").value
      && r.value.prefix == FolderPrefix(RequireStr(event.fields, "prefix").value))
    ensures r.Ok? ==> var (b, k) := ParseS3Path(RequireStr(event.fields, "output_bucket_path").value).value;
      r.value.outBucket == b && r.value.outKey == OutputKey(k, ts)
  {
    if !event.JObj? then Err("Event must be a JSON object.")
    else
      var bucket := RequireStr(event.fields, "bucket");
      var prefix := RequireStr(event.fields, "prefix");
      var output := RequireStr(event.fields, "output_bucket_path");
      if bucket.Err? then Err(MissingField("bucket"))
      else if prefix.Err? then Err(MissingField("prefix"))
      else if output.Err? then Err(MissingField("output_bucket_path"))
      else match ParseS3Path(output.value)
        case Err(_) => Err("output_bucket_path must be like 's3://bucket/key' or 'bucket/key'")
        case Ok((b, k)) => Ok(Request(bucket.value, FolderPrefix(prefix.value), b, OutputKey(k, ts)))
  }

  /** What an accepted request lists and where it writes: a prefix that ends
   *  with `/`, a bucket without `/`, and a `.json` key. */
  lemma RequestShape(event: Json, ts: string)
    requires ReadRequest(event, ts).Ok?
    ensures var q := ReadRequest(event, ts).value;
      EndsWith(q.prefix, "/") && q.bucket != [] && q.outBucket != [] && '/' !in q.outBucket
      && HasJsonSuffix(q.outKey)
  {
    var k := ParseS3Path(RequireStr(event.fields, "output_bucket_path").value).value.1;
    OutputKeyIsJson(k, ts);
  }

  /** The handler's answer: the number of items, the output location and
   *  the items written there. */
  datatype Response = Response(count: nat, outBucket: string, outKey: string, items: seq<Item>)

  /** `handler`, with the listing and the clock as inputs. */
  method Handler(event: Json, ts: string, pages: seq<seq<S3Object>>, iso: int -> string)
    returns (r: Result<Response>)
    ensures r.Err? <==> ReadRequest(event, ts).Err?
    ensures r.Ok? ==> var q := ReadRequest(event, ts).value;
      r.value.items == Items(pages, q.prefix, iso) && r.value.count == |r.value.items|
      && r.value.outBucket == q.outBucket && r.value.outKey == q.outKey
  {
    var req := ReadRequest(event, ts);
    if req.Err? {
      return Err(req.error);
    }
    var items := ListItems(pages, req.value.prefix, iso);
    return Ok(Response(|items|, req.value.outBucket, req.value.outKey, items));
  }
}
