/**
 * The public URL of an object in a storage bucket, as the result grids build
 * it: leading slashes dropped, each path segment percent-encoded, and the
 * segments joined back with `/` under `<base>/storage/v1/object/public/<bucket>/`.
 */
module PublicUrls {
  import opened Maybe
  import opened Text
  import opened PercentEncoding

  predicate IsSlash(c: char) {
    c == '/'
  }

  predicate NoLeadingSlash(s: string) {
    s == [] || s[0] != '/'
  }

  /** `replace(/^\/+/, "")`: the leading run of slashes removed. */
  function StripLeadingSlashes(s: string): (r: string)
    ensures |r| <= |s| && r == s[|s| - |r|..]
    ensures forall i :: 0 <= i < |s| - |r| ==> s[i] == '/'
    ensures NoLeadingSlash(r)
  {
    if s != [] && s[0] == '/' then
      var r := StripLeadingSlashes(s[1..]);
      assert forall i :: 1 <= i < |s| - |r| ==> s[i] == s[1..][i - 1];
      r
    else s
  }

  function EncodeSegments(parts: seq<string>): (r: seq<string>)
    ensures |r| == |parts|
    ensures forall k :: 0 <= k < |parts| ==> r[k] == EncodeComponent(parts[k])
  {
    seq(|parts|, k requires 0 <= k < |parts| => EncodeComponent(parts[k]))
  }

  /** `clean.split("/").map(encodeURIComponent).join("/")`. */
  function EncodePath(clean: string): string {
    Join(EncodeSegments(Split(clean, IsSlash)), "/")
  }

  /** Decodes each `/`-separated segment and joins them back with `/`. */
  function DecodeSegments(parts: seq<string>): (r: Option<seq<string>>)
    ensures r.Some? ==> |r.value| == |parts|
  {
    if parts == [] then Some([])
    else
      match (DecodeComponent(parts[0]), DecodeSegments(parts[1..]))
      case (Some(x), Some(xs)) => Some([x] + xs)
      case _ => None
  }

  function DecodePath(encoded: string): Option<string> {
    match DecodeSegments(Split(encoded, IsSlash))
    case None => None
    case Some(parts) => Some(Join(parts, "/"))
  }

  lemma {:induction false} DecodeEncodedSegments(parts: seq<string>)
    ensures DecodeSegments(EncodeSegments(parts)) == Some(parts)
  {
    if parts != [] {
      var e := EncodeSegments(parts);
      assert e[1..] == EncodeSegments(parts[1..]);
      DecodeEncodedSegments(parts[1..]);
      ComponentRoundTrip(parts[0]);
      assert parts == [parts[0]] + parts[1..];
    }
  }

  /** The encoded path has as many segments as the clean one, since an encoded segment holds no `/`. */
  lemma EncodedSegments(clean: string)
    ensures Split(EncodePath(clean), IsSlash) == EncodeSegments(Split(clean, IsSlash))
  {
    var e := EncodeSegments(Split(clean, IsSlash));
    forall k | 0 <= k < |e| ensures NoneOf(e[k], IsSlash) {
      assert AllOf(e[k], IsEncodedChar);
    }
    SplitJoin(e, IsSlash, '/');
  }

  /** Decoding the encoded path gives the clean path back: the encoding loses nothing. */
  lemma PathRoundTrip(clean: string)
    ensures DecodePath(EncodePath(clean)) == Some(clean)
  {
    EncodedSegments(clean);
    DecodeEncodedSegments(Split(clean, IsSlash));
    JoinSplit(clean, IsSlash, '/');
  }

  lemma EncodeNonEmpty(s: string)
    requires s != []
    ensures EncodeComponent(s) != [] && EncodeComponent(s)[0] != '/'
  {
    assert Utf8(s) == Utf8Char(s[0]) + Utf8(s[1..]);
    var bs := Utf8(s);
    assert EncodeBytes(bs) == EncodeByte(bs[0]) + EncodeBytes(bs[1..]);
    assert AllOf(EncodeComponent(s), IsEncodedChar);
  }

  /** A clean path, without a leading slash, encodes to one without a leading slash. */
  lemma EncodedNoLeadingSlash(clean: string)
    requires NoLeadingSlash(clean)
    ensures NoLeadingSlash(EncodePath(clean))
  {
    var parts := Split(clean, IsSlash);
    var e := EncodeSegments(parts);
    if clean != [] {
      assert parts[0] != [] && parts[0][0] == clean[0] by {
        assert parts == (var rest := Split(clean[1..], IsSlash); [[clean[0]] + rest[0]] + rest[1..]);
      }
      EncodeNonEmpty(parts[0]);
      if |e| > 1 {
        assert EncodePath(clean) == e[0] + "/" + Join(e[1..], "/");
      }
    }
  }

  /** `<base>/storage/v1/object/public/<bucket>/`. */
  function BucketPrefix(base: string, bucket: string): string {
    base + "/storage/v1/object/public/" + bucket + "/"
  }

  /** The path after the optional `trim` and the slash stripping. */
  function CleanPath(path: string, trimFirst: bool): (r: string)
    ensures NoLeadingSlash(r)
  {
    StripLeadingSlashes(if trimFirst then Trim(path) else path)
  }

  /**
   * The URL of `path` in `bucket`, or `None` when the path or the base URL
   * is missing or empty. The part after the bucket prefix decodes back to the
   * cleaned path and does not start with a slash.
   */
  function ObjectUrl(base: Option<string>, bucket: string, path: Option<string>, trimFirst: bool): (r: Option<string>)
    ensures r.None? <==> path.None? || path.value == [] || base.None? || base.value == []
    ensures r.Some? ==>
      var prefix := BucketPrefix(base.value, bucket);
      && StartsWith(r.value, prefix)
      && DecodePath(r.value[|prefix|..]) == Some(CleanPath(path.value, trimFirst))
      && NoLeadingSlash(r.value[|prefix|..])
  {
    match (path, base)
    case (Some(p), Some(b)) =>
      if p == [] || b == [] then None
      else
        var clean := CleanPath(p, trimFirst);
        var prefix := BucketPrefix(b, bucket);
        var url := prefix + EncodePath(clean);
        assert url[|prefix|..] == EncodePath(clean);
        PathRoundTrip(clean);
        EncodedNoLeadingSlash(clean);
        Some(url)
    case _ => None
  }

  /** A path that cleans to nothing, such as one of slashes only, yields the bucket's own URL. */
  lemma EmptyCleanPath(base: string, bucket: string, path: string, trimFirst: bool)
    requires base != [] && path != [] && CleanPath(path, trimFirst) == []
    ensures ObjectUrl(Some(base), bucket, Some(path), trimFirst) == Some(BucketPrefix(base, bucket))
  {
    assert Split([], IsSlash) == [[]];
    assert EncodeSegments([[]]) == [EncodeComponent([])];
    assert EncodeComponent([]) == [];
    assert EncodePath([]) == [];
    assert ObjectUrl(Some(base), bucket, Some(path), trimFirst) == Some(BucketPrefix(base, bucket) + EncodePath(CleanPath(path, trimFirst)));
    assert BucketPrefix(base, bucket) + [] == BucketPrefix(base, bucket);
  }
}
