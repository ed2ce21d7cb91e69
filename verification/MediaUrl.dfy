/** Storage keys and the URLs they are served under: printing a key as a URL and reading it back. */
module MediaUrl {
  import opened Optional
  import opened Sorting
  import opened Text

  /** The bucket, the path prefix, and which texts the URL parser accepts. */
  datatype Options = Options(bucket: string, pathPrefix: string, accepts: string -> bool)

  const DEFAULTS := Options("agahiram", "/storage", (url: string) => true)

  /** A key, JavaScript's `null`, or an exception. */
  datatype Parsed = Key(key: string) | NoKey | Throws

  function KeyOrNull(key: string): Parsed { if key == "" then NoKey else Key(key) }

  // ---------------------------------------------------------------- storage paths

  function StripSlashes(s: string): string { if s != "" && s[0] == '/' then StripSlashes(s[1..]) else s }

  function PrefixName(o: Options): string {
    if o.pathPrefix != "" && o.pathPrefix[0] == '/' then o.pathPrefix[1..] else o.pathPrefix
  }

  function StripBucket(path: string, bucket: string): Parsed {
    var parts := Filter(Split(path, '/'), NonEmpty);
    if parts != [] && parts[0] == bucket then KeyOrNull(Join(parts[1..], '/')) else KeyOrNull(path)
  }

  function StripStoragePrefix(rawPath: string, o: Options): Parsed {
    var decoded := Decode(StripSlashes(rawPath));
    var prefix := PrefixName(o);
    if decoded.None? then Throws
    else if prefix != "" && prefix + "/" <= decoded.value then StripBucket(decoded.value[|prefix| + 1..], o.bucket)
    else if prefix != "" && decoded.value == prefix then NoKey
    else StripBucket(decoded.value, o.bucket)
  }

  // ---------------------------------------------------------------- what the URL parser drops

  /** Spaces and control characters at either end. */
  function DropLeading(s: string): string { if s != "" && s[0] <= ' ' then DropLeading(s[1..]) else s }

  function DropTrailing(s: string): string {
    if s != "" && s[|s| - 1] <= ' ' then DropTrailing(s[..|s| - 1]) else s
  }

  const NotTabOrNewline: char -> bool := (c: char) => c != '\t' && c != '\n' && c != '\r'

  function Cleaned(url: string): string { Filter(DropTrailing(DropLeading(url)), NotTabOrNewline) }

  // ---------------------------------------------------------------- proxy URLs

  const PROXY := "/api/v1/media/object?key="

  function FindParam(pairs: seq<string>, name: string): Option<string> {
    if pairs == [] then None
    else if FormDecode(Before(pairs[0], '=')) == name then Some(FormDecode(After(pairs[0], '=')))
    else FindParam(pairs[1..], name)
  }

  /** `new URL(url, base).searchParams.get('key')`. */
  function QueryKey(url: string): Option<string> {
    FindParam(Split(After(Before(Cleaned(url), '#'), '?'), '&'), "key")
  }

  /** The first match of `[?&]key=([^&]+)`. */
  function MatchKey(s: string): Option<string> {
    if |s| < 6 then None
    else if s[0] in "?&" && s[1..5] == "key=" && s[5] != '&' then Some(Before(s[5..], '&'))
    else MatchKey(s[1..])
  }

  function KeyFromMediaObjectUrl(url: string, o: Options): Parsed {
    if !Contains(url, "/media/object") then NoKey
    else
      var key := if o.accepts(url) then QueryKey(url) else None;
      if o.accepts(url) && (key.None? || key.value == "") then NoKey
      else if key.Some? && Decode(key.value).Some? then KeyOrNull(Decode(key.value).value)
      else
        var raw := MatchKey(url);
        if raw.None? then NoKey
        else if Decode(raw.value).Some? then KeyOrNull(Decode(raw.value).value) else Throws
  }

  // ---------------------------------------------------------------- absolute URLs

  function LowerChar(c: char): char { if 'A' <= c <= 'Z' then c + 32 as char else c }

  function Lower(s: string): string { seq(|s|, i requires 0 <= i < |s| => LowerChar(s[i])) }

  predicate IsAbsolute(url: string) {
    (|url| >= 7 && Lower(url[..7]) == "http://") || (|url| >= 8 && Lower(url[..8]) == "https://")
  }

  function Slashes(s: string): string { seq(|s|, i requires 0 <= i < |s| => if s[i] == '\\' then '/' else s[i]) }

  predicate IsDot(part: string) { Lower(part) in [".", "%2e"] }

  predicate IsDoubleDot(part: string) { Lower(part) in ["..", ".%2e", "%2e.", "%2e%2e"] }

  /** The URL standard's path state: `.` goes away and `..` takes the part before it along. */
  function RemoveDots(parts: seq<string>, done: seq<string>): seq<string> {
    if parts == [] then done
    else
      var shorter := if done == [] then [] else done[..|done| - 1];
      var trailer := if |parts| == 1 then [""] else [];
      RemoveDots(parts[1..],
        if IsDot(parts[0]) then done + trailer
        else if IsDoubleDot(parts[0]) then shorter + trailer
        else done + [parts[0]])
  }

  /** A URL between its scheme and its query or fragment. */
  function AfterScheme(url: string): string { Before(Before(After(Cleaned(url), ':'), '#'), '?') }

  /** `new URL(url).pathname` of a URL that the parser accepts. */
  function Pathname(url: string): string {
    var rest := StripSlashes(Slashes(AfterScheme(url)));
    "/" + Join(RemoveDots(Split(After(rest, '/'), '/'), []), '/')
  }

  // ---------------------------------------------------------------- the two directions

  function MediaKeyFromUrl(url: Option<string>, o: Options): Parsed {
    if url.None? || url.value == "" then NoKey
    else
      var fromObject := KeyFromMediaObjectUrl(url.value, o);
      if fromObject != NoKey then fromObject
      else if !IsAbsolute(url.value) then StripStoragePrefix(url.value, o)
      else if !o.accepts(url.value) then NoKey
      else
        var fromPath := StripStoragePrefix(Pathname(url.value), o);
        if fromPath.Throws? then NoKey else fromPath
  }

  predicate IsPublicMediaKey(key: string) { Lower(Before(key, '/')) in ["posts", "avatars", "reels", "stories"] }

  function ToDirectStorageUrl(key: string, o: Options): string {
    var n := |o.pathPrefix|;
    (if n > 0 && o.pathPrefix[n - 1] == '/' then o.pathPrefix[..n - 1] else o.pathPrefix) + "/" + o.bucket + "/" + key
  }

  function ServedUrl(key: string, o: Options): string {
    if IsPublicMediaKey(key) then ToDirectStorageUrl(key, o) else PROXY + Encode(key)
  }

  datatype Served = Url(url: Option<string>) | Failed

  function ToServedMediaUrl(url: Option<string>, o: Options): Served {
    match MediaKeyFromUrl(url, o)
    case Throws => Failed
    case NoKey => Url(url)
    case Key(key) => Url(Some(ServedUrl(key, o)))
  }

  // ---------------------------------------------------------------- what is kept, dropped and refused

  /** Lower case is the 26 letters shifted by 32 and nothing else. */
  lemma LowerExactly(c: char)
    ensures LowerChar(c) as int == if 65 <= c as int <= 90 then c as int + 32 else c as int
  {
  }

  /** The four public folders, in any case. */
  lemma PublicFoldersExactly(folder: string, rest: string)
    requires '/' !in folder
    ensures IsPublicMediaKey(folder + "/" + rest) <==> Lower(folder) in {"avatars", "posts", "reels", "stories"}
  {
    assert folder + "/" + rest == folder + ['/'] + rest;
    CutAt(folder, '/', rest);
  }

  /** Control characters and blanks at either end are dropped, up to the first visible one. */
  lemma BlankEndsAreDropped(c: char, s: string)
    ensures DropLeading([c] + s) == (if c as int <= 32 then DropLeading(s) else [c] + s)
    ensures DropTrailing(s + [c]) == (if c as int <= 32 then DropTrailing(s) else s + [c])
  {
    assert ([c] + s)[1..] == s;
    assert (s + [c])[..|s|] == s;
  }

  /** A backslash counts as a slash. */
  lemma BackslashIsSlash(a: string, b: string)
    ensures Slashes(a + "\\" + b) == Slashes(a) + "/" + Slashes(b) && Slashes(a + "x" + b) == Slashes(a) + "x" + Slashes(b)
  {
  }

  /** The same text, but for an `E` where an `e` is expected. */
  ghost predicate Spelt(part: string, target: string) {
    |part| == |target| && forall i :: 0 <= i < |part| ==> part[i] == target[i] || (target[i] == 'e' && part[i] == 'E')
  }

  lemma SpeltExactly(part: string, target: string)
    requires forall i :: 0 <= i < |target| ==> target[i] in "%.2e"
    ensures Lower(part) == target <==> Spelt(part, target)
  {
    assert |Lower(part)| == |part| && forall i :: 0 <= i < |part| ==> Lower(part)[i] == LowerChar(part[i]);
  }

  /** The spellings of one dot and of two, with the percent code of a dot in either case. */
  lemma DotsExactly(part: string)
    ensures IsDot(part) <==> Spelt(part, ".") || Spelt(part, "%2e")
    ensures IsDoubleDot(part) <==> Spelt(part, "..") || Spelt(part, ".%2e") || Spelt(part, "%2e.") || Spelt(part, "%2e%2e")
  {
    hide Lower;
    SpeltExactly(part, ".");
    SpeltExactly(part, "%2e");
    SpeltExactly(part, "..");
    SpeltExactly(part, ".%2e");
    SpeltExactly(part, "%2e.");
    SpeltExactly(part, "%2e%2e");
    hide Spelt;
  }

  /** A dot goes away; two dots take the part before them along; at the end either leaves an empty part. */
  lemma DotsAreRemoved(part: string, rest: seq<string>, done: seq<string>)
    ensures IsDot(part) ==> RemoveDots([part] + rest, done) == RemoveDots(rest, if rest == [] then done + [""] else done)
    ensures IsDoubleDot(part) && !IsDot(part) ==>
      var shorter := if done == [] then [] else done[..|done| - 1];
      RemoveDots([part] + rest, done) == RemoveDots(rest, if rest == [] then shorter + [""] else shorter)
    ensures !IsDot(part) && !IsDoubleDot(part) ==> RemoveDots([part] + rest, done) == RemoveDots(rest, done + [part])
    ensures RemoveDots([], done) == done
  {
    assert ([part] + rest)[1..] == rest;
    assert done + [] == done;
    var shorter := if done == [] then [] else done[..|done| - 1];
    assert shorter + [] == shorter;
  }

  /** The settings' slashes: one at the front of the prefix is optional, and so is one at its end when printing. */
  lemma PrefixSlashes(bucket: string, prefix: string, accepts: string -> bool, key: string)
    ensures prefix == "" || prefix[0] != '/' ==>
      PrefixName(Options(bucket, prefix, accepts)) == prefix == PrefixName(Options(bucket, "/" + prefix, accepts))
    ensures prefix == "" || prefix[|prefix| - 1] != '/' ==>
      && ToDirectStorageUrl(key, Options(bucket, prefix, accepts)) == prefix + "/" + bucket + "/" + key
      && ToDirectStorageUrl(key, Options(bucket, prefix + "/", accepts)) == prefix + "/" + bucket + "/" + key
  {
    assert ("/" + prefix)[1..] == prefix;
    assert (prefix + "/")[..|prefix|] == prefix;
  }

  /** The two shapes under the default settings. */
  lemma DefaultShapes(key: string)
    ensures ServedUrl(key, DEFAULTS) ==
      if IsPublicMediaKey(key) then "/storage/agahiram/" + key else "/api/v1/media/object?key=" + Encode(key)
  {
    hide Encode;
    hide IsPublicMediaKey;
    assert "/storage" + "/" + "agahiram" + "/" == "/storage/agahiram/";
  }

  /** No reference, an empty one and the bare prefix hold no key, and are served as they are. */
  lemma NothingToServe(o: Options)
    requires PrefixName(o) != "" && Decode(PrefixName(o)) == Some(PrefixName(o)) && PrefixName(o)[0] != '/'
    requires KeyFromMediaObjectUrl(PrefixName(o), o) == NoKey && !IsAbsolute(PrefixName(o))
    ensures forall url :: url in {None, Some(""), Some(PrefixName(o))} ==>
      MediaKeyFromUrl(url, o) == NoKey && ToServedMediaUrl(url, o) == Url(url)
  {
    hide KeyFromMediaObjectUrl;
    hide IsAbsolute;
    hide Decode;
  }

  /** A reference that is no proxy URL and whose escapes do not decode: a path throws, an absolute URL is served as it is. */
  lemma MalformedReference(url: string, o: Options)
    requires url != "" && KeyFromMediaObjectUrl(url, o) == NoKey
    ensures !IsAbsolute(url) && Decode(StripSlashes(url)).None? ==> ToServedMediaUrl(Some(url), o) == Failed
    ensures IsAbsolute(url) && (!o.accepts(url) || Decode(StripSlashes(Pathname(url))).None?) ==>
      ToServedMediaUrl(Some(url), o) == Url(Some(url))
  {
    hide KeyFromMediaObjectUrl;
    hide IsAbsolute;
    hide Decode;
    hide Pathname;
    hide StripSlashes;
  }

  /** A proxy URL throws exactly if neither its query nor its `key=` match decodes. */
  lemma ProxyThrowsExactly(url: string, o: Options)
    ensures KeyFromMediaObjectUrl(url, o) == Throws <==>
      && Contains(url, "/media/object")
      && MatchKey(url).Some? && Decode(MatchKey(url).value).None?
      && (o.accepts(url) ==> QueryKey(url).Some? && QueryKey(url).value != "" && Decode(QueryKey(url).value).None?)
  {
    hide Contains;
    hide MatchKey;
    hide QueryKey;
    hide Decode;
  }

  /** A query's names are decoded before they are compared, and the first pair with the name counts. */
  lemma FirstPairCounts(name: string, a: string, b: string, pairs: seq<string>)
    requires '=' !in a
    ensures FindParam([a + "=" + b] + pairs, name) == if FormDecode(a) == name then Some(FormDecode(b)) else FindParam(pairs, name)
  {
    hide FormDecode;
    assert a + "=" + b == a + ['='] + b;
    CutAt(a, '=', b);
    assert ([a + "=" + b] + pairs)[1..] == pairs;
  }

  /** The fallback takes what follows `key=` up to the next `&`. */
  lemma MatchEndsAtAmpersand(c: char, value: string, rest: string)
    requires c in "?&" && value != "" && '&' !in value
    ensures MatchKey([c] + "key=" + value + "&" + rest) == Some(value)
  {
    var s := [c] + "key=" + value + "&" + rest;
    assert s[5..] == value + ['&'] + rest;
    assert s[1..5] == "key=" && s[5] == value[0];
    CutAt(value, '&', rest);
  }

  /** The same text, but for capitals where small letters are expected. */
  ghost predicate AnyCase(part: string, target: string) {
    |part| == |target| && forall i :: 0 <= i < |part| ==>
      part[i] == target[i] || ('a' <= target[i] <= 'z' && part[i] as int + 32 == target[i] as int)
  }

  lemma AnyCaseExactly(part: string, target: string)
    requires forall i :: 0 <= i < |target| ==> !('A' <= target[i] <= 'Z')
    ensures Lower(part) == target <==> AnyCase(part, target)
  {
    assert |Lower(part)| == |part| && forall i :: 0 <= i < |part| ==> Lower(part)[i] == LowerChar(part[i]);
  }

  /** An absolute URL starts with either scheme, in any case. */
  lemma AbsoluteExactly(url: string)
    ensures IsAbsolute(url) <==>
      (|url| >= 7 && AnyCase(url[..7], "http://")) || (|url| >= 8 && AnyCase(url[..8], "https://"))
  {
    if |url| >= 7 {
      AnyCaseExactly(url[..7], "http://");
    }
    if |url| >= 8 {
      AnyCaseExactly(url[..8], "https://");
    }
    hide AnyCase;
    hide Lower;
  }

  // ---------------------------------------------------------------- settings and keys

  /** A path segment that no parser touches. */
  predicate Name(s: string) {
    s != "" && (forall i :: 0 <= i < |s| ==> Unreserved(s[i])) && s != "." && s != ".."
  }

  /** A path on this site: one slash, and then a character that no parser drops. */
  predicate LocalPath(url: string) { |url| >= 2 && url[0] == '/' && Unreserved(url[1]) }

  ghost predicate GoodParser(o: Options) { forall url :: LocalPath(url) ==> o.accepts(url) }

  /** A bucket name, a path prefix that is empty or one segment after a slash, and a parser that accepts local paths. */
  ghost predicate GoodOptions(o: Options) {
    && Name(o.bucket) && (o.pathPrefix != "" ==> o.pathPrefix[0] == '/' && Name(o.pathPrefix[1..]))
    && GoodParser(o)
  }

  /**
   * The keys that survive being served: a public key without percent signs or empty segments whose
   * URL is not itself read as a proxy URL, and a private key without percent signs or with one that
   * starts no valid escapes.
   */
  predicate Stable(key: string, o: Options) {
    if IsPublicMediaKey(key)
    then '%' !in key && NoEmptyPart(key, '/') && KeyFromMediaObjectUrl(ToDirectStorageUrl(key, o), o) == NoKey
    else '%' !in key || Decode(key).None?
  }

  // ---------------------------------------------------------------- cleaning

  predicate Visible(s: string) { forall i :: 0 <= i < |s| ==> s[i] > ' ' }

  lemma {:induction false} DropsShrink(s: string)
    ensures |DropLeading(s)| <= |s| && |DropTrailing(s)| <= |s|
    ensures forall c :: c in DropLeading(s) || c in DropTrailing(s) ==> c in s
    decreases |s|
  {
    if s != "" {
      if s[0] <= ' ' {
        DropsShrink(s[1..]);
      }
      if s[|s| - 1] <= ' ' {
        DropsShrink(s[..|s| - 1]);
      }
    }
  }

  lemma CleanedShrinks(url: string)
    ensures |Cleaned(url)| <= |url|
    ensures forall c :: c in Cleaned(url) ==> c in url
  {
    DropsShrink(url);
    DropsShrink(DropLeading(url));
    FilterShrinks(DropTrailing(DropLeading(url)), NotTabOrNewline);
  }

  lemma {:induction false} DropTrailingAfter(lead: string, key: string)
    requires Visible(lead)
    ensures DropTrailing(lead + key) == lead + DropTrailing(key)
    decreases |key|
  {
    if key == "" {
      assert lead + key == lead;
    } else if key[|key| - 1] <= ' ' {
      assert (lead + key)[..|lead + key| - 1] == lead + key[..|key| - 1];
      DropTrailingAfter(lead, key[..|key| - 1]);
    }
  }

  /** Cleaning leaves a visible beginning alone. */
  lemma CleanedAfter(lead: string, key: string) returns (rest: string)
    requires Visible(lead)
    ensures Cleaned(lead + key) == lead + rest && |rest| <= |key|
    ensures key == "" ==> rest == ""
  {
    if lead == "" {
      assert lead + key == key;
      rest := Cleaned(key);
      CleanedShrinks(key);
      assert lead + rest == rest;
    } else {
      var kept := DropTrailing(key);
      rest := Filter(kept, NotTabOrNewline);
      DropTrailingAfter(lead, key);
      FilterConcat(lead, kept, NotTabOrNewline);
      FilterAll(lead, NotTabOrNewline);
      DropsShrink(key);
      FilterShrinks(kept, NotTabOrNewline);
    }
  }

  lemma VisibleIsClean(url: string)
    requires Visible(url)
    ensures Cleaned(url) == url
  {
    var rest := CleanedAfter(url, "");
    assert url + "" == url && url + rest == url;
  }

  // ---------------------------------------------------------------- the proxy shape

  lemma {:induction false} NothingToMatch(s: string)
    requires '?' !in s && '&' !in s
    ensures MatchKey(s) == None
  {
    if |s| >= 6 {
      NothingToMatch(s[1..]);
    }
  }

  lemma NoQueryNoKey(url: string, o: Options)
    requires '?' !in url && '&' !in url
    ensures KeyFromMediaObjectUrl(url, o) == NoKey
  {
    CleanedShrinks(url);
    NothingToCut(Before(Cleaned(url), '#'), '?');
    EmptyQuery();
    NothingToMatch(url);
  }

  lemma {:induction false} ParamIsShort(pairs: seq<string>, name: string, n: nat)
    requires forall i :: 0 <= i < |pairs| ==> |pairs[i]| <= n
    ensures FindParam(pairs, name).Some? ==> |FindParam(pairs, name).value| <= n
  {
    if pairs != [] {
      CutsShrink(pairs[0], '=');
      FormDecodeShrinks(After(pairs[0], '='));
      ParamIsShort(pairs[1..], name, n);
    }
  }

  lemma {:induction false} MatchIsShort(s: string)
    ensures MatchKey(s).Some? ==> |MatchKey(s).value| < |s|
  {
    if |s| >= 6 {
      CutsShrink(s[5..], '&');
      MatchIsShort(s[1..]);
    }
  }

  /** No character that means something to the parser before the path. */
  predicate Inert(s: string) {
    forall i :: 0 <= i < |s| ==> s[i] > ' ' && s[i] != '?' && s[i] != '#' && s[i] != '&' && s[i] != '\\'
  }

  lemma InertConcat(a: string, b: string)
    requires Inert(a) && Inert(b)
    ensures Inert(a + b)
  {
  }

  lemma InertHolds(s: string)
    requires Inert(s)
    ensures Visible(s) && '?' !in s && '#' !in s && '&' !in s && '\\' !in s
  {
  }

  lemma QueryIsShort(lead: string, key: string)
    requires Inert(lead) && key != ""
    ensures var k := QueryKey(lead + key); k.Some? ==> |k.value| < |key|
  {
    hide Cleaned;
    hide IndexOf;
    hide Split;
    hide FormDecode;
    InertHolds(lead);
    var rest := CleanedAfter(lead, key);
    IndexAfter(lead, rest, '#');
    CutsShrink(rest, '#');
    var z := Before(rest, '#');
    IndexAfter(lead, z, '?');
    CutsShrink(z, '?');
    var query := After(z, '?');
    PiecesAreShort(query, '&');
    ParamIsShort(Split(query, '&'), "key", |query|);
    if query == "" {
      EmptyQuery();
    }
  }

  lemma EmptyQuery()
    ensures FindParam(Split("", '&'), "key") == None
  {
    assert Split("", '&') == [""];
  }

  /** What a URL's query or its `key=` match holds is shorter than what follows the inert beginning. */
  lemma FromObjectIsShorter(lead: string, key: string, o: Options)
    requires Inert(lead) && key != ""
    ensures var r := KeyFromMediaObjectUrl(lead + key, o); r.Key? ==> |r.key| < |key|
  {
    hide QueryKey;
    hide MatchKey;
    hide Contains;
    hide Decode;
    InertHolds(lead);
    QueryIsShort(lead, key);
    MatchSkips(lead, key);
    MatchIsShort(key);
    var query, raw := QueryKey(lead + key), MatchKey(lead + key);
    if query.Some? && Decode(query.value).Some? {
      DecodeShrinks(query.value);
    }
    if raw.Some? && Decode(raw.value).Some? {
      DecodeShrinks(raw.value);
    }
  }

  lemma {:induction false} MatchSkips(a: string, b: string)
    requires '?' !in a && '&' !in a
    ensures MatchKey(a + b) == MatchKey(b)
  {
    if a == "" {
      assert a + b == b;
    } else {
      assert (a + b)[1..] == a[1..] + b;
      MatchSkips(a[1..], b);
      if |a + b| < 6 {
        assert |b| < 6;
      }
    }
  }

  lemma ContainsAfter(a: string, part: string, b: string)
    ensures Contains(a + part + b, part)
  {
    assert OccursAt(a + part + b, part, |a|);
  }

  lemma ProxyIsObjectUrl(key: string)
    ensures Contains(PROXY + Encode(key), "/media/object")
  {
    hide Encode;
    hide Contains;
    var e := Encode(key);
    assert PROXY + e == "/api/v1" + "/media/object" + ("?key=" + e);
    ContainsAfter("/api/v1", "/media/object", "?key=" + e);
  }

  lemma EncodedIsInert(key: string)
    ensures Inert(Encode(key))
  {
    EncodedIsSafe(key);
  }

  lemma OnePair(e: string)
    requires Inert(e)
    ensures FindParam(Split("key=" + e, '&'), "key") == Some(FormDecode(e))
  {
    hide FormDecode;
    hide IndexOf;
    hide Split;
    var pair := "key=" + e;
    InertHolds(e);
    assert '&' !in pair;
    SplitWhole(pair, '&');
    assert pair == "key" + ['='] + e;
    CutAt("key", '=', e);
    PlainName("key");
  }

  lemma QueryOf(path: string, query: string)
    requires Inert(path) && Inert(query)
    ensures After(Before(Cleaned(path + "?" + query), '#'), '?') == query
  {
    hide IndexOf;
    hide Cleaned;
    var url := path + "?" + query;
    InertHolds(path);
    InertHolds(query);
    VisibleIsClean(url);
    NothingToCut(url, '#');
    assert url == path + ['?'] + query;
    CutAt(path, '?', query);
  }

  lemma ProxyPathIsInert()
    ensures Inert("/api/v1/media/object") && Inert("key=")
  {
  }

  lemma ProxyQuery(key: string)
    ensures QueryKey(PROXY + Encode(key)) == Some(key)
  {
    hide Encode;
    hide FormDecode;
    hide Inert;
    hide FindParam;
    hide Split;
    hide Cleaned;
    hide Before;
    hide After;
    var path, e := "/api/v1/media/object", Encode(key);
    EncodedIsInert(key);
    DecodeUndoesEncode(key);
    ProxyPathIsInert();
    InertConcat("key=", e);
    QueryOf(path, "key=" + e);
    OnePair(e);
    assert PROXY + e == path + "?" + ("key=" + e);
  }

  lemma {:induction false} PlainName(s: string)
    requires forall i :: 0 <= i < |s| ==> s[i] !in "%+"
    ensures FormDecode(s) == s
  {
    if s != "" {
      PlainName(s[1..]);
      assert [s[0]] + s[1..] == s;
    }
  }

  lemma ProxyMatch(key: string)
    requires key != ""
    ensures MatchKey(PROXY + Encode(key)) == Some(Encode(key))
  {
    hide Encode;
    var e := Encode(key);
    var q := "?key=" + e;
    EncodedIsSafe(key);
    assert PROXY + e == "/api/v1/media/object" + q;
    MatchSkips("/api/v1/media/object", q);
    assert q[1..5] == "key=" && q[5..] == e && q[5] == e[0];
    assert '&' !in e;
    NothingToCut(e, '&');
  }

  /** The proxy shape gives a key back exactly unless the key holds a percent sign and still decodes. */
  lemma {:induction false} ProxyRoundTripExactly(key: string, o: Options)
    requires GoodParser(o) && key != ""
    ensures MediaKeyFromUrl(Some(PROXY + Encode(key)), o) == Key(key) <==> ('%' !in key || Decode(key).None?)
    ensures MediaKeyFromUrl(Some(PROXY + Encode(key)), o).Key?
  {
    hide Contains;
    hide MatchKey;
    hide QueryKey;
    hide Encode;
    hide Decode;
    assert LocalPath(PROXY + Encode(key));
    ProxyIsObjectUrl(key);
    ProxyQuery(key);
    ProxyMatch(key);
    DecodesToItselfExactly(key);
    DecodeUndoesEncode(key);
    if Decode(key).Some? {
      DecodeShrinks(key);
    }
  }

  // ---------------------------------------------------------------- the direct shape

  lemma OneSlash(path: string)
    requires path != "" && path[0] != '/'
    ensures StripSlashes("/" + path) == path
  {
    assert ("/" + path)[1..] == path;
    assert StripSlashes(path) == path;
  }

  lemma DirectPath(key: string, o: Options)
    requires GoodOptions(o)
    ensures ToDirectStorageUrl(key, o) == "/" + (if o.pathPrefix == "" then "" else PrefixName(o) + "/") + o.bucket + "/" + key
    ensures StripSlashes(ToDirectStorageUrl(key, o)) == (if o.pathPrefix == "" then "" else PrefixName(o) + "/") + o.bucket + "/" + key
  {
    hide StripSlashes;
    var path := (if o.pathPrefix == "" then "" else PrefixName(o) + "/") + o.bucket + "/" + key;
    assert ToDirectStorageUrl(key, o) == "/" + path;
    assert path[0] == if o.pathPrefix == "" then o.bucket[0] else PrefixName(o)[0];
    OneSlash(path);
  }

  lemma StripOwnBucket(bucket: string, d: string)
    requires Name(bucket)
    ensures StripBucket(bucket + "/" + d, bucket) == KeyOrNull(Join(Filter(Split(d, '/'), NonEmpty), '/'))
  {
    hide Filter;
    hide Split;
    hide Join;
    assert bucket + "/" + d == bucket + ['/'] + d;
    assert '/' !in bucket;
    SplitFirst(bucket, d, '/');
    FilterCons(bucket, Split(d, '/'), NonEmpty);
    var rest := Filter(Split(d, '/'), NonEmpty);
    assert ([bucket] + rest)[1..] == rest;
  }

  lemma NamesHaveNoPercent(o: Options)
    requires GoodOptions(o)
    ensures '%' !in PrefixName(o) && '%' !in o.bucket
  {
  }

  /** Decoding the direct shape decodes its key and nothing else. */
  lemma DecodeDirect(key: string, o: Options)
    requires GoodOptions(o)
    ensures var front := (if o.pathPrefix == "" then "" else PrefixName(o) + "/"); var d := Decode(key);
      Decode(StripSlashes(ToDirectStorageUrl(key, o))) == if d.None? then None else Some(front + (o.bucket + "/" + d.value))
  {
    hide Decode;
    hide StripSlashes;
    hide ToDirectStorageUrl;
    var front := (if o.pathPrefix == "" then "" else PrefixName(o) + "/");
    var lead := front + o.bucket + "/";
    DirectPath(key, o);
    NamesHaveNoPercent(o);
    hide GoodOptions;
    assert '%' !in lead;
    DecodePlainPrefix(lead, key);
    if Decode(key).Some? {
      assert lead + Decode(key).value == front + (o.bucket + "/" + Decode(key).value);
    }
  }

  lemma StripDirect(key: string, o: Options)
    requires GoodOptions(o)
    ensures StripStoragePrefix(ToDirectStorageUrl(key, o), o) ==
      if Decode(key).None? then Throws else KeyOrNull(Join(Filter(Split(Decode(key).value, '/'), NonEmpty), '/'))
  {
    hide StripBucket;
    hide Decode;
    hide Filter;
    hide Split;
    hide Join;
    hide StripSlashes;
    hide ToDirectStorageUrl;
    DecodeDirect(key, o);
    if Decode(key).Some? {
      var front := (if o.pathPrefix == "" then "" else PrefixName(o) + "/");
      var tail := o.bucket + "/" + Decode(key).value;
      assert (front + tail)[|front|..] == tail;
      StripOwnBucket(o.bucket, Decode(key).value);
    }
  }

  lemma SlashIsRelative(url: string)
    requires url != "" && url[0] == '/'
    ensures !IsAbsolute(url)
  {
    assert |url| >= 7 ==> Lower(url[..7])[0] == '/';
    assert |url| >= 8 ==> Lower(url[..8])[0] == '/';
  }

  lemma NameIsInert(s: string)
    requires Name(s)
    ensures Inert(s)
  {
  }

  /** What every served URL of the direct shape starts with. */
  lemma DirectLead(key: string, o: Options) returns (lead: string)
    requires GoodOptions(o)
    ensures ToDirectStorageUrl(key, o) == lead + key && Inert(lead)
  {
    var front := if o.pathPrefix == "" then "" else PrefixName(o) + "/";
    lead := "/" + front + o.bucket + "/";
    DirectPath(key, o);
    NameIsInert(o.bucket);
    if o.pathPrefix != "" {
      NameIsInert(PrefixName(o));
      InertConcat(PrefixName(o), "/");
    }
    InertConcat("/", front);
    InertConcat("/" + front, o.bucket);
    InertConcat("/" + front + o.bucket, "/");
  }

  /** Stripping the direct shape gives the key exactly if it has no percent sign and no empty segment. */
  lemma StripDirectExactly(key: string, o: Options)
    requires GoodOptions(o) && key != ""
    ensures StripStoragePrefix(ToDirectStorageUrl(key, o), o) == Key(key) <==> ('%' !in key && NoEmptyPart(key, '/'))
  {
    StripDirect(key, o);
    hide StripStoragePrefix;
    hide ToDirectStorageUrl;
    DecodesToItselfExactly(key);
    if '%' !in key {
      DropsNothingExactly(key, '/');
    } else if Decode(key).Some? {
      var d := Decode(key).value;
      DecodeShrinks(key);
      JoinShrinks(Split(d, '/'), '/');
      JoinUndoesSplit(d, '/');
    }
  }

  lemma DirectReads(key: string, o: Options)
    requires GoodOptions(o)
    ensures var url := ToDirectStorageUrl(key, o); var fromObject := KeyFromMediaObjectUrl(url, o);
      MediaKeyFromUrl(Some(url), o) == if fromObject != NoKey then fromObject else StripStoragePrefix(url, o)
  {
    DirectPath(key, o);
    SlashIsRelative(ToDirectStorageUrl(key, o));
  }

  /**
   * The direct shape gives a key back exactly if it has no percent sign and no empty segment, and its
   * URL is not read as a proxy URL.
   */
  lemma DirectRoundTripExactly(key: string, o: Options)
    requires GoodOptions(o) && key != ""
    ensures var url := ToDirectStorageUrl(key, o);
      MediaKeyFromUrl(Some(url), o) == Key(key) <==>
        '%' !in key && NoEmptyPart(key, '/') && KeyFromMediaObjectUrl(url, o) == NoKey
  {
    var lead := DirectLead(key, o);
    FromObjectIsShorter(lead, key, o);
    DirectReads(key, o);
    StripDirectExactly(key, o);
  }

  // ---------------------------------------------------------------- served URLs

  /** Whatever a key is served under reads back as the key exactly if the key is stable. */
  lemma {:induction false} ServedRoundTripExactly(key: string, o: Options)
    requires GoodOptions(o) && key != ""
    ensures MediaKeyFromUrl(Some(ServedUrl(key, o)), o) == Key(key) <==> Stable(key, o)
  {
    hide MediaKeyFromUrl;
    hide ToDirectStorageUrl;
    hide KeyFromMediaObjectUrl;
    if IsPublicMediaKey(key) {
      DirectRoundTripExactly(key, o);
    } else {
      ProxyRoundTripExactly(key, o);
    }
  }

  lemma PublicFolder(key: string)
    requires IsPublicMediaKey(key)
    ensures key != "" && key[0] !in "/%" && Before(key, '/') !in ["v1", "media"]
  {
    var folder := Before(key, '/');
    assert |Lower(folder)| == |folder| >= 5;
    assert Lower("media") == "media";
    assert LowerChar(folder[0]) == Lower(folder)[0];
  }

  lemma DecodedHead(key: string)
    requires key != "" && key[0] !in "/%" && Decode(key).Some?
    ensures Decode(key).value != "" && Decode(key).value[0] == key[0] != '/'
  {
    assert "/%"[0] == '/' && "/%"[1] == '%';
  }

  lemma DirectKeepsSomething(key: string, o: Options)
    requires GoodOptions(o) && IsPublicMediaKey(key)
    ensures MediaKeyFromUrl(Some(ToDirectStorageUrl(key, o)), o) != NoKey
  {
    hide Decode;
    hide Filter;
    hide Split;
    hide Join;
    hide Lower;
    hide StripStoragePrefix;
    hide KeyFromMediaObjectUrl;
    hide MediaKeyFromUrl;
    hide IsPublicMediaKey;
    DirectReads(key, o);
    StripDirect(key, o);
    PublicFolder(key);
    if Decode(key).Some? {
      DecodedHead(key);
      KeepsTheFirst(Decode(key).value, '/');
    }
  }

  lemma FirstSegment(a: string, b: string, c: string, d: string)
    requires a + "/" + b == c + "/" + d && '/' !in a && '/' !in c
    ensures a == c && b == d
  {
    assert a + "/" + b == a + ['/'] + b && c + "/" + d == c + ['/'] + d;
    CutAt(a, '/', b);
    CutAt(c, '/', d);
  }

  lemma ProxyFolders(key: string, bucket: string, e: string)
    requires '/' !in bucket && bucket + "/" + key in ["api/v1/media/object?key=" + e, "v1/media/object?key=" + e]
    ensures Before(key, '/') in ["v1", "media"]
  {
    var tail := "media" + "/" + ("object?key=" + e);
    if bucket + "/" + key == "v1/media/object?key=" + e {
      assert "v1/media/object?key=" + e == "v1" + "/" + tail;
      FirstSegment(bucket, key, "v1", tail);
      assert key == "media" + ['/'] + ("object?key=" + e);
      CutAt("media", '/', "object?key=" + e);
    } else {
      assert "api/v1/media/object?key=" + e == "api" + "/" + ("v1" + "/" + tail);
      FirstSegment(bucket, key, "api", "v1" + "/" + tail);
      assert key == "v1" + ['/'] + tail;
      CutAt("v1", '/', tail);
    }
  }

  lemma ProxyAfterSlash(path: string, e: string)
    requires "/" + path == PROXY + e
    ensures path == "api/v1/media/object?key=" + e
  {
    assert ("/" + path)[1..] == path && (PROXY + e)[1..] == "api/v1/media/object?key=" + e;
  }

  lemma ProxyUnderPrefix(prefix: string, path: string, e: string)
    requires '/' !in prefix && prefix + "/" + path == "api/v1/media/object?key=" + e
    ensures path == "v1/media/object?key=" + e
  {
    assert "api/v1/media/object?key=" + e == "api" + "/" + ("v1/media/object?key=" + e);
    FirstSegment("api", "v1/media/object?key=" + e, prefix, path);
  }

  lemma NotTheProxy(prefix: string, bucket: string, key: string, e: string)
    requires '/' !in prefix && '/' !in bucket && Before(key, '/') !in ["v1", "media"]
    ensures "/" + (bucket + "/" + key) != PROXY + e
    ensures "/" + (prefix + "/" + (bucket + "/" + key)) != PROXY + e
  {
    hide Before;
    var tail := bucket + "/" + key;
    if "/" + tail == PROXY + e {
      ProxyAfterSlash(tail, e);
      ProxyFolders(key, bucket, e);
    }
    if "/" + (prefix + "/" + tail) == PROXY + e {
      ProxyAfterSlash(prefix + "/" + tail, e);
      ProxyUnderPrefix(prefix, tail, e);
      ProxyFolders(key, bucket, e);
    }
  }

  /** No public key is served under a URL that looks like the proxy's. */
  lemma ShapesDiffer(key: string, other: string, o: Options)
    requires GoodOptions(o) && IsPublicMediaKey(key)
    ensures ToDirectStorageUrl(key, o) != PROXY + Encode(other)
  {
    hide *;
    DirectPath(key, o);
    PublicFolder(key);
    NamesHaveNoSlash(o);
    var prefix := PrefixName(o);
    NotTheProxy(prefix, o.bucket, key, Encode(other));
    assert "/" + (prefix + "/") + o.bucket + "/" + key == "/" + (prefix + "/" + (o.bucket + "/" + key));
    assert "/" + "" + o.bucket + "/" + key == "/" + (o.bucket + "/" + key);
  }

  lemma NamesHaveNoSlash(o: Options)
    requires GoodOptions(o)
    ensures '/' !in PrefixName(o) && '/' !in o.bucket
  {
  }

  lemma ServedIsInjective(a: string, b: string, o: Options)
    requires GoodOptions(o) && ServedUrl(a, o) == ServedUrl(b, o)
    ensures a == b
  {
    if IsPublicMediaKey(a) && IsPublicMediaKey(b) {
      var lead := ToDirectStorageUrl("", o);
      assert ToDirectStorageUrl(a, o) == lead + a && ToDirectStorageUrl(b, o) == lead + b;
      Cancel(lead, a, b);
    } else if IsPublicMediaKey(a) {
      ShapesDiffer(a, b, o);
    } else if IsPublicMediaKey(b) {
      ShapesDiffer(b, a, o);
    } else {
      Cancel(PROXY, Encode(a), Encode(b));
      DecodeUndoesEncode(a);
      DecodeUndoesEncode(b);
    }
  }

  lemma KeysAreNonEmpty(url: Option<string>, o: Options)
    ensures var k := MediaKeyFromUrl(url, o); k.Key? ==> k.key != ""
  {
    hide Split;
    hide Filter;
    hide Join;
    hide Decode;
    hide QueryKey;
    hide MatchKey;
    hide Contains;
    hide Pathname;
    hide IsAbsolute;
    hide StripSlashes;
  }

  /** Mapping a stored reference twice is the same as mapping it once, exactly if its key is stable. */
  lemma {:induction false} ServingIsIdempotentExactly(url: Option<string>, o: Options)
    requires GoodOptions(o)
    ensures var once := ToServedMediaUrl(url, o); var k := MediaKeyFromUrl(url, o);
      once.Url? ==> (ToServedMediaUrl(once.url, o) == once <==> (k.Key? ==> Stable(k.key, o)))
  {
    var k := MediaKeyFromUrl(url, o);
    KeysAreNonEmpty(url, o);
    hide MediaKeyFromUrl;
    hide Stable;
    if k.Key? {
      ServedRoundTripExactly(k.key, o);
      var again := MediaKeyFromUrl(Some(ServedUrl(k.key, o)), o);
      if IsPublicMediaKey(k.key) {
        DirectKeepsSomething(k.key, o);
      } else {
        ProxyRoundTripExactly(k.key, o);
      }
      if again.Key? && ServedUrl(again.key, o) == ServedUrl(k.key, o) {
        ServedIsInjective(again.key, k.key, o);
      }
    }
  }

  /** A private key that itself holds an escape comes back decoded once too often. */
  lemma {:induction false} EscapedKeyIsLost()
    ensures GoodOptions(DEFAULTS)
    ensures forall name :: name in ["%41", "%C3%A9"] ==>
      var key := "messages/" + name;
      !Stable(key, DEFAULTS) && MediaKeyFromUrl(Some(ServedUrl(key, DEFAULTS)), DEFAULTS) != Key(key)
  {
    hide *;
    GoodDefaults();
    EscapeDecodes();
    forall name | name in ["%41", "%C3%A9"]
      ensures var key := "messages/" + name;
        !Stable(key, DEFAULTS) && MediaKeyFromUrl(Some(ServedUrl(key, DEFAULTS)), DEFAULTS) != Key(key)
    {
      assert name[0] == '%';
      InMessages(name);
      ServedRoundTripExactly("messages/" + name, DEFAULTS);
    }
  }

  lemma GoodDefaults()
    ensures GoodOptions(DEFAULTS)
  {
    assert DEFAULTS.pathPrefix[1..] == "storage";
  }

  lemma InMessages(name: string)
    requires '%' in name && Decode(name).Some?
    ensures var key := "messages/" + name; !IsPublicMediaKey(key) && !Stable(key, DEFAULTS)
  {
    var key := "messages/" + name;
    hide Decode;
    hide IndexOf;
    assert key == "messages" + ['/'] + name;
    CutAt("messages", '/', name);
    assert Lower("messages")[0] == 'm';
    var i :| 0 <= i < |name| && name[i] == '%';
    assert key[9 + i] == '%';
    DecodePlainPrefix("messages/", name);
  }

  lemma EscapeDecodes()
    ensures Decode("%41").Some? && Decode("%C3%A9") == Some("\U{00E9}")
  {
    assert EscapedOctet("%41") == Some(0x41) && "%41"[3..] == "";
    assert EscapedRun("%41", 4) == [0x41];
    assert EscapedOctet("%C3%A9") == Some(0xC3) && "%C3%A9"[3..] == "%A9";
    assert EscapedOctet("%A9") == Some(0xA9) && "%A9"[3..] == "";
    assert EscapedRun("%A9", 3) == [0xA9];
    var accent := EscapedRun("%C3%A9", 4);
    assert accent == [0xC3, 0xA9];
    assert Complete(accent) && CodePoint(accent) == 0xE9;
    assert "%C3%A9"[6..] == "" && Decode("") == Some("");
    assert CharOf(accent) == '\U{00E9}' && [CharOf(accent)] + "" == "\U{00E9}";
    assert Decode("%C3%A9") == Some([CharOf(accent)] + "");
  }

  lemma ReadsQuery(path: string, e: string, o: Options)
    requires Inert(path) && Inert(e) && Contains(path + "?" + ("key=" + e), "/media/object")
    requires e != "" && FormDecode(e) == e && '%' !in e && o.accepts(path + "?" + ("key=" + e))
    ensures KeyFromMediaObjectUrl(path + "?" + ("key=" + e), o) == Key(e)
  {
    hide Contains;
    hide FormDecode;
    hide FindParam;
    hide Split;
    hide Cleaned;
    hide Before;
    hide After;
    hide MatchKey;
    assert Inert("key=");
    InertConcat("key=", e);
    QueryOf(path, "key=" + e);
    OnePair(e);
    DecodesToItselfExactly(e);
  }

  /** The key `posts/media/object?key=z`. */
  const LOOKALIKE := "posts" + "/media/object" + ("?" + ("key=" + "z"))

  /** A public key that looks like a proxy URL is read as the key in its own query. */
  lemma LookalikeIsLost()
    ensures var url := ToDirectStorageUrl(LOOKALIKE, DEFAULTS);
      IsPublicMediaKey(LOOKALIKE) && KeyFromMediaObjectUrl(url, DEFAULTS) == Key("z") && !Stable(LOOKALIKE, DEFAULTS)
  {
    hide *;
    GoodDefaults();
    LookalikeFolder();
    var lead := DirectLead(LOOKALIKE, DEFAULTS);
    LookalikeReads(lead);
    NotStable(LOOKALIKE, DEFAULTS, "z");
  }

  lemma NotStable(key: string, o: Options, other: string)
    requires IsPublicMediaKey(key) && KeyFromMediaObjectUrl(ToDirectStorageUrl(key, o), o) == Key(other)
    ensures !Stable(key, o)
  {
  }

  lemma Regroup<T>(a: seq<T>, b: seq<T>, c: seq<T>, d: seq<T>, e: seq<T>)
    ensures a + (b + c + (d + e)) == (a + b + c) + d + e
    ensures a + (b + c + (d + e)) == (a + b) + c + (d + e)
  {
  }

  lemma LookalikeReads(lead: string)
    requires Inert(lead)
    ensures KeyFromMediaObjectUrl(lead + LOOKALIKE, DEFAULTS) == Key("z")
  {
    hide KeyFromMediaObjectUrl;
    hide Contains;
    hide FormDecode;
    hide Inert;
    var tail := "?" + ("key=" + "z");
    assert LOOKALIKE == "posts" + "/media/object" + tail;
    Regroup(lead, "posts", "/media/object", "?", "key=" + "z");
    ContainsAfter(lead + "posts", "/media/object", tail);
    ShortWords();
    InertConcat(lead, "posts");
    InertConcat(lead + "posts", "/media/object");
    ReadsQuery(lead + "posts" + "/media/object", "z", DEFAULTS);
    assert lead + LOOKALIKE == lead + "posts" + "/media/object" + "?" + ("key=" + "z");
  }

  lemma ShortWords()
    ensures Inert("posts") && Inert("/media/object") && Inert("z") && FormDecode("z") == "z" && '%' !in "z" && "z" != ""
  {
    PlainName("z");
  }

  lemma LookalikeFolder()
    ensures IsPublicMediaKey(LOOKALIKE)
  {
    var rest := "media/object" + ("?" + ("key=" + "z"));
    assert LOOKALIKE == "posts" + ['/'] + rest;
    CutAt("posts", '/', rest);
    assert Lower("posts") == "posts";
  }

  // ---------------------------------------------------------------- bare keys and legacy URLs

  lemma {:induction false} StripSlashesShrinks(s: string)
    ensures |StripSlashes(s)| <= |s|
    ensures s != "" && s[0] == '/' ==> |StripSlashes(s)| < |s|
    ensures s != "" && s[0] != '/' ==> StripSlashes(s) == s
  {
    if s != "" && s[0] == '/' {
      StripSlashesShrinks(s[1..]);
    }
  }

  /** Stripping the bucket never lengthens a path, and leaves it alone exactly if it does not start there. */
  lemma StripBucketShrinks(path: string, bucket: string)
    requires bucket != ""
    ensures var r := StripBucket(path, bucket); r.Key? ==> |r.key| <= |path|
    ensures path != "" && path[0] != '/' ==> (StripBucket(path, bucket) == Key(path) <==> Before(path, '/') != bucket)
    ensures !StripBucket(path, bucket).Throws?
  {
    var pieces := Split(path, '/');
    var parts := Filter(pieces, NonEmpty);
    JoinShrinks(pieces, '/');
    JoinUndoesSplit(path, '/');
    SplitHead(path, '/');
    if path != "" && path[0] != '/' {
      assert pieces[0] != "" && parts[0] == pieces[0];
    }
    if parts != [] && parts[0] == bucket {
      assert |Join(parts[1..], '/')| < |Join(parts, '/')|;
    }
  }

  /** What stripping does to a decoded path that starts with no slash. */
  lemma StripPathExactly(path: string, o: Options)
    requires GoodOptions(o) && path != "" && path[0] != '/' && '%' !in path
    ensures StripStoragePrefix(path, o) == Key(path) <==>
      (o.pathPrefix == "" || Before(path, '/') != PrefixName(o)) && Before(path, '/') != o.bucket
  {
    hide StripBucket;
    hide Decode;
    hide Split;
    hide StripSlashes;
    StripSlashesShrinks(path);
    DecodesToItselfExactly(path);
    SplitHead(path, '/');
    StripBucketShrinks(path, o.bucket);
    var prefix := PrefixName(o);
    if prefix != "" && prefix + "/" <= path {
      var rest := path[|prefix| + 1..];
      assert path == prefix + ['/'] + rest;
      CutAt(prefix, '/', rest);
      StripBucketShrinks(rest, o.bucket);
    } else if path == prefix {
      NothingToCut(path, '/');
    }
  }

  lemma StripShrinks(path: string, o: Options)
    requires GoodOptions(o) && path != "" && (path[0] == '/' || '%' in path)
    ensures StripStoragePrefix(path, o) != Key(path)
  {
    hide StripBucket;
    hide Decode;
    StripSlashesShrinks(path);
    var bare := StripSlashes(path);
    if Decode(bare).Some? {
      var d := Decode(bare).value;
      DecodeShrinks(bare);
      StripBucketShrinks(d, o.bucket);
      if PrefixName(o) + "/" <= d {
        StripBucketShrinks(d[|PrefixName(o)| + 1..], o.bucket);
      }
    }
  }

  /**
   * A bare key reads as itself exactly if it is not read as a proxy URL, holds no percent sign and
   * starts with no slash, prefix or bucket.
   */
  lemma BareKeyExactly(key: string, o: Options)
    requires GoodOptions(o) && key != "" && !IsAbsolute(key)
    ensures MediaKeyFromUrl(Some(key), o) == Key(key) <==>
      && KeyFromMediaObjectUrl(key, o) == NoKey
      && '%' !in key && key[0] != '/'
      && (o.pathPrefix == "" || Before(key, '/') != PrefixName(o))
      && Before(key, '/') != o.bucket
  {
    hide StripStoragePrefix;
    hide KeyFromMediaObjectUrl;
    assert "" + key == key;
    FromObjectIsShorter("", key, o);
    if '%' in key || key[0] == '/' {
      StripShrinks(key, o);
    } else {
      StripPathExactly(key, o);
    }
  }

  predicate KeyChar(c: char) { Letter(c) || Digit(c) || c in "-_." }

  /** Non-empty segments over letters, digits, dash, underscore and dot, not starting at the bucket or the prefix. */
  predicate GoodKey(key: string, o: Options) {
    && key != "" && NoEmptyPart(key, '/')
    && (forall i :: 0 <= i < |key| ==> KeyChar(key[i]) || key[i] == '/')
    && Before(key, '/') != o.bucket && (o.pathPrefix != "" ==> Before(key, '/') != PrefixName(o))
  }

  lemma GoodKeyChars(key: string, o: Options)
    requires GoodKey(key, o)
    ensures key[0] != '/' && '%' !in key && '?' !in key && '&' !in key && Inert(key) && !IsAbsolute(key)
  {
    assert forall i :: 0 <= i < |key| ==> key[i] != ':' && key[i] != '%' && key[i] != '?' && key[i] != '&';
    SplitHead(key, '/');
    assert key[0] != '/' by {
      assert Split(key, '/')[0] != "";
    }
    assert !IsAbsolute(key) by {
      assert |key| >= 7 ==> Lower(key[..7])[4] != ':';
      assert |key| >= 8 ==> Lower(key[..8])[5] != ':';
    }
  }

  lemma {:induction false} GoodKeyReads(key: string, o: Options)
    requires GoodOptions(o) && GoodKey(key, o)
    ensures Stable(key, o) && MediaKeyFromUrl(Some(key), o) == Key(key)
  {
    hide KeyFromMediaObjectUrl;
    hide MediaKeyFromUrl;
    hide ToDirectStorageUrl;
    hide Decode;
    GoodKeyChars(key, o);
    hide IsAbsolute;
    hide Inert;
    NoQueryNoKey(key, o);
    BareKeyExactly(key, o);
    var lead := DirectLead(key, o);
    InertHolds(lead);
    NoQueryNoKey(ToDirectStorageUrl(key, o), o);
  }

  /** The round trip through either served shape, for every good key. */
  lemma {:induction false} ServedUrlGivesTheKeyBack(key: string, o: Options)
    requires GoodOptions(o) && GoodKey(key, o)
    ensures var served := ToServedMediaUrl(Some(key), o);
      served.Url? && MediaKeyFromUrl(served.url, o) == Key(key) && ToServedMediaUrl(served.url, o) == served
  {
    GoodKeyReads(key, o);
    ServedRoundTripExactly(key, o);
    hide MediaKeyFromUrl;
    hide Stable;
  }

  // ---------------------------------------------------------------- legacy absolute URLs

  predicate NoDotPart(s: string) {
    forall i :: 0 <= i < |Split(s, '/')| ==> !IsDot(Split(s, '/')[i]) && !IsDoubleDot(Split(s, '/')[i])
  }

  lemma {:induction false} NothingDotted(parts: seq<string>, done: seq<string>)
    requires forall i :: 0 <= i < |parts| ==> !IsDot(parts[i]) && !IsDoubleDot(parts[i])
    ensures RemoveDots(parts, done) == done + parts
  {
    if parts != [] {
      NothingDotted(parts[1..], done + [parts[0]]);
      assert done + [parts[0]] + parts[1..] == done + parts;
    }
  }

  lemma {:induction false} NoBackslash(s: string)
    requires '\\' !in s
    ensures Slashes(s) == s
  {
  }

  /** What stands between `//` and the path: a host name or address, with a port or credentials. */
  predicate Authority(host: string) { host != "" && Inert(host) && '/' !in host }

  lemma AfterSchemeIs(scheme: string, rest: string)
    requires scheme in ["http", "https"] && Inert(rest)
    ensures AfterScheme(scheme + ":" + rest) == rest
  {
    hide Cleaned;
    hide IndexOf;
    var url := scheme + ":" + rest;
    InertHolds(rest);
    VisibleIsClean(url);
    assert url == scheme + [':'] + rest;
    CutAt(scheme, ':', rest);
    NothingToCut(rest, '#');
    NothingToCut(rest, '?');
  }

  /** Query, fragment and a trailing blank are no part of the path. */
  lemma PathEndsEarly(scheme: string, rest: string, more: string)
    requires scheme in ["http", "https"] && Inert(rest) && Inert(more)
    ensures AfterScheme(scheme + ":" + (rest + "?" + more)) == rest
    ensures AfterScheme(scheme + ":" + (rest + "#" + more)) == rest
    ensures AfterScheme(scheme + ":" + (rest + " ")) == rest
  {
    hide Cleaned;
    hide IndexOf;
    AfterSchemeIs(scheme, rest);
    CutsTail(scheme, rest, '?', more);
    CutsTail(scheme, rest, '#', more);
    VisibleIsClean(scheme + ":" + rest);
    TrailingBlank(scheme + ":" + rest);
    assert scheme + ":" + (rest + " ") == scheme + ":" + rest + " ";
  }

  lemma CutsTail(scheme: string, rest: string, c: char, more: string)
    requires scheme in ["http", "https"] && Inert(rest) && Inert(more) && c in "?#"
    ensures AfterScheme(scheme + ":" + (rest + [c] + more)) == rest
  {
    hide Cleaned;
    hide IndexOf;
    var url, tail := scheme + ":" + (rest + [c] + more), rest + [c] + more;
    InertHolds(rest);
    InertHolds(more);
    VisibleIsClean(url);
    assert url == scheme + [':'] + tail;
    CutAt(scheme, ':', tail);
    CutAt(rest, c, more);
    NothingToCut(rest, '?');
    if c == '?' {
      NothingToCut(tail, '#');
    }
  }

  lemma TrailingBlank(url: string)
    requires Visible(url)
    ensures Cleaned(url + " ") == Cleaned(url)
  {
    BlankEndsAreDropped(' ', url);
    if url == "" {
      assert "" + " " == " " && " "[1..] == "";
    } else {
      assert DropLeading(url + " ") == url + " " && DropLeading(url) == url;
    }
  }

  /** Backslashes in an absolute URL do as slashes. */
  lemma BackslashPath(scheme: string, host: string, path: string)
    requires scheme in ["http", "https"] && Authority(host) && Inert(path) && NoDotPart(path)
    ensures Pathname(scheme + ":" + ("\\\\" + (host + "\\" + path))) == "/" + path
  {
    hide StripSlashes;
    hide Slashes;
    hide IndexOf;
    hide RemoveDots;
    hide Join;
    var written, rest := "\\\\" + (host + "\\" + path), host + "/" + path;
    InertHolds(host);
    InertHolds(path);
    BackslashTail(scheme, written);
    BackslashesTurn(host, path);
    hide AfterScheme;
    TwoSlashes(rest);
    assert rest == host + ['/'] + path;
    CutAt(host, '/', path);
    PathKept(path);
  }

  lemma BackslashTail(scheme: string, rest: string)
    requires scheme in ["http", "https"] && Visible(rest) && '#' !in rest && '?' !in rest
    ensures AfterScheme(scheme + ":" + rest) == rest
  {
    hide Cleaned;
    hide IndexOf;
    var url := scheme + ":" + rest;
    VisibleIsClean(url);
    assert url == scheme + [':'] + rest;
    CutAt(scheme, ':', rest);
    NothingToCut(rest, '#');
    NothingToCut(rest, '?');
  }

  lemma BackslashesTurn(host: string, path: string)
    requires '\\' !in host && '\\' !in path
    ensures Slashes("\\\\" + (host + "\\" + path)) == "//" + (host + "/" + path)
  {
  }

  lemma TwoSlashes(rest: string)
    requires rest != "" && rest[0] != '/'
    ensures StripSlashes("//" + rest) == rest
  {
    assert ("//" + rest)[1..] == "/" + rest && ("/" + rest)[1..] == rest;
    assert StripSlashes("/" + rest) == rest;
  }

  lemma PathKept(path: string)
    requires NoDotPart(path)
    ensures Join(RemoveDots(Split(path, '/'), []), '/') == path
  {
    NothingDotted(Split(path, '/'), []);
    assert [] + Split(path, '/') == Split(path, '/');
    JoinUndoesSplit(path, '/');
  }

  lemma LegacyPath(scheme: string, host: string, path: string)
    requires scheme in ["http", "https"] && Authority(host) && Inert(path) && NoDotPart(path)
    ensures Pathname(scheme + ":" + ("//" + (host + "/" + path))) == "/" + path
  {
    hide AfterScheme;
    hide StripSlashes;
    hide Slashes;
    hide IndexOf;
    hide RemoveDots;
    hide Join;
    var rest := host + "/" + path;
    InertConcat(host, "/");
    InertConcat(host + "/", path);
    InertConcat("//", rest);
    AfterSchemeIs(scheme, "//" + rest);
    InertHolds("//" + rest);
    NoBackslash("//" + rest);
    TwoSlashes(rest);
    assert rest == host + ['/'] + path;
    CutAt(host, '/', path);
    PathKept(path);
  }

  lemma NamesAreNotDots(s: string)
    requires Name(s)
    ensures !IsDot(s) && !IsDoubleDot(s) && '/' !in s
  {
    assert forall i :: 0 <= i < |s| ==> s[i] != '%' && (LowerChar(s[i]) == '.' <==> s[i] == '.') && LowerChar(s[i]) != '%';
    assert forall i :: 0 <= i < |s| ==> Lower(s)[i] != '%' && (Lower(s)[i] == '.' ==> s[i] == '.');
    var low := Lower(s);
    assert |low| == |s|;
    assert |s| == 1 && s[0] == '.' ==> s == ".";
    assert |s| == 2 && s[0] == '.' && s[1] == '.' ==> s == "..";
    assert low != "%2e" && low != ".%2e" && low != "%2e." && low != "%2e%2e" by {
      assert "%2e"[0] == '%' && ".%2e"[1] == '%' && "%2e."[0] == '%' && "%2e%2e"[0] == '%';
    }
    assert "."[0] == '.' && ".."[0] == '.' && ".."[1] == '.';
  }

  lemma NoDotsBefore(name: string, rest: string)
    requires Name(name) && NoDotPart(rest)
    ensures NoDotPart(name + "/" + rest)
  {
    NamesAreNotDots(name);
    assert name + "/" + rest == name + ['/'] + rest;
    SplitFirst(name, rest, '/');
  }

  lemma SchemeIsAbsolute(scheme: string, rest: string)
    requires scheme in ["http", "https"]
    ensures IsAbsolute(scheme + "://" + rest)
  {
    var url := scheme + "://" + rest;
    if scheme == "http" {
      assert url[..7] == "http://" && Lower("http://") == "http://";
    } else {
      assert url[..8] == "https://" && Lower("https://") == "https://";
    }
  }

  lemma DirectHasNoDots(key: string, o: Options)
    requires GoodOptions(o) && NoDotPart(key)
    ensures ToDirectStorageUrl(key, o) != "" && ToDirectStorageUrl(key, o)[0] == '/' && NoDotPart(ToDirectStorageUrl(key, o)[1..])
  {
    hide NoDotPart;
    DirectPath(key, o);
    NoDotsBefore(o.bucket, key);
    var tail := o.bucket + "/" + key;
    if o.pathPrefix == "" {
      assert ToDirectStorageUrl(key, o) == "/" + tail && ("/" + tail)[1..] == tail;
    } else {
      NoDotsBefore(PrefixName(o), tail);
      var path := PrefixName(o) + "/" + tail;
      assert ToDirectStorageUrl(key, o) == "/" + path && ("/" + path)[1..] == path;
    }
  }

  lemma DirectIsInert(key: string, o: Options)
    requires GoodOptions(o) && GoodKey(key, o)
    ensures Inert(ToDirectStorageUrl(key, o))
  {
    var lead := DirectLead(key, o);
    GoodKeyChars(key, o);
    InertConcat(lead, key);
  }

  lemma StableDirect(key: string, o: Options)
    requires GoodOptions(o) && GoodKey(key, o)
    ensures StripStoragePrefix(ToDirectStorageUrl(key, o), o) == Key(key)
  {
    GoodKeyChars(key, o);
    StripDirectExactly(key, o);
  }

  lemma {:induction false} LegacyUrlParts(scheme: string, host: string, path: string, o: Options)
    requires scheme in ["http", "https"] && Authority(host) && Inert(path) && NoDotPart(path)
    ensures var url := scheme + "://" + host + ("/" + path);
      url != "" && KeyFromMediaObjectUrl(url, o) == NoKey && IsAbsolute(url) && Pathname(url) == "/" + path
  {
    hide Pathname;
    hide KeyFromMediaObjectUrl;
    hide IsAbsolute;
    hide NoDotPart;
    hide Inert;
    var url := scheme + "://" + host + ("/" + path);
    assert url == scheme + ":" + ("//" + (host + "/" + path));
    assert url == scheme + "://" + (host + "/" + path);
    LegacyPath(scheme, host, path);
    SchemeIsAbsolute(scheme, host + "/" + path);
    InertHolds(host);
    InertHolds(path);
    NoQueryNoKey(url, o);
  }

  lemma LegacyReads(url: string, path: string, key: string, o: Options)
    requires url != "" && KeyFromMediaObjectUrl(url, o) == NoKey && IsAbsolute(url) && Pathname(url) == path && o.accepts(url)
    requires StripStoragePrefix(path, o) == Key(key) && MediaKeyFromUrl(Some(key), o) == Key(key)
    ensures MediaKeyFromUrl(Some(url), o) == Key(key) && ToServedMediaUrl(Some(url), o) == ToServedMediaUrl(Some(key), o)
  {
  }

  lemma InertTail(s: string)
    requires Inert(s) && s != ""
    ensures Inert(s[1..])
  {
  }

  /** A legacy public URL is served under the same URL as the key it holds. */
  lemma {:induction false} LegacyUrlIsTheSameKey(scheme: string, host: string, key: string, o: Options)
    requires GoodOptions(o) && GoodKey(key, o) && NoDotPart(key)
    requires scheme in ["http", "https"] && Authority(host) && o.accepts(scheme + "://" + host + ToDirectStorageUrl(key, o))
    ensures var legacy := scheme + "://" + host + ToDirectStorageUrl(key, o);
      MediaKeyFromUrl(Some(legacy), o) == Key(key) && ToServedMediaUrl(Some(legacy), o) == ToServedMediaUrl(Some(key), o)
  {
    hide *;
    var direct := ToDirectStorageUrl(key, o);
    GoodKeyReads(key, o);
    DirectHasNoDots(key, o);
    DirectIsInert(key, o);
    InertTail(direct);
    assert direct == "/" + direct[1..];
    LegacyUrlParts(scheme, host, direct[1..], o);
    StableDirect(key, o);
    LegacyReads(scheme + "://" + host + direct, direct, key, o);
  }
}
