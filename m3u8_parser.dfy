/**
 * The static helpers of `M3U8Parser` (backend/utils/m3u8Parser.js): the URL
 * helpers `resolveUrl` and `getBaseUrl`, and the shaping of the manifest that
 * the `m3u8-parser` library produces into a profile list or a media playlist.
 * The library itself is not modelled: its output is the `ParsedManifest` record.
 */
module M3U8Parser {
  import opened Strings
  import opened Url

  datatype Resolution = Resolution(width: int, height: int)

  /** The `attributes` of one `#EXT-X-STREAM-INF` entry, as the library reports them. */
  datatype PlaylistAttributes = PlaylistAttributes(
    bandwidth: Option<int>,
    resolution: Option<Resolution>,
    codecs: Option<string>,
    frameRate: Option<real>,
    audio: Option<string>,
    video: Option<string>,
    subtitles: Option<string>,
    closedCaptions: Option<string>)

  datatype ParsedVariant = ParsedVariant(uri: string, attributes: PlaylistAttributes)

  /** One entry of the library's `segments` list. */
  datatype ParsedSegment = ParsedSegment(
    uri: string,
    duration: Option<real>,
    discontinuity: Option<bool>,
    mediaSequence: Option<int>)

  /** The library's `parser.manifest`, restricted to the fields the monitor reads. */
  datatype ParsedManifest = ParsedManifest(
    playlists: Option<seq<ParsedVariant>>,
    segments: Option<seq<ParsedSegment>>,
    mediaSequence: Option<int>,
    targetDuration: Option<int>,
    playlistType: Option<string>,
    discontinuity: Option<bool>)

  /** A variant profile offered to the operator. */
  datatype Profile = Profile(
    uri: string,
    bandwidth: Option<int>,
    resolution: Option<Resolution>,
    codecs: Option<string>,
    frameRate: Option<real>,
    audio: Option<string>,
    video: Option<string>,
    subtitles: Option<string>,
    closedCaptions: Option<string>)

  datatype MediaSegment = MediaSegment(
    uri: string,
    duration: Option<real>,
    mediaSequence: int,
    discontinuity: bool)

  datatype MediaPlaylist = MediaPlaylist(
    mediaSequence: int,
    targetDuration: Option<int>,
    playlistType: Option<string>,
    segments: seq<MediaSegment>)

  const MasterPrefix := "Failed to parse master playlist: "
  const MediaPrefix := "Failed to parse media playlist: "

  function ToProfile(p: ParsedVariant): Profile {
    var a := p.attributes;
    Profile(p.uri, a.bandwidth, a.resolution, a.codecs, a.frameRate,
            a.audio, a.video, a.subtitles, a.closedCaptions)
  }

  /** `parseMasterPlaylist`: one profile per variant, or an error when there is none. */
  function ParseMasterPlaylist(m: ParsedManifest): (r: Result<seq<Profile>>)
    ensures r.Fail? <==> m.playlists.None? || |m.playlists.value| == 0
    ensures r.Fail? ==> StartsWith(r.message, MasterPrefix)
    ensures r.Ok? ==>
      && |r.value| == |m.playlists.value|
      && forall i :: 0 <= i < |r.value| ==>
           && r.value[i].uri == m.playlists.value[i].uri
           && r.value[i].bandwidth == m.playlists.value[i].attributes.bandwidth
           && r.value[i].resolution == m.playlists.value[i].attributes.resolution
           && r.value[i].codecs == m.playlists.value[i].attributes.codecs
           && r.value[i].frameRate == m.playlists.value[i].attributes.frameRate
           && r.value[i].audio == m.playlists.value[i].attributes.audio
           && r.value[i].video == m.playlists.value[i].attributes.video
           && r.value[i].subtitles == m.playlists.value[i].attributes.subtitles
           && r.value[i].closedCaptions == m.playlists.value[i].attributes.closedCaptions
  {
    match m.playlists
    case None => Fail(MasterPrefix + "No playlists found in master manifest")
    case Some(ps) =>
      if |ps| == 0 then Fail(MasterPrefix + "No playlists found in master manifest")
      else Ok(seq(|ps|, i requires 0 <= i < |ps| => ToProfile(ps[i])))
  }

  /** `x || 0` for a number the library may leave undefined. */
  function OrZero(x: Option<int>): int {
    if x.Some? then x.value else 0
  }

  /** `x || false` for a flag the library may leave undefined. */
  function OrFalse(x: Option<bool>): bool {
    x.Some? && x.value
  }

  function ToMediaSegment(s: ParsedSegment, mediaSequence: int): MediaSegment {
    MediaSegment(s.uri, s.duration, mediaSequence, OrFalse(s.discontinuity))
  }

  /**
   * `parseMediaPlaylist`: the segments in order, each tagged with the
   * playlist's media sequence (0 when absent), or an error when there is none.
   */
  function ParseMediaPlaylist(m: ParsedManifest): (r: Result<MediaPlaylist>)
    ensures r.Fail? <==> m.segments.None? || |m.segments.value| == 0
    ensures r.Fail? ==> StartsWith(r.message, MediaPrefix)
    ensures r.Ok? ==>
      && r.value.mediaSequence == (if m.mediaSequence.Some? then m.mediaSequence.value else 0)
      && r.value.targetDuration == m.targetDuration
      && r.value.playlistType == m.playlistType
      && |r.value.segments| == |m.segments.value|
      && forall i :: 0 <= i < |r.value.segments| ==>
           && r.value.segments[i].uri == m.segments.value[i].uri
           && r.value.segments[i].duration == m.segments.value[i].duration
           && r.value.segments[i].mediaSequence == r.value.mediaSequence
           && r.value.segments[i].discontinuity == (m.segments.value[i].discontinuity == Some(true))
  {
    match m.segments
    case None => Fail(MediaPrefix + "No segments found in media playlist")
    case Some(ss) =>
      if |ss| == 0 then Fail(MediaPrefix + "No segments found in media playlist")
      else
        var ms := OrZero(m.mediaSequence);
        Ok(MediaPlaylist(ms, m.targetDuration, m.playlistType,
                         seq(|ss|, i requires 0 <= i < |ss| => ToMediaSegment(ss[i], ms))))
  }

  /**
   * `getBaseUrl`: the input up to and including its last `/`, or "" when it
   * has none. The contract pins the result down: a prefix that is empty or
   * ends in `/`, after which no `/` follows.
   */
  function GetBaseUrl(url: string): (r: string)
    ensures |r| <= |url| && r == url[..|r|]
    ensures r == [] || r[|r| - 1] == '/'
    ensures forall j :: |r| <= j < |url| ==> url[j] != '/'
  {
    url[..LastIndexOf(url, '/') + 1]
  }

  /** Taking the base of a base changes nothing. */
  lemma GetBaseUrlIdempotent(url: string)
    ensures GetBaseUrl(GetBaseUrl(url)) == GetBaseUrl(url)
  {
    var b := GetBaseUrl(url);
    if b != [] {
      assert LastIndexOf(b, '/') == |b| - 1;
    }
  }

  /** The directory part of a pathname as `resolveUrl` computes it: split on `/`, drop the last piece, join. */
  function BasePath(pathname: string): string {
    var parts := Split(pathname, '/');
    Join(parts[..|parts| - 1], '/')
  }

  /** `BasePath` is the pathname cut just before its last `/` ("" when it has none). */
  lemma BasePathBeforeLastSlash(p: string)
    ensures BasePath(p) == if LastIndexOf(p, '/') < 0 then "" else p[..LastIndexOf(p, '/')]
  {
    var parts := Split(p, '/');
    JoinSplit(p, '/');
    SplitPartsFree(p, '/');
    if |parts| == 1 {
      assert p == parts[0];
      assert LastIndexOf(p, '/') < 0;
    } else {
      var dir := BasePath(p);
      var last := parts[|parts| - 1];
      JoinSnoc(parts, '/');
      assert p == dir + "/" + last;
      LastSlashBeforeLast(dir, last);
    }
  }

  /** In `dir/last` with no `/` in `last`, the last `/` is the one after `dir`. */
  lemma LastSlashBeforeLast(dir: string, last: string)
    requires '/' !in last
    ensures LastIndexOf(dir + "/" + last, '/') == |dir|
    ensures (dir + "/" + last)[..|dir|] == dir
  {
    var p := dir + "/" + last;
    assert p[|dir|] == '/';
    assert forall j :: |dir| < j < |p| ==> p[j] == last[j - |dir| - 1];
  }

  /** Joining all pieces is joining all but the last, then the separator, then the last. */
  lemma {:induction false} JoinSnoc(parts: seq<string>, c: char)
    requires |parts| >= 2
    ensures Join(parts, c) == Join(parts[..|parts| - 1], c) + [c] + parts[|parts| - 1]
  {
    var n := |parts|;
    if n > 2 {
      JoinSnoc(parts[1..], c);
      assert parts[1..][..n - 2] == parts[..n - 1][1..];
      assert parts[1..][n - 2] == parts[n - 1];
    }
  }

  /**
   * `resolveUrl`: `http(s)://` URIs are kept, `//` URIs get `https:`, `/`
   * URIs are put under the base's protocol and host, and other URIs under the
   * base's directory. The base is parsed only in the last two cases, so only
   * they fail (with the `URL` constructor's "Invalid URL") on a bad base.
   */
  function ResolveUrl(baseUrl: string, uri: string): Result<string> {
    if StartsWith(uri, "http://") || StartsWith(uri, "https://") then Ok(uri)
    else if StartsWith(uri, "//") then Ok("https:" + uri)
    else
      match ParseUrl(baseUrl)
      case None => Fail("Invalid URL")
      case Some(b) =>
        if StartsWith(uri, "/") then Ok(b.protocol + "//" + b.host + uri)
        else Ok(b.protocol + "//" + b.host + BasePath(b.pathname) + "/" + uri)
  }

  predicate IsHttpUrl(s: string) {
    StartsWith(s, "http://") || StartsWith(s, "https://")
  }

  /** Absolute and scheme-relative URIs resolve the same way against every base. */
  lemma ResolveIgnoresBase(base1: string, base2: string, uri: string)
    requires IsHttpUrl(uri) || StartsWith(uri, "//")
    ensures ResolveUrl(base1, uri) == ResolveUrl(base2, uri)
    ensures ResolveUrl(base1, uri).Ok? && IsHttpUrl(ResolveUrl(base1, uri).value)
  {
    if !IsHttpUrl(uri) {
      var r := "https:" + uri;
      assert r[..8] == "https://";
    }
  }

  /** An `http(s)://` URL resolves to itself against any base. */
  lemma ResolveHttpUrl(base: string, uri: string)
    requires IsHttpUrl(uri)
    ensures ResolveUrl(base, uri) == Ok(uri)
  {
  }

  /**
   * Against an `http:` or `https:` base every URI resolves, the result is an
   * `http(s)://` URL, and resolving that result again (against any base)
   * returns it unchanged.
   */
  lemma ResolveIdempotent(base: string, other: string, uri: string)
    requires ParseUrl(base).Some? && ParseUrl(base).value.protocol in {"http:", "https:"}
    ensures ResolveUrl(base, uri).Ok?
    ensures IsHttpUrl(ResolveUrl(base, uri).value)
    ensures ResolveUrl(other, ResolveUrl(base, uri).value) == ResolveUrl(base, uri)
  {
    var b := ParseUrl(base).value;
    if IsHttpUrl(uri) || StartsWith(uri, "//") {
      ResolveIgnoresBase(base, other, uri);
    } else {
      var head := b.protocol + "//";
      var tail;
      if StartsWith(uri, "/") {
        tail := b.host + uri;
        AppendAssoc(head, b.host, uri);
      } else {
        tail := b.host + BasePath(b.pathname) + "/" + uri;
        AppendAssoc(head, b.host, BasePath(b.pathname));
        AppendAssoc(head, b.host + BasePath(b.pathname), "/");
        AppendAssoc(head, b.host + BasePath(b.pathname) + "/", uri);
      }
      assert ResolveUrl(base, uri) == Ok(head + tail);
      HttpPrefix(b.protocol, tail);
      ResolveHttpUrl(other, head + tail);
    }
  }

  /** `http:` or `https:` followed by `//` starts an `http(s)://` URL. */
  lemma HttpPrefix(protocol: string, tail: string)
    requires protocol in {"http:", "https:"}
    ensures IsHttpUrl(protocol + "//" + tail)
  {
    var r := protocol + "//" + tail;
    if protocol == "http:" {
      assert r[..7] == "http://";
    } else {
      assert r[..8] == "https://";
    }
  }

  /**
   * A root-relative URI keeps the base's protocol and host and becomes the
   * whole path: parsing the resolved URL gives exactly those parts.
   */
  lemma ResolveRootRelative(base: string, uri: string)
    requires ParseUrl(base).Some?
    requires StartsWith(uri, "/") && !StartsWith(uri, "//")
    requires forall k :: 0 <= k < |uri| ==> uri[k] !in PathStops
    ensures var b := ParseUrl(base).value;
      ResolveUrl(base, uri).Ok? &&
      ParseUrl(ResolveUrl(base, uri).value) == Some(UrlParts(b.protocol, b.host, uri))
  {
    var b := ParseUrl(base).value;
    assert uri[0] == '/';
    assert !StartsWith(uri, "http://") && !StartsWith(uri, "https://");
    ParseOfFormat(b, uri);
  }

  /**
   * A relative URI is placed in the base's directory: for a base whose path
   * holds a `/`, the resolved URL has the base's protocol and host and the
   * path up to and including its last `/`, followed by the URI.
   */
  lemma ResolveRelative(base: string, uri: string)
    requires ParseUrl(base).Some? && IsSpecial(ParseUrl(base).value.protocol)
    requires !StartsWith(uri, "/") && !IsHttpUrl(uri)
    requires forall k :: 0 <= k < |uri| ==> uri[k] !in PathStops
    ensures var b := ParseUrl(base).value;
      var dir := b.pathname[..LastIndexOf(b.pathname, '/') + 1];
      ResolveUrl(base, uri).Ok? &&
      ParseUrl(ResolveUrl(base, uri).value) == Some(UrlParts(b.protocol, b.host, dir + uri))
  {
    var b := ParseUrl(base).value;
    assert !StartsWith(uri, "//");
    assert ResolveUrl(base, uri) == Ok(b.protocol + "//" + b.host + BasePath(b.pathname) + "/" + uri);
    ParseOfRelative(b, uri, b.protocol + "//" + b.host + BasePath(b.pathname) + "/" + uri);
  }

  lemma ParseOfRelative(b: UrlParts, uri: string, whole: string)
    requires WellFormed(b) && IsSpecial(b.protocol)
    requires forall k :: 0 <= k < |uri| ==> uri[k] !in PathStops
    requires whole == b.protocol + "//" + b.host + BasePath(b.pathname) + "/" + uri
    ensures var dir := b.pathname[..LastIndexOf(b.pathname, '/') + 1];
      ParseUrl(whole) == Some(UrlParts(b.protocol, b.host, dir + uri))
  {
    var p := b.pathname;
    var path := p[..LastIndexOf(p, '/') + 1] + uri;
    DirectoryPath(p, uri);
    assert whole == b.protocol + "//" + b.host + path;
    ParseOfFormat(b, path);
  }

  /** The base's directory followed by a relative URI is an absolute path with no query or fragment. */
  lemma DirectoryPath(p: string, uri: string)
    requires StartsWith(p, "/")
    requires forall k :: 0 <= k < |p| ==> p[k] !in PathStops
    requires forall k :: 0 <= k < |uri| ==> uri[k] !in PathStops
    ensures var path := p[..LastIndexOf(p, '/') + 1] + uri;
      && path == BasePath(p) + "/" + uri
      && StartsWith(path, "/")
      && forall k :: 0 <= k < |path| ==> path[k] !in PathStops
  {
    assert p[0] == '/';
    var li := LastIndexOf(p, '/');
    var path := p[..li + 1] + uri;
    BasePathBeforeLastSlash(p);
    assert path[0] == '/';
    forall k | 0 <= k < |path| ensures path[k] !in PathStops {
      if k <= li { assert path[k] == p[k]; } else { assert path[k] == uri[k - li - 1]; }
    }
  }
}
