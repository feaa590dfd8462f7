/**
 * The one-shot analyzer server (`server.js`): the tag scan of a manifest,
 * the cache-freshness rule, the segment re-sample decision with its `Range`
 * header, the module-level table of segment samples, and the input checks
 * of `POST /analyze/start`.
 *
 * Network and cache-file results are arguments; every `io.emit` is an
 * append to the server's `emitted` sequence.
 */
module Server {
  import opened Strings
  import opened Url

  // ---------------------------------------------------------------------
  // Manifest lines and the tag scan
  // ---------------------------------------------------------------------

  const MediaSequenceTag := "#EXT-X-MEDIA-SEQUENCE"
  const DiscontinuityTag := "#EXT-X-DISCONTINUITY"

  /** `parts.map(line => line.trim()).filter(line => line.length > 0)` */
  function TrimmedNonEmpty(parts: seq<string>): (lines: seq<string>)
    ensures |lines| <= |parts|
  {
    if parts == [] then []
    else
      var t := Trim(parts[0]);
      var rest := TrimmedNonEmpty(parts[1..]);
      if t == [] then rest else [t] + rest
  }

  /** `content.split('\n').map(line => line.trim()).filter(line => line.length > 0)` */
  function ManifestLines(content: string): seq<string> {
    TrimmedNonEmpty(Split(content, '\n'))
  }

  /** A line as the scan sees it: not empty, no line feed, no whitespace at either end. */
  predicate CleanLine(l: string) {
    l != [] && '\n' !in l && !IsJsWhitespace(l[0]) && !IsJsWhitespace(l[|l| - 1])
  }

  /** A string with no whitespace at either end is its own trim. */
  lemma TrimOfTrimmed(s: string)
    requires s != [] && !IsJsWhitespace(s[0]) && !IsJsWhitespace(s[|s| - 1])
    ensures Trim(s) == s
  {
  }

  /** Trimming a string without a line feed gives one without a line feed. */
  lemma TrimInside(s: string, ch: char)
    requires ch !in s
    ensures ch !in Trim(s)
  {
    var a := TrimStart(s);
    assert ch !in s[|s| - |a|..];
    var t := TrimEnd(a);
    assert ch !in a[..|t|];
  }

  /** Every line is clean. */
  predicate AllClean(lines: seq<string>) {
    forall k :: 0 <= k < |lines| ==> CleanLine(lines[k])
  }

  lemma ConsClean(t: string, rest: seq<string>)
    requires CleanLine(t) && AllClean(rest)
    ensures AllClean([t] + rest)
  {
    assert forall k :: 0 < k <= |rest| ==> ([t] + rest)[k] == rest[k - 1];
  }

  /** Trimmed non-empty pieces of line-feed-free parts are clean lines. */
  lemma {:induction false} TrimmedNonEmptyClean(parts: seq<string>)
    requires forall j :: 0 <= j < |parts| ==> '\n' !in parts[j]
    ensures AllClean(TrimmedNonEmpty(parts))
  {
    if parts != [] {
      assert forall j :: 0 <= j < |parts| - 1 ==> parts[1..][j] == parts[j + 1];
      TrimmedNonEmptyClean(parts[1..]);
      var t := Trim(parts[0]);
      var rest := TrimmedNonEmpty(parts[1..]);
      assert TrimmedNonEmpty(parts) == if t == [] then rest else [t] + rest;
      if t != [] {
        TrimClean(parts[0]);
        ConsClean(t, rest);
      }
    }
  }

  /** A non-empty trim of a string without a line feed is a clean line. */
  lemma TrimClean(s: string)
    requires '\n' !in s && Trim(s) != []
    ensures CleanLine(Trim(s))
  {
    TrimInside(s, '\n');
    TrimSpec(s);
  }

  /** Every manifest line is non-empty, holds no line feed, and has no whitespace at either end. */
  lemma ManifestLinesShape(content: string)
    ensures AllClean(ManifestLines(content))
  {
    SplitPartsFree(content, '\n');
    TrimmedNonEmptyClean(Split(content, '\n'));
  }

  /** So the scan's own `line.trim()` of a manifest line changes nothing. */
  lemma ManifestLineRetrimmed(content: string, k: nat)
    requires k < |ManifestLines(content)|
    ensures Trim(ManifestLines(content)[k]) == ManifestLines(content)[k]
  {
    var lines := ManifestLines(content);
    ManifestLinesShape(content);
    assert CleanLine(lines[k]);
    TrimOfTrimmed(lines[k]);
  }

  /** What the scan reads off one line: the media sequence it sets, if any, and whether it marks a discontinuity. */
  datatype LineTag = LineTag(mediaSequence: Option<ParsedInt>, discontinuity: bool)

  /**
   * One line of the `forEach`: trimmed; if it starts with
   * `#EXT-X-MEDIA-SEQUENCE` and splits on `:` into more than one part, the
   * second part read by `parseInt` is the media sequence; it is a
   * discontinuity if it starts with `#EXT-X-DISCONTINUITY`.
   */
  function TagOf(line: string): LineTag {
    var trimmed := Trim(line);
    var parts := Split(trimmed, ':');
    LineTag(if StartsWith(trimmed, MediaSequenceTag) && |parts| > 1 then Some(ParseInt(parts[1])) else None,
            StartsWith(trimmed, DiscontinuityTag))
  }

  /** The tag of every line. */
  function Tags(lines: seq<string>): (tags: seq<LineTag>)
    ensures |tags| == |lines|
  {
    seq(|lines|, k requires 0 <= k < |lines| => TagOf(lines[k]))
  }

  /** `mediaSequence` after the first `n` lines of the scan (`None` is `null`). */
  function ScanMediaSequence(tags: seq<LineTag>, n: nat): Option<ParsedInt>
    requires n <= |tags|
  {
    if n == 0 then None
    else if tags[n - 1].mediaSequence.Some? then tags[n - 1].mediaSequence
    else ScanMediaSequence(tags, n - 1)
  }

  /** `discoIndexes` after the first `n` lines of the scan. */
  function ScanDiscoIndexes(tags: seq<LineTag>, n: nat): seq<int>
    requires n <= |tags|
  {
    if n == 0 then []
    else ScanDiscoIndexes(tags, n - 1) + (if tags[n - 1].discontinuity then [n - 1] else [])
  }

  /**
   * The `forEach` over the manifest lines: the last line that starts with
   * `#EXT-X-MEDIA-SEQUENCE` and has a `:` sets the media sequence, and the
   * index of every line that starts with `#EXT-X-DISCONTINUITY` is pushed.
   */
  method ScanTags(lines: seq<string>) returns (mediaSequence: Option<ParsedInt>, discoIndexes: seq<int>)
    ensures mediaSequence == ScanMediaSequence(Tags(lines), |lines|)
    ensures discoIndexes == ScanDiscoIndexes(Tags(lines), |lines|)
  {
    ghost var tags := Tags(lines);
    mediaSequence := None;
    discoIndexes := [];
    for idx := 0 to |lines|
      invariant mediaSequence == ScanMediaSequence(tags, idx)
      invariant discoIndexes == ScanDiscoIndexes(tags, idx)
    {
      var tag := ReadTag(lines[idx]);
      TagsAt(lines, idx);
      if tag.mediaSequence.Some? {
        mediaSequence := tag.mediaSequence;
      }
      if tag.discontinuity {
        discoIndexes := discoIndexes + [idx];
      } else {
        AppendEmpty(discoIndexes);
      }
    }
  }

  /**
   * The media sequence is `null` exactly when no line sets it; otherwise it
   * is the value set by the last line that does.
   */
  lemma {:induction false} LastMediaSequenceWins(tags: seq<LineTag>, n: nat)
    requires n <= |tags|
    ensures ScanMediaSequence(tags, n).None? <==> forall k :: 0 <= k < n ==> tags[k].mediaSequence.None?
    ensures ScanMediaSequence(tags, n).Some? ==>
      exists k :: 0 <= k < n && ScanMediaSequence(tags, n) == tags[k].mediaSequence
        && forall j :: k < j < n ==> tags[j].mediaSequence.None?
  {
    if n > 0 && tags[n - 1].mediaSequence.None? {
      LastMediaSequenceWins(tags, n - 1);
      if ScanMediaSequence(tags, n - 1).Some? {
        var k :| 0 <= k < n - 1 && ScanMediaSequence(tags, n - 1) == tags[k].mediaSequence
          && forall j :: k < j < n - 1 ==> tags[j].mediaSequence.None?;
        assert forall j :: k < j < n ==> tags[j].mediaSequence.None?;
      }
    }
  }

  /**
   * `discoIndexes` lists, in strictly ascending order, exactly the
   * positions of the lines that start with `#EXT-X-DISCONTINUITY`.
   */
  lemma {:induction false} DiscoIndexesExact(tags: seq<LineTag>, n: nat)
    requires n <= |tags|
    ensures var d := ScanDiscoIndexes(tags, n);
      && (forall i, j :: 0 <= i < j < |d| ==> d[i] < d[j])
      && (forall k :: k in d <==> 0 <= k < n && tags[k].discontinuity)
  {
    if n > 0 {
      DiscoIndexesExact(tags, n - 1);
      var d0 := ScanDiscoIndexes(tags, n - 1);
      assert forall k :: k in d0 ==> k < n - 1;
      var d := ScanDiscoIndexes(tags, n);
      if tags[n - 1].discontinuity {
        assert d == d0 + [n - 1];
        assert forall i :: 0 <= i < |d0| ==> d0[i] in d0;
        assert forall i :: 0 <= i < |d0| ==> d[i] == d0[i];
      } else {
        assert d == d0 + [];
      }
    }
  }

  /**
   * One step of the `forEach`: the line trimmed, then tested for the two
   * tags, the media sequence read from its second `:`-separated part.
   */
  method ReadTag(line: string) returns (tag: LineTag)
    ensures tag == TagOf(line)
    ensures tag.discontinuity <==> StartsWith(Trim(line), DiscontinuityTag)
    ensures tag.mediaSequence.Some? ==> StartsWith(Trim(line), MediaSequenceTag)
  {
    var trimmed := Trim(line);
    var mediaSequence := None;
    if StartsWith(trimmed, MediaSequenceTag) {
      var parts := Split(trimmed, ':');
      if |parts| > 1 {
        mediaSequence := Some(ParseInt(parts[1]));
      }
    }
    tag := LineTag(mediaSequence, StartsWith(trimmed, DiscontinuityTag));
  }

  /** Line `k`'s tag is `TagOf` that line. */
  lemma TagsAt(lines: seq<string>, k: nat)
    requires k < |lines|
    ensures Tags(lines)[k] == TagOf(lines[k])
  {
  }

  /**
   * The discontinuity test is a prefix test, so an
   * `#EXT-X-DISCONTINUITY-SEQUENCE` line (section 4.3.3.3 of RFC 8216)
   * counts as a discontinuity too, and sets no media sequence.
   */
  lemma DiscontinuitySequenceCounts()
    ensures TagOf("#EXT-X-DISCONTINUITY-SEQUENCE:4") == LineTag(None, true)
  {
    var line := "#EXT-X-DISCONTINUITY-SEQUENCE:4";
    assert line[..|DiscontinuityTag|] == DiscontinuityTag;
    assert line[8] != MediaSequenceTag[8];
    TagOfTrimmedLine(line);
  }

  /**
   * The discontinuity test as intended: the trimmed line is the
   * `#EXT-X-DISCONTINUITY` tag itself, which takes no value (section
   * 4.3.2.3 of RFC 8216). The media sequence is read as before.
   */
  function IntendedTagOf(line: string): LineTag {
    TagOf(line).(discontinuity := IsDiscontinuityLine(line))
  }

  /** The intended discontinuity test on its own. */
  predicate IsDiscontinuityLine(line: string) {
    Trim(line) == DiscontinuityTag
  }

  /**
   * The intended test only narrows the one as written: the two disagree
   * exactly on lines that start with `#EXT-X-DISCONTINUITY` and go on, such
   * as `#EXT-X-DISCONTINUITY-SEQUENCE:4`, which is no discontinuity.
   */
  lemma IntendedTagNarrows(line: string)
    ensures IntendedTagOf(line).mediaSequence == TagOf(line).mediaSequence
    ensures IntendedTagOf(line).discontinuity ==> TagOf(line).discontinuity
    ensures TagOf(line).discontinuity && !IntendedTagOf(line).discontinuity <==>
      StartsWith(Trim(line), DiscontinuityTag) && |Trim(line)| > |DiscontinuityTag|
  {
    var t := Trim(line);
    if t == DiscontinuityTag {
      assert t[..|DiscontinuityTag|] == DiscontinuityTag;
    }
    if StartsWith(t, DiscontinuityTag) && |t| == |DiscontinuityTag| {
      assert t == t[..|DiscontinuityTag|];
    }
  }

  /** As intended, the `#EXT-X-DISCONTINUITY` line itself is a discontinuity. */
  lemma TagLineIsDiscontinuity()
    ensures IsDiscontinuityLine("#EXT-X-DISCONTINUITY")
  {
    TrimOfTrimmed("#EXT-X-DISCONTINUITY");
  }

  /**
   * A line that starts with the tag and goes on, such as
   * `#EXT-X-DISCONTINUITY-SEQUENCE:4`, counts as a discontinuity as
   * written, and not as intended.
   */
  lemma LongerTagLineIsNoDiscontinuity(line: string)
    requires StartsWith(line, DiscontinuityTag) && |line| > |DiscontinuityTag|
    requires !IsJsWhitespace(line[|line| - 1])
    ensures TagOf(line).discontinuity && !IsDiscontinuityLine(line)
  {
    TrimOfTrimmed(line);
    IntendedTagNarrows(line);
  }

  /** The tag of a line with no whitespace at its ends is read off the line itself. */
  lemma TagOfTrimmedLine(line: string)
    requires line != [] && !IsJsWhitespace(line[0]) && !IsJsWhitespace(line[|line| - 1])
    ensures TagOf(line).discontinuity <==> StartsWith(line, DiscontinuityTag)
    ensures !StartsWith(line, MediaSequenceTag) ==> TagOf(line).mediaSequence.None?
  {
    TrimOfTrimmed(line);
  }

  // ---------------------------------------------------------------------
  // Cache freshness
  // ---------------------------------------------------------------------

  /** How long a cached response is reused, in milliseconds. */
  const CacheValidityMs := 30000

  /** A response `fetchWithCache` returns: body, headers, status, the time taken, and when it was fetched. */
  datatype Fetched = Fetched(data: string, headers: map<string, string>, status: int, duration: int, timestamp: int)

  /**
   * The cache file of a URL: absent; a file found on disk, with its text and
   * what `JSON.parse` made of it (`None` when it threw); or a file
   * `fetchWithCache` wrote, whose JSON text is never empty and reads back
   * as the response written.
   */
  datatype CacheFile = Missing | Present(text: string, parsed: Option<Fetched>) | Written(entry: Fetched)

  /**
   * The cache lookup at the top of `fetchWithCache`: a cached response is
   * returned when the file exists, is not empty, parses, and was written
   * less than 30 seconds before `now`; otherwise the caller fetches.
   */
  function CacheLookup(file: CacheFile, now: int): (r: Option<Fetched>)
    ensures r.Some? <==>
      || (file.Present? && file.text != "" && file.parsed.Some? && now - file.parsed.value.timestamp < CacheValidityMs)
      || (file.Written? && now - file.entry.timestamp < CacheValidityMs)
    ensures r.Some? ==> r == if file.Present? then file.parsed else Some(file.entry)
  {
    match file
    case Missing => None
    case Present(text, parsed) =>
      if text != "" && parsed.Some? && now - parsed.value.timestamp < 30000 then parsed else None
    case Written(entry) =>
      if now - entry.timestamp < 30000 then Some(entry) else None
  }

  /** What one `fetchWithCache` did: its result, whether the cache answered, and the URL's cache file afterwards. */
  datatype CacheFetch = CacheFetch(result: Result<Fetched>, fromCache: bool, file: CacheFile)

  /**
   * `fetchWithCache` for one URL at time `now`, where `network` is what the
   * request would return if sent: a fresh cached response answers and
   * nothing is sent; otherwise the request is sent, and a response is
   * written to the URL's file. The cache key is the URL alone, whatever
   * the method and headers.
   */
  function CachedFetch(file: CacheFile, now: int, network: Result<Fetched>): (r: CacheFetch)
  {
    match CacheLookup(file, now)
    case Some(cached) => CacheFetch(Ok(cached), true, file)
    case None => CacheFetch(network, false, if network.Ok? then Written(network.value) else file)
  }

  /**
   * Whatever the URL's file held, a `fetchWithCache` that succeeded leaves
   * a file that answers every later lookup as one holding its own result
   * would: the response it read from the cache, or the one it just wrote.
   */
  lemma CachedFetchLeavesEntry(file: CacheFile, now: int, network: Result<Fetched>, later: int)
    requires CachedFetch(file, now, network).result.Ok?
    ensures var r := CachedFetch(file, now, network);
      CacheLookup(r.file, later) == CacheLookup(Written(r.result.value), later)
  {
  }

  /**
   * A request to a URL whose file holds `entry` is answered from the cache,
   * with `entry` itself, while the entry is less than 30 seconds old, and
   * sent only after that.
   */
  lemma CachedFetchOfEntry(entry: Fetched, now: int, network: Result<Fetched>)
    ensures now - entry.timestamp < CacheValidityMs ==>
      CachedFetch(Written(entry), now, network) == CacheFetch(Ok(entry), true, Written(entry))
    ensures now - entry.timestamp >= CacheValidityMs ==>
      CachedFetch(Written(entry), now, network).result == network && !CachedFetch(Written(entry), now, network).fromCache
  {
  }

  /**
   * A response cached at one moment is reused at every later moment up to,
   * but not including, 30 seconds after it was written, and never after.
   */
  lemma CacheFreshWindow(text: string, cached: Fetched, now: int, later: int)
    requires text != "" && now <= later
    ensures CacheLookup(Present(text, Some(cached)), later).Some? ==> CacheLookup(Present(text, Some(cached)), now).Some?
    ensures CacheLookup(Present(text, Some(cached)), cached.timestamp).Some?
    ensures CacheLookup(Present(text, Some(cached)), cached.timestamp + CacheValidityMs).None?
  {
  }

  // ---------------------------------------------------------------------
  // Segment samples: the re-sample decision and the Range header
  // ---------------------------------------------------------------------

  /** `CONFIG.SEGMENT_SAMPLE_SIZE`, "first 10KB for comparison". */
  const SegmentSampleSize := 10240

  /** What the server remembers of a sampled segment. */
  datatype SegmentRecord = SegmentRecord(
    url: string,
    manifestUrl: string,
    size: int,
    sampleSize: Option<nat>,
    headers: map<string, string>,
    downloadTimeMs: int,
    lastModified: Option<string>)

  /** `parseInt(headers['content-length']) || 0`: a missing or unreadable length is 0. */
  function ContentLength(headers: map<string, string>): (len: int)
    ensures "content-length" !in headers ==> len == 0
    ensures "content-length" in headers && ParseInt(headers["content-length"]).Int? ==>
      len == ParseInt(headers["content-length"]).value
    ensures "content-length" in headers && ParseInt(headers["content-length"]).NaN? ==> len == 0
  {
    match Header(headers, "content-length")
    case None => 0
    case Some(h) => if ParseInt(h).Int? then ParseInt(h).value else 0
  }

  /**
   * A segment is sampled again when there is no record of it, or its size
   * or its `last-modified` header differs from the record's.
   */
  predicate NeedsSample(previous: Option<SegmentRecord>, contentLength: int, lastModified: Option<string>) {
    previous.None? || previous.value.size != contentLength || previous.value.lastModified != lastModified
  }

  /** A byte-range specifier of a `Range` header (section 14.1.2 of RFC 9110): `bytes=first-[last]`. */
  datatype ByteRange = ByteRange(first: nat, last: Option<nat>)

  /**
   * Reads a single `bytes=first-last` or `bytes=first-` range specifier;
   * `None` for anything else, including a last position before the first.
   */
  function ParseRange(h: string): (r: Option<ByteRange>)
    ensures r.Some? ==> StartsWith(h, "bytes=")
    ensures r.Some? && r.value.last.Some? ==> r.value.first <= r.value.last.value
  {
    if !StartsWith(h, "bytes=") then None
    else
      var spec := h[6..];
      var dash := IndexOf(spec, '-');
      if dash <= 0 then None
      else
        var first, last := spec[..dash], spec[dash + 1..];
        if !AllDigits(first) || !AllDigits(last) then None
        else if last == [] then Some(ByteRange(DecimalValue(first), None))
        else if DecimalValue(first) <= DecimalValue(last) then Some(ByteRange(DecimalValue(first), Some(DecimalValue(last))))
        else None
  }

  /** The number of bytes a range asks for, if it names its last position. */
  function RangeLength(r: ByteRange): (n: nat)
    requires r.last.Some? && r.first <= r.last.value
  {
    r.last.value - r.first + 1
  }

  /** `bytes=0-n` reads back as the range from 0 to `n`. */
  lemma ParseRangeFromZero(n: nat)
    ensures ParseRange("bytes=0-" + NatToString(n)) == Some(ByteRange(0, Some(n)))
  {
    var d := NatToString(n);
    var h := "bytes=0-" + d;
    DecimalOfNatToString(n);
    assert h[..6] == "bytes=";
    var spec := h[6..];
    assert spec == "0-" + d;
    IndexOfAt(spec, '-', 1);
    assert spec[..1] == "0" && spec[2..] == d;
    assert DecimalValue("0") == 0 by {
      assert "0"[..0] == [];
    }
  }

  /**
   * The `Range` header as written: up to position 10240 of a segment whose
   * length is known, and `bytes=0-*` otherwise.
   */
  function RangeHeaderAsWritten(contentLength: int): string {
    if contentLength > 0 then
      "bytes=0-" + IntToString(if SegmentSampleSize < contentLength - 1 then SegmentSampleSize else contentLength - 1)
    else "bytes=0-*"
  }

  /**
   * Byte ranges include their last position, so for a segment longer than
   * the sample size the header as written asks for 10241 bytes, one more
   * than the 10 KB sample.
   */
  lemma RangeAsWrittenOverreads()
    ensures ParseRange(RangeHeaderAsWritten(20000)) == Some(ByteRange(0, Some(10240)))
    ensures RangeLength(ByteRange(0, Some(10240))) == SegmentSampleSize + 1
  {
    ParseRangeFromZero(10240);
  }

  /** With no known length the header as written is no byte-range specifier at all. */
  lemma RangeAsWrittenUnknownLength()
    ensures RangeHeaderAsWritten(0) == "bytes=0-*"
    ensures ParseRange(RangeHeaderAsWritten(0)).None?
  {
    var h := "bytes=0-*";
    assert h[..6] == "bytes=";
    var spec := h[6..];
    assert spec == "0-*";
    IndexOfAt(spec, '-', 1);
    assert spec[2..] == "*" && !IsDigit('*');
  }

  /**
   * The header as written and the corrected one agree exactly on segments
   * of known length up to the sample size; they differ when the length is
   * unknown (`bytes=0-*`) and on every longer segment (`bytes=0-10240`).
   */
  lemma RangeHeaderAsWrittenAgrees(contentLength: int)
    ensures RangeHeaderAsWritten(contentLength) == RangeHeader(contentLength) <==> 0 < contentLength <= SegmentSampleSize
  {
    var prefix := "bytes=0-";
    var written := RangeHeaderAsWritten(contentLength);
    var corrected := RangeHeader(contentLength);
    assert corrected == prefix + NatToString(SampleEnd(contentLength));
    if contentLength <= 0 {
      NatToStringDigits(SampleEnd(contentLength));
      assert corrected[8] == NatToString(SampleEnd(contentLength))[0];
      assert written[8] == '*';
    } else if contentLength > SegmentSampleSize {
      assert written == prefix + NatToString(SegmentSampleSize);
      if written == corrected {
        assert written[8..] == NatToString(SegmentSampleSize);
        assert corrected[8..] == NatToString(SegmentSampleSize - 1);
        NatToStringInjective(SegmentSampleSize, SegmentSampleSize - 1);
      }
    } else {
      assert written == prefix + NatToString(contentLength - 1);
    }
  }

  /** The last byte position of the sample: within the first 10 KB, and within the segment when its length is known. */
  function SampleEnd(contentLength: int): nat {
    if contentLength > 0 && contentLength < SegmentSampleSize then contentLength - 1 else SegmentSampleSize - 1
  }

  /** The `Range` header of a sample: the first 10 KB, or the whole segment when it is shorter. */
  function RangeHeader(contentLength: int): string {
    "bytes=0-" + NatToString(SampleEnd(contentLength))
  }

  /**
   * The sample range is well formed, starts at the first byte, asks for
   * exactly `min(10240, length)` bytes of a segment of known length (10240
   * when the length is unknown), and never names a position past the end.
   */
  lemma RangeHeaderSpec(contentLength: int)
    ensures ParseRange(RangeHeader(contentLength)) == Some(ByteRange(0, Some(SampleEnd(contentLength))))
    ensures RangeLength(ByteRange(0, Some(SampleEnd(contentLength)))) ==
      if 0 < contentLength < SegmentSampleSize then contentLength else SegmentSampleSize
    ensures contentLength > 0 ==> SampleEnd(contentLength) < contentLength
  {
    ParseRangeFromZero(SampleEnd(contentLength));
  }

  // ---------------------------------------------------------------------
  // `POST /analyze/start`
  // ---------------------------------------------------------------------

  /** The fields of the request body the handler reads (`undefined` is `None`). */
  datatype StartBody = StartBody(manifestUrl: Option<string>, playerUrl: Option<string>)

  const MissingUrl := "Missing URL parameter"
  const InvalidUrlFormat := "Invalid URL format"
  const NotAManifest := "URL must contain \".m3u8\" to be a manifest"

  /** `req.body.manifestUrl || req.body.playerUrl`: the first of them that is a non-empty string. */
  function StartUrl(body: StartBody): (url: Option<string>)
    ensures url.Some? ==> url.value != ""
    ensures url.None? <==> (body.manifestUrl.None? || body.manifestUrl == Some("")) && (body.playerUrl.None? || body.playerUrl == Some(""))
    ensures body.manifestUrl.Some? && body.manifestUrl.value != "" ==> url == body.manifestUrl
    ensures url.Some? && url != body.manifestUrl ==> url == body.playerUrl
  {
    if body.manifestUrl.Some? && body.manifestUrl.value != "" then body.manifestUrl
    else if body.playerUrl.Some? && body.playerUrl.value != "" then body.playerUrl
    else None
  }

  /** What the handler answers: a 400 with its error, or the URL it goes on to analyze. */
  datatype StartCheck = Rejected(status: int, error: string) | Accepted(url: string)

  /**
   * The three checks, in order: a missing URL, then one that `new URL`
   * rejects, then one without `.m3u8` anywhere in it, each answered with a
   * 400; a URL that passes all three is analyzed.
   */
  function CheckStart(body: StartBody): (r: StartCheck)
    ensures r.Rejected? ==> r.status == 400
  {
    match StartUrl(body)
    case None => Rejected(400, MissingUrl)
    case Some(url) =>
      if ParseUrl(url).None? then Rejected(400, InvalidUrlFormat)
      else if !Contains(url, ".m3u8") then Rejected(400, NotAManifest)
      else Accepted(url)
  }

  /**
   * Each answer of the handler's checks happens exactly when the checks
   * before it pass and its own fails; a URL passing all three is the one
   * analyzed.
   */
  lemma CheckStartCases(body: StartBody)
    ensures CheckStart(body) == Rejected(400, MissingUrl) <==> StartUrl(body).None?
    ensures CheckStart(body) == Rejected(400, InvalidUrlFormat) <==>
      StartUrl(body).Some? && ParseUrl(StartUrl(body).value).None?
    ensures CheckStart(body) == Rejected(400, NotAManifest) <==>
      StartUrl(body).Some? && ParseUrl(StartUrl(body).value).Some? && !Contains(StartUrl(body).value, ".m3u8")
    ensures CheckStart(body).Accepted? <==>
      StartUrl(body).Some? && ParseUrl(StartUrl(body).value).Some? && Contains(StartUrl(body).value, ".m3u8")
    ensures CheckStart(body).Accepted? ==> CheckStart(body).url == StartUrl(body).value
  {
    assert MissingUrl != InvalidUrlFormat && MissingUrl != NotAManifest && InvalidUrlFormat != NotAManifest by {
      assert MissingUrl[0] != InvalidUrlFormat[0];
      assert MissingUrl[0] != NotAManifest[0];
      assert InvalidUrlFormat[0] != NotAManifest[0];
    }
  }

  // ---------------------------------------------------------------------
  // The server's state and events
  // ---------------------------------------------------------------------

  /**
   * The `manifest` event's payload. Timestamps, `method`, the request and
   * response header objects and `remoteAddress` are left out.
   */
  datatype ManifestInfo = ManifestInfo(
    url: string,
    parentUrl: Option<string>,
    size: nat,
    downloadTimeMs: int,
    status: int,
    depth: int,
    mediaSequence: Option<ParsedInt>,
    disco: bool,
    manifestLines: seq<string>)

  /** The events `io.emit` broadcasts; `log` events keep only their level. */
  datatype ServerEvent =
    | Log(level: string)
    | Manifest(info: ManifestInfo)
    | ManifestError(url: string, message: string)
    | SegmentDetails(url: string, status: int, headers: map<string, string>, duration: int)
    | SegmentHeaders(url: string, manifestUrl: string, headers: map<string, string>, headTimeMs: int)
    | SegmentUpdate(url: string, sizeDiff: int, downloadTimeDiff: int, previous: SegmentRecord, current: SegmentRecord)
    | SegmentNew(record: SegmentRecord)
    | SegmentError(url: string, manifestUrl: string, message: string)

  /**
   * What the sample request gave: `data.byteLength` (`None` when it is
   * undefined), the headers and the time taken.
   */
  datatype Sample = Sample(byteLength: Option<nat>, headers: map<string, string>, duration: int)

  /**
   * The sample `processSegment` reads off a `fetchWithCache` result: a
   * response the request brought back holds a byte buffer; one read from
   * the cache holds what `JSON.parse` made of it, which has no
   * `byteLength`.
   */
  function SampleOf(c: CacheFetch): Sample
    requires c.result.Ok?
  {
    Sample(if c.fromCache then None else Some(|c.result.value.data|), c.result.value.headers, c.result.value.duration)
  }

  /** The `manifest` event of a fetched manifest at some depth. */
  function ManifestInfoOf(url: string, parentUrl: Option<string>, depth: int, fetched: Fetched): ManifestInfo {
    var lines := ManifestLines(fetched.data);
    var tags := Tags(lines);
    ManifestInfo(url, parentUrl, |fetched.data|, fetched.duration, fetched.status, depth,
                 ScanMediaSequence(tags, |lines|), |ScanDiscoIndexes(tags, |lines|)| > 0, lines)
  }

  /**
   * The `manifest` event reports `disco` exactly when some manifest line is
   * a discontinuity, and a `null` media sequence exactly when no line sets
   * one; otherwise the value of the last line that does.
   */
  lemma ManifestInfoTags(url: string, parentUrl: Option<string>, depth: int, fetched: Fetched)
    ensures var info := ManifestInfoOf(url, parentUrl, depth, fetched);
      var tags := Tags(info.manifestLines);
      && (info.disco <==> exists k :: 0 <= k < |tags| && tags[k].discontinuity)
      && (info.mediaSequence.None? <==> forall k :: 0 <= k < |tags| ==> tags[k].mediaSequence.None?)
      && (info.mediaSequence.Some? ==>
            exists k :: 0 <= k < |tags| && info.mediaSequence == tags[k].mediaSequence
              && forall j :: k < j < |tags| ==> tags[j].mediaSequence.None?)
  {
    var info := ManifestInfoOf(url, parentUrl, depth, fetched);
    var tags := Tags(info.manifestLines);
    LastMediaSequenceWins(tags, |tags|);
    DiscoIndexesExact(tags, |tags|);
    var d := ScanDiscoIndexes(tags, |tags|);
    if info.disco {
      assert d[0] in d;
    } else {
      assert forall k :: 0 <= k < |tags| ==> !(k in d);
    }
  }

  /**
   * What `analyzeManifest` emits: for a failed fetch, an error log line and
   * the `error` event; for a fetched top-level manifest, a log line and the
   * `manifest` event; for a fetched nested manifest, nothing.
   */
  function ManifestEvents(url: string, parentUrl: Option<string>, depth: int, fetched: Result<Fetched>): seq<ServerEvent> {
    if fetched.Fail? then [Log("error"), ManifestError(url, fetched.message)]
    else if depth == 0 then [Log("info"), Manifest(ManifestInfoOf(url, parentUrl, depth, fetched.value))]
    else []
  }

  /**
   * The body of a fetched manifest read as `analyzeManifest` reads it: the
   * trimmed non-empty lines, scanned for the media sequence and the
   * discontinuities.
   */
  method ReadManifest(url: string, parentUrl: Option<string>, depth: int, fetched: Fetched) returns (info: ManifestInfo)
    ensures info == ManifestInfoOf(url, parentUrl, depth, fetched)
  {
    var content := fetched.data;
    var lines := ManifestLines(content);
    var mediaSequence, discoIndexes := ScanTags(lines);
    info := ManifestInfo(url, parentUrl, |content|, fetched.duration, fetched.status, depth,
                         mediaSequence, |discoIndexes| > 0, lines);
  }

  /** The record a sample produces. */
  function RecordOf(url: string, manifestUrl: string, contentLength: int, lastModified: Option<string>, s: Sample): SegmentRecord {
    SegmentRecord(url, manifestUrl, contentLength, s.byteLength, s.headers, s.duration, lastModified)
  }

  /** The event a new sample is reported with: an update against the previous record, or a new segment. */
  function SampleEvent(previous: Option<SegmentRecord>, current: SegmentRecord): ServerEvent {
    match previous
    case None => SegmentNew(current)
    case Some(p) => SegmentUpdate(current.url, current.size - p.size, current.downloadTimeMs - p.downloadTimeMs, p, current)
  }

  /** The module-level state of the server. */
  class AnalyzerServer {
    /** `segmentsData`: url -> the last sample record. */
    var segmentsData: map<string, SegmentRecord>
    var activeAnalysisUrl: Option<string>
    /** Every `io.emit` so far. */
    var emitted: seq<ServerEvent>

    /** Every record is stored under its own URL. */
    ghost predicate Valid()
      reads this
    {
      forall u :: u in segmentsData ==> segmentsData[u].url == u
    }

    constructor()
      ensures segmentsData == map[] && activeAnalysisUrl.None? && emitted == [] && Valid()
    {
      segmentsData := map[];
      activeAnalysisUrl := None;
      emitted := [];
    }

    method Emit(e: ServerEvent)
      modifies this`emitted
      ensures emitted == old(emitted) + [e]
    {
      emitted := emitted + [e];
    }

    /**
     * `analyzeManifest`: the fetched text is split into trimmed, non-empty
     * lines and scanned for tags; only the top-level manifest (depth 0) is
     * reported, after a log line. A failed fetch is logged and reported as
     * an `error` event instead.
     */
    method AnalyzeManifest(url: string, fetched: Result<Fetched>, depth: int, parentUrl: Option<string>)
      modifies this`emitted
      ensures emitted == old(emitted) + ManifestEvents(url, parentUrl, depth, fetched)
    {
      if fetched.Fail? {
        Emit(Log("error"));
        Emit(ManifestError(url, fetched.message));
        AppendAssoc(old(emitted), [Log("error")], [ManifestError(url, fetched.message)]);
        return;
      }
      var info := ReadManifest(url, parentUrl, depth, fetched.value);
      if depth == 0 {
        Emit(Log("info"));
        Emit(Manifest(info));
        AppendAssoc(old(emitted), [Log("info")], [Manifest(info)]);
      } else {
        AppendEmpty(emitted);
      }
    }

    /**
     * `processSegment`: after the HEAD probe the details and headers are
     * reported; the segment is sampled only when `NeedsSample` says so, the
     * sample is reported as new or as an update of the previous record, and
     * the record replaces it. A failed request is reported as
     * `segment-error` and rethrown, with the table unchanged.
     *
     * Both requests go through `fetchWithCache`, keyed by the URL alone, so
     * the HEAD leaves the URL's cache file holding its result `h`
     * (`CachedFetchLeavesEntry`), and the sample request, made at
     * `sampleAt` with the `Range` header as written, is answered from that
     * file while it is fresh. `sample` is what the request would return if
     * it were sent.
     */
    method ProcessSegment(url: string, manifestUrl: string, head: Result<Fetched>,
                          sampleAt: int, sample: string -> Result<Fetched>) returns (r: Result<()>)
      requires Valid()
      modifies this`segmentsData, this`emitted
      ensures Valid()
      ensures head.Fail? ==>
        && r == Fail(head.message) && segmentsData == old(segmentsData)
        && emitted == old(emitted) + [SegmentError(url, manifestUrl, head.message)]
      ensures head.Ok? ==>
        var h := head.value;
        var previous := if url in old(segmentsData) then Some(old(segmentsData)[url]) else None;
        var len := ContentLength(h.headers);
        var lastModified := Header(h.headers, "last-modified");
        var got := CachedFetch(Written(h), sampleAt, sample(RangeHeaderAsWritten(len)));
        var probed := old(emitted) + [SegmentDetails(url, h.status, h.headers, h.duration),
                                      SegmentHeaders(url, manifestUrl, h.headers, h.duration)];
        && (!NeedsSample(previous, len, lastModified) ==>
              r.Ok? && segmentsData == old(segmentsData) && emitted == probed)
        && (NeedsSample(previous, len, lastModified) && got.result.Fail? ==>
              && r == Fail(got.result.message) && segmentsData == old(segmentsData)
              && emitted == probed + [SegmentError(url, manifestUrl, r.message)])
        && (NeedsSample(previous, len, lastModified) && got.result.Ok? ==>
              var record := RecordOf(url, manifestUrl, len, lastModified, SampleOf(got));
              && r.Ok?
              && segmentsData == old(segmentsData)[url := record]
              && emitted == probed + [SampleEvent(previous, record)])
    {
      if head.Fail? {
        Emit(SegmentError(url, manifestUrl, head.message));
        return Fail(head.message);
      }
      var h := head.value;
      Emit(SegmentDetails(url, h.status, h.headers, h.duration));
      Emit(SegmentHeaders(url, manifestUrl, h.headers, h.duration));
      var previous := if url in segmentsData then Some(segmentsData[url]) else None;
      var len := ContentLength(h.headers);
      var lastModified := Header(h.headers, "last-modified");
      if NeedsSample(previous, len, lastModified) {
        var range := RangeHeaderAsWritten(len);
        var got := CachedFetch(Written(h), sampleAt, sample(range));
        if got.result.Fail? {
          Emit(SegmentError(url, manifestUrl, got.result.message));
          return Fail(got.result.message);
        }
        var record := RecordOf(url, manifestUrl, len, lastModified, SampleOf(got));
        Emit(SampleEvent(previous, record));
        segmentsData := segmentsData[url := record];
      }
      r := Ok(());
    }

    /**
     * `POST /analyze/start`: the request is logged, the URL checked; a URL
     * that passes becomes the active analysis and its manifest is analyzed
     * once at depth 0. `analyzeManifest` reports its own failures, so an
     * accepted request always completes.
     */
    method AnalyzeStart(body: StartBody, fetched: Result<Fetched>) returns (reply: StartCheck)
      modifies this`emitted, this`activeAnalysisUrl
      ensures reply == CheckStart(body)
      ensures reply.Rejected? ==> emitted == old(emitted) + [Log("info")] && activeAnalysisUrl == old(activeAnalysisUrl)
      ensures reply.Accepted? ==>
        && activeAnalysisUrl == Some(reply.url)
        && emitted == old(emitted) + [Log("info"), Log("info")] + ManifestEvents(reply.url, None, 0, fetched)
    {
      Emit(Log("info"));
      reply := CheckStart(body);
      if reply.Rejected? {
        return;
      }
      ghost var logged := emitted;
      BeginAnalysis(reply.url, fetched);
      AppendAssoc(logged, [Log("info")], ManifestEvents(reply.url, None, 0, fetched));
    }

    /** An accepted URL becomes the active analysis, is logged, and its manifest is analyzed at depth 0. */
    method BeginAnalysis(url: string, fetched: Result<Fetched>)
      modifies this`emitted, this`activeAnalysisUrl
      ensures activeAnalysisUrl == Some(url)
      ensures emitted == old(emitted) + [Log("info")] + ManifestEvents(url, None, 0, fetched)
    {
      activeAnalysisUrl := Some(url);
      Emit(Log("info"));
      AnalyzeManifest(url, fetched, 0, None);
    }
  }

  /**
   * A sample requested less than 30 seconds after the HEAD answer was
   * fetched is that answer: no `Range` request is sent, and the record
   * gets the HEAD's headers and time and an undefined sample size. Only a
   * sample requested later is the response to the `Range` request.
   */
  lemma SampleServedByHead(url: string, manifestUrl: string, h: Fetched, sampleAt: int, sample: string -> Result<Fetched>)
    ensures var len := ContentLength(h.headers);
      var got := CachedFetch(Written(h), sampleAt, sample(RangeHeaderAsWritten(len)));
      && (sampleAt - h.timestamp < CacheValidityMs ==>
            && got.result == Ok(h)
            && RecordOf(url, manifestUrl, len, Header(h.headers, "last-modified"), SampleOf(got)) ==
               SegmentRecord(url, manifestUrl, len, None, h.headers, h.duration, Header(h.headers, "last-modified")))
      && (sampleAt - h.timestamp >= CacheValidityMs ==>
            got.result == sample(RangeHeaderAsWritten(len)) && !got.fromCache)
  {
    CachedFetchOfEntry(h, sampleAt, sample(RangeHeaderAsWritten(ContentLength(h.headers))));
  }

  /**
   * Processing a segment whose HEAD answer is unchanged since it was last
   * sampled does not sample it again: a stored record satisfies its own
   * size and `last-modified`.
   */
  lemma RecordedSegmentNotResampled(url: string, manifestUrl: string, len: int, lastModified: Option<string>, s: Sample)
    ensures !NeedsSample(Some(RecordOf(url, manifestUrl, len, lastModified, s)), len, lastModified)
    ensures NeedsSample(Some(RecordOf(url, manifestUrl, len, lastModified, s)), len + 1, lastModified)
    ensures NeedsSample(None, len, lastModified)
  {
  }
}
