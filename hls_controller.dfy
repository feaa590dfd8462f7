/**
 * The older standalone analyzer: `HLSController` keeps one `StreamAnalyzer`
 * per socket; each analyzer polls one playlist, reports it and every
 * segment it lists on the socket, classifies each segment as new or not and
 * as a media-sequence jump or not, and keeps the last 20 segment rows.
 *
 * Network results and what the playlist parser library makes of a body
 * are arguments; every `socket.emit` is an append to the socket's
 * `emitted` sequence.
 */
module HlsController {
  import opened Strings
  import opened History
  import opened M3U8Parser

  // ---------------------------------------------------------------------
  // JavaScript values of a media sequence number
  // ---------------------------------------------------------------------

  /** A media sequence as JavaScript holds it: `null`, `undefined`, `NaN` or a number. */
  datatype JsValue = Null | Undefined | NotANumber | Num(n: int)

  /** `v + 1`: `null` counts as 0, `undefined` and `NaN` give `NaN`. */
  function PlusOne(v: JsValue): JsValue {
    match v
    case Null => Num(1)
    case Undefined => NotANumber
    case NotANumber => NotANumber
    case Num(n) => Num(n + 1)
  }

  /** `a !== b` negated: `NaN` equals nothing, not even itself. */
  predicate StrictEquals(a: JsValue, b: JsValue) {
    (a.Num? && b.Num? && a.n == b.n) || (a == Null && b == Null) || (a == Undefined && b == Undefined)
  }

  /**
   * `lastMediaSeq !== null && segment.mediaSequence !== lastMediaSeq + 1`: only a previous
   * number followed by anything but its successor is a jump, and so is any
   * segment after one whose sequence was `undefined` or `NaN`; the first
   * segment (previous `null`) never is.
   */
  function IsJump(last: JsValue, current: JsValue): (r: bool)
    ensures r <==> (last.Num? && current != Num(last.n + 1)) || last == Undefined || last == NotANumber
  {
    last != Null && !StrictEquals(current, PlusOne(last))
  }

  // ---------------------------------------------------------------------
  // Resolving segment URIs
  // ---------------------------------------------------------------------

  /**
   * `resolveUrl` as written: any URI whose text starts with `http` is taken
   * as absolute, everything else is appended to the base.
   */
  function ResolveLoose(baseUrl: string, uri: string): string {
    if StartsWith(uri, "http") then uri else baseUrl + uri
  }

  /**
   * A relative segment name that happens to begin with `http` is not
   * resolved: against an `https://` base, `http-seg-1.ts` stays as it is
   * and is no URL at all.
   */
  lemma ResolveLooseKeepsRelative()
    ensures var base := "https://cdn.example/live/";
      && IsHttpUrl(base)
      && ResolveLoose(base, "http-seg-1.ts") == "http-seg-1.ts"
      && !IsHttpUrl(ResolveLoose(base, "http-seg-1.ts"))
  {
    assert "http-seg-1.ts"[..4] == "http";
    assert "http-seg-1.ts"[..7][4] != "http://"[4];
    assert "http-seg-1.ts"[..8][4] != "https://"[4];
  }

  /**
   * `resolveUrl` with the test the backend parser uses: only `http://` and
   * `https://` URLs are absolute.
   */
  function Resolve(baseUrl: string, uri: string): string {
    if IsHttpUrl(uri) then uri else baseUrl + uri
  }

  /**
   * The test as written and the `http://`/`https://` test resolve a URI
   * alike exactly when it does not start with `http`, or is an
   * `http(s)://` URL, or the base is empty: they differ only on relative
   * names such as `http-seg-1.ts`.
   */
  lemma ResolveLooseAgrees(baseUrl: string, uri: string)
    ensures ResolveLoose(baseUrl, uri) == Resolve(baseUrl, uri) <==>
      !StartsWith(uri, "http") || IsHttpUrl(uri) || baseUrl == ""
  {
    if IsHttpUrl(uri) {
      if StartsWith(uri, "http://") {
        assert uri[..4] == "http://"[..4];
      } else {
        assert uri[..4] == "https://"[..4];
      }
    }
    if StartsWith(uri, "http") && !IsHttpUrl(uri) && baseUrl != "" {
      assert |baseUrl + uri| > |uri|;
    }
  }

  /**
   * Against an `http(s)://` base every URI resolves to an `http(s)://` URL,
   * and a URI comes back unchanged exactly when it is one already.
   */
  lemma ResolveGivesHttpUrl(baseUrl: string, uri: string)
    requires IsHttpUrl(baseUrl)
    ensures IsHttpUrl(Resolve(baseUrl, uri))
    ensures Resolve(baseUrl, uri) == uri <==> IsHttpUrl(uri)
  {
    if !IsHttpUrl(uri) {
      var r := baseUrl + uri;
      if StartsWith(baseUrl, "http://") {
        assert r[..7] == baseUrl[..7];
      } else {
        assert r[..8] == baseUrl[..8];
      }
      assert |r| > |uri|;
    }
  }

  // ---------------------------------------------------------------------
  // Data
  // ---------------------------------------------------------------------

  /**
   * A segment as the parser library reports it. The library leaves
   * `discontinuity` undefined on a segment without the tag; it is `false`
   * here, which every truth test in the analyzer reads alike, though the
   * emitted `discontinuity` and `discoOk` fields are then `false` where the
   * source sends `undefined`.
   */
  datatype ParsedSegment = ParsedSegment(uri: string, mediaSequence: JsValue, discontinuity: bool)

  /** A parsed playlist: the variants of a master playlist, the segments of a media playlist. */
  datatype AnalyzerManifest = AnalyzerManifest(
    playlists: Option<seq<ParsedVariant>>,
    segments: Option<seq<ParsedSegment>>,
    mediaSequence: JsValue,
    discontinuity: bool)

  /** What `fetchWithCache` returns: the body, the response headers and the time taken. */
  datatype Fetched = Fetched(data: string, headers: map<string, string>, duration: int)

  /** The row `processSegment` keeps and emits as `segmentData`. */
  datatype SegmentInfo = SegmentInfo(
    url: string,
    size: Option<string>,
    headers: map<string, string>,
    mediaSeq: JsValue,
    disco: bool,
    downloadTime: int,
    isNewSegment: bool,
    discoOk: bool)

  /** A `profiles` entry: the variant's bandwidth, resolution and codecs, and its resolved URL. */
  datatype ProfileInfo = ProfileInfo(bandwidth: Option<int>, resolution: Option<Resolution>, codec: Option<string>, url: string)

  /** The events an analyzer emits (`type` tags, timestamps and log texts left out). */
  datatype AnalyzerEvent =
    | Profiles(profiles: seq<ProfileInfo>)
    | ManifestData(url: string, size: Option<string>, headers: map<string, string>, mediaSeq: JsValue, disco: bool,
                   content: string)
    | SegmentData(info: SegmentInfo)
    | Error(message: string)

  /**
   * The row for a segment, given the URL and sequence of the one before: it
   * is new when its URL differs from the last one (the first always is),
   * and it is out of order only when it jumps and carries no
   * discontinuity tag.
   */
  function SegmentInfoOf(segment: ParsedSegment, data: Fetched, segmentUrl: string,
                         lastUrl: Option<string>, lastSeq: JsValue): (info: SegmentInfo)
    ensures info.url == segmentUrl && info.mediaSeq == segment.mediaSequence && info.disco == segment.discontinuity
    ensures info.headers == data.headers && info.size == Header(data.headers, "content-length")
    ensures info.downloadTime == data.duration
    ensures info.isNewSegment <==> lastUrl != Some(segmentUrl)
    ensures !info.discoOk <==> IsJump(lastSeq, segment.mediaSequence) && !segment.discontinuity
  {
    var jump := IsJump(lastSeq, segment.mediaSequence);
    SegmentInfo(segmentUrl, Header(data.headers, "content-length"), data.headers, segment.mediaSequence,
                segment.discontinuity, data.duration, lastUrl != Some(segmentUrl),
                !jump || segment.discontinuity)
  }

  /** The previous URL and sequence seen by the `k`-th segment of a run. */
  function PrevUrl(urls: seq<string>, lastUrl: Option<string>, k: nat): Option<string>
    requires k <= |urls|
  {
    if k == 0 then lastUrl else Some(urls[k - 1])
  }

  function PrevSeq(segs: seq<ParsedSegment>, lastSeq: JsValue, k: nat): JsValue
    requires k <= |segs|
  {
    if k == 0 then lastSeq else segs[k - 1].mediaSequence
  }

  /** The row of the `k`-th segment of a run. */
  function RowOf(segs: seq<ParsedSegment>, urls: seq<string>, data: seq<Fetched>,
                 lastUrl: Option<string>, lastSeq: JsValue, k: nat): SegmentInfo
    requires k < |segs| && |urls| == |segs| && |data| == |segs|
  {
    SegmentInfoOf(segs[k], data[k], urls[k], PrevUrl(urls, lastUrl, k), PrevSeq(segs, lastSeq, k))
  }

  /** `rows` are the rows of the first `|rows|` segments of a run, in order. */
  ghost predicate RowsOfRun(rows: seq<SegmentInfo>, segs: seq<ParsedSegment>, urls: seq<string>,
                            data: seq<Fetched>, lastUrl: Option<string>, lastSeq: JsValue)
  {
    && |rows| <= |segs| && |urls| == |segs| && |data| == |segs|
    && forall k :: 0 <= k < |rows| ==> rows[k] == RowOf(segs, urls, data, lastUrl, lastSeq, k)
  }

  /** The rows of the first `n` segments of a run, one after another. */
  function RunRows(segs: seq<ParsedSegment>, urls: seq<string>, data: seq<Fetched>,
                   lastUrl: Option<string>, lastSeq: JsValue, n: nat): seq<SegmentInfo>
    requires n <= |segs| && |urls| == |segs| && |data| == |segs|
  {
    if n == 0 then [] else RunRows(segs, urls, data, lastUrl, lastSeq, n - 1) + [RowOf(segs, urls, data, lastUrl, lastSeq, n - 1)]
  }

  /**
   * The `k`-th row of a run is the `k`-th segment's row, computed against
   * the URL and sequence of the segment before it (or of the analyzer's
   * last segment, for the first).
   */
  lemma {:induction false} RunRowsInOrder(segs: seq<ParsedSegment>, urls: seq<string>, data: seq<Fetched>,
                                          lastUrl: Option<string>, lastSeq: JsValue, n: nat)
    requires n <= |segs| && |urls| == |segs| && |data| == |segs|
    ensures |RunRows(segs, urls, data, lastUrl, lastSeq, n)| == n
    ensures RowsOfRun(RunRows(segs, urls, data, lastUrl, lastSeq, n), segs, urls, data, lastUrl, lastSeq)
  {
    if n > 0 {
      RunRowsInOrder(segs, urls, data, lastUrl, lastSeq, n - 1);
      RowsOfRunExtend(RunRows(segs, urls, data, lastUrl, lastSeq, n - 1), segs, urls, data, lastUrl, lastSeq,
                      RowOf(segs, urls, data, lastUrl, lastSeq, n - 1));
    }
  }

  /**
   * A run of consecutively numbered segments, started fresh or right after
   * its predecessor, has no jump: every row is in order, with or without a
   * discontinuity tag.
   */
  lemma ConsecutiveRunInOrder(rows: seq<SegmentInfo>, segs: seq<ParsedSegment>, urls: seq<string>,
                              data: seq<Fetched>, lastUrl: Option<string>, lastSeq: JsValue, first: int)
    requires RowsOfRun(rows, segs, urls, data, lastUrl, lastSeq)
    requires forall k :: 0 <= k < |segs| ==> segs[k].mediaSequence == Num(first + k)
    requires lastSeq == Null || lastSeq == Num(first - 1)
    ensures forall k :: 0 <= k < |rows| ==> rows[k].discoOk
  {
    forall k | 0 <= k < |rows|
      ensures rows[k].discoOk
    {
      if k > 0 {
        assert PrevSeq(segs, lastSeq, k) == Num(first + k - 1);
      }
    }
  }

  /**
   * A segment list that is the last `n` rows of a log, once cut back with
   * `slice(-20)`, is the last 20 rows of the log, provided it held all of
   * the log or at least 20 rows.
   */
  lemma TrimWindow<T>(rows: seq<T>, log: seq<T>)
    requires |rows| <= |log| && rows == log[|log| - |rows|..]
    requires |rows| >= 20 || rows == log
    ensures TakeLast(rows, 20) == TakeLast(log, 20)
  {
    if |rows| > 20 {
      assert rows[|rows| - 20..] == log[|log| - 20..];
    }
  }

  // ---------------------------------------------------------------------
  // The socket and the analyzer
  // ---------------------------------------------------------------------

  class AnalyzerSocket {
    const id: string
    var emitted: seq<AnalyzerEvent>

    constructor(id: string)
      ensures this.id == id && emitted == []
    {
      this.id := id;
      emitted := [];
    }

    method Emit(e: AnalyzerEvent)
      modifies this`emitted
      ensures emitted == old(emitted) + [e]
    {
      emitted := emitted + [e];
    }
  }

  /** One step of the polling loop: one round's inputs, or a `stop()` from the controller. */
  datatype PollInputs =
    | Poll(manifest: Result<Fetched>, parsed: Result<AnalyzerManifest>, fetch: string -> Result<Fetched>)
    | StopRequested

  class StreamAnalyzer {
    const url: string
    const socket: AnalyzerSocket
    const baseUrl: string
    var isRunning: bool
    var segments: seq<SegmentInfo>
    var lastMediaSeq: JsValue
    var lastSegmentUrl: Option<string>

    /** Every row `processSegment` has ever produced. */
    ghost var segmentLog: seq<SegmentInfo>

    /**
     * `segments` is the tail of the log: all of it, or at least its last 20
     * rows (more while a round is pushing, or after a round that failed
     * before its trim).
     */
    ghost predicate Valid()
      reads this`segments, this`segmentLog
    {
      && |segments| <= |segmentLog|
      && segments == segmentLog[|segmentLog| - |segments|..]
      && (|segments| >= 20 || segments == segmentLog)
    }

    /** The state a round changes, as one value. */
    ghost function State(): RoundState
      reads this, socket
    {
      RoundState(segments, lastMediaSeq, lastSegmentUrl, segmentLog, socket.emitted)
    }

    constructor(url: string, socket: AnalyzerSocket)
      ensures this.url == url && this.socket == socket && baseUrl == GetBaseUrl(url)
      ensures !isRunning && segments == [] && lastMediaSeq == Null && lastSegmentUrl.None?
      ensures segmentLog == [] && Valid()
    {
      this.url := url;
      this.socket := socket;
      baseUrl := GetBaseUrl(url);
      isRunning := false;
      segments := [];
      lastMediaSeq := Null;
      lastSegmentUrl := None;
      segmentLog := [];
    }

    /** `stop()` */
    method Stop()
      modifies this`isRunning
      ensures !isRunning
    {
      isRunning := false;
    }

    /**
     * `processSegment`: the row is computed against the previous URL and
     * sequence, appended and emitted, and this segment becomes the previous
     * one.
     */
    method ProcessSegment(segment: ParsedSegment, data: Fetched, segmentUrl: string)
      requires Valid()
      modifies this`segments, this`lastMediaSeq, this`lastSegmentUrl, this`segmentLog, socket`emitted
      ensures Valid()
      ensures var info := SegmentInfoOf(segment, data, segmentUrl, old(lastSegmentUrl), old(lastMediaSeq));
        && segments == old(segments) + [info]
        && segmentLog == old(segmentLog) + [info]
        && socket.emitted == old(socket.emitted) + [SegmentData(info)]
      ensures lastMediaSeq == segment.mediaSequence && lastSegmentUrl == Some(segmentUrl)
    {
      var info := SegmentInfoOf(segment, data, segmentUrl, lastSegmentUrl, lastMediaSeq);
      segments := segments + [info];
      segmentLog := segmentLog + [info];
      lastMediaSeq := segment.mediaSequence;
      lastSegmentUrl := Some(segmentUrl);
      socket.Emit(SegmentData(info));
    }

    /** `if (segments.length > 20) segments = segments.slice(-20)` */
    method TrimSegments()
      requires Valid()
      modifies this`segments
      ensures Valid()
      ensures segments == TakeLast(segmentLog, 20) && segments == TakeLast(old(segments), 20)
    {
      TrimWindow(segments, segmentLog);
      if |segments| > 20 {
        segments := segments[|segments| - 20..];
      }
    }

    /**
     * One turn of the `for` loop: segment `k` is resolved against the base
     * URL and fetched; a failed fetch is returned as the error that ends
     * the loop, with nothing changed, otherwise the segment goes through
     * `processSegment`.
     */
    method ProcessAt(segs: seq<ParsedSegment>, fetch: string -> Result<Fetched>, k: nat, ghost st0: RoundState)
      returns (error: Option<string>)
      requires Valid() && k < |segs|
      requires var urls := SegmentUrls(baseUrl, segs); State() == RunState(st0, segs, urls, Responses(fetch, urls), k)
      modifies this`segments, this`lastMediaSeq, this`lastSegmentUrl, this`segmentLog, socket`emitted
      ensures Valid()
      ensures var urls := SegmentUrls(baseUrl, segs);
        var info := RowOf(segs, urls, Responses(fetch, urls), st0.lastSegmentUrl, st0.lastMediaSeq, k);
        && error == FetchError(fetch, urls[k])
        && (error.Some? ==> State() == old(State()))
        && (error.None? ==>
              && segments == old(segments) + [info]
              && segmentLog == old(segmentLog) + [info]
              && socket.emitted == old(socket.emitted) + [SegmentData(info)]
              && State() == RunState(st0, segs, urls, Responses(fetch, urls), k + 1))
    {
      ghost var urls := SegmentUrls(baseUrl, segs);
      var segmentUrl := ResolveLoose(baseUrl, segs[k].uri);
      SegmentUrlAt(baseUrl, segs, k);
      var fetched := fetch(segmentUrl);
      if fetched.Fail? {
        return Some(fetched.message);
      }
      ResponseAt(fetch, urls, k);
      RunStateSnoc(st0, segs, urls, Responses(fetch, urls), k);
      ProcessSegment(segs[k], fetched.value, segmentUrl);
      error := None;
    }

    /**
     * The `for` loop over a media playlist's segments: each is resolved
     * against the base URL, fetched and processed, until the list ends, the
     * analyzer is stopped, or a fetch fails (whose error is returned). The
     * new state is `RunState` of the segments processed: all of them fetched,
     * and either the whole list or those before the first failure, or none
     * when the analyzer is stopped. Nothing in a round clears `isRunning`,
     * so the check the source makes before every segment is made once here.
     */
    method ProcessSegments(segs: seq<ParsedSegment>, fetch: string -> Result<Fetched>)
      returns (processed: nat, error: Option<string>)
      requires Valid()
      modifies this`segments, this`lastMediaSeq, this`lastSegmentUrl, this`segmentLog, socket`emitted
      ensures Valid()
      ensures processed <= |segs|
      ensures var urls := SegmentUrls(baseUrl, segs);
        && State() == RunState(old(State()), segs, urls, Responses(fetch, urls), processed)
        && FetchedFirst(fetch, urls, processed) && (!old(isRunning) ==> processed == 0)
        && (error.Some? ==> old(isRunning) && processed < |segs| && error == FetchError(fetch, urls[processed]))
        && (error.None? ==> !old(isRunning) || processed == |segs|)
    {
      if isRunning {
        processed, error := ProcessRun(segs, fetch);
      } else {
        processed, error := 0, None;
        RunStateStart(State(), segs, SegmentUrls(baseUrl, segs), Responses(fetch, SegmentUrls(baseUrl, segs)));
      }
    }

    /** The loop of `ProcessSegments` once the analyzer is running: every segment, up to the first failed fetch. */
    method ProcessRun(segs: seq<ParsedSegment>, fetch: string -> Result<Fetched>)
      returns (processed: nat, error: Option<string>)
      requires Valid()
      modifies this`segments, this`lastMediaSeq, this`lastSegmentUrl, this`segmentLog, socket`emitted
      ensures Valid()
      ensures processed <= |segs|
      ensures var urls := SegmentUrls(baseUrl, segs);
        && State() == RunState(old(State()), segs, urls, Responses(fetch, urls), processed)
        && FetchedFirst(fetch, urls, processed)
        && (error.Some? ==> processed < |segs| && error == FetchError(fetch, urls[processed]))
        && (error.None? ==> processed == |segs|)
    {
      ghost var urls := SegmentUrls(baseUrl, segs);
      ghost var data := Responses(fetch, urls);
      ghost var st0 := State();
      RunStateStart(st0, segs, urls, data);
      processed := 0;
      error := None;
      while processed < |segs|
        invariant processed <= |segs| && Valid() && error.None?
        invariant State() == RunState(st0, segs, urls, data, processed)
        invariant FetchedFirst(fetch, urls, processed)
      {
        error := ProcessAt(segs, fetch, processed, st0);
        if error.Some? {
          break;
        }
        FetchedFirstSnoc(fetch, urls, processed);
        processed := processed + 1;
      }
    }

    /**
     * One round of `analyzeStream`: the playlist is fetched and parsed, a
     * master playlist's variants are emitted as `profiles`, the playlist
     * is emitted as `manifestData`, its segments are processed and the
     * segment list is cut back to 20 rows. Any error is emitted as `error`
     * and ends the round before the cut. The new state is `Round` of the
     * old one.
     */
    method AnalyzeRound(manifest: Result<Fetched>, parsed: Result<AnalyzerManifest>, fetch: string -> Result<Fetched>)
      returns (error: Option<string>)
      requires Valid()
      modifies this`segments, this`lastMediaSeq, this`lastSegmentUrl, this`segmentLog, socket`emitted
      ensures Valid()
      ensures State() == Round(old(State()), url, baseUrl, isRunning, manifest, parsed, fetch)
      ensures error.None? ==> segments == TakeLast(segmentLog, 20)
      ensures manifest.Fail? ==> error == Some(manifest.message)
      ensures manifest.Ok? && parsed.Fail? ==> error == Some(ParseFailure(parsed.message))
      ensures manifest.Ok? && parsed.Ok? ==> error == ParsedRoundError(baseUrl, isRunning, parsed.value, fetch)
    {
      if manifest.Fail? {
        error := Some(manifest.message);
        socket.Emit(Error(error.value));
        return;
      }
      if parsed.Fail? {
        error := Some(ParseFailure(parsed.message));
        socket.Emit(Error(error.value));
        return;
      }
      error := AnalyzeParsed(manifest.value, parsed.value, fetch);
    }

    /**
     * The part of a round after a successful fetch and parse: the head
     * events, the segments, and the cut back to 20 rows; an error from a
     * segment fetch is emitted and ends the round before the cut.
     */
    method AnalyzeParsed(fetched: Fetched, m: AnalyzerManifest, fetch: string -> Result<Fetched>)
      returns (error: Option<string>)
      requires Valid()
      modifies this`segments, this`lastMediaSeq, this`lastSegmentUrl, this`segmentLog, socket`emitted
      ensures Valid()
      ensures State() == ParsedRound(old(State()), url, baseUrl, isRunning, fetched, m, fetch)
      ensures error == ParsedRoundError(baseUrl, isRunning, m, fetch)
      ensures error.None? ==> segments == TakeLast(segmentLog, 20)
    {
      EmitHead(fetched, m);
      if m.segments.Some? {
        error := ProcessListed(m.segments.value, fetch);
        if error.Some? {
          return;
        }
      } else {
        error := None;
      }
      TrimSegments();
    }

    /**
     * The segments of a media playlist through `ProcessSegments`; a failed
     * segment fetch is emitted as `error` after the rows processed before it.
     */
    method ProcessListed(segs: seq<ParsedSegment>, fetch: string -> Result<Fetched>) returns (error: Option<string>)
      requires Valid()
      modifies this`segments, this`lastMediaSeq, this`lastSegmentUrl, this`segmentLog, socket`emitted
      ensures Valid()
      ensures var urls := SegmentUrls(baseUrl, segs);
        var n := if isRunning then FetchedRun(fetch, urls) else 0;
        var rows := RunRows(segs, urls, Responses(fetch, urls), old(lastSegmentUrl), old(lastMediaSeq), n);
        && segments == old(segments) + rows && segmentLog == old(segmentLog) + rows
        && lastSegmentUrl == PrevUrl(urls, old(lastSegmentUrl), n) && lastMediaSeq == PrevSeq(segs, old(lastMediaSeq), n)
        && error == RunError(fetch, urls, n, isRunning)
        && socket.emitted == old(socket.emitted) + SegmentEvents(rows) + ErrorTail(error)
      ensures State() == ListedRows(old(State()), baseUrl, isRunning, segs, fetch)
    {
      var processed;
      processed, error := ProcessSegments(segs, fetch);
      RunEnds(fetch, SegmentUrls(baseUrl, segs), processed, isRunning, error);
      ghost var before := socket.emitted;
      if error.Some? {
        socket.Emit(Error(error.value));
      } else {
        AppendEmpty(before);
      }
    }

    /** The `profiles` event of a master playlist, then the `manifestData` event. */
    method EmitHead(fetched: Fetched, m: AnalyzerManifest)
      modifies socket`emitted
      ensures socket.emitted == old(socket.emitted) + RoundHead(url, baseUrl, fetched, m)
    {
      if m.playlists.Some? {
        socket.Emit(Profiles(ProfileList(baseUrl, m.playlists.value)));
        AppendAssoc(old(socket.emitted), [Profiles(ProfileList(baseUrl, m.playlists.value))], [ManifestEvent(url, fetched, m)]);
      }
      socket.Emit(ManifestEvent(url, fetched, m));
    }

    /**
     * `analyzeStream`: rounds run while the analyzer is running; a stop
     * ends the loop before the next round. The state after the loop is that
     * of the rounds run, one `Round` after another, from the state before
     * it; between rounds the segment list keeps at least the last 20 rows
     * of the log, exactly those after a round that completed.
     */
    method AnalyzeStream(steps: seq<PollInputs>) returns (rounds: nat)
      requires Valid()
      modifies this`isRunning, this`segments, this`lastMediaSeq, this`lastSegmentUrl, this`segmentLog, socket`emitted
      ensures Valid()
      ensures rounds <= |steps|
      ensures forall k :: 0 <= k < rounds ==> steps[k].Poll?
      ensures State() == Rounds(old(State()), url, baseUrl, steps, rounds)
      ensures isRunning ==> rounds == |steps|
      ensures !old(isRunning) ==> rounds == 0 && socket.emitted == old(socket.emitted)
      ensures rounds < |steps| ==> !isRunning
    {
      rounds := 0;
      while isRunning && rounds < |steps|
        invariant rounds <= |steps| && Valid()
        invariant forall k :: 0 <= k < rounds ==> steps[k].Poll?
        invariant State() == Rounds(old(State()), url, baseUrl, steps, rounds)
        invariant !old(isRunning) ==> rounds == 0 && socket.emitted == old(socket.emitted) && !isRunning
      {
        var step := steps[rounds];
        if step.StopRequested? {
          Stop();
          return;
        }
        var _ := AnalyzeRound(step.manifest, step.parsed, step.fetch);
        rounds := rounds + 1;
      }
    }
  }

  /** The state a round changes: the segment list, the last sequence and URL, the log of all rows, the events. */
  datatype RoundState = RoundState(
    segments: seq<SegmentInfo>,
    lastMediaSeq: JsValue,
    lastSegmentUrl: Option<string>,
    log: seq<SegmentInfo>,
    emitted: seq<AnalyzerEvent>)

  /**
   * The rows of a media playlist's segments added to a state: those of the
   * segments fetched before the first failure (of none when the analyzer is
   * stopped), appended to the list, the log and the events, followed by the
   * failure as an `error` event; the last URL and sequence become the last
   * processed segment's.
   */
  function ListedRows(st: RoundState, baseUrl: string, running: bool, segs: seq<ParsedSegment>,
                      fetch: string -> Result<Fetched>): RoundState
  {
    var urls := SegmentUrls(baseUrl, segs);
    var n := if running then FetchedRun(fetch, urls) else 0;
    var t := RunState(st, segs, urls, Responses(fetch, urls), n);
    t.(emitted := t.emitted + ErrorTail(RunError(fetch, urls, n, running)))
  }

  /** `segments.slice(-20)` */
  function Trimmed(st: RoundState): RoundState {
    st.(segments := TakeLast(st.segments, 20))
  }

  /**
   * A round after its playlist was fetched and parsed: the head events,
   * then the segments' rows and the error of a failed fetch, or, when no
   * fetch failed, the cut back to 20 rows.
   */
  function ParsedRound(st: RoundState, url: string, baseUrl: string, running: bool, fetched: Fetched,
                       m: AnalyzerManifest, fetch: string -> Result<Fetched>): RoundState
  {
    var headed := st.(emitted := st.emitted + RoundHead(url, baseUrl, fetched, m));
    if m.segments.None? then Trimmed(headed)
    else if ParsedRoundError(baseUrl, running, m, fetch).Some? then ListedRows(headed, baseUrl, running, m.segments.value, fetch)
    else Trimmed(ListedRows(headed, baseUrl, running, m.segments.value, fetch))
  }

  /** The error a round ends with after a successful fetch and parse, if any. */
  function ParsedRoundError(baseUrl: string, running: bool, m: AnalyzerManifest, fetch: string -> Result<Fetched>): Option<string> {
    if m.segments.None? then None
    else
      var urls := SegmentUrls(baseUrl, m.segments.value);
      RunError(fetch, urls, if running then FetchedRun(fetch, urls) else 0, running)
  }

  /** One round: a failed fetch or parse emits its `error` and changes nothing else. */
  function Round(st: RoundState, url: string, baseUrl: string, running: bool, manifest: Result<Fetched>,
                 parsed: Result<AnalyzerManifest>, fetch: string -> Result<Fetched>): RoundState
  {
    if manifest.Fail? then st.(emitted := st.emitted + [Error(manifest.message)])
    else if parsed.Fail? then st.(emitted := st.emitted + [Error(ParseFailure(parsed.message))])
    else ParsedRound(st, url, baseUrl, running, manifest.value, parsed.value, fetch)
  }

  /** The first `n` steps, all polls, run as rounds one after another. */
  function Rounds(st: RoundState, url: string, baseUrl: string, steps: seq<PollInputs>, n: nat): RoundState
    requires n <= |steps| && forall k :: 0 <= k < n ==> steps[k].Poll?
  {
    if n == 0 then st
    else
      var step := steps[n - 1];
      Round(Rounds(st, url, baseUrl, steps, n - 1), url, baseUrl, true, step.manifest, step.parsed, step.fetch)
  }

  /**
   * The segment list is the tail of the log: all of it, or at least its
   * last 20 rows.
   */
  predicate WindowOf(st: RoundState) {
    && |st.segments| <= |st.log|
    && st.segments == st.log[|st.log| - |st.segments|..]
    && (|st.segments| >= 20 || st.segments == st.log)
  }

  /** `t` only appends to `st`'s log and events. */
  predicate Extends(st: RoundState, t: RoundState) {
    && |st.log| <= |t.log| && t.log[..|st.log|] == st.log
    && |st.emitted| <= |t.emitted| && t.emitted[..|st.emitted|] == st.emitted
  }

  lemma ExtendsTrans(a: RoundState, b: RoundState, c: RoundState)
    requires Extends(a, b) && Extends(b, c)
    ensures Extends(a, c)
  {
    assert c.log[..|a.log|] == c.log[..|b.log|][..|a.log|];
    assert c.emitted[..|a.emitted|] == c.emitted[..|b.emitted|][..|a.emitted|];
  }

  /** Appending the same rows to a window's list and log keeps a window, and its last 20 rows are the log's. */
  lemma AppendKeepsWindow(st: RoundState, rows: seq<SegmentInfo>)
    requires WindowOf(st)
    ensures WindowOf(st.(segments := st.segments + rows, log := st.log + rows))
    ensures TakeLast(st.segments + rows, 20) == TakeLast(st.log + rows, 20)
  {
    var grown := st.segments + rows;
    var log := st.log + rows;
    assert grown == log[|log| - |grown|..];
    TrimWindow(grown, log);
  }

  /** The cut back to 20 rows leaves a window holding exactly the log's last 20 rows. */
  lemma TrimmedWindow(st: RoundState)
    requires WindowOf(st)
    ensures WindowOf(Trimmed(st)) && Trimmed(st).segments == TakeLast(st.log, 20) && Extends(st, Trimmed(st))
  {
    TrimWindow(st.segments, st.log);
  }

  /** Adding a playlist's rows keeps the window and only appends to the log and the events. */
  lemma ListedRowsKeepWindow(st: RoundState, baseUrl: string, running: bool, segs: seq<ParsedSegment>,
                             fetch: string -> Result<Fetched>)
    requires WindowOf(st)
    ensures WindowOf(ListedRows(st, baseUrl, running, segs, fetch)) && Extends(st, ListedRows(st, baseUrl, running, segs, fetch))
  {
    var urls := SegmentUrls(baseUrl, segs);
    var n := if running then FetchedRun(fetch, urls) else 0;
    var rows := RunRows(segs, urls, Responses(fetch, urls), st.lastSegmentUrl, st.lastMediaSeq, n);
    AppendKeepsWindow(st, rows);
    PrefixOfAppend(st.log, rows);
    AppendAssoc(st.emitted, SegmentEvents(rows), ErrorTail(RunError(fetch, urls, n, running)));
    PrefixOfAppend(st.emitted, SegmentEvents(rows) + ErrorTail(RunError(fetch, urls, n, running)));
  }

  /**
   * A round keeps the segment list a tail of the log, only appends to the
   * log and to the events, and leaves exactly the last 20 rows after it
   * completes without an error.
   */
  lemma RoundKeepsWindow(st: RoundState, url: string, baseUrl: string, running: bool, manifest: Result<Fetched>,
                         parsed: Result<AnalyzerManifest>, fetch: string -> Result<Fetched>)
    requires WindowOf(st)
    ensures var t := Round(st, url, baseUrl, running, manifest, parsed, fetch);
      && WindowOf(t)
      && |st.log| <= |t.log| && t.log[..|st.log|] == st.log
      && |st.emitted| <= |t.emitted| && t.emitted[..|st.emitted|] == st.emitted
      && (manifest.Ok? && parsed.Ok? && ParsedRoundError(baseUrl, running, parsed.value, fetch).None? ==>
            t.segments == TakeLast(t.log, 20))
  {
    if manifest.Fail? {
      PrefixOfAppend(st.emitted, [Error(manifest.message)]);
    } else if parsed.Fail? {
      PrefixOfAppend(st.emitted, [Error(ParseFailure(parsed.message))]);
    } else {
      var m := parsed.value;
      var headed := st.(emitted := st.emitted + RoundHead(url, baseUrl, manifest.value, m));
      PrefixOfAppend(st.emitted, RoundHead(url, baseUrl, manifest.value, m));
      assert st.log[..|st.log|] == st.log;
      assert Extends(st, headed);
      if m.segments.None? {
        TrimmedWindow(headed);
        ExtendsTrans(st, headed, Trimmed(headed));
      } else {
        var listed := ListedRows(headed, baseUrl, running, m.segments.value, fetch);
        ListedRowsKeepWindow(headed, baseUrl, running, m.segments.value, fetch);
        ExtendsTrans(st, headed, listed);
        if ParsedRoundError(baseUrl, running, m, fetch).None? {
          TrimmedWindow(listed);
          ExtendsTrans(st, listed, Trimmed(listed));
        }
      }
    }
  }

  /**
   * Rounds after rounds keep the segment list a tail of the log, and only
   * ever append to the log and to the events.
   */
  lemma {:induction false} RoundsKeepWindow(st: RoundState, url: string, baseUrl: string, steps: seq<PollInputs>, n: nat)
    requires n <= |steps| && forall k :: 0 <= k < n ==> steps[k].Poll?
    requires WindowOf(st)
    ensures var t := Rounds(st, url, baseUrl, steps, n);
      && WindowOf(t)
      && |st.log| <= |t.log| && t.log[..|st.log|] == st.log
      && |st.emitted| <= |t.emitted| && t.emitted[..|st.emitted|] == st.emitted
  {
    if n > 0 {
      RoundsKeepWindow(st, url, baseUrl, steps, n - 1);
      var s := Rounds(st, url, baseUrl, steps, n - 1);
      var step := steps[n - 1];
      var t := Round(s, url, baseUrl, true, step.manifest, step.parsed, step.fetch);
      RoundKeepsWindow(s, url, baseUrl, true, step.manifest, step.parsed, step.fetch);
      ExtendsTrans(st, s, t);
      assert Rounds(st, url, baseUrl, steps, n) == t;
    }
  }

  /** A `profiles` entry: the variant's attributes and its URI resolved as written. */
  function ProfileOf(baseUrl: string, variant: ParsedVariant): ProfileInfo {
    var a := variant.attributes;
    ProfileInfo(a.bandwidth, a.resolution, a.codecs, ResolveLoose(baseUrl, variant.uri))
  }

  /** The `profiles` payload: one entry per variant, in order. */
  function ProfileList(baseUrl: string, variants: seq<ParsedVariant>): (profiles: seq<ProfileInfo>)
    ensures |profiles| == |variants|
    ensures forall k :: 0 <= k < |variants| ==> profiles[k] == ProfileOf(baseUrl, variants[k])
  {
    if variants == [] then [] else [ProfileOf(baseUrl, variants[0])] + ProfileList(baseUrl, variants[1..])
  }

  /** The `manifestData` payload. */
  function ManifestEvent(url: string, fetched: Fetched, m: AnalyzerManifest): AnalyzerEvent {
    ManifestData(url, Header(fetched.headers, "content-length"), fetched.headers, m.mediaSequence, m.discontinuity,
                 fetched.data)
  }

  /** The `error` event a round ends with, if it ends with one. */
  function ErrorTail(error: Option<string>): seq<AnalyzerEvent> {
    if error.Some? then [Error(error.value)] else []
  }

  /** `'Failed to parse manifest: ' + error.message` */
  function ParseFailure(message: string): string {
    "Failed to parse manifest: " + message
  }

  /** The events a round emits before its segments. */
  function RoundHead(url: string, baseUrl: string, fetched: Fetched, m: AnalyzerManifest): seq<AnalyzerEvent> {
    (if m.playlists.Some? then [Profiles(ProfileList(baseUrl, m.playlists.value))] else [])
      + [ManifestEvent(url, fetched, m)]
  }

  /** The URL each segment is fetched from, resolved as written. */
  function SegmentUrls(baseUrl: string, segs: seq<ParsedSegment>): (urls: seq<string>)
    ensures |urls| == |segs|
  {
    if segs == [] then [] else [ResolveLoose(baseUrl, segs[0].uri)] + SegmentUrls(baseUrl, segs[1..])
  }

  lemma {:induction false} SegmentUrlAt(baseUrl: string, segs: seq<ParsedSegment>, k: nat)
    requires k < |segs|
    ensures SegmentUrls(baseUrl, segs)[k] == ResolveLoose(baseUrl, segs[k].uri)
  {
    if k > 0 {
      SegmentUrlAt(baseUrl, segs[1..], k - 1);
    }
  }

  /** The first `n` URLs were fetched successfully. */
  predicate FetchedFirst(fetch: string -> Result<Fetched>, urls: seq<string>, n: nat) {
    n <= |urls| && (n == 0 || (FetchedFirst(fetch, urls, n - 1) && FetchError(fetch, urls[n - 1]).None?))
  }

  /** Each of the first `n` URLs was fetched successfully. */
  lemma {:induction false} FetchedFirstAt(fetch: string -> Result<Fetched>, urls: seq<string>, n: nat, k: nat)
    requires FetchedFirst(fetch, urls, n) && k < n
    ensures FetchError(fetch, urls[k]).None?
  {
    if k < n - 1 {
      FetchedFirstAt(fetch, urls, n - 1, k);
    }
  }

  lemma FetchedFirstSnoc(fetch: string -> Result<Fetched>, urls: seq<string>, n: nat)
    requires FetchedFirst(fetch, urls, n) && n < |urls| && FetchError(fetch, urls[n]).None?
    ensures FetchedFirst(fetch, urls, n + 1)
  {
  }

  /** How many URLs are fetched, in order, before the first fetch that fails. */
  function FetchedRun(fetch: string -> Result<Fetched>, urls: seq<string>): (n: nat)
    ensures n <= |urls|
  {
    FetchedRunFrom(fetch, urls, 0)
  }

  /** The index of the first URL from `i` on whose fetch fails, or the end. */
  function FetchedRunFrom(fetch: string -> Result<Fetched>, urls: seq<string>, i: nat): (n: nat)
    requires i <= |urls|
    ensures i <= n <= |urls|
    decreases |urls| - i
  {
    if i == |urls| || FetchError(fetch, urls[i]).Some? then i else FetchedRunFrom(fetch, urls, i + 1)
  }

  /**
   * `FetchedRun` counts a prefix of successful fetches that reaches the end
   * or a failure.
   */
  lemma FetchedRunStops(fetch: string -> Result<Fetched>, urls: seq<string>)
    ensures var n := FetchedRun(fetch, urls);
      FetchedFirst(fetch, urls, n) && (n < |urls| ==> FetchError(fetch, urls[n]).Some?)
  {
    FetchedRunFromStops(fetch, urls, 0);
  }

  lemma {:induction false} FetchedRunFromStops(fetch: string -> Result<Fetched>, urls: seq<string>, i: nat)
    requires FetchedFirst(fetch, urls, i)
    ensures var n := FetchedRunFrom(fetch, urls, i);
      FetchedFirst(fetch, urls, n) && (n < |urls| ==> FetchError(fetch, urls[n]).Some?)
    decreases |urls| - i
  {
    if i < |urls| && FetchError(fetch, urls[i]).None? {
      FetchedFirstSnoc(fetch, urls, i);
      FetchedRunFromStops(fetch, urls, i + 1);
    }
  }

  /**
   * A prefix of successful fetches that reaches the end or a failure is
   * the run `FetchedRun` counts.
   */
  lemma FetchedRunUnique(fetch: string -> Result<Fetched>, urls: seq<string>, n: nat)
    requires FetchedFirst(fetch, urls, n) && (n < |urls| ==> FetchError(fetch, urls[n]).Some?)
    ensures n == FetchedRun(fetch, urls)
  {
    FetchedRunFromUnique(fetch, urls, n, 0);
  }

  lemma {:induction false} FetchedRunFromUnique(fetch: string -> Result<Fetched>, urls: seq<string>, n: nat, i: nat)
    requires FetchedFirst(fetch, urls, n) && (n < |urls| ==> FetchError(fetch, urls[n]).Some?) && i <= n
    ensures FetchedRunFrom(fetch, urls, i) == n
    decreases n - i
  {
    if i < n {
      FetchedFirstAt(fetch, urls, n, i);
      FetchedRunFromUnique(fetch, urls, n, i + 1);
    }
  }

  /**
   * A loop that fetched its first `n` URLs and stopped at the end, at a
   * failure whose message it holds, or at once because it was not running,
   * ran `FetchedRun` segments and ends with `RunError`.
   */
  lemma RunEnds(fetch: string -> Result<Fetched>, urls: seq<string>, n: nat, running: bool, error: Option<string>)
    requires FetchedFirst(fetch, urls, n) && (!running ==> n == 0)
    requires error.Some? ==> running && n < |urls| && error == FetchError(fetch, urls[n])
    requires error.None? ==> !running || n == |urls|
    ensures n == (if running then FetchedRun(fetch, urls) else 0)
    ensures error == RunError(fetch, urls, n, running)
  {
    if running {
      FetchedRunUnique(fetch, urls, n);
    }
  }

  /** The error a segment loop that ran over `n` segments ends with: the failed fetch's message, if it stopped short. */
  function RunError(fetch: string -> Result<Fetched>, urls: seq<string>, n: nat, running: bool): Option<string>
    requires n <= |urls|
  {
    if running && n < |urls| then FetchError(fetch, urls[n]) else None
  }

  /** The message of a failed fetch, or none when it succeeded. */
  function FetchError(fetch: string -> Result<Fetched>, url: string): Option<string> {
    if fetch(url).Fail? then Some(fetch(url).message) else None
  }

  /** What each fetch returned, where it succeeded. */
  function Responses(fetch: string -> Result<Fetched>, urls: seq<string>): (data: seq<Fetched>)
    ensures |data| == |urls|
  {
    if urls == [] then []
    else [if fetch(urls[0]).Ok? then fetch(urls[0]).value else Fetched("", map[], 0)] + Responses(fetch, urls[1..])
  }

  lemma {:induction false} ResponseAt(fetch: string -> Result<Fetched>, urls: seq<string>, k: nat)
    requires k < |urls| && fetch(urls[k]).Ok?
    ensures Responses(fetch, urls)[k] == fetch(urls[k]).value
  {
    if k > 0 {
      ResponseAt(fetch, urls[1..], k - 1);
    }
  }

  /** The `segmentData` events of some rows, in order. */
  function SegmentEvents(rows: seq<SegmentInfo>): (events: seq<AnalyzerEvent>)
    ensures |events| == |rows|
  {
    if rows == [] then [] else [SegmentData(rows[0])] + SegmentEvents(rows[1..])
  }

  /**
   * The state after the first `n` segments of a run: their rows appended
   * to the list and the log and emitted, and the last of them as the
   * previous URL and sequence.
   */
  function RunState(st: RoundState, segs: seq<ParsedSegment>, urls: seq<string>, data: seq<Fetched>, n: nat): RoundState
    requires n <= |segs| && |urls| == |segs| && |data| == |segs|
  {
    var rows := RunRows(segs, urls, data, st.lastSegmentUrl, st.lastMediaSeq, n);
    RoundState(st.segments + rows, PrevSeq(segs, st.lastMediaSeq, n), PrevUrl(urls, st.lastSegmentUrl, n),
               st.log + rows, st.emitted + SegmentEvents(rows))
  }

  lemma RunStateStart(st: RoundState, segs: seq<ParsedSegment>, urls: seq<string>, data: seq<Fetched>)
    requires |urls| == |segs| && |data| == |segs|
    ensures RunState(st, segs, urls, data, 0) == st
  {
    AppendEmpty(st.segments);
    AppendEmpty(st.log);
    AppendEmpty(st.emitted);
  }

  /** One more segment of a run appends its row to the list and the log, and its event to the events. */
  lemma RunStateSnoc(st: RoundState, segs: seq<ParsedSegment>, urls: seq<string>, data: seq<Fetched>, n: nat)
    requires n < |segs| && |urls| == |segs| && |data| == |segs|
    ensures var s := RunState(st, segs, urls, data, n);
      var info := RowOf(segs, urls, data, st.lastSegmentUrl, st.lastMediaSeq, n);
      RunState(st, segs, urls, data, n + 1)
        == RoundState(s.segments + [info], segs[n].mediaSequence, Some(urls[n]), s.log + [info],
                      s.emitted + [SegmentData(info)])
  {
    var rows := RunRows(segs, urls, data, st.lastSegmentUrl, st.lastMediaSeq, n);
    var info := RowOf(segs, urls, data, st.lastSegmentUrl, st.lastMediaSeq, n);
    SegmentEventsSnoc(rows, info);
    AppendAssoc(st.segments, rows, [info]);
    AppendAssoc(st.log, rows, [info]);
    AppendAssoc(st.emitted, SegmentEvents(rows), [SegmentData(info)]);
  }

  lemma {:induction false} SegmentEventsSnoc(rows: seq<SegmentInfo>, info: SegmentInfo)
    ensures SegmentEvents(rows + [info]) == SegmentEvents(rows) + [SegmentData(info)]
  {
    if rows != [] {
      assert (rows + [info])[1..] == rows[1..] + [info];
      SegmentEventsSnoc(rows[1..], info);
    }
  }

  /** The row of the next segment extends a run's rows. */
  lemma RowsOfRunExtend(rows: seq<SegmentInfo>, segs: seq<ParsedSegment>, urls: seq<string>,
                        data: seq<Fetched>, lastUrl: Option<string>, lastSeq: JsValue, info: SegmentInfo)
    requires RowsOfRun(rows, segs, urls, data, lastUrl, lastSeq) && |rows| < |segs|
    requires info == RowOf(segs, urls, data, lastUrl, lastSeq, |rows|)
    ensures RowsOfRun(rows + [info], segs, urls, data, lastUrl, lastSeq)
  {
    var t := rows + [info];
    forall k | 0 <= k < |t|
      ensures t[k] == RowOf(segs, urls, data, lastUrl, lastSeq, k)
    {
      if k < |rows| {
        assert t[k] == rows[k];
      }
    }
  }

  /** Socket id -> the analyzer started for that socket. */
  class HLSController {
    var activeStreams: map<string, StreamAnalyzer>

    ghost predicate Valid()
      reads this, activeStreams.Values
    {
      forall id :: id in activeStreams ==> activeStreams[id].socket.id == id
    }

    constructor()
      ensures activeStreams == map[] && Valid()
    {
      activeStreams := map[];
    }

    /**
     * `startAnalysis`: a socket that already has an analyzer is refused;
     * otherwise a new analyzer is stored under the socket id before it
     * starts running.
     */
    method StartAnalysis(url: string, socket: AnalyzerSocket) returns (r: Result<StreamAnalyzer>)
      requires Valid()
      modifies this`activeStreams
      ensures Valid()
      ensures socket.id in old(activeStreams) ==>
        r == Fail("Analysis already in progress") && activeStreams == old(activeStreams)
      ensures socket.id !in old(activeStreams) ==>
        && r.Ok? && fresh(r.value)
        && activeStreams == old(activeStreams)[socket.id := r.value]
        && r.value.url == url && r.value.socket == socket && r.value.isRunning
        && r.value.segments == [] && r.value.Valid()
        && r.value.baseUrl == GetBaseUrl(url) && r.value.lastMediaSeq == Null
        && r.value.lastSegmentUrl.None? && r.value.segmentLog == []
    {
      if socket.id in activeStreams {
        return Fail("Analysis already in progress");
      }
      var analyzer := new StreamAnalyzer(url, socket);
      activeStreams := activeStreams[socket.id := analyzer];
      analyzer.isRunning := true;
      r := Ok(analyzer);
    }

    /**
     * `stopAnalysis`: the socket's analyzer is stopped and removed; no
     * analyzer, no change. Of the analyzer only its running flag changes.
     */
    method StopAnalysis(socket: AnalyzerSocket)
      requires Valid()
      modifies this`activeStreams, (if socket.id in activeStreams then {activeStreams[socket.id]} else {})`isRunning
      ensures Valid()
      ensures activeStreams == old(activeStreams) - {socket.id}
      ensures socket.id in old(activeStreams) ==> !old(activeStreams)[socket.id].isRunning
    {
      if socket.id in activeStreams {
        var analyzer := activeStreams[socket.id];
        analyzer.Stop();
        activeStreams := activeStreams - {socket.id};
      }
    }
  }
}
