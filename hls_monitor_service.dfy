/**
 * The backend monitor: one `StreamMonitor` per client socket, which fetches
 * the master playlist, lets the operator pick a profile, then polls that
 * profile's media playlist and reports each new segment once; and the
 * `HLSMonitorService` registry of monitors by socket id.
 *
 * Network results (GET and HEAD responses, and what the playlist parser
 * library makes of a body) are arguments of the methods; every `socket.emit`
 * is an append to the socket's `emitted` sequence.
 */
module HlsMonitorService {
  import opened Strings
  import opened M3U8Parser
  import opened History

  /** What an HTTP request returns: `responseUrl` is the URL after redirects, when known. */
  datatype HttpResponse = HttpResponse(
    status: int,
    headers: map<string, string>,
    body: string,
    responseUrl: Option<string>,
    elapsedMs: int)

  /** A playlist fetched by GET, and what the parser library made of its body. */
  datatype ManifestFetch = ManifestFetch(response: HttpResponse, parsed: ParsedManifest)

  /** `response.request?.res?.responseUrl || fallback` */
  function FinalUrl(response: HttpResponse, fallback: string): string {
    if response.responseUrl.Some? && response.responseUrl.value != "" then response.responseUrl.value
    else fallback
  }

  /** `x || null` for a number: 0 (and a missing value) become null. */
  function NullIfZero(x: Option<int>): Option<int> {
    if x == Some(0) then None else x
  }

  /** The argument `processManifest` receives. */
  datatype ManifestData = ManifestData(
    url: string,
    requestUrl: string,
    isMaster: bool,
    status: int,
    headers: map<string, string>,
    content: string,
    fetchTime: int,
    profileCount: Option<int>,
    mediaSequence: Option<int>)

  datatype ManifestKind = Master | Variant

  /** A manifest row as the front end receives it (timestamps and random ids left out). */
  datatype ManifestEntry = ManifestEntry(
    url: string,
    requestUrl: string,
    kind: ManifestKind,
    status: int,
    size: Option<string>,
    timing: int,
    mediaSequence: Option<int>,
    discontinuity: bool,
    headers: map<string, string>,
    content: string,
    isNew: bool)

  /** The argument `processSegment` receives. */
  datatype SegmentData = SegmentData(
    url: string,
    requestUrl: string,
    mediaSequence: int,
    discontinuity: bool,
    size: Option<string>,
    downloadTime: int,
    status: int,
    headers: map<string, string>)

  /** A segment row as the front end receives it. */
  datatype SegmentEntry = SegmentEntry(
    url: string,
    requestUrl: string,
    sequence: int,
    discontinuity: bool,
    size: Option<string>,
    downloadTime: int,
    status: int,
    headers: map<string, string>)

  /** The events a monitor emits on its socket. */
  datatype MonitorEvent =
    | ProfilesAvailable(profiles: seq<Profile>)
    | ManifestUpdate(manifest: ManifestEntry)
    | SegmentUpdate(segment: SegmentEntry)
    | NewSegment(segment: SegmentEntry)
    | Error(message: string)

  /** One turn of the manifest loop: a poll of the media playlist, or a stop request arriving. */
  datatype LoopStep =
    | Poll(fetch: Result<ManifestFetch>, probe: string -> Result<HttpResponse>)
    | StopRequested

  const ProfileNotFound := "Selected profile not found in available profiles"

  /** The row `processManifest` builds for its argument. */
  function ManifestEntryOf(data: ManifestData, isNew: bool): ManifestEntry {
    ManifestEntry(data.url, data.requestUrl, if data.isMaster then Master else Variant,
                  data.status, Header(data.headers, "content-length"), data.fetchTime,
                  NullIfZero(data.mediaSequence), false, data.headers, data.content, isNew)
  }

  /** The row the manifest loop emits for a media playlist whose sequence changed. */
  function VariantEntry(url: string, requestUrl: string, response: HttpResponse, mediaSequence: int): ManifestEntry {
    ManifestEntry(url, requestUrl, Variant, response.status, Header(response.headers, "content-length"),
                  response.elapsedMs, Some(mediaSequence), false, response.headers, response.body, true)
  }

  /** The row the segment check emits for a segment whose HEAD probe answered. */
  function UpdateEntry(url: string, sequence: int, segment: MediaSegment, response: HttpResponse): SegmentEntry {
    SegmentEntry(url, FinalUrl(response, url), sequence, segment.discontinuity,
                 Header(response.headers, "content-length"), response.elapsedMs,
                 response.status, response.headers)
  }

  /** The row `processSegment` records for its argument. */
  function NewSegmentEntry(data: SegmentData): SegmentEntry {
    SegmentEntry(data.url, data.requestUrl, data.mediaSequence, data.discontinuity,
                 data.size, data.downloadTime, data.status, data.headers)
  }

  /** The argument `fetchMasterPlaylist` hands to `processManifest`. */
  function MasterData(playerUrl: string, fetch: ManifestFetch, profileCount: int): ManifestData {
    ManifestData(playerUrl, FinalUrl(fetch.response, playerUrl), true, fetch.response.status,
                 fetch.response.headers, fetch.response.body, fetch.response.elapsedMs,
                 Some(profileCount), None)
  }

  /** The profiles a master fetch yields, or the message of the error it throws. */
  function MasterProfiles(master: Result<ManifestFetch>): Result<seq<Profile>> {
    match master
    case Fail(message) => Fail(message)
    case Ok(fetch) => ParseMasterPlaylist(fetch.parsed)
  }

  /** `profiles.find(p => p.uri === uri)`: the first profile with that URI, if any. */
  function FindProfile(profiles: seq<Profile>, uri: string): Option<Profile> {
    if profiles == [] then None
    else if profiles[0].uri == uri then Some(profiles[0])
    else FindProfile(profiles[1..], uri)
  }

  /**
   * `find` yields nothing exactly when no profile has the URI, and otherwise
   * the profile at the first position whose URI matches.
   */
  lemma {:induction false} FindProfileFirst(profiles: seq<Profile>, uri: string)
    ensures FindProfile(profiles, uri).None? <==> forall k :: 0 <= k < |profiles| ==> profiles[k].uri != uri
    ensures FindProfile(profiles, uri).Some? ==>
      exists k :: 0 <= k < |profiles| && profiles[k] == FindProfile(profiles, uri).value && profiles[k].uri == uri &&
                  forall j :: 0 <= j < k ==> profiles[j].uri != uri
  {
    if profiles != [] && profiles[0].uri != uri {
      var rest := profiles[1..];
      FindProfileFirst(rest, uri);
      if FindProfile(rest, uri).Some? {
        var k :| 0 <= k < |rest| && rest[k] == FindProfile(rest, uri).value && rest[k].uri == uri &&
                 forall j :: 0 <= j < k ==> rest[j].uri != uri;
        assert profiles[k + 1] == rest[k];
        forall j | 0 <= j < k + 1
          ensures profiles[j].uri != uri
        {
          if j > 0 {
            assert profiles[j] == rest[j - 1];
          }
        }
      } else {
        forall k | 0 <= k < |profiles|
          ensures profiles[k].uri != uri
        {
          if k > 0 {
            assert profiles[k] == rest[k - 1];
          }
        }
      }
    } else if profiles != [] {
      assert profiles[0] == FindProfile(profiles, uri).value;
    }
  }

  // ---------------------------------------------------------------------
  // Segment keys
  // ---------------------------------------------------------------------

  /** The template literal `${url}-${sequence}` both key sets use. */
  function SegmentKey(url: string, sequence: int): string {
    url + "-" + IntToString(sequence)
  }

  /** In a key with a non-negative sequence, the last dash is the one after the URL. */
  lemma KeyDash(url: string, sequence: int)
    requires sequence >= 0
    ensures LastIndexOf(SegmentKey(url, sequence), '-') == |url|
  {
    var k := SegmentKey(url, sequence);
    var d := IntToString(sequence);
    NatToStringDigits(sequence);
    assert AllDigits(d);
    assert k[|url|] == '-';
    forall j | |url| < j < |k|
      ensures k[j] != '-'
    {
      assert k[j] == d[j - |url| - 1];
    }
  }

  /**
   * For non-negative sequence numbers the key determines the URL and the
   * sequence: two different segments never share a key, so deduplicating on
   * keys never skips a segment that was not seen.
   */
  lemma SegmentKeyInjective(url1: string, seq1: int, url2: string, seq2: int)
    requires seq1 >= 0 && seq2 >= 0
    requires SegmentKey(url1, seq1) == SegmentKey(url2, seq2)
    ensures url1 == url2 && seq1 == seq2
  {
    var k := SegmentKey(url1, seq1);
    KeyDash(url1, seq1);
    KeyDash(url2, seq2);
    assert url1 == k[..|url1|];
    assert url2 == k[..|url2|];
    assert IntToString(seq1) == k[|url1| + 1..];
    assert IntToString(seq2) == k[|url2| + 1..];
    IntToStringInjective(seq1, seq2);
  }

  /**
   * A way of keying a (URL, sequence) pair. The monitor uses `SegmentKey`;
   * the facts below about logs of keys hold for any keying.
   */
  type KeyOf = (string, int) -> string

  /** The key a `segment-update` row is deduplicated on. */
  function UpdateKey(keyOf: KeyOf, e: MonitorEvent): string
    requires e.SegmentUpdate?
  {
    keyOf(e.segment.url, e.segment.sequence)
  }

  /** The key a `new-segment` row is deduplicated on. */
  function NewSegmentKey(keyOf: KeyOf, e: MonitorEvent): string
    requires e.NewSegment?
  {
    keyOf(e.segment.requestUrl, e.segment.sequence)
  }

  /**
   * From position `from` of the log on, every `segment-update` has its key
   * in `recorded`, and no two of them share a key.
   */
  ghost predicate UpdatesOnce(keyOf: KeyOf, events: seq<MonitorEvent>, from: nat, recorded: set<string>) {
    && (forall i :: from <= i < |events| && events[i].SegmentUpdate? ==> UpdateKey(keyOf, events[i]) in recorded)
    && (forall i, j :: from <= i < j < |events| && events[i].SegmentUpdate? && events[j].SegmentUpdate? ==>
          UpdateKey(keyOf, events[i]) != UpdateKey(keyOf, events[j]))
  }

  /**
   * From position `from` of the log on, every `new-segment` has its key in
   * `recorded`, and no two of them share a key.
   */
  ghost predicate NewSegmentsOnce(keyOf: KeyOf, events: seq<MonitorEvent>, from: nat, recorded: set<string>) {
    && (forall i :: from <= i < |events| && events[i].NewSegment? ==> NewSegmentKey(keyOf, events[i]) in recorded)
    && (forall i, j :: from <= i < j < |events| && events[i].NewSegment? && events[j].NewSegment? ==>
          NewSegmentKey(keyOf, events[i]) != NewSegmentKey(keyOf, events[j]))
  }

  /**
   * A log whose `segment-update` keys are reported once, keyed by
   * `SegmentKey`, never reports the same (URL, sequence) pair twice.
   */
  lemma ReportedPairsDistinct(events: seq<MonitorEvent>, from: nat, recorded: set<string>)
    requires UpdatesOnce(SegmentKey, events, from, recorded)
    ensures forall i, j :: from <= i < j < |events| && events[i].SegmentUpdate? && events[j].SegmentUpdate? ==>
      (events[i].segment.url, events[i].segment.sequence) != (events[j].segment.url, events[j].segment.sequence)
  {
    forall i, j | from <= i < j < |events| && events[i].SegmentUpdate? && events[j].SegmentUpdate?
      ensures (events[i].segment.url, events[i].segment.sequence) != (events[j].segment.url, events[j].segment.sequence)
    {
      assert UpdateKey(SegmentKey, events[i]) != UpdateKey(SegmentKey, events[j]);
    }
  }

  // ---------------------------------------------------------------------
  // The segment check, as a specification
  // ---------------------------------------------------------------------

  /** What the segment check has done so far: keys seen, events emitted, an error that ended it. */
  datatype CheckState = CheckState(seen: set<string>, events: seq<MonitorEvent>, error: Option<string>)

  /** The URL of each segment of the playlist, resolved against the profile URL. */
  function Resolutions(profileUrl: string, mp: MediaPlaylist): (r: seq<Result<string>>)
    ensures |r| == |mp.segments|
    decreases |mp.segments|
  {
    if mp.segments == [] then []
    else
      var last := |mp.segments| - 1;
      Resolutions(profileUrl, mp.(segments := mp.segments[..last])) + [ResolveUrl(profileUrl, mp.segments[last].uri)]
  }

  /** Entry `i` is segment `i`'s URI resolved against the profile URL. */
  lemma {:induction false} ResolutionsAt(profileUrl: string, mp: MediaPlaylist, i: nat)
    requires i < |mp.segments|
    ensures Resolutions(profileUrl, mp)[i] == ResolveUrl(profileUrl, mp.segments[i].uri)
    decreases |mp.segments|
  {
    var last := |mp.segments| - 1;
    if i < last {
      var prefix := mp.(segments := mp.segments[..last]);
      ResolutionsAt(profileUrl, prefix, i);
      assert prefix.segments[i] == mp.segments[i];
    }
  }

  /**
   * The segment check on segment `i`, whose URL resolved to `resolved[i]`:
   * an unresolvable URL ends the check; otherwise the segment is numbered
   * `mediaSequence + i`, and, if its key is new, the key is recorded and
   * then the segment probed; only an answered probe emits.
   */
  function CheckStep(keyOf: KeyOf, resolved: seq<Result<string>>, mp: MediaPlaylist, probe: string -> Result<HttpResponse>,
                     s: CheckState, i: nat): CheckState
    requires i < |mp.segments| == |resolved|
  {
    match resolved[i]
    case Fail(message) => s.(error := Some(message))
    case Ok(url) =>
      var sequence := mp.mediaSequence + i;
      var key := keyOf(url, sequence);
      if key in s.seen then s
      else
        var response := probe(url);
        s.(seen := s.seen + {key},
           events := s.events + (if response.Ok? then [SegmentUpdate(UpdateEntry(url, sequence, mp.segments[i], response.value))] else []))
  }

  /** The segment check after its first `n` segments, starting from the keys in `seen`. */
  function SegmentCheck(keyOf: KeyOf, resolved: seq<Result<string>>, mp: MediaPlaylist, probe: string -> Result<HttpResponse>,
                        seen: set<string>, n: nat): CheckState
    requires n <= |mp.segments| == |resolved|
  {
    if n == 0 then CheckState(seen, [], None)
    else
      var s := SegmentCheck(keyOf, resolved, mp, probe, seen, n - 1);
      if s.error.Some? then s else CheckStep(keyOf, resolved, mp, probe, s, n - 1)
  }

  /** Once an error has ended the check, later segments change nothing. */
  lemma {:induction false} SegmentCheckStops(keyOf: KeyOf, resolved: seq<Result<string>>, mp: MediaPlaylist,
                                            probe: string -> Result<HttpResponse>, seen: set<string>, i: nat, n: nat)
    requires i <= n <= |mp.segments| == |resolved|
    requires SegmentCheck(keyOf, resolved, mp, probe, seen, i).error.Some?
    ensures SegmentCheck(keyOf, resolved, mp, probe, seen, n) == SegmentCheck(keyOf, resolved, mp, probe, seen, i)
    decreases n
  {
    if n > i {
      SegmentCheckStops(keyOf, resolved, mp, probe, seen, i, n - 1);
    }
  }

  /**
   * A step depends on the events emitted so far only by appending to them:
   * it is the step taken from no events, appended.
   */
  lemma CheckStepLocal(keyOf: KeyOf, resolved: seq<Result<string>>, mp: MediaPlaylist, probe: string -> Result<HttpResponse>,
                       s: CheckState, i: nat)
    requires i < |mp.segments| == |resolved|
    ensures var t := CheckStep(keyOf, resolved, mp, probe, CheckState(s.seen, [], s.error), i);
      CheckStep(keyOf, resolved, mp, probe, s, i) == CheckState(t.seen, s.events + t.events, t.error)
  {
    AppendEmpty(s.events);
  }

  /**
   * The check so far has recorded every key of `seen` and more, and each
   * `segment-update` it emitted has a key it recorded that was not in
   * `seen`, no two with the same key.
   */
  ghost predicate ReportsFresh(keyOf: KeyOf, st: CheckState, seen: set<string>) {
    seen <= st.seen && UpdatesOnce(keyOf, st.events, 0, st.seen - seen)
  }

  /** One step of the check reports only keys that are new since `seen0`, each once. */
  lemma StepReportsFresh(keyOf: KeyOf, resolved: seq<Result<string>>, mp: MediaPlaylist, probe: string -> Result<HttpResponse>,
                         s: CheckState, i: nat, seen0: set<string>)
    requires i < |mp.segments| == |resolved|
    requires ReportsFresh(keyOf, s, seen0)
    ensures ReportsFresh(keyOf, CheckStep(keyOf, resolved, mp, probe, s, i), seen0)
  {
    var t := CheckStep(keyOf, resolved, mp, probe, s, i);
    if resolved[i].Fail? {
      assert t.events == s.events && t.seen == s.seen;
    } else {
      var url := resolved[i].value;
      var sequence := mp.mediaSequence + i;
      var key := keyOf(url, sequence);
      if key in s.seen {
        assert t == s;
      } else {
        assert t.seen == s.seen + {key};
        var response := probe(url);
        if response.Ok? {
          var e := SegmentUpdate(UpdateEntry(url, sequence, mp.segments[i], response.value));
          var n := |s.events|;
          assert t.events == s.events + [e];
          assert UpdateKey(keyOf, e) == key;
          forall a | 0 <= a < |t.events| && t.events[a].SegmentUpdate?
            ensures UpdateKey(keyOf, t.events[a]) in t.seen - seen0
          {
            if a < n {
              assert t.events[a] == s.events[a];
            } else {
              assert t.events[a] == e;
            }
          }
          forall a, b | 0 <= a < b < |t.events| && t.events[a].SegmentUpdate? && t.events[b].SegmentUpdate?
            ensures UpdateKey(keyOf, t.events[a]) != UpdateKey(keyOf, t.events[b])
          {
            assert t.events[a] == s.events[a];
            if b < n {
              assert t.events[b] == s.events[b];
            } else {
              assert t.events[b] == e;
            }
          }
        } else {
          assert t.events == s.events;
        }
      }
    }
  }

  /**
   * A segment check only ever reports keys it had not seen before, each at
   * most once, and records every key it reports.
   */
  lemma {:induction false} SegmentCheckReportsOnce(keyOf: KeyOf, resolved: seq<Result<string>>, mp: MediaPlaylist,
                                                  probe: string -> Result<HttpResponse>, seen: set<string>, n: nat)
    requires n <= |mp.segments| == |resolved|
    ensures ReportsFresh(keyOf, SegmentCheck(keyOf, resolved, mp, probe, seen, n), seen)
  {
    if n > 0 {
      var s := SegmentCheck(keyOf, resolved, mp, probe, seen, n - 1);
      SegmentCheckReportsOnce(keyOf, resolved, mp, probe, seen, n - 1);
      if s.error.None? {
        assert SegmentCheck(keyOf, resolved, mp, probe, seen, n) == CheckStep(keyOf, resolved, mp, probe, s, n - 1);
        StepReportsFresh(keyOf, resolved, mp, probe, s, n - 1, seen);
      } else {
        assert SegmentCheck(keyOf, resolved, mp, probe, seen, n) == s;
      }
    }
  }

  /**
   * Every event is a `segment-update` whose URL the probe answered, with a
   * sequence number in [lo, hi).
   */
  ghost predicate AnsweredUpdates(events: seq<MonitorEvent>, probe: string -> Result<HttpResponse>, lo: int, hi: int) {
    forall k :: 0 <= k < |events| ==>
      && events[k].SegmentUpdate?
      && probe(events[k].segment.url).Ok?
      && lo <= events[k].segment.sequence < hi
  }

  /**
   * Everything a segment check emits is a `segment-update` for a probe that
   * answered, numbered within the playlist's window.
   */
  lemma {:induction false} SegmentCheckEmitsUpdates(keyOf: KeyOf, resolved: seq<Result<string>>, mp: MediaPlaylist,
                                                   probe: string -> Result<HttpResponse>, seen: set<string>, n: nat)
    requires n <= |mp.segments| == |resolved|
    ensures AnsweredUpdates(SegmentCheck(keyOf, resolved, mp, probe, seen, n).events, probe,
                            mp.mediaSequence, mp.mediaSequence + n)
  {
    if n > 0 {
      var i := n - 1;
      var s := SegmentCheck(keyOf, resolved, mp, probe, seen, i);
      SegmentCheckEmitsUpdates(keyOf, resolved, mp, probe, seen, i);
      if s.error.None? {
        var t := CheckStep(keyOf, resolved, mp, probe, s, i);
        assert SegmentCheck(keyOf, resolved, mp, probe, seen, n) == t;
        if resolved[i].Ok? && keyOf(resolved[i].value, mp.mediaSequence + i) !in s.seen
           && probe(resolved[i].value).Ok? {
          var url := resolved[i].value;
          var e := SegmentUpdate(UpdateEntry(url, mp.mediaSequence + i, mp.segments[i], probe(url).value));
          assert t.events == s.events + [e];
          assert e.segment.url == url && e.segment.sequence == mp.mediaSequence + i;
          forall k | 0 <= k < |t.events|
            ensures t.events[k].SegmentUpdate? && probe(t.events[k].segment.url).Ok?
            ensures mp.mediaSequence <= t.events[k].segment.sequence < mp.mediaSequence + n
          {
            if k < |s.events| {
              assert t.events[k] == s.events[k];
            } else {
              assert t.events[k] == e;
            }
          }
        } else {
          assert t.events == s.events;
        }
      } else {
        assert SegmentCheck(keyOf, resolved, mp, probe, seen, n) == s;
      }
    }
  }

  /** One step that does not end the check records the key of its segment. */
  lemma StepMarks(keyOf: KeyOf, resolved: seq<Result<string>>, mp: MediaPlaylist, probe: string -> Result<HttpResponse>,
                  s: CheckState, i: nat)
    requires i < |mp.segments| == |resolved|
    requires CheckStep(keyOf, resolved, mp, probe, s, i).error.None?
    ensures var t := CheckStep(keyOf, resolved, mp, probe, s, i);
      && s.seen <= t.seen
      && resolved[i].Ok?
      && keyOf(resolved[i].value, mp.mediaSequence + i) in t.seen
  {
  }

  /**
   * A check that no URL resolution ended has recorded the key of every
   * segment, whether or not its probe answered: a failed probe marks its
   * segment seen and does not stop the segments after it.
   */
  lemma {:induction false} SegmentCheckMarksAll(keyOf: KeyOf, resolved: seq<Result<string>>, mp: MediaPlaylist,
                                               probe: string -> Result<HttpResponse>, seen: set<string>, n: nat)
    requires n <= |mp.segments| == |resolved|
    requires SegmentCheck(keyOf, resolved, mp, probe, seen, n).error.None?
    ensures forall i :: 0 <= i < n ==>
      && resolved[i].Ok?
      && keyOf(resolved[i].value, mp.mediaSequence + i) in SegmentCheck(keyOf, resolved, mp, probe, seen, n).seen
  {
    if n > 0 {
      var s := SegmentCheck(keyOf, resolved, mp, probe, seen, n - 1);
      var t := CheckStep(keyOf, resolved, mp, probe, s, n - 1);
      assert s.error.None?;
      assert SegmentCheck(keyOf, resolved, mp, probe, seen, n) == t;
      SegmentCheckMarksAll(keyOf, resolved, mp, probe, seen, n - 1);
      StepMarks(keyOf, resolved, mp, probe, s, n - 1);
    }
  }

  /** A check whose first `n` URLs all resolve has not ended by segment `n`. */
  lemma {:induction false} SegmentCheckReaches(keyOf: KeyOf, resolved: seq<Result<string>>, mp: MediaPlaylist,
                                              probe: string -> Result<HttpResponse>, seen: set<string>, n: nat)
    requires n <= |mp.segments| == |resolved|
    requires forall j :: 0 <= j < n ==> resolved[j].Ok?
    ensures SegmentCheck(keyOf, resolved, mp, probe, seen, n).error.None?
  {
    if n > 0 {
      SegmentCheckReaches(keyOf, resolved, mp, probe, seen, n - 1);
    }
  }

  /**
   * A key that was not seen before and that none of the first `n` segments
   * produces is still unseen after them.
   */
  lemma {:induction false} SegmentCheckKeepsOut(keyOf: KeyOf, resolved: seq<Result<string>>, mp: MediaPlaylist,
                                               probe: string -> Result<HttpResponse>, seen: set<string>, n: nat, key: string)
    requires n <= |mp.segments| == |resolved|
    requires key !in seen
    requires forall j :: 0 <= j < n && resolved[j].Ok? ==> keyOf(resolved[j].value, mp.mediaSequence + j) != key
    ensures key !in SegmentCheck(keyOf, resolved, mp, probe, seen, n).seen
  {
    if n > 0 {
      SegmentCheckKeepsOut(keyOf, resolved, mp, probe, seen, n - 1, key);
    }
  }

  /** Later segments only append to what the check has emitted. */
  lemma {:induction false} SegmentCheckEventsGrow(keyOf: KeyOf, resolved: seq<Result<string>>, mp: MediaPlaylist,
                                                 probe: string -> Result<HttpResponse>, seen: set<string>, i: nat, n: nat)
    requires i <= n <= |mp.segments| == |resolved|
    ensures SegmentCheck(keyOf, resolved, mp, probe, seen, i).events <= SegmentCheck(keyOf, resolved, mp, probe, seen, n).events
    decreases n
  {
    if n > i {
      SegmentCheckEventsGrow(keyOf, resolved, mp, probe, seen, i, n - 1);
      var s := SegmentCheck(keyOf, resolved, mp, probe, seen, n - 1);
      if s.error.None? {
        CheckStepLocal(keyOf, resolved, mp, probe, s, n - 1);
      }
    }
  }

  /**
   * The converse of `SegmentCheckReportsOnce`: segment `i`, reached by the
   * check, whose key is neither in `seen` nor the key of an earlier segment,
   * and whose probe answers, is reported as a `segment-update`.
   */
  lemma SegmentCheckReportsNew(keyOf: KeyOf, resolved: seq<Result<string>>, mp: MediaPlaylist,
                               probe: string -> Result<HttpResponse>, seen: set<string>, i: nat, n: nat)
    requires i < n <= |mp.segments| == |resolved|
    requires forall j :: 0 <= j <= i ==> resolved[j].Ok?
    requires keyOf(resolved[i].value, mp.mediaSequence + i) !in seen
    requires forall j :: 0 <= j < i ==> keyOf(resolved[j].value, mp.mediaSequence + j) != keyOf(resolved[i].value, mp.mediaSequence + i)
    requires probe(resolved[i].value).Ok?
    ensures var url := resolved[i].value;
      SegmentUpdate(UpdateEntry(url, mp.mediaSequence + i, mp.segments[i], probe(url).value))
        in SegmentCheck(keyOf, resolved, mp, probe, seen, n).events
  {
    var url := resolved[i].value;
    var key := keyOf(url, mp.mediaSequence + i);
    var e := SegmentUpdate(UpdateEntry(url, mp.mediaSequence + i, mp.segments[i], probe(url).value));
    var s := SegmentCheck(keyOf, resolved, mp, probe, seen, i);
    SegmentCheckReaches(keyOf, resolved, mp, probe, seen, i);
    SegmentCheckKeepsOut(keyOf, resolved, mp, probe, seen, i, key);
    var t := SegmentCheck(keyOf, resolved, mp, probe, seen, i + 1);
    assert t == CheckStep(keyOf, resolved, mp, probe, s, i);
    assert t.events == s.events + [e];
    assert t.events[|s.events|] == e;
    SegmentCheckEventsGrow(keyOf, resolved, mp, probe, seen, i + 1, n);
    assert SegmentCheck(keyOf, resolved, mp, probe, seen, n).events[|s.events|] == e;
  }

  /**
   * Keyed by `SegmentKey`, with a non-negative media sequence, no two
   * segments of one playlist share a key, so a segment the check reaches is
   * reported exactly when its (URL, sequence) key was not seen before and
   * its probe answers: deduplication never skips a segment that is new.
   */
  lemma ReportsEveryNewSegment(resolved: seq<Result<string>>, mp: MediaPlaylist,
                               probe: string -> Result<HttpResponse>, seen: set<string>, i: nat, n: nat)
    requires i < n <= |mp.segments| == |resolved|
    requires mp.mediaSequence >= 0
    requires forall j :: 0 <= j <= i ==> resolved[j].Ok?
    requires SegmentKey(resolved[i].value, mp.mediaSequence + i) !in seen
    requires probe(resolved[i].value).Ok?
    ensures var url := resolved[i].value;
      SegmentUpdate(UpdateEntry(url, mp.mediaSequence + i, mp.segments[i], probe(url).value))
        in SegmentCheck(SegmentKey, resolved, mp, probe, seen, n).events
  {
    EarlierKeysDiffer(resolved, mp.mediaSequence, i);
    SegmentCheckReportsNew(SegmentKey, resolved, mp, probe, seen, i, n);
  }

  /** Segments at different positions of one playlist never share a URL-keyed key. */
  lemma EarlierKeysDiffer(resolved: seq<Result<string>>, base: int, i: nat)
    requires base >= 0 && i < |resolved|
    requires forall j :: 0 <= j <= i ==> resolved[j].Ok?
    ensures forall j :: 0 <= j < i ==> SegmentKey(resolved[j].value, base + j) != SegmentKey(resolved[i].value, base + i)
  {
    forall j | 0 <= j < i
      ensures SegmentKey(resolved[j].value, base + j) != SegmentKey(resolved[i].value, base + i)
    {
      if SegmentKey(resolved[j].value, base + j) == SegmentKey(resolved[i].value, base + i) {
        SegmentKeyInjective(resolved[j].value, base + j, resolved[i].value, base + i);
      }
    }
  }

  // ---------------------------------------------------------------------
  // The socket and the monitor
  // ---------------------------------------------------------------------

  /** A client connection: its id, and every event emitted on it so far. */
  class Socket {
    const id: string
    var emitted: seq<MonitorEvent>

    constructor(id: string)
      ensures this.id == id && emitted == []
    {
      this.id := id;
      emitted := [];
    }

    /** `socket.emit(name, payload)` */
    method Emit(e: MonitorEvent)
      modifies this`emitted
      ensures emitted == old(emitted) + [e]
    {
      emitted := emitted + [e];
    }
  }

  /**
   * Emitting an event that is neither a `segment-update` nor a
   * `new-segment` keeps both reported-once invariants.
   */
  lemma EmitOther(keyOf: KeyOf, events: seq<MonitorEvent>, selectionMark: nat, creationMark: nat,
                  seen: set<string>, recorded: set<string>, e: MonitorEvent)
    requires !e.SegmentUpdate? && !e.NewSegment?
    requires UpdatesOnce(keyOf, events, selectionMark, seen)
    requires NewSegmentsOnce(keyOf, events, creationMark, recorded)
    ensures UpdatesOnce(keyOf, events + [e], selectionMark, seen)
    ensures NewSegmentsOnce(keyOf, events + [e], creationMark, recorded)
  {
    var t := events + [e];
    assert forall a :: 0 <= a < |events| ==> t[a] == events[a];
  }

  /**
   * Emitting a `new-segment` row whose key was not recorded keeps both
   * reported-once invariants, with the key now recorded.
   */
  lemma EmitNewSegment(keyOf: KeyOf, events: seq<MonitorEvent>, selectionMark: nat, creationMark: nat,
                       seen: set<string>, recorded: set<string>, entry: SegmentEntry)
    requires UpdatesOnce(keyOf, events, selectionMark, seen)
    requires NewSegmentsOnce(keyOf, events, creationMark, recorded)
    requires keyOf(entry.requestUrl, entry.sequence) !in recorded
    ensures UpdatesOnce(keyOf, events + [NewSegment(entry)], selectionMark, seen)
    ensures NewSegmentsOnce(keyOf, events + [NewSegment(entry)], creationMark,
                            recorded + {keyOf(entry.requestUrl, entry.sequence)})
  {
    var e := NewSegment(entry);
    var t := events + [e];
    var recorded' := recorded + {keyOf(entry.requestUrl, entry.sequence)};
    assert forall a :: 0 <= a < |events| ==> t[a] == events[a];
    assert t[|events|] == e;
    forall a, b | creationMark <= a < b < |t| && t[a].NewSegment? && t[b].NewSegment?
      ensures NewSegmentKey(keyOf, t[a]) != NewSegmentKey(keyOf, t[b])
    {
      if b == |events| {
        assert NewSegmentKey(keyOf, t[a]) in recorded;
      }
    }
  }

  /**
   * Emitting the events of a segment check, which are `segment-update`s
   * whose keys are new since `seen0` and reported once, keeps both
   * reported-once invariants.
   */
  lemma EmitChecked(keyOf: KeyOf, events: seq<MonitorEvent>, selectionMark: nat, creationMark: nat,
                    seen0: set<string>, seen1: set<string>, recorded: set<string>, added: seq<MonitorEvent>)
    requires selectionMark <= |events|
    requires UpdatesOnce(keyOf, events, selectionMark, seen0)
    requires NewSegmentsOnce(keyOf, events, creationMark, recorded)
    requires seen0 <= seen1 && UpdatesOnce(keyOf, added, 0, seen1 - seen0)
    requires forall k :: 0 <= k < |added| ==> added[k].SegmentUpdate?
    ensures UpdatesOnce(keyOf, events + added, selectionMark, seen1)
    ensures NewSegmentsOnce(keyOf, events + added, creationMark, recorded)
  {
    var t := events + added;
    var n := |events|;
    assert forall a :: 0 <= a < n ==> t[a] == events[a];
    assert forall a :: n <= a < |t| ==> t[a] == added[a - n];
    forall a, b | selectionMark <= a < b < |t| && t[a].SegmentUpdate? && t[b].SegmentUpdate?
      ensures UpdateKey(keyOf, t[a]) != UpdateKey(keyOf, t[b])
    {
      if b >= n {
        assert UpdateKey(keyOf, added[b - n]) in seen1 - seen0;
        if a < n {
          assert UpdateKey(keyOf, t[a]) in seen0;
        } else {
          assert UpdateKey(keyOf, added[a - n]) != UpdateKey(keyOf, added[b - n]);
        }
      }
    }
    forall a | selectionMark <= a < |t| && t[a].SegmentUpdate?
      ensures UpdateKey(keyOf, t[a]) in seen1
    {
      if a >= n {
        assert UpdateKey(keyOf, added[a - n]) in seen1 - seen0;
      }
    }
  }

  // ---------------------------------------------------------------------
  // The manifest loop, as a specification
  // ---------------------------------------------------------------------

  /** What the manifest loop reads and changes: the running flag, the last sequence, the seen keys, the socket's log. */
  datatype LoopState = LoopState(running: bool, lastMediaSequence: Option<int>, seen: set<string>, events: seq<MonitorEvent>)

  /**
   * One poll of the media playlist at `url`: a failed fetch or parse emits
   * its error; otherwise a new or changed media sequence is emitted and
   * remembered, and the segment check runs, its ending error emitted.
   */
  function PollResult(keyOf: KeyOf, url: string, s: LoopState, fetch: Result<ManifestFetch>,
                probe: string -> Result<HttpResponse>): LoopState
  {
    if fetch.Fail? then s.(events := s.events + [Error(fetch.message)])
    else
      var parsed := ParseMediaPlaylist(fetch.value.parsed);
      if parsed.Fail? then s.(events := s.events + [Error(parsed.message)])
      else
        var mp := parsed.value;
        var response := fetch.value.response;
        var changed := s.lastMediaSequence != Some(mp.mediaSequence);
        var st := SegmentCheck(keyOf, Resolutions(url, mp), mp, probe, s.seen, |mp.segments|);
        LoopState(s.running, Some(mp.mediaSequence), st.seen,
                  s.events
                  + (if changed then [ManifestUpdate(VariantEntry(url, FinalUrl(response, url), response, mp.mediaSequence))] else [])
                  + st.events
                  + (if st.error.Some? then [Error(st.error.value)] else []))
  }

  /** One turn of the loop: a stop request clears the flag, a poll polls. */
  function Step(keyOf: KeyOf, url: string, s: LoopState, step: LoopStep): LoopState {
    match step
    case StopRequested => s.(running := false)
    case Poll(fetch, probe) => PollResult(keyOf, url, s, fetch, probe)
  }

  /** The manifest loop after its first `n` steps: nothing runs once the flag is clear. */
  function LoopRun(keyOf: KeyOf, url: string, s: LoopState, steps: seq<LoopStep>, n: nat): LoopState
    requires n <= |steps|
  {
    if n == 0 then s
    else
      var t := LoopRun(keyOf, url, s, steps, n - 1);
      if !t.running then t else Step(keyOf, url, t, steps[n - 1])
  }

  /** Once the loop has stopped, later steps change nothing: a stop request ends it for good. */
  lemma {:induction false} LoopRunStops(keyOf: KeyOf, url: string, s: LoopState, steps: seq<LoopStep>, i: nat, n: nat)
    requires i <= n <= |steps|
    requires !LoopRun(keyOf, url, s, steps, i).running
    ensures LoopRun(keyOf, url, s, steps, n) == LoopRun(keyOf, url, s, steps, i)
    decreases n
  {
    if n > i {
      LoopRunStops(keyOf, url, s, steps, i, n - 1);
    }
  }

  /** Polls never clear the flag: the loop runs until its first stop request, and is stopped right after it. */
  lemma {:induction false} LoopRunUntilStop(keyOf: KeyOf, url: string, s: LoopState, steps: seq<LoopStep>, n: nat)
    requires n <= |steps|
    requires s.running
    ensures LoopRun(keyOf, url, s, steps, n).running <==> forall k :: 0 <= k < n ==> steps[k].Poll?
  {
    if n > 0 {
      LoopRunUntilStop(keyOf, url, s, steps, n - 1);
      var t := LoopRun(keyOf, url, s, steps, n - 1);
      if !t.running {
        var k :| 0 <= k < n - 1 && !steps[k].Poll?;
      }
    }
  }

  /**
   * A run that was still going before its last step has polled at every
   * step but that one; if it is still going it polled at every step, and if
   * it has stopped its last step was the stop request.
   */
  lemma LoopRunControl(keyOf: KeyOf, url: string, s: LoopState, steps: seq<LoopStep>, n: nat)
    requires n <= |steps| && s.running
    requires !LoopRun(keyOf, url, s, steps, n).running ==> n > 0 && LoopRun(keyOf, url, s, steps, n - 1).running
    ensures forall k :: 0 <= k < n && k != n - 1 ==> steps[k].Poll?
    ensures LoopRun(keyOf, url, s, steps, n).running ==> forall k :: 0 <= k < n ==> steps[k].Poll?
    ensures !LoopRun(keyOf, url, s, steps, n).running ==> n >= 1 && steps[n - 1].StopRequested?
  {
    LoopRunUntilStop(keyOf, url, s, steps, n);
    if !LoopRun(keyOf, url, s, steps, n).running {
      LoopRunUntilStop(keyOf, url, s, steps, n - 1);
    }
  }

  /** The events of a loop run extend those it started from. */
  lemma {:induction false} LoopRunAppends(keyOf: KeyOf, url: string, s: LoopState, steps: seq<LoopStep>, n: nat)
    requires n <= |steps|
    ensures s.events <= LoopRun(keyOf, url, s, steps, n).events
  {
    if n > 0 {
      LoopRunAppends(keyOf, url, s, steps, n - 1);
    }
  }

  class StreamMonitor {
    const playerUrl: string
    const socket: Socket
    const baseUrl: string
    /** How segments are keyed for deduplication: `SegmentKey`, fixed at construction. */
    const keyOf: KeyOf
    var isRunning: bool
    var currentProfileUrl: Option<string>
    var profiles: seq<Profile>
    var selectedProfile: Option<Profile>
    var lastMediaSequence: Option<int>
    var seenSegments: set<string>
    var manifests: map<string, ManifestData>
    var segments: set<string>
    var manifestHistory: seq<ManifestEntry>
    var segmentHistory: seq<SegmentEntry>

    /** Every manifest row `processManifest` has ever logged. */
    ghost var manifestLog: seq<ManifestEntry>
    /** Every segment row `processSegment` has ever logged. */
    ghost var segmentLog: seq<SegmentEntry>
    /** The length of the socket's log at the last profile selection. */
    ghost var selectionMark: nat
    /** The length of the socket's log when the monitor was created. */
    ghost const creationMark: nat

    /**
     * The histories are the last 10 and 20 rows of their logs; since the last
     * selection each `segment-update` key was emitted once and is in
     * `seenSegments`; since creation each `new-segment` key was emitted once
     * and is in `segments`.
     */
    ghost predicate Valid()
      reads this`manifestHistory, this`manifestLog, this`segmentHistory, this`segmentLog
      reads this`selectionMark, this`seenSegments, this`segments, socket`emitted
    {
      && manifestHistory == TakeLast(manifestLog, 10)
      && segmentHistory == TakeLast(segmentLog, 20)
      && selectionMark <= |socket.emitted|
      && creationMark <= |socket.emitted|
      && UpdatesOnce(keyOf, socket.emitted, selectionMark, seenSegments)
      && NewSegmentsOnce(keyOf, socket.emitted, creationMark, segments)
    }

    /** The part of the monitor the manifest loop reads and changes. */
    ghost function LoopView(): LoopState
      reads this`isRunning, this`lastMediaSequence, this`seenSegments, socket`emitted
    {
      LoopState(isRunning, lastMediaSequence, seenSegments, socket.emitted)
    }

    /**
     * The state of a monitor on which no profile has been selected yet: the
     * segments are keyed by URL, and the profile URL, the profile, the last
     * media sequence, the seen set, the segment table and both segment logs
     * are empty.
     */
    ghost predicate Unselected()
      reads this`currentProfileUrl, this`selectedProfile, this`lastMediaSequence, this`seenSegments,
            this`segments, this`segmentHistory, this`segmentLog
    {
      && keyOf == SegmentKey && currentProfileUrl.None? && selectedProfile.None? && lastMediaSequence.None?
      && seenSegments == {} && segments == {} && segmentHistory == [] && segmentLog == []
    }

    constructor(playerUrl: string, socket: Socket)
      ensures this.playerUrl == playerUrl && this.socket == socket
      ensures baseUrl == GetBaseUrl(playerUrl) && keyOf == SegmentKey
      ensures !isRunning && currentProfileUrl.None? && profiles == [] && selectedProfile.None?
      ensures lastMediaSequence.None? && seenSegments == {}
      ensures manifests == map[] && segments == {} && manifestHistory == [] && segmentHistory == []
      ensures manifestLog == [] && segmentLog == []
      ensures Valid()
    {
      this.playerUrl := playerUrl;
      this.socket := socket;
      baseUrl := GetBaseUrl(playerUrl);
      keyOf := SegmentKey;
      isRunning := false;
      currentProfileUrl := None;
      profiles := [];
      selectedProfile := None;
      lastMediaSequence := None;
      seenSegments := {};
      manifests := map[];
      segments := {};
      manifestHistory := [];
      segmentHistory := [];
      manifestLog := [];
      segmentLog := [];
      selectionMark := |socket.emitted|;
      creationMark := |socket.emitted|;
    }

    /** `stop()`: clears the flag the manifest loop tests. */
    method Stop()
      modifies this`isRunning
      ensures !isRunning
    {
      isRunning := false;
    }

    /**
     * `processManifest`: the map keeps the first data seen for a URL, the row
     * says whether the URL was new, and the row is pushed to the 10-row
     * history and always emitted.
     */
    method ProcessManifest(data: ManifestData)
      requires Valid()
      modifies this`manifests, this`manifestHistory, this`manifestLog, socket`emitted
      ensures Valid()
      ensures data.url in manifests
      ensures manifests == if data.url in old(manifests) then old(manifests) else old(manifests)[data.url := data]
      ensures manifestLog == old(manifestLog) + [ManifestEntryOf(data, data.url !in old(manifests))]
      ensures socket.emitted == old(socket.emitted) + [ManifestUpdate(ManifestEntryOf(data, data.url !in old(manifests)))]
    {
      var isNew := data.url !in manifests;
      if isNew {
        manifests := manifests[data.url := data];
      }
      var entry := ManifestEntryOf(data, isNew);
      manifestHistory := manifestHistory + [entry];
      if |manifestHistory| > 10 {
        manifestHistory := manifestHistory[1..];
      }
      PushEvictKeepsLast(manifestLog, entry, 10);
      manifestLog := manifestLog + [entry];
      EmitOther(keyOf, socket.emitted, selectionMark, creationMark, seenSegments, segments, ManifestUpdate(entry));
      socket.Emit(ManifestUpdate(entry));
    }

    /**
     * `processSegment`: a key (`requestUrl-mediaSequence`) seen before
     * changes nothing; a new key is recorded, its row pushed to the 20-row
     * history and emitted as `new-segment`.
     */
    method ProcessSegment(data: SegmentData)
      requires Valid()
      modifies this`segments, this`segmentHistory, this`segmentLog, socket`emitted
      ensures Valid()
      ensures var key := keyOf(data.requestUrl, data.mediaSequence);
        if key in old(segments) then
          && segments == old(segments) && segmentLog == old(segmentLog)
          && segmentHistory == old(segmentHistory) && socket.emitted == old(socket.emitted)
        else
          && segments == old(segments) + {key}
          && segmentLog == old(segmentLog) + [NewSegmentEntry(data)]
          && socket.emitted == old(socket.emitted) + [NewSegment(NewSegmentEntry(data))]
    {
      var key := keyOf(data.requestUrl, data.mediaSequence);
      if key !in segments {
        segments := segments + {key};
        var entry := NewSegmentEntry(data);
        segmentHistory := segmentHistory + [entry];
        if |segmentHistory| > 20 {
          segmentHistory := segmentHistory[1..];
        }
        PushEvictKeepsLast(segmentLog, entry, 20);
        segmentLog := segmentLog + [entry];
        EmitNewSegment(keyOf, socket.emitted, selectionMark, creationMark, seenSegments, old(segments), entry);
        socket.Emit(NewSegment(entry));
      }
    }

    /**
     * `fetchMasterPlaylist`: on a response the parser accepts, the profiles
     * are replaced, the master manifest goes through `processManifest`, and
     * the profiles are emitted; any error propagates with nothing changed.
     */
    method FetchMasterPlaylist(master: Result<ManifestFetch>) returns (r: Result<()>)
      requires Valid()
      modifies this`profiles, this`manifests, this`manifestHistory, this`manifestLog, socket`emitted
      ensures Valid()
      ensures r.Fail? <==> MasterProfiles(master).Fail?
      ensures r.Fail? ==>
        && r.message == MasterProfiles(master).message
        && profiles == old(profiles) && manifests == old(manifests) && manifestLog == old(manifestLog)
        && socket.emitted == old(socket.emitted)
      ensures r.Ok? ==>
        var data := MasterData(playerUrl, master.value, |profiles|);
        && profiles == MasterProfiles(master).value
        && manifests == (if playerUrl in old(manifests) then old(manifests) else old(manifests)[playerUrl := data])
        && manifestLog == old(manifestLog) + [ManifestEntryOf(data, playerUrl !in old(manifests))]
        && socket.emitted == old(socket.emitted) + [ManifestUpdate(ManifestEntryOf(data, playerUrl !in old(manifests))),
                                                    ProfilesAvailable(profiles)]
    {
      if master.Fail? {
        return Fail(master.message);
      }
      var parsed := ParseMasterPlaylist(master.value.parsed);
      if parsed.Fail? {
        return Fail(parsed.message);
      }
      profiles := parsed.value;
      ProcessManifest(MasterData(playerUrl, master.value, |profiles|));
      EmitOther(keyOf, socket.emitted, selectionMark, creationMark, seenSegments, segments, ProfilesAvailable(profiles));
      socket.Emit(ProfilesAvailable(profiles));
      r := Ok(());
    }

    /**
     * `start()`: the monitor is marked running before the master fetch, and
     * stays so when the fetch fails; a failure is emitted as an error event
     * and rethrown.
     */
    method Start(master: Result<ManifestFetch>) returns (r: Result<()>)
      requires Valid()
      modifies this`isRunning, this`profiles, this`manifests, this`manifestHistory, this`manifestLog, socket`emitted
      ensures Valid() && isRunning
      ensures r.Fail? <==> MasterProfiles(master).Fail?
      ensures r.Fail? ==>
        && r.message == MasterProfiles(master).message
        && profiles == old(profiles) && manifests == old(manifests) && manifestLog == old(manifestLog)
        && socket.emitted == old(socket.emitted) + [Error(r.message)]
      ensures r.Ok? ==>
        var data := MasterData(playerUrl, master.value, |profiles|);
        && profiles == MasterProfiles(master).value
        && manifests == (if playerUrl in old(manifests) then old(manifests) else old(manifests)[playerUrl := data])
        && manifestLog == old(manifestLog) + [ManifestEntryOf(data, playerUrl !in old(manifests))]
        && socket.emitted == old(socket.emitted) + [ManifestUpdate(ManifestEntryOf(data, playerUrl !in old(manifests))),
                                                    ProfilesAvailable(profiles)]
    {
      isRunning := true;
      r := FetchMasterPlaylist(master);
      if r.Fail? {
        EmitOther(keyOf, socket.emitted, selectionMark, creationMark, seenSegments, segments, Error(r.message));
        socket.Emit(Error(r.message));
      }
    }

    /**
     * `selectProfile`: the profile is looked up first (and left undefined
     * when absent, which fails); on success the profile URL is resolved
     * against the player URL and the per-profile state is reset. The
     * manifest loop the source starts here without waiting for it is
     * `ReactiveManifestLoop`, which the caller runs next.
     */
    method SelectProfile(uri: string) returns (r: Result<()>)
      requires Valid()
      modifies this`selectedProfile, this`currentProfileUrl, this`lastMediaSequence, this`seenSegments,
               this`isRunning, this`selectionMark
      ensures Valid()
      ensures selectedProfile == FindProfile(profiles, uri)
      ensures r.Ok? <==> selectedProfile.Some? && ResolveUrl(playerUrl, uri).Ok?
      ensures selectedProfile.None? ==> r == Fail(ProfileNotFound)
      ensures selectedProfile.Some? && ResolveUrl(playerUrl, uri).Fail? ==> r == Fail(ResolveUrl(playerUrl, uri).message)
      ensures r.Fail? ==>
        && currentProfileUrl == old(currentProfileUrl) && lastMediaSequence == old(lastMediaSequence)
        && seenSegments == old(seenSegments) && isRunning == old(isRunning)
      ensures r.Ok? ==>
        && currentProfileUrl == Some(ResolveUrl(playerUrl, uri).value)
        && lastMediaSequence.None? && seenSegments == {} && isRunning
    {
      selectedProfile := FindProfile(profiles, uri);
      if selectedProfile.None? {
        return Fail(ProfileNotFound);
      }
      var resolved := ResolveUrl(playerUrl, uri);
      if resolved.Fail? {
        return Fail(resolved.message);
      }
      ResetForProfile(resolved.value);
      r := Ok(());
    }

    /**
     * The state `selectProfile` resets once the profile is found and its URL
     * resolved: the new URL, no media sequence and no seen segments yet, and
     * the running flag set.
     */
    method ResetForProfile(url: string)
      requires Valid()
      modifies this`currentProfileUrl, this`lastMediaSequence, this`seenSegments, this`isRunning, this`selectionMark
      ensures Valid()
      ensures currentProfileUrl == Some(url) && lastMediaSequence.None? && seenSegments == {} && isRunning
      ensures selectionMark == |socket.emitted|
    {
      currentProfileUrl := Some(url);
      lastMediaSequence := None;
      seenSegments := {};
      isRunning := true;
      selectionMark := |socket.emitted|;
    }

    /**
     * One turn of the loop in `reactiveSegmentCheck`, on segment `i`: it is
     * numbered `mediaSequence + i` and keyed `url-sequence`; a key already
     * seen is skipped, a new one is recorded before its HEAD probe, and only
     * an answered probe emits `segment-update`. A URL that does not resolve
     * is returned as the error that ends the check.
     */
    method CheckSegment(profileUrl: string, mp: MediaPlaylist, probe: string -> Result<HttpResponse>, i: nat)
      returns (error: Option<string>)
      requires i < |mp.segments|
      modifies this`seenSegments, socket`emitted
      ensures var t := CheckStep(keyOf, Resolutions(profileUrl, mp), mp, probe, CheckState(old(seenSegments), [], None), i);
        && seenSegments == t.seen
        && socket.emitted == old(socket.emitted) + t.events
        && error == t.error
    {
      ghost var t := CheckStep(keyOf, Resolutions(profileUrl, mp), mp, probe, CheckState(seenSegments, [], None), i);
      var segment := mp.segments[i];
      var sequence := mp.mediaSequence + i;
      var resolved := ResolveUrl(profileUrl, segment.uri);
      ResolutionsAt(profileUrl, mp, i);
      AppendEmpty(socket.emitted);
      if resolved.Fail? {
        assert t == CheckState(seenSegments, [], Some(resolved.message));
        return Some(resolved.message);
      }
      var url := resolved.value;
      var key := keyOf(url, sequence);
      if key !in seenSegments {
        seenSegments := seenSegments + {key};
        var response := probe(url);
        if response.Ok? {
          var e := SegmentUpdate(UpdateEntry(url, sequence, segment, response.value));
          AppendEmpty([e]);
          assert t == CheckState(seenSegments, [e], None);
          socket.Emit(e);
        } else {
          assert t == CheckState(seenSegments, [], None);
        }
      } else {
        assert t == CheckState(seenSegments, [], None);
      }
      return None;
    }

    /**
     * `reactiveSegmentCheck`: the segments in playlist order, each through
     * `CheckSegment`, until one ends the check with its error.
     */
    method ReactiveSegmentCheck(mp: MediaPlaylist, probe: string -> Result<HttpResponse>) returns (error: Option<string>)
      requires currentProfileUrl.Some?
      modifies this`seenSegments, socket`emitted
      ensures var st := SegmentCheck(keyOf, Resolutions(currentProfileUrl.value, mp), mp, probe, old(seenSegments), |mp.segments|);
        && seenSegments == st.seen
        && socket.emitted == old(socket.emitted) + st.events
        && error == st.error
    {
      var profileUrl := currentProfileUrl.value;
      ghost var resolutions := Resolutions(profileUrl, mp);
      for i := 0 to |mp.segments|
        invariant var st := SegmentCheck(keyOf, resolutions, mp, probe, old(seenSegments), i);
          && st.error.None?
          && seenSegments == st.seen
          && socket.emitted == old(socket.emitted) + st.events
      {
        ghost var st := SegmentCheck(keyOf, resolutions, mp, probe, old(seenSegments), i);
        assert SegmentCheck(keyOf, resolutions, mp, probe, old(seenSegments), i + 1) == CheckStep(keyOf, resolutions, mp, probe, st, i);
        var stepError := CheckSegment(profileUrl, mp, probe, i);
        ghost var t := CheckStep(keyOf, resolutions, mp, probe, CheckState(st.seen, [], None), i);
        CheckStepLocal(keyOf, resolutions, mp, probe, st, i);
        AppendAssoc(old(socket.emitted), st.events, t.events);
        if stepError.Some? {
          SegmentCheckStops(keyOf, resolutions, mp, probe, old(seenSegments), i + 1, |mp.segments|);
          return stepError;
        }
      }
      return None;
    }

    /**
     * The segment check as the manifest loop runs it: an error that ends
     * the check is caught and emitted as an `error` event.
     */
    method CheckSegmentsCatching(mp: MediaPlaylist, probe: string -> Result<HttpResponse>)
      requires Valid() && currentProfileUrl.Some?
      modifies this`seenSegments, socket`emitted
      ensures Valid()
      ensures var st := SegmentCheck(keyOf, Resolutions(currentProfileUrl.value, mp), mp, probe, old(seenSegments), |mp.segments|);
        && seenSegments == st.seen
        && socket.emitted == old(socket.emitted) + st.events + (if st.error.Some? then [Error(st.error.value)] else [])
    {
      ghost var resolutions := Resolutions(currentProfileUrl.value, mp);
      var error := ReactiveSegmentCheck(mp, probe);
      ghost var st := SegmentCheck(keyOf, resolutions, mp, probe, old(seenSegments), |mp.segments|);
      SegmentCheckReportsOnce(keyOf, resolutions, mp, probe, old(seenSegments), |mp.segments|);
      SegmentCheckEmitsUpdates(keyOf, resolutions, mp, probe, old(seenSegments), |mp.segments|);
      EmitChecked(keyOf, old(socket.emitted), selectionMark, creationMark, old(seenSegments), seenSegments, segments, st.events);
      if error.Some? {
        EmitOther(keyOf, socket.emitted, selectionMark, creationMark, seenSegments, segments, Error(error.value));
        socket.Emit(Error(error.value));
      } else {
        AppendEmpty(socket.emitted);
      }
    }

    /**
     * One pass of `reactiveManifestLoop`: fetch and parse the media
     * playlist (an error is emitted), emit `manifest-update` only when the
     * media sequence is new or changed and remember it, then run the segment
     * check.
     */
    method PollOnce(fetch: Result<ManifestFetch>, probe: string -> Result<HttpResponse>)
      requires Valid() && currentProfileUrl.Some?
      modifies this`lastMediaSequence, this`seenSegments, socket`emitted
      ensures Valid()
      ensures fetch.Fail? ==>
        && socket.emitted == old(socket.emitted) + [Error(fetch.message)]
        && lastMediaSequence == old(lastMediaSequence) && seenSegments == old(seenSegments)
      ensures fetch.Ok? && ParseMediaPlaylist(fetch.value.parsed).Fail? ==>
        && socket.emitted == old(socket.emitted) + [Error(ParseMediaPlaylist(fetch.value.parsed).message)]
        && lastMediaSequence == old(lastMediaSequence) && seenSegments == old(seenSegments)
      ensures fetch.Ok? && ParseMediaPlaylist(fetch.value.parsed).Ok? ==>
        var response := fetch.value.response;
        var mp := ParseMediaPlaylist(fetch.value.parsed).value;
        var url := currentProfileUrl.value;
        var changed := old(lastMediaSequence) != Some(mp.mediaSequence);
        var st := SegmentCheck(keyOf, Resolutions(url, mp), mp, probe, old(seenSegments), |mp.segments|);
        && lastMediaSequence == Some(mp.mediaSequence)
        && seenSegments == st.seen
        && socket.emitted == old(socket.emitted)
             + (if changed then [ManifestUpdate(VariantEntry(url, FinalUrl(response, url), response, mp.mediaSequence))] else [])
             + st.events
             + (if st.error.Some? then [Error(st.error.value)] else [])
      ensures LoopView() == PollResult(keyOf, currentProfileUrl.value, old(LoopView()), fetch, probe)
    {
      if fetch.Fail? {
        EmitOther(keyOf, socket.emitted, selectionMark, creationMark, seenSegments, segments, Error(fetch.message));
        socket.Emit(Error(fetch.message));
        return;
      }
      var response := fetch.value.response;
      var url := currentProfileUrl.value;
      var parsed := ParseMediaPlaylist(fetch.value.parsed);
      if parsed.Fail? {
        EmitOther(keyOf, socket.emitted, selectionMark, creationMark, seenSegments, segments, Error(parsed.message));
        socket.Emit(Error(parsed.message));
        return;
      }
      var mp := parsed.value;
      if lastMediaSequence.None? || lastMediaSequence.value != mp.mediaSequence {
        lastMediaSequence := Some(mp.mediaSequence);
        var e := ManifestUpdate(VariantEntry(url, FinalUrl(response, url), response, mp.mediaSequence));
        EmitOther(keyOf, socket.emitted, selectionMark, creationMark, seenSegments, segments, e);
        socket.Emit(e);
      } else {
        AppendEmpty(socket.emitted);
      }
      CheckSegmentsCatching(mp, probe);
    }

    /** One turn of the manifest loop: a stop request runs `Stop`, a poll runs `PollOnce`. */
    method Turn(step: LoopStep)
      requires Valid() && currentProfileUrl.Some?
      modifies this`isRunning, this`lastMediaSequence, this`seenSegments, socket`emitted
      ensures Valid()
      ensures LoopView() == Step(keyOf, currentProfileUrl.value, old(LoopView()), step)
    {
      match step {
        case StopRequested =>
          Stop();
        case Poll(fetch, probe) =>
          PollOnce(fetch, probe);
      }
    }

    /**
     * The loop of `reactiveManifestLoop`, entered with the monitor running:
     * turns are taken until the flag is cleared or the steps run out.
     */
    method RunSteps(steps: seq<LoopStep>) returns (consumed: nat)
      requires Valid() && currentProfileUrl.Some? && isRunning
      modifies this`isRunning, this`lastMediaSequence, this`seenSegments, socket`emitted
      ensures Valid()
      ensures consumed <= |steps|
      ensures LoopView() == LoopRun(keyOf, currentProfileUrl.value, old(LoopView()), steps, consumed)
      ensures isRunning ==> consumed == |steps|
      ensures !isRunning ==> consumed > 0 && LoopRun(keyOf, currentProfileUrl.value, old(LoopView()), steps, consumed - 1).running
    {
      consumed := 0;
      ghost var url := currentProfileUrl.value;
      ghost var v0 := LoopView();
      while consumed < |steps|
        invariant Valid() && isRunning
        invariant consumed <= |steps|
        invariant LoopView() == LoopRun(keyOf, url, v0, steps, consumed)
        decreases |steps| - consumed
      {
        ghost var before := LoopView();
        Turn(steps[consumed]);
        consumed := consumed + 1;
        if !isRunning {
          assert before == LoopRun(keyOf, url, v0, steps, consumed - 1) && before.running;
          return;
        }
      }
    }

    /**
     * `reactiveManifestLoop`: while the monitor runs, take the next step; a
     * poll runs `PollOnce` and a stop request runs `Stop`, after which the
     * loop ends. The loop also ends when the steps run out.
     */
    method ReactiveManifestLoop(steps: seq<LoopStep>) returns (consumed: nat)
      requires Valid() && currentProfileUrl.Some?
      modifies this`isRunning, this`lastMediaSequence, this`seenSegments, socket`emitted
      ensures Valid()
      ensures consumed <= |steps|
      ensures LoopView() == LoopRun(keyOf, currentProfileUrl.value, old(LoopView()), steps, consumed)
      ensures forall k :: 0 <= k < consumed && k != consumed - 1 ==> steps[k].Poll?
      ensures !old(isRunning) ==> consumed == 0 && !isRunning && socket.emitted == old(socket.emitted)
      ensures isRunning ==> consumed == |steps| && forall k :: 0 <= k < |steps| ==> steps[k].Poll?
      ensures old(isRunning) && !isRunning ==> consumed >= 1 && steps[consumed - 1].StopRequested?
    {
      if !isRunning {
        return 0;
      }
      ghost var v0 := LoopView();
      consumed := RunSteps(steps);
      LoopRunControl(keyOf, currentProfileUrl.value, v0, steps, consumed);
    }
  }

  /** The registry of monitors by socket id. */
  class HLSMonitorService {
    var activeMonitors: map<string, StreamMonitor>

    constructor()
      ensures activeMonitors == map[]
    {
      activeMonitors := map[];
    }

    /**
     * `startMonitor`: the new monitor is stored under the socket id before
     * it starts, so it stays stored (and marked running) when its start
     * fails; the failure is rethrown.
     */
    method StartMonitor(playerUrl: string, socket: Socket, master: Result<ManifestFetch>) returns (r: Result<StreamMonitor>)
      modifies this`activeMonitors, socket`emitted
      ensures socket.id in activeMonitors
      ensures var m := activeMonitors[socket.id];
        && fresh(m) && m.socket == socket && m.playerUrl == playerUrl && m.isRunning && m.Valid()
        && m.baseUrl == GetBaseUrl(playerUrl) && m.Unselected()
        && activeMonitors == old(activeMonitors)[socket.id := m]
        && (r.Ok? <==> MasterProfiles(master).Ok?)
        && (r.Ok? ==>
              var data := MasterData(playerUrl, master.value, |m.profiles|);
              && r.value == m && m.profiles == MasterProfiles(master).value
              && m.manifests == map[playerUrl := data] && m.manifestHistory == [ManifestEntryOf(data, true)]
              && socket.emitted == old(socket.emitted) + [ManifestUpdate(ManifestEntryOf(data, true)), ProfilesAvailable(m.profiles)])
        && (r.Fail? ==>
              && r.message == MasterProfiles(master).message
              && m.profiles == [] && m.manifests == map[] && m.manifestHistory == []
              && socket.emitted == old(socket.emitted) + [Error(r.message)])
    {
      var monitor := new StreamMonitor(playerUrl, socket);
      activeMonitors := activeMonitors[socket.id := monitor];
      var started := monitor.Start(master);
      if started.Fail? {
        return Fail(started.message);
      }
      r := Ok(monitor);
    }

    /**
     * `stopMonitor`: a null monitor changes nothing; otherwise the monitor
     * stops and the entry under its own socket's id is removed; nothing of
     * the monitor but its running flag changes.
     */
    method StopMonitor(monitor: StreamMonitor?)
      modifies this`activeMonitors, {monitor}`isRunning
      ensures monitor == null ==> activeMonitors == old(activeMonitors)
      ensures monitor != null ==>
        && !monitor.isRunning
        && activeMonitors == old(activeMonitors) - {monitor.socket.id}
      ensures monitor != null ==> unchanged(monitor`profiles, monitor`seenSegments, monitor`manifestHistory, monitor`segmentHistory)
      ensures monitor != null && old(monitor.Valid()) ==> monitor.Valid()
    {
      if monitor != null {
        monitor.Stop();
        activeMonitors := activeMonitors - {monitor.socket.id};
      }
    }

    /** `selectProfile`: forwards to the monitor; a null monitor does nothing. */
    method SelectProfile(monitor: StreamMonitor?, uri: string) returns (r: Result<()>)
      requires monitor != null ==> monitor.Valid()
      modifies monitor
      ensures monitor == null ==> r.Ok?
      ensures monitor != null ==>
        && monitor.Valid()
        && monitor.selectedProfile == FindProfile(monitor.profiles, uri)
        && (r.Ok? <==> monitor.selectedProfile.Some? && ResolveUrl(monitor.playerUrl, uri).Ok?)
        && (monitor.selectedProfile.None? ==> r == Fail(ProfileNotFound))
        && (monitor.selectedProfile.Some? && ResolveUrl(monitor.playerUrl, uri).Fail? ==>
              r == Fail(ResolveUrl(monitor.playerUrl, uri).message))
        && (r.Fail? ==>
              && monitor.currentProfileUrl == old(monitor.currentProfileUrl)
              && monitor.lastMediaSequence == old(monitor.lastMediaSequence)
              && monitor.seenSegments == old(monitor.seenSegments) && monitor.isRunning == old(monitor.isRunning))
        && (r.Ok? ==>
              && monitor.currentProfileUrl == Some(ResolveUrl(monitor.playerUrl, uri).value)
              && monitor.lastMediaSequence.None? && monitor.seenSegments == {} && monitor.isRunning)
      ensures monitor != null ==>
        && unchanged(monitor`profiles, monitor`manifests, monitor`segments, monitor`manifestHistory, monitor`segmentHistory)
        && unchanged(monitor.socket)
    {
      if monitor != null {
        r := monitor.SelectProfile(uri);
      } else {
        r := Ok(());
      }
    }
  }
}
