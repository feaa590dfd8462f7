# HLS analyzer: a verified model of its monitoring bookkeeping

The repository is an HLS (HTTP Live Streaming) analyzer. A user gives it
the URL of a stream. It fetches the stream's playlists, polls them, and
reports every manifest and segment it sees to a browser over Socket.IO.
Three generations of the monitor live side by side. This project models
each one in its own module, in the form its source takes.

- `HlsMonitorService` (`backend/services/hlsMonitorService.js`) covers the current monitor:
  - `StreamMonitor`, a class whose fields are updated in place. It holds the profiles, the selected profile's URL, the last media sequence, the set of seen segment keys, the manifest and segment tables, and the 10- and 20-row FIFO histories.
  - `HLSMonitorService`, the registry of monitors by socket id.
  - The segment check is specified by the function `SegmentCheck`. The methods are proved against it.
  - Proved: a `segment-update` is emitted at most once per key since the last profile selection. A `new-segment` is emitted at most once per key since the monitor was created. Each history is the last 10 (or 20) rows of everything ever logged.
- `StreamController` (`backend/controllers/streamController.js`) is the controller's own table of analyses. It is a second map next to the service's. A failed start leaves the two tables different, and the contracts say so.
- `M3U8Parser` (`backend/utils/m3u8Parser.js`) is pure:
  - `resolveUrl` and `getBaseUrl`;
  - the shaping and error rules of the two parse functions, over an abstract record of what the `m3u8-parser` library returns.
- `HlsController` (`server/controllers/hlsController.js`) is the older analyzer:
  - `HLSController` is its registry.
  - `StreamAnalyzer` classifies each segment as new or not and as in order or not, and cuts its list back to the last 20 rows after each round.
- `Server` (`server.js`) is the one-shot analyzer:
  - the line scan for `#EXT-X-MEDIA-SEQUENCE` and `#EXT-X-DISCONTINUITY` (sections 4.3.3.2 and 4.3.2.3 of RFC 8216), as a method with its loop;
  - `fetchWithCache`'s cache: the 30-second freshness rule, and the sample request answered from the entry the HEAD just wrote;
  - the segment re-sample decision and its `Range` header;
  - the module-level table of segment samples;
  - the input checks of `POST /analyze/start`.
- `CacheKey` is the cache file name both servers derive from a URL: UTF-8, then base64 (section 4 of RFC 4648), then every non-alphanumeric character replaced by `_`.
- `Strings`, `Url` and `History` are helpers:
  - `Strings`: the JavaScript string operations the code uses (`trim`, `split`, `join`, `startsWith`, `lastIndexOf`, `parseInt`, number rendering).
  - `Url`: a simplified `new URL(...)` that yields the protocol, host and pathname.
  - `History`: bounded histories (`push` then `shift`, and `slice(-n)`).

Every network answer is an argument of the method that would have fetched it:
- a GET or HEAD response;
- a cache file;
- what the parser library made of a body;
- a probe function from URL to response.

Every `socket.emit` and `io.emit` appends to an `emitted` sequence.

## Model

| member | source | states |
|---|---|---|
| Strings.TrimSpec | server.js:161 | `trim` leaves a piece of its input with no whitespace at either end, and trimming again changes nothing |
| Strings.TrimStartDropsWhitespace | server.js:161 | the characters `trimStart` removes are all whitespace |
| Strings.TrimEndDropsWhitespace | server.js:161 | the characters `trimEnd` removes are all whitespace |
| Strings.JoinSplit | backend/utils/m3u8Parser.js:89-91 | splitting on a character and joining the pieces again gives the original string |
| Strings.SplitJoin | backend/utils/m3u8Parser.js:89-91 | joining pieces that are free of the separator, then splitting, gives the pieces back |
| Strings.ParseIntOfIntToString | server.js:168 | `parseInt` reads the decimal rendering of any integer back as that integer |
| Strings.IntToStringInjective | backend/services/hlsMonitorService.js:224 | different integers render as different strings |
| History.PushEvictKeepsLast | backend/services/hlsMonitorService.js:289-294 | `push` then `shift` on overflow, applied to the last n rows of a log, gives the last n rows of the extended log (a FIFO window) |
| Url.ParseUrl | backend/utils/m3u8Parser.js:83 | a URL the constructor accepts has a scheme protocol, a host and path free of delimiters, and (for special schemes) a host and an absolute path |
| Url.ParseOfFormat | backend/utils/m3u8Parser.js:84 | `protocol//host` followed by an absolute path parses back into exactly those parts |
| M3U8Parser.ParseMasterPlaylist | backend/utils/m3u8Parser.js:4-35 | fails, with the "Failed to parse master playlist: " prefix, exactly when there are no playlists; otherwise one profile per playlist, in order, with the URI and every attribute copied |
| M3U8Parser.ParseMediaPlaylist | backend/utils/m3u8Parser.js:37-71 | fails, with its prefix, exactly when there are no segments; otherwise the segments in order, each with the playlist's media sequence (0 when absent), `discontinuity` false unless set |
| M3U8Parser.GetBaseUrl | backend/utils/m3u8Parser.js:96-99 | the result is the prefix of the input that is empty or ends in `/`, with no `/` after it |
| M3U8Parser.GetBaseUrlIdempotent | backend/utils/m3u8Parser.js:96-99 | taking the base of a base changes nothing |
| M3U8Parser.BasePathBeforeLastSlash | backend/utils/m3u8Parser.js:89-91 | split, pop, join yields the pathname cut just before its last `/` |
| M3U8Parser.ResolveHttpUrl | backend/utils/m3u8Parser.js:74-76 | an `http://` or `https://` URI resolves to itself against any base |
| M3U8Parser.ResolveIgnoresBase | backend/utils/m3u8Parser.js:74-80 | absolute and `//` URIs resolve the same against every base, to an `http(s)://` URL (`//` gets `https:`) |
| M3U8Parser.ResolveRootRelative | backend/utils/m3u8Parser.js:82-85 | a `/` URI yields a URL whose parts are the base's protocol and host and the URI as the whole path |
| M3U8Parser.ResolveRelative | backend/utils/m3u8Parser.js:87-93 | any other URI yields the base's protocol and host and the base's directory followed by the URI |
| M3U8Parser.ResolveIdempotent | backend/utils/m3u8Parser.js:73-94 | against an `http(s)` base every URI resolves to an `http(s)://` URL, and resolving that again returns it unchanged |
| CacheKey.Utf8CharShape | server.js:53 | UTF-8 takes 1 to 4 bytes per character, by code point range; continuation bytes are 0x80-0xBF; ASCII is its own code |
| CacheKey.Utf8Ascii | server.js:53 | an ASCII URL encodes to its own character codes |
| CacheKey.Base64RoundTrip | server.js:53 | base64 decoding the encoding of any bytes gives the bytes back |
| CacheKey.Base64Length | server.js:53 | four symbols for every started group of three bytes |
| CacheKey.Sanitise | server.js:53 | same length; each alphanumeric character kept, every other one replaced by `_` |
| CacheKey.KeyShape | server.js:52-54 | a key holds only `[A-Za-z0-9_]`, with length 4 * ceil(bytes / 3) |
| CacheKey.KeyCollision | server/controllers/hlsController.js:62-64 | the replacement merges `+` and `/`, so the distinct URLs `ab>` and `ab?` share the key `YWI_` |
| HlsMonitorService.FindProfileFirst | backend/services/hlsMonitorService.js:139 | `find` yields nothing exactly when no profile has the URI, otherwise the first profile that has it |
| HlsMonitorService.SegmentKeyInjective | backend/services/hlsMonitorService.js:224 | for non-negative sequence numbers, `url-seq` keys of different (URL, sequence) pairs differ |
| HlsMonitorService.ReportedPairsDistinct | backend/services/hlsMonitorService.js:220-250 | a log whose update keys are reported once never reports one (URL, sequence) pair twice |
| HlsMonitorService.ResolutionsAt | backend/services/hlsMonitorService.js:223 | segment i's URL is its URI resolved against the profile URL |
| HlsMonitorService.SegmentCheckReportsOnce | backend/services/hlsMonitorService.js:219-256 | a check emits `segment-update` only for keys not seen before it, each at most once, and records each key it reports |
| HlsMonitorService.SegmentCheckEmitsUpdates | backend/services/hlsMonitorService.js:219-256 | a check emits only `segment-update`s, for probes that answered, numbered `mediaSequence + i` within the playlist |
| HlsMonitorService.SegmentCheckMarksAll | backend/services/hlsMonitorService.js:225-253 | a check that no URL error ended has marked every segment's key seen, including those whose probe failed |
| HlsMonitorService.SegmentCheckReportsNew | backend/services/hlsMonitorService.js:220-250 | the converse of `SegmentCheckReportsOnce`: a segment the check reaches, whose key is neither seen before nor that of an earlier segment and whose probe answers, is reported as a `segment-update` |
| HlsMonitorService.ReportsEveryNewSegment | backend/services/hlsMonitorService.js:222-250 | with `url-seq` keys and a non-negative media sequence, every reached segment whose key was not seen and whose probe answers is reported: deduplication never skips a new segment |
| HlsMonitorService.LoopRunStops | backend/services/hlsMonitorService.js:168 | once the running flag is clear, later steps change nothing |
| HlsMonitorService.LoopRunUntilStop | backend/services/hlsMonitorService.js:168-215 | polls never clear the flag: the loop is still running after n steps iff all of them were polls |
| HlsMonitorService.LoopRunControl | backend/services/hlsMonitorService.js:168-215 | a run that stopped at its last step polled at every step before it, and its last step was the stop request |
| HlsMonitorService.LoopRunAppends | backend/services/hlsMonitorService.js:168-215 | a loop run only appends to the emitted events |
| HlsMonitorService.StreamMonitor.constructor | backend/services/hlsMonitorService.js:52-67 | a new monitor is stopped, has no profiles, no selection, empty tables and histories, and the base of the player URL |
| HlsMonitorService.StreamMonitor.Stop | backend/services/hlsMonitorService.js:87-90 | clears the running flag |
| HlsMonitorService.StreamMonitor.ProcessManifest | backend/services/hlsMonitorService.js:259-307 | the table keeps the first data for a URL; the row's `isNew` holds iff the URL was absent; the row is logged to the 10-row history and always emitted |
| HlsMonitorService.StreamMonitor.ProcessSegment | backend/services/hlsMonitorService.js:310-356 | a seen `requestUrl-mediaSequence` key changes nothing and emits nothing; a new one is recorded, logged to the 20-row history and emitted once |
| HlsMonitorService.StreamMonitor.FetchMasterPlaylist | backend/services/hlsMonitorService.js:92-133 | an accepted master replaces the profiles, adds the player URL's data to `manifests` when the URL was absent, goes through `processManifest` and emits the profiles; any error propagates with nothing changed |
| HlsMonitorService.StreamMonitor.Start | backend/services/hlsMonitorService.js:69-85 | the monitor is running afterwards even when the fetch fails; a success leaves the master's profiles, `manifests` and manifest log as `FetchMasterPlaylist` gives them; a failure leaves them unchanged, is emitted as `error` and rethrown |
| HlsMonitorService.StreamMonitor.SelectProfile | backend/services/hlsMonitorService.js:135-164 | an unknown URI fails and leaves the profile URL, sequence, seen set and flag unchanged but `selectedProfile` undefined; success sets the resolved URL, a null sequence, an empty seen set, and running |
| HlsMonitorService.StreamMonitor.ResetForProfile | backend/services/hlsMonitorService.js:145-157 | the per-profile state is reset to the new URL, no media sequence, no seen segments, running |
| HlsMonitorService.StreamMonitor.CheckSegment | backend/services/hlsMonitorService.js:220-254 | one loop turn is exactly one step of the specification `CheckStep` |
| HlsMonitorService.StreamMonitor.ReactiveSegmentCheck | backend/services/hlsMonitorService.js:219-256 | the seen set and the emitted events are those of the specification `SegmentCheck` over all segments |
| HlsMonitorService.StreamMonitor.CheckSegmentsCatching | backend/services/hlsMonitorService.js:205-211 | the check's events, then its error (if any) emitted as `error`, with the reported-once invariants kept |
| HlsMonitorService.StreamMonitor.PollOnce | backend/services/hlsMonitorService.js:169-214 | a failed fetch or parse emits `error` and changes nothing else; otherwise `manifest-update` is emitted iff the sequence is new or changed, the sequence is remembered, and the segment check runs |
| HlsMonitorService.StreamMonitor.Turn | backend/services/hlsMonitorService.js:168-215 | one turn of the loop is one `Step` of the specification: a stop request clears the flag, a poll is `PollResult` |
| HlsMonitorService.StreamMonitor.RunSteps | backend/services/hlsMonitorService.js:168-215 | the flag, the last sequence, the seen keys and the events after the loop are `LoopRun` over the steps consumed; it consumes every step unless the last one consumed stopped it |
| HlsMonitorService.StreamMonitor.ReactiveManifestLoop | backend/services/hlsMonitorService.js:167-216 | the flag, last sequence, seen keys and events after the loop are `LoopRun`, the polls folded one after another; the loop does nothing when not running, polls until a stop request ends it, and the invariants hold throughout |
| HlsMonitorService.HLSMonitorService.constructor | backend/services/hlsMonitorService.js:6-9 | the registry starts empty |
| HlsMonitorService.HLSMonitorService.StartMonitor | backend/services/hlsMonitorService.js:11-25 | the new monitor is stored under the socket id before starting, and stays stored and running when the start fails; it starts with URL-keyed segments, the player URL's base, and no profile URL, selected profile, media sequence, seen segment, segment or segment history; a success emits the master's `manifest-update` and then its profiles, with the player URL as the only manifest; a failure emits `error`, leaves no profiles, and is rethrown |
| HlsMonitorService.HLSMonitorService.StopMonitor | backend/services/hlsMonitorService.js:27-37 | a null monitor changes nothing; otherwise the monitor stops and only its socket's entry is removed; nothing of the monitor but its running flag changes, so it stays consistent |
| HlsMonitorService.HLSMonitorService.SelectProfile | backend/services/hlsMonitorService.js:39-48 | forwards to the monitor's selection: on success the new URL, a null sequence and an empty seen set; on failure the selection state unchanged; the tables, histories and events untouched; a null monitor does nothing |
| StreamController.StreamController.constructor | backend/controllers/streamController.js:4-6 | the table starts empty |
| StreamController.StreamController.StartAnalysis | backend/controllers/streamController.js:8-34 | a socket already present fails with "Analysis already in progress for this session" and changes nothing; otherwise the service gains exactly that socket's new running monitor, with URL-keyed segments and no profile selected or segment seen yet, and a success adds it here too and emits the master's `manifest-update` and profiles, while a failure adds nothing here and emits `error` |
| StreamController.StreamController.SelectProfile | backend/controllers/streamController.js:36-52 | an absent socket fails with "No active analysis session found"; otherwise the monitor's selection: on success a null sequence and an empty seen set, on failure the selection state unchanged; the monitor's tables and histories untouched |
| StreamController.StreamController.StopAnalysis | backend/controllers/streamController.js:54-71 | the socket's entry is removed from both tables and its monitor stopped, with nothing of it but the running flag changed; an absent socket changes nothing, so stopping twice equals stopping once |
| StreamController.StreamController.GetActiveStreams | backend/controllers/streamController.js:73-75 | each socket id with an analysis listed exactly once, and no other |
| StreamController.StreamController.GetStreamCount | backend/controllers/streamController.js:77-79 | the count equals the number of ids `GetActiveStreams` lists |
| HlsController.IsJump | server/controllers/hlsController.js:258-259 | a jump iff a previous number is followed by anything but its successor, or the previous sequence was undefined or NaN; the first segment never jumps |
| HlsController.ResolveLooseKeepsRelative | server/controllers/hlsController.js:224-227 | as written, the relative name `http-seg-1.ts` is returned unresolved and is no URL |
| HlsController.ResolveGivesHttpUrl | server/controllers/hlsController.js:224-227 | corrected: against an `http(s)` base every URI resolves to an `http(s)://` URL, unchanged iff it already was one |
| HlsController.ResolveLooseAgrees | server/controllers/hlsController.js:224-227 | the test as written and the `http(s)://` test resolve a URI alike iff it does not start with `http`, is an `http(s)://` URL, or the base is empty |
| HlsController.SegmentInfoOf | server/controllers/hlsController.js:255-273 | `isNewSegment` iff the URL differs from the last one; `discoOk` fails iff the segment jumps without a discontinuity tag |
| HlsController.RunRowsInOrder | server/controllers/hlsController.js:199-205 | the k-th row of a run is segment k's row against the segment before it |
| HlsController.ConsecutiveRunInOrder | server/controllers/hlsController.js:257-272 | consecutively numbered segments, fresh or continuing, are all `discoOk` |
| HlsController.TrimWindow | server/controllers/hlsController.js:209-212 | cutting a tail of the log that holds all of it, or at least 20 rows, leaves the log's last 20 rows |
| HlsController.ProfileList | server/controllers/hlsController.js:172-177 | one `profiles` entry per variant, in order, with its bandwidth, resolution and codecs and its URI resolved as written |
| HlsController.SegmentUrlAt | server/controllers/hlsController.js:202 | segment k is fetched from its URI resolved as written against the base |
| HlsController.FetchedRunStops | server/controllers/hlsController.js:199-206 | the segments fetched in a round are a prefix of successful fetches that reaches the end of the list or a failed fetch |
| HlsController.FetchedRunUnique | server/controllers/hlsController.js:199-206 | any such prefix is the one `FetchedRun` counts |
| HlsController.RunEnds | server/controllers/hlsController.js:199-206 | a loop that stopped at the end, at a failure or at once because it was stopped processed `FetchedRun` segments and ends with the failure's message |
| HlsController.ListedRowsKeepWindow | server/controllers/hlsController.js:197-207 | adding a playlist's rows keeps the segment list a tail of the log and only appends to the log and events |
| HlsController.RoundKeepsWindow | server/controllers/hlsController.js:155-220 | a round keeps the segment list a tail of the log holding all of it or at least 20 rows, only appends to the log and events, and leaves exactly the last 20 rows after a round without error |
| HlsController.RoundsKeepWindow | server/controllers/hlsController.js:153-222 | rounds after rounds keep the segment list a tail of the log and only append to the log and events |
| HlsController.StreamAnalyzer.constructor | server/controllers/hlsController.js:41-55 | a new analyzer is stopped, with no segments, a null last sequence and URL, and the base of its URL |
| HlsController.StreamAnalyzer.Stop | server/controllers/hlsController.js:149-151 | clears the running flag |
| HlsController.StreamAnalyzer.ProcessSegment | server/controllers/hlsController.js:255-286 | the row is appended and emitted once; the last sequence and URL become this segment's |
| HlsController.StreamAnalyzer.TrimSegments | server/controllers/hlsController.js:209-212 | the list becomes exactly the last 20 rows ever produced |
| HlsController.StreamAnalyzer.ProcessAt | server/controllers/hlsController.js:199-206 | one loop turn: segment k's URI resolved as written is fetched; a failed fetch is returned with nothing changed; otherwise the segment's row is logged and emitted, and the state is `RunState` of one more segment |
| HlsController.StreamAnalyzer.ProcessSegments | server/controllers/hlsController.js:197-207 | the rows and `segmentData` events are those of the first segments processed (URIs resolved as written), all fetched, until the list ends, a stop, or the first failed fetch, whose message is returned |
| HlsController.StreamAnalyzer.ProcessRun | server/controllers/hlsController.js:199-206 | the `for` loop of a running analyzer: the state is `RunState` of the segments processed, all fetched, either every segment or those before the first failed fetch, whose message is returned |
| HlsController.StreamAnalyzer.AnalyzeRound | server/controllers/hlsController.js:155-220 | the new state is `Round` of the old: a failed fetch or parse emits one `error`; otherwise head events, segment events and any error, and after a completed round the last 20 rows |
| HlsController.StreamAnalyzer.AnalyzeParsed | server/controllers/hlsController.js:168-212 | the new state is `ParsedRound`: the head events, then the new rows' events, then any error; the cut only after a round that completed |
| HlsController.StreamAnalyzer.ProcessListed | server/controllers/hlsController.js:197-207 | the new state is `ListedRows`: the new rows' `segmentData` events, then the error of a failed fetch |
| HlsController.StreamAnalyzer.EmitHead | server/controllers/hlsController.js:169-194 | `profiles` (bandwidth, resolution, codec and URL as written) for a master playlist, then `manifestData` with the size, headers, sequence, discontinuity and body |
| HlsController.StreamAnalyzer.AnalyzeStream | server/controllers/hlsController.js:153-222 | the state after the loop is `Rounds`, the rounds run one after another; rounds run only while running, and a stop ends the loop before the next round |
| HlsController.HLSController.constructor | server/controllers/hlsController.js:8-18 | the registry starts empty |
| HlsController.HLSController.StartAnalysis | server/controllers/hlsController.js:20-29 | a socket already present fails with "Analysis already in progress"; otherwise a new analyzer is stored under the id, marked running, with the URL's base, no segments, no last media sequence, no last segment URL and an empty segment log |
| HlsController.HLSController.StopAnalysis | server/controllers/hlsController.js:31-37 | the socket's analyzer is stopped and removed, with nothing of it but the running flag changed; an absent socket changes nothing |
| Server.ManifestLinesShape | server.js:161 | every manifest line is non-empty, holds no line feed and has no whitespace at either end |
| Server.ManifestLineRetrimmed | server.js:163 | the scan's own `trim` of a manifest line changes nothing |
| Server.ScanTags | server.js:158-175 | the loop computes the media sequence and discontinuity indexes that the scan specification gives for the lines' tags |
| Server.LastMediaSequenceWins | server.js:159-170 | the sequence is null iff no line sets it; otherwise it is the value of the last line that does |
| Server.DiscoIndexesExact | server.js:171-174 | the indexes are strictly ascending and are exactly the positions of discontinuity lines |
| Server.DiscontinuitySequenceCounts | server.js:171-174 | an `#EXT-X-DISCONTINUITY-SEQUENCE` line counts as a discontinuity and sets no sequence |
| Server.LongerTagLineIsNoDiscontinuity | server.js:171-174 | as written, any line that starts with `#EXT-X-DISCONTINUITY` and goes on counts as a discontinuity, though it is not the tag |
| Server.IntendedTagNarrows | server.js:171-174 | corrected: the test that the line is the tag keeps the media sequence, only narrows the prefix test, and differs from it exactly on lines that extend the tag |
| Server.TagLineIsDiscontinuity | server.js:171-174 | corrected: the `#EXT-X-DISCONTINUITY` line itself is still a discontinuity |
| Server.ManifestInfoTags | server.js:177-196 | `disco` iff some line is a discontinuity; the sequence is null iff no line sets one, otherwise the last line's value |
| Server.ReadManifest | server.js:158-194 | the scanned manifest equals the `manifest` event payload `ManifestInfoOf` |
| Server.CacheFreshWindow | server.js:67 | an entry is fresh from its timestamp up to, but excluding, 30 s later, and fresh earlier whenever fresh later |
| Server.CachedFetchLeavesEntry | server.js:56-123 | a successful `fetchWithCache` leaves a file that answers later lookups with its own result |
| Server.CachedFetchOfEntry | server.js:62-68 | a request to a URL whose entry is under 30 s old is answered with that entry and not sent; after that it is sent |
| Server.ContentLength | server.js:260 | `parseInt` of `content-length`, or 0: a missing or unreadable header gives 0; a readable one gives its value |
| Server.RecordedSegmentNotResampled | server.js:263 | a segment whose size and `last-modified` match its record is not re-sampled; a new size or no record is |
| Server.RangeAsWrittenOverreads | server.js:265-266 | as written, a 20000-byte segment gets `bytes=0-10240`, which asks for 10241 bytes |
| Server.RangeAsWrittenUnknownLength | server.js:266 | as written, an unknown length gives `bytes=0-*`, which is no byte-range specifier |
| Server.RangeHeaderSpec | server.js:265-266 | corrected: the range starts at byte 0, asks for min(10240, length) bytes (10240 when unknown), and never passes the end |
| Server.RangeHeaderAsWrittenAgrees | server.js:265-266 | the header as written equals the corrected one iff the length is known and at most 10240 |
| Server.SampleServedByHead | server.js:227-273 | a sample requested within 30 s of the HEAD is the HEAD's cached answer, so the record gets its headers and time and no sample size; only a later one is the `Range` response |
| Server.StartUrl | server.js:324 | `manifestUrl`, else `playerUrl`: a non-empty `manifestUrl` always wins; none only when both are absent or empty |
| Server.CheckStart | server.js:327-343 | every rejection is a 400 |
| Server.CheckStartCases | server.js:327-343 | missing URL, then unparsable URL, then no `.m3u8`, each answered iff the earlier checks pass and it fails; a URL passing all three is analyzed |
| Server.AnalyzerServer.constructor | server.js:37-43 | no samples, no active analysis, nothing emitted |
| Server.AnalyzerServer.AnalyzeManifest | server.js:144-212 | a failed fetch emits an error log and an `error` event; a depth-0 manifest emits a log and its `manifest` event; deeper manifests emit nothing |
| Server.AnalyzerServer.ProcessSegment | server.js:227-319 | after the probe's two events, the segment is sampled iff it needs it, through the cache the HEAD just filled and with the `Range` header as written, reported as new or as an update of its record, and stored; a failed request emits `segment-error` with the table unchanged |
| Server.AnalyzerServer.AnalyzeStart | server.js:322-367 | the reply is the checks' verdict; a rejection only logs; an accepted URL becomes the active analysis and its manifest is analyzed once at depth 0 |
| Server.AnalyzerServer.BeginAnalysis | server.js:352-357 | the URL becomes active, is logged, and its manifest's events follow |

## Left out

- Network calls (`axios` GET and HEAD, redirects, timeouts): their results are method arguments.
- The file-system cache: a URL's file is an argument (`Server.CacheFile`), and `Server.CachedFetch` gives the result and the file afterwards. No file is kept across calls, except from the HEAD to the sample request inside `ProcessSegment`. The reuse of a cached copy after a 304 (server.js:125-138), failed writes and concurrent writers are not modelled. The same freshness rule appears at server/controllers/hlsController.js:72-80, whose fetch results are inputs.
- `diff.diffJson` of the header objects: not modelled. The `segment-update` event carries the previous and current records instead.
- Socket.IO, Express and the UI: not modelled. Emits are appended events. `fetchWithCache`'s own `manifest-details` event and its "Failed to fetch" log are not modelled, because its result is an input.
- Timestamps, `Date.now() + Math.random()` ids, ISO dates and `performance.now()` durations: left out, or passed in as integers.
- Log texts: `Server.ServerEvent.Log` keeps only the level.
- The constant `type` fields of the events (`'variant'`, `'MANIFEST'` and the like) and the `time` and `fetchedAt` stamps: left out; the event's constructor names its type.
- ProcessSegments: `if (!this.isRunning) break` is tested once, before the first segment, because nothing in a round clears the flag; a `stop()` arriving while a round awaits a fetch is concurrency, left out as above.
- Concurrency: the un-awaited manifest loop, `Promise.allSettled` and the `setTimeout` delays are not modelled. A stop is a step of the loop's input that clears the flag the loop tests.
- `HlsMonitorService.StreamMonitor.SelectProfile`: it does not start the manifest loop. The caller runs `ReactiveManifestLoop` next.
- `HlsController.HLSController.StartAnalysis`: it marks the analyzer running instead of awaiting `start()`. The endless polling is `StreamAnalyzer.AnalyzeStream`, run separately.
- `StreamController.StreamController.GetActiveStreams`: the order is arbitrary, because a Dafny map has no insertion order. Only the set of ids and their uniqueness are stated.
- Unset JavaScript fields: `StreamMonitor`'s `lastMediaSequence` and `seenSegments` are `undefined` until the first selection. The model starts them at null and the empty set, which behave the same in the code that reads them.
- Numbers are unbounded integers. JavaScript doubles lose precision above 2^53, and `parseInt` of very long digit strings rounds. Neither is modelled.
- `content.length` counts UTF-16 code units. The model counts characters (Unicode scalar values), so `size` differs for text outside the Basic Multilingual Plane.
- `new URL(...)`: `Url.ParseUrl` is a simplified stand-in returning protocol, host and pathname. It keeps no port, userinfo, percent-encoding or dot-segment handling.
- Url.ParseUrl: its accept/reject verdict differs from the WHATWG constructor's. It rejects what `new URL` accepts after its clean-up: leading or trailing spaces and C0 controls (` http://cdn.example/live.m3u8`), embedded tabs and newlines, and a special scheme without `//` (`http:cdn.example/live.m3u8`). It accepts what `new URL` rejects: forbidden host code points such as a space (`http://cdn example/a.m3u8`), and invalid ports. It also keeps the scheme's case and does not read `\` as `/`. So `Server.CheckStart` and `Server.AnalyzerServer.AnalyzeStart` answer 400 "Invalid URL format" on a different set of URLs than server.js:336 does. `M3U8Parser.ResolveUrl` inherits the same differences.
- Server.AnalyzerServer.AnalyzeManifest: the `manifest` event omits `method` (server.js:185), `responseHeaders` (server.js:187) and `remoteAddress` (server.js:188). The `error` event omits `stack` (server.js:208).
- The `m3u8-parser` library: what it makes of a body is an input record.
- `server.js` `/analyze/start`:
  - The branch that clears a running `analysisInterval` (server.js:346-350) is not modelled, because nothing ever sets that variable.
  - The 500 answer (server.js:363-366) is not modelled, because `analyzeManifest` catches all its own errors.
  - The custom request headers are not modelled.
- `CacheKey.Key`: the collision of distinct URLs on one cache file is exhibited (`KeyCollision`). The key is kept as written, and no collision-free key is modelled.
- `server.js`'s `analyzeSegments` and the socket handlers' `switchProfile` (which the controller does not define) are outside this model.

## Findings

| source | as written | input that shows it | evidently intended | confidence | as-written member | corrected member |
|---|---|---|---|---|---|---|
| server.js:265-266 | `bytes=0-${min(10240, len - 1)}` for a known length | a 20000-byte segment: `bytes=0-10240` asks for 10241 bytes, since byte ranges include their last position | the first 10 KB, `bytes=0-10239`, or the whole segment when shorter | medium, not executed | Server.RangeAsWrittenOverreads | Server.RangeHeaderSpec |
| server.js:266 | `bytes=0-*` when the length is unknown | content-length missing (length 0): `bytes=0-*` is not a valid byte-range specifier (section 14.1.2 of RFC 9110) | a valid range for the first 10 KB, `bytes=0-10239` | medium, not executed | Server.RangeAsWrittenUnknownLength | Server.RangeHeaderSpec |
| server.js:171-174 | a line is a discontinuity when it starts with `#EXT-X-DISCONTINUITY` | the line `#EXT-X-DISCONTINUITY-SEQUENCE:4` (section 4.3.3.3 of RFC 8216) is counted as a discontinuity | only the `#EXT-X-DISCONTINUITY` tag itself, which takes no value (section 4.3.2.3 of RFC 8216) | medium, not executed | Server.DiscontinuitySequenceCounts | Server.IntendedTagNarrows |
| server/controllers/hlsController.js:224-227 | a URI is absolute when it starts with `http` | segment `http-seg-1.ts` under `https://cdn.example/live/` stays `http-seg-1.ts` | only `http://` and `https://` URIs are absolute, as in backend/utils/m3u8Parser.js:74 | low, not executed | HlsController.ResolveLooseKeepsRelative | HlsController.ResolveGivesHttpUrl |

The methods run the code as written: `Server.AnalyzerServer.ProcessSegment` builds `Server.RangeHeaderAsWritten`, `StreamAnalyzer` resolves with `HlsController.ResolveLoose`, and the manifest scan uses the prefix test. Each corrected definition stands beside its as-written one, and an all-inputs lemma says where the two agree: `Server.RangeHeaderAsWrittenAgrees`, `HlsController.ResolveLooseAgrees` and `Server.IntendedTagNarrows`.

The two `Range` rows matter less than they look. The HEAD and the sample request share one cache file, keyed by the URL alone, and the HEAD has just written it. A sample requested within 30 seconds of the HEAD is therefore answered from that file and never sent (`Server.SampleServedByHead`). The record then gets the HEAD's headers and time, and no sample size.
