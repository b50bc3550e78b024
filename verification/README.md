# Verified model of the opencost-ai gateway

A Dafny model of the parts of the gateway that carry state, concurrency or arithmetic, with proofs of
what they keep. `dafny verify dfyconfig.toml` checks the whole project.

## What is modelled

- **Token cache** (`TokenCache`, `TokenCacheRuns`, `TokenCacheReloads`). `Source` with its fields, and a
  state machine in which any number of Validate calls go through stat, read-locked check, write-locked
  recheck, file read, store and token read, while the file goes through an arbitrary history of versions
  and any stat or read may fail. Exactly when the history is coherent, that is when no (mtime, size) stamp is
  reused around a change of the token, Validate is linearizable in every interleaving: every verdict is the
  comparison with a version of the file, no call is judged by an older version than the calls before it, and
  a call that could stat the file is judged by one that was current during the call. A call whose stat failed
  is answered from the cache, which may hold a token replaced before it began; a call that ends in a stat or
  read error has no verdict. After the last rewrite the file is read successfully at most 2k + 1 times with k
  outdated calls in flight, and that bound is attained for every k.
- **Streaming** (`LineDecoder`, `Sse`, `Streaming`, `Server`). The bounded line reader over an arbitrarily
  split body, the translation of chunks into events, the three writes of a frame, and the client's parser
  as sections 9.2.5 and 9.2.6 of the WHATWG HTML standard define it, up to one theorem from upstream bytes
  to the frames a client sees, also when its connection breaks after any number of bytes.
- **Rate limiter** (`RateLimit`, `RateLimitRuns`). Buckets in exact nanoseconds, the exact number of admissions
  in a window, exactly which requests are refused,
  isolation of callers, lazy creation, and the interleavings of lookups and decisions.
- **Requests and their books** (`AskRuns`, `Server`, `Audit`, `AuditRuns`, `Middleware`, `MiddlewareRuns`).
  What each request does to limiter, counters, bridge and audit log, and what holds of their totals in
  every interleaving.
- **Shutdown** (`Shutdown`). The two listeners, the two-slot channel, the signal and the main routine.
- **Small loops** (`Itoa`, `RequestId`).

`Bytes`, `Tallies`, `Errors` and `Wrappers` hold what several of these share: lines, weighted sums, Go error
chains and options.

File-system answers, random bytes, clock readings, the bridge's answers and the transport's reads are
parameters. JSON decoding is a function on lines; JSON encoding is a function whose result has no raw line
break. The end of a body may be reported together with its last bytes or in a separate empty read; both are
covered. Error chains are explicit, so a transport error that wraps io.EOF is covered too.

## Where the code and its comments disagree

- `internal/audit/doc.go:3` promises one audit line per completed request. Rejected requests, streams that
  cannot be flushed and failed non-streaming calls write none (`AskRuns.ServedUnaudited`, and exactly those
  by `AskRuns.OneLineEachIff`).
- `internal/auth/source.go:30-33` promises a reload whenever mtime or size changes. A stamp stored beside a
  newer token goes unnoticed when it comes back (`TokenCacheRuns.StaleVerdict`).
- `internal/ratelimit/ratelimit.go:52-55` calls the conversion exact for any value. The interval is rounded
  down, so more than twice the quota can pass in a minute for some large values (`RateLimit.TwiceAMinuteIff`,
  for example `RateLimit.FailingQuota`), and above 60e9 nothing is limited (`RateLimit.Unlimited`).
- `cmd/gateway/main.go:158` calls an early return of a listener fatal. One that races with the signal is
  drained and run returns nil (`Shutdown.FailureSwallowed`).
- `internal/bridge/stream.go:33-35` says a line of 1 MiB trips the limit. It trips at 1 MiB + 1 bytes without
  LF; a line of exactly 1 MiB is accepted (`LineDecoder.FullIff`, `LineDecoder.LineLimit`).
- `internal/server/middleware.go:36-39` promises the actual response status. A code out of range, an informational code, or a
  header after a flush, is recorded but not sent, and a handler that panics before anything has left for the
  client is counted although nothing is sent (`Middleware.RecordedStatusIff`, `MiddlewareRuns.PanicCountedAs200`).

## Model

| member | source | states |
|---|---|---|
| TokenCache.TrimRight | internal/auth/source.go:142 | the token is the file without its trailing CR, LF, TAB and SPACE bytes, and nothing else is cut |
| TokenCache.Source.ReloadIfChanged | internal/auth/source.go:106-152 | the whole new cache and the result, for every combination of stat error, unchanged stamp and read error |
| TokenCache.Source.Validate | internal/auth/source.go:76-100 | an uninterrupted call stores what Alone says and answers by the token it leaves: none configured, accepted if the candidate is that token, invalid if it is another; a changed file that cannot be read counts as no token |
| TokenCache.Alone | internal/auth/source.go:76-152 | a call that could stat and read leaves the cache stamped as stat'ed and judges by the token it leaves; an error never disturbs the cache |
| TokenCacheRuns.ValidateLinearizableIff | internal/auth/source.go:76-152 | in every interleaving each verdict is the direct comparison with a version of the file, no later call is judged by an older one, and a call that could stat is judged by one current during the call, if and only if no stamp is reused around a change of the token |
| TokenCacheRuns.VerdictIsCurrent | internal/auth/source.go:76-152 | in a coherent history, every call whose own stat does not fail is accepted, refused as invalid or told that there is no token by comparison with a version current at some instant during it |
| TokenCacheRuns.FailedStatServesCache | internal/auth/source.go:107-121 | a call whose stat fails can accept a token that was replaced before the call began |
| TokenCacheRuns.MixedStore | internal/auth/source.go:138-149 | a slow call can store version i's stamp beside version k's token |
| TokenCacheRuns.StaleVerdict | internal/auth/source.go:123-128 | for every incoherent history, the run whose last call gets a verdict that no version current during it explains |
| TokenCacheRuns.RotationTakesEffect | internal/auth/source.go:30-33 | in a coherent history, a call made after the last rewrite that can stat the file is accepted, refused or told that there is no token by the new token |
| TokenCacheRuns.RotatedOutIsInvalid | internal/auth/source.go:96-97 | a rotated-out token is refused as invalid once another one is in force |
| TokenCacheRuns.SoloRun | internal/auth/source.go:76-152 | the steps of one call with nothing in between do what Source.Validate does |
| TokenCacheReloads.ReloadsBounded | internal/auth/source.go:123-151 | with k calls in flight that stat'ed an earlier version, at most 2k + 1 successful reads after the last rewrite, in every interleaving |
| TokenCacheReloads.ReloadedExactlyOnce | internal/auth/source.go:130-136 | with no call in flight that stat'ed an earlier version or has yet to store what it read, exactly one successful read once a later call has been answered |
| TokenCacheReloads.ReloadsAttained | internal/auth/source.go:123-151 | for every k a run with k outdated calls that reads 2k + 1 times |
| LineDecoder.BufReader.ReadSlice | internal/bridge/stream.go:36-54 | however the body is split into reads: up to the first LF if it comes within the buffer, else the rest if it fits, else a full buffer |
| LineDecoder.TrimEOL | internal/bridge/stream.go:66-68 | trailing LF and CR bytes go, however many, and nothing else |
| LineDecoder.ChatStream.Next | internal/bridge/stream.go:46-85 | each call takes one step of decoding the whole remaining body, so the splitting into reads never shows; after Close it reports the end |
| LineDecoder.ChatStream.Close | internal/bridge/stream.go:89-99 | closing ends the stream and drains at most 64 KiB of the body; a second Close does nothing |
| Bytes.SplitSound | internal/bridge/stream.go:46-54 | dividing a body at LF loses nothing: its lines and rest contain no LF and join to the body again |
| LineDecoder.FullIff | internal/bridge/stream.go:52-60 | the reader gives up if and only if the next LF, or the end of the body, lies beyond 1 MiB + 1 bytes |
| LineDecoder.LineLimit | internal/bridge/stream.go:33-60 | a terminated line of up to exactly 1 MiB is decoded, a longer one ends the stream |
| LineDecoder.LineByLine | internal/bridge/stream.go:63-85 | a blank line is skipped, one that cannot be parsed ends the stream, any other is one chunk before those of the lines after it |
| LineDecoder.LastLine | internal/bridge/stream.go:57-85 | an unterminated rest is one more line, unless the transport failed or the reader has no room to see the end |
| LineDecoder.StreamErrors | internal/bridge/stream.go:57-85 | the errors that end a stream carry status 0 and are io.EOF only if their cause is |
| Errors.IsEofIff | internal/server/stream.go:191 | errors.Is(err, io.EOF) looks through the whole chain |
| LineDecoder.DecodeEncoded | internal/bridge/stream.go:46-85 | decoding newline-delimited encodings of any chunks, up to 1 MiB a line, gives those chunks and a clean end |
| Sse.RoundTrip | internal/server/stream.go:301-317 | parsing what arrives of the written frames gives exactly those that arrived whole, and all of them if the connection holds |
| Streaming.EndToEnd | internal/server/stream.go:189-276 | for every body, split and broken connection the client sees a prefix of the chunks' events in order and one terminal frame, which is last |
| Streaming.EventsSay | internal/server/stream.go:231-256 | the thinking texts, tool results and tokens that are sent are the non-empty fields of the chunks in order, told apart by role, and the tool calls are all of theirs |
| Streaming.ChunkOrder | internal/server/stream.go:231-256 | within a chunk nothing precedes thinking, only thinking precedes tool calls, and nothing follows a tool result or token |
| Streaming.KindNames | internal/server/stream.go:29-34 | the name under which each kind of event is sent |
| Sse.FrameText | internal/server/stream.go:301-317 | a frame is an event line, a data line and a blank line |
| Streaming.DoneFrameIs | internal/server/stream.go:266-276 | the done frame has the last model named, reason, counts and whole milliseconds of the last Done chunk, and every tool call |
| Streaming.ErrorFrameIs | internal/server/stream.go:200-211 | the error frame has status 503 if and only if the outermost bridge error has it, else 502, and the matching title |
| Streaming.BridgeErrorStatusIs | internal/server/server.go:140-146 | 503 if and only if the outermost bridge error of the chain has it, else 502 |
| Streaming.AuditMatchesFrame | internal/server/stream.go:194-292 | the audit line of a stream tells what its last frame tells, in outcome, status, model, usage and tools |
| Streaming.AuditModelIs | internal/server/stream.go:212-292 | the model audited, of a broken stream too, is the last one named or the one asked for |
| Streaming.TextIsTokens | internal/server/stream.go:246-256 | the captured answer is the texts of the token events one after the other |
| Streaming.TruncatedDivIs | internal/server/stream.go:266-276 | a duration is reported in whole milliseconds, rounded toward zero |
| Streaming.DoneIff | internal/server/stream.go:189-220 | `done` exactly when every line decodes and the transport's error is or wraps io.EOF |
| Streaming.TotalsAgree | internal/server/stream.go:236-256 | the accumulated tools and captured answer are those of the emitted events, in order |
| Streaming.StreamTotalsAgree | internal/server/stream.go:236-292 | tool_call frames, `done` frame and audit line name the same tools in the same order; the audited answer is the token text when capture is on, and empty otherwise |
| Streaming.LastDoneWins | internal/server/stream.go:258-263 | the last Done chunk sets reason, usage and duration, even if chunks follow it |
| Streaming.NeverDone | internal/server/stream.go:179-187 | without a Done chunk reason, usage and duration stay empty |
| Streaming.LastModelWins | internal/server/stream.go:228-230 | the model reported is the last one a chunk named, else the one asked for |
| Streaming.AuditNonInterference | internal/audit/audit.go:153-165 | with query logging off, streams that differ only in query, thinking, roles, contents and tool arguments leave the same audit line |
| Server.WriteSSE | internal/server/stream.go:301-317 | a frame is three writes; whatever arrives is a prefix of everything sent, also when a write fails and the frame is abandoned |
| Server.EmitChunk | internal/server/stream.go:231-256 | thinking, then tool calls, then at most one of tool_result and token |
| Server.Handlers.CopyChunks | internal/server/stream.go:189-264 | the loop consumes the whole decoded body, frames exactly its events and accumulates exactly its totals |
| Server.Handlers.FinishStream | internal/server/stream.go:194-293 | one terminal frame, one audit line, and metrics that move only on a clean finish |
| Server.Handlers.RefuseStream | internal/server/stream.go:118-139 | a refused stream answers with the status it audits |
| Server.Handlers.ServeStream | internal/server/stream.go:140-293 | frames, audit line and metrics of an opened stream are those of its decoded body, and a client that parses what arrived gets every frame, or those that arrived whole |
| Server.Handlers.AskStream | internal/server/stream.go:95-293 | the three outcomes of a streaming request and everything each changes |
| Server.Handlers.AskPlain | internal/server/handlers.go:126-165 | an answered call is counted and audited once; a failed one is counted and answered but not audited |
| Server.Handlers.Ask | internal/server/handlers.go:81-165 | rejected requests spend no credit and leave nothing behind; refused ones are counted, audited and answered 429; admitted ones get the frames, status, answer, metrics and audit line of their variant; an audit line names the request, its outcome and the status the client was given, and matches the answer or the done frame; a request like this one can end in its final phase |
| Server.MapBridgeError | internal/server/server.go:140-195 | for every error chain the status and title written are those that bridgeErrorStatus and problemTitleFor give to audit line and error frame |
| Server.SanitizeToolNameLabel | internal/server/handlers.go:220-245 | labels are at most 64 characters of the allowed set; a name is replaced only if it is not such a label |
| Server.Handlers.ObserveTokens | internal/server/handlers.go:211-218 | for every model and kind the cell grows by the count if that is positive and by nothing otherwise; no cell falls, and none appears for a count of zero |
| Server.TokensAccumulate | internal/server/handlers.go:211-218 | over any sequence of requests each cell is the sum of the positive counts reported for its model and kind |
| Server.Handlers.ObserveToolCalls | internal/server/handlers.go:254-263 | every label grows by its number of occurrences, and no other label appears |
| Server.IncrementsSum | internal/server/handlers.go:254-263 | the increments over all labels sum to the number of tool calls |
| Server.UpstreamKindIs | internal/server/handlers.go:269-285 | the kind an error is counted under: `unknown` if and only if no bridge error is in its chain, else the status range of the outermost one; what is answered with 503 is always counted as http_5xx |
| Server.StreamFailureIs | internal/server/server.go:140-146 | a stream that breaks is counted as a transport error and reported as 502 |
| Server.ModelOrDefault | internal/server/handlers.go:169-176 | a model that the caller names is kept |
| Server.AuditToolCalls | internal/server/handlers.go:289-298 | names in call order, arguments dropped |
| RateLimit.Limiter.Allow | internal/ratelimit/ratelimit.go:77-89 | one decision on the caller's bucket, created full on first use; other buckets untouched; a disabled limiter always admits |
| RateLimit.CallerIsolation | internal/ratelimit/ratelimit.go:77-89 | in any order of calls a caller gets the answers it would get alone |
| RateLimitRuns.SectionsAreAtomic | internal/ratelimit/ratelimit.go:77-89 | however the lookups and the decisions of concurrent calls interleave, the verdicts are those of whole calls in the order of their decisions, and each caller's are those it would get alone |
| RateLimitRuns.BucketsStay | internal/ratelimit/ratelimit.go:81-88 | a call that has looked its bucket up finds it when it decides |
| RateLimit.LazyCreation | internal/ratelimit/ratelimit.go:82-86 | creating buckets on first use cannot be told from full buckets from the start |
| RateLimit.Unlimited | internal/ratelimit/ratelimit.go:56-59 | with an interval rounded to zero nothing is refused |
| RateLimit.WindowBound | internal/ratelimit/ratelimit.go:48-63 | at most n + floor(T/I) admissions of a caller in any window of T ns, whatever came before |
| RateLimit.WindowAttained | internal/ratelimit/ratelimit.go:48-63 | and a trace that has exactly that many |
| RateLimit.RefusedIff | internal/ratelimit/ratelimit.go:48-89 | a request at t is refused if and only if, for some s up to t, its caller has been admitted n + floor((t - s)/I) times since s; a refusal costs nothing |
| RateLimit.TwiceAMinuteIff | internal/ratelimit/ratelimit.go:52-63 | for every positive n, at most 2n a minute if and only if 60e9 mod n is less than floor(60e9/n) |
| RateLimit.FailingQuota | internal/ratelimit/ratelimit.go:52-63 | a quota of 245061 a minute lets more than twice as many through |
| RateLimit.SmallQuotas | internal/ratelimit/ratelimit.go:52-63 | which holds whenever n * n is at most 60e9 |
| RateLimit.IdleMinute | internal/ratelimit/ratelimit.go:35-38 | a caller idle for a minute gets its next n requests |
| RateLimit.SpacedNeverRefused | internal/ratelimit/ratelimit.go:31-33 | a caller whose requests are an interval apart is never refused |
| AskRuns.AskAccounting | internal/server/handlers.go:81-165 | over any interleaving: calls are admissions less unflushable streams, rejected requests are not decided on, rate_limited_total counts the lines marked so, and the other lines are finished streams and answered calls |
| AskRuns.LinesByOutcome | internal/server/handlers.go:99-160 | at every moment of every interleaving, the log has one rate_limited line per 429, one ok line per clean finish and one error line per broken or refused stream |
| AskRuns.OneLineEachIff | internal/audit/doc.go:3-5 | one audit line per served request if and only if every request is valid, every admitted stream can be flushed and every admitted non-streaming call is answered |
| AskRuns.ServedUnaudited | internal/server/handlers.go:128-132 | any request of each other kind, alone on an idle gateway, is served without an audit line |
| AskRuns.AdmissionsAreCalls | internal/server/handlers.go:95-128 | on writers that can flush, bridge calls equal limiter admissions |
| AskRuns.UpstreamQuota | internal/server/handlers.go:95-128 | after any history, in any interleaving whose limiter decisions fall within T ns, a caller causes at most n + floor(T/I) bridge calls besides those of requests admitted before |
| AskRuns.UpstreamQuotaAtStart | internal/server/handlers.go:95-128 | from the start of the gateway, at most n + floor(T/I) |
| Audit.Logger.Log | internal/audit/audit.go:153-173 | one redacted, stamped line is appended |
| Audit.RedactedIs | internal/audit/audit.go:153-159 | a missing timestamp is filled in, query and answer are erased unless they are to be logged, and nothing else is changed |
| AuditRuns.LinesNeverInterleave | internal/audit/audit.go:161-172 | with writes arriving in pieces, the sink is always a prefix of whole lines in lock order and splits into exactly one line per call when nobody writes |
| AuditRuns.LinesAreEvents | internal/audit/audit.go:153-172 | each call's line is that of its own event, redacted |
| Middleware.StatusWriter.WriteHeader | internal/server/middleware.go:46-53 | status, flag and the response under it after a header |
| Middleware.StatusWriter.Write | internal/server/middleware.go:55-62 | an implicit 200 on the first write |
| Middleware.StatusWriter.Flush | internal/server/middleware.go:68-72 | a flush commits the response but is not recorded |
| Middleware.RecordedStatusIff | internal/server/middleware.go:19-72 | for every sequence of calls and either way of ending, the recorded status is the one the client gets if and only if the first header, with only flushes before it, is 200 or is a final code in range that is not flushed over, and the handler does not panic before anything has left for the client |
| Middleware.RecordedIs | internal/server/middleware.go:46-62 | what is recorded is the first header, if only flushes precede it, and otherwise 200 |
| Middleware.AnsweredIs | internal/server/middleware.go:46-72 | what is sent is the code of a first operation that is a final header in range, and otherwise 200 |
| MiddlewareRuns.CounterConservation | internal/server/middleware.go:19-34 | in every interleaving, panics included, gauge and totals are the running and recorded requests and miss the arrivals only by those between two counters |
| MiddlewareRuns.LabelsTrackTheWire | internal/server/middleware.go:19-34 | in every interleaving a label of requests_total misses the clients that got that status by at most the handlers that fail RecordedStatusIff |
| MiddlewareRuns.PanicCountedAs200 | internal/server/middleware.go:24-29 | the run in which a handler panics at once, is counted as 200 and its client gets nothing |
| Shutdown.SendsNeverBlock | cmd/gateway/main.go:133-154 | no send on the two-slot channel ever blocks |
| Shutdown.RunsAreFinite | cmd/gateway/main.go:129-192 | every run is finite |
| Shutdown.Progress | cmd/gateway/main.go:156-192 | until run returns the program can take a step unless nothing has happened yet; once it has returned both goroutines have finished |
| Shutdown.OutcomeExact | cmd/gateway/main.go:156-191 | an error naming a listener that failed exactly when its failure was selected, else nil exactly when both Shutdown calls succeeded |
| Shutdown.ReportsAreTrue | cmd/gateway/main.go:133-154 | each listener reports at most once, under its own name and as failed exactly when it failed, and the channel holds the reports in order |
| Shutdown.FailureIsNamed | cmd/gateway/main.go:150-166 | the listener named is the one that failed before the select took its result |
| Shutdown.FailureReturned | cmd/gateway/main.go:156-180 | for either listener, the run in which its failure is returned under its name |
| Shutdown.FailureSwallowed | cmd/gateway/main.go:156-187 | for either listener, a failure that loses the race against the signal is drained and run returns nil |
| Itoa.FillDigits | internal/bridge/types.go:126-132 | the digits from the back of the buffer, which never underflows and keeps room for a sign |
| Itoa.Itoa | internal/bridge/types.go:118-138 | the printed integer reads back as itself and has no leading zero, except for the minimum, which prints a lone sign |
| RequestId.ValidCallerId | internal/requestid/requestid.go:105-121 | accepts exactly 1 to 128 bytes of the allowed set |
| RequestId.New | internal/requestid/requestid.go:70-76 | sixteen lower-case hexadecimal digits on both branches, which denote all the random bytes or the clock |
| RequestId.Assign | internal/requestid/requestid.go:84-95 | the assigned ID is always acceptable; an acceptable one is kept, so a second gateway keeps it, and any other is replaced by a new one of sixteen digits |
| RequestId.AssignedIdRecovered | internal/server/problem.go:44-53 | path and ID are recovered from the problem instance by its last '#' |
| RequestId.BareInstance | internal/server/problem.go:44-53 | without an ID the instance is the bare path |

## Left out

- Configuration, `/v1/tools`, `/v1/models`, `/v1/health`, content-type and query validation, and error-detail strings: settled by reading a branch. A rejected request appears with the status it was rejected with.
- JSON internals, SHA-256, regular expressions and constant-time comparison: decoding and encoding are functions, comparison is equality.
- Sockets, HTTP transport, TLS, redirects and the write-deadline refresh, which the wrapped response writer does not forward.
- Floating-point rounding inside the rate package, and timestamps out of order, as two callers that read the clock before one lock can produce: credit is exact and times do not decrease in the trace theorems.
- Prometheus internals and the tool-duration histogram, which no path observes: counters are maps.
- TokenCacheRuns: os.ReadFile returns one version of the file; a read torn by a rewrite in place is not modelled.
- LineDecoder.Body.Read: every read but the last delivers at least one byte, so the reader's limit on empty reads is not modelled.
- Server.ResponseWriter: a connection that fails once fails for good.
- Server.Handlers.Ask: handles one request from start to end; interleavings are AskRuns, in whose final phases it ends, without the metrics and frames.
- TokenCacheReloads: failed reads are not counted, since every call that finds the cache behind may fail to read again.
- Middleware.Response: net/http sends nothing for a handler that panics before a flush or a write that outgrows its buffer; which write does is part of the operation, not computed from sizes.
- Audit.Logger.Log: the sink accepts every write, so the branch that only logs a write error is not modelled.
- Server.ChatResponse: the creation time and the timing fields, which no handler reads. The tool-call shapes of bridge and API are one datatype, so the conversion between them is the identity.
- Shutdown: a Shutdown call is one step, since its waiting depends on neither goroutine.
- Helm templates, scripts, the container images and the legacy prototype.
