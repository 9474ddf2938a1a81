# Kube-Vision backend core, modelled in Dafny

Kube-Vision is a web dashboard for a local container runtime. Its Go backend does several things:

- lists and inspects containers;
- streams per-container resource statistics and logs to the browser over WebSocket;
- guards its control routes with a bearer token;
- limits request rates per client IP;
- keeps a few in-process counters for a metrics endpoint.

This project models the deterministic logic of that backend. It uses immutable datatypes and pure functions. Every piece of state is threaded explicitly through the functions:

- the calculator's baseline map;
- the rate limiter's visitor map;
- the counters registry;
- the stats pump's queue.

Each Dafny module corresponds to one Go file:

| module | Go file | what it holds |
|---|---|---|
| `Primitives` | (shared) | `Option`/`Result`; `uint64` subtraction and addition modulo 2^64; `strings.HasPrefix`, `TrimPrefix` and `TrimSpace`, using Unicode white space |
| `Validation` | `backend/internal/utils/validation.go` | the container-ID predicate and the control-character filter |
| `DockerMetrics` | `backend/internal/docker/metrics.go` | the stats calculator: CPU %, memory %, network and block-I/O totals, baselines |
| `LogStream` | `backend/internal/websocket/logs_handler.go` | the frame stripper, the request gate and query defaults, and the per-read relay loop |
| `StatsStream` | `backend/internal/websocket/stats_handler.go` | the producer/consumer pump, modelled as an event-driven state machine with a 100-slot queue |
| `RateLimit` | `backend/internal/middleware/ratelimit.go` | `Allow`, cleanup eviction, the 429 middleware, and the count invariant |
| `HttpMetrics` | `backend/internal/metrics/prometheus.go` | request counters, the 100-entry latency window, WebSocket gauges, reported averages |
| `WsCommon` | `backend/internal/websocket/common.go` | heartbeat constants and the upgrader's origin rule |
| `Auth` | `backend/internal/middleware/auth.go` | token extraction and the accept/reject decision |
| `Containers` | `backend/internal/api/containers.go` | list conversion (names, ports, total) and the inspect gate |
| `ApiErrors` | `backend/internal/api/errors.go` | the structured error body and its status helpers |
| `Server` | `backend/cmd/server/main.go` | the fallback route, the log level and router mode, and the CORS, rate-limit and address defaults |

Several conventions hold throughout:

- **Time** is an integer number of nanoseconds, passed in by the caller.
- **Percentages** are `real`.
- **Go `uint64` arithmetic** wraps modulo 2^64 explicitly wherever the source subtracts or accumulates.
- **Runtime calls** are parameters. This covers listing, inspecting, the stats fetch and the log reads. Each call's answer (a `Result`, or a function returning one) is an input, and the failure path is modelled next to the success path.

The log relay strips each read of at most 8192 bytes on its own; a partial frame is not carried over to the next read (`LogStream.RelayIsStateless`). A frame whose header is split across two reads therefore reaches the viewer with its raw header bytes (`LogStream.SplitHeaderLeaks`). A frame split inside its payload loses text instead: when the continuation is 8 bytes or longer, its first 8 bytes are taken for a header and dropped (`LogStream.SplitPayloadLosesText`). The read loop looks at a read's error before its byte count, so bytes handed back together with end of stream or an error are dropped (`LogStream.FinalReadDropped`).

## Model

| member | source | states |
|---|---|---|
| Primitives.SubU64 | backend/internal/docker/metrics.go:123-124 | Go `uint64` subtraction: the exact difference when no underflow, otherwise the difference plus 2^64 |
| Primitives.AddU64 | backend/internal/docker/metrics.go:72-73 | Go `uint64` `+=`: the sum reduced modulo 2^64 |
| Primitives.SumU64IsSumMod | backend/internal/docker/metrics.go:69-88 | accumulating with wrapping additions gives the true sum reduced modulo 2^64 |
| Primitives.TrimPrefix | backend/internal/middleware/auth.go:32-33 | with the prefix present, prefix + result is the input; otherwise the input is unchanged |
| Primitives.TrimSpaceSlice | backend/internal/middleware/auth.go:31 | the trimmed string is a contiguous slice of the input with only white space outside it and non-space characters at both ends |
| Primitives.TrimSpaceNoop | backend/internal/middleware/auth.go:31 | a string with non-space ends is left unchanged by trimming |
| Primitives.TrimSpaceAllSpace | backend/internal/middleware/auth.go:31 | an all-white-space string trims to the empty string |
| Primitives.TrimSpacePadded | backend/internal/middleware/auth.go:31 | white-space padding around a string with non-space ends is exactly what trimming removes |
| Validation.AllIdChars | backend/internal/utils/validation.go:15 | the scan is true iff every character is in `[a-zA-Z0-9_-]` |
| Validation.ValidateContainerID | backend/internal/utils/validation.go:8-21 | accepted iff the length is between 12 and 64 and every character is an ASCII letter, digit, `_` or `-`; so the empty string is refused |
| Validation.AcceptedIdIsInert | backend/internal/utils/validation.go:13-15 | an accepted ID is non-empty and contains no `/`, `.`, `\` and no Unicode white-space character, so it cannot express path traversal |
| Validation.SanitizeString | backend/internal/utils/validation.go:24-28 | output is never longer than input and contains no character in U+0000–U+001F or U+007F |
| Validation.SanitizeConcat | backend/internal/utils/validation.go:26-27 | filtering distributes over concatenation |
| Validation.SanitizeClean | backend/internal/utils/validation.go:26-27 | a string without control characters is returned unchanged |
| Validation.SanitizeIdempotent | backend/internal/utils/validation.go:24-28 | sanitizing twice equals sanitizing once |
| Validation.SanitizeKeepsOthers | backend/internal/utils/validation.go:26-27 | every non-control character keeps its multiplicity and every control character is gone |
| Validation.KeptFrom | backend/internal/utils/validation.go:26-27 | the positions the filter keeps are increasing and are exactly the non-control positions |
| Validation.SanitizeKeepsOrder | backend/internal/utils/validation.go:24-28 | the k-th output character is the input character at the k-th non-control position: the output is the input with its control characters deleted, the rest in their original order |
| DockerMetrics.CoreCount | backend/internal/docker/metrics.go:132-138 | the scaling core count is at least one |
| DockerMetrics.CalculateCpuPercent | backend/internal/docker/metrics.go:112-152 | result in [0, 1000]; 0 when the wrapped system delta is 0 or the CPU counter went backwards; otherwise result × ΔSystem ≤ ΔCPU × cores × 100, with equality below the 1000 clamp |
| DockerMetrics.CacheBytes | backend/internal/docker/metrics.go:57-63 | the cgroup table's "cache" entry when present, otherwise 0 |
| DockerMetrics.Rss | backend/internal/docker/metrics.go:64 | rss + cache ≡ usage modulo 2^64: the exact difference when cache ≤ usage, and a value above usage (wrapped) when the cache is larger |
| DockerMetrics.MemoryPercent | backend/internal/docker/metrics.go:52-66 | 0 without a limit; otherwise percent × limit = ((usage − cache) mod 2^64) × 100 |
| DockerMetrics.CalculateStats | backend/internal/docker/metrics.go:40-108 | the baseline for the ID becomes the new sample on every path and no other baseline changes; CPU is 0 for a first-seen container and otherwise derived from the baseline, within [0, 1000]; memory percent as above; ID, timestamp, usage, limit and PIDs copied |
| DockerMetrics.ResetStats | backend/internal/docker/metrics.go:155-158 | removes exactly the given ID's baseline and keeps all others |
| DockerMetrics.ClearAllStats | backend/internal/docker/metrics.go:161-163 | no baseline remains |
| DockerMetrics.TotalsAreSums | backend/internal/docker/metrics.go:69-88 | network rx/tx are the sums over all interfaces, and block read/write are the sums over entries tagged exactly "Read"/"Write", all modulo 2^64 |
| DockerMetrics.OtherOpsIgnored | backend/internal/docker/metrics.go:81-86 | an entry with any other tag leaves both block totals unchanged |
| DockerMetrics.ResetMakesFirstSeen | backend/internal/docker/metrics_test.go:150-166 | after a reset, the next calculation reports 0 % CPU, and other containers keep their baselines |
| DockerMetrics.ClearMakesFirstSeen | backend/internal/docker/metrics.go:161-163 | after clearing, every container's next calculation reports 0 % CPU |
| DockerMetrics.BackwardsSystemCounterNotGuarded | backend/internal/docker/metrics.go:124-129 | a system counter that moved backwards is not treated as a reset: a forward CPU counter still gives a positive percentage |
| DockerMetrics.CacheAboveUsageWraps | backend/internal/docker/metrics.go:64-65 | a cache larger than usage wraps the RSS and reports memory above 100 % |
| DockerMetrics.WorkedExample | backend/internal/docker/metrics_test.go:100-112 | first sample gives 0 % CPU; baseline (1e9, 2e9) then sample (2e9, 4e9) on 4 cores gives exactly 200 %; cache-excluded memory example gives 50 % |
| LogStream.U32Bytes | backend/internal/websocket/logs_handler.go:145 | the four big-endian bytes of n read back as n |
| LogStream.StripFrames | backend/internal/websocket/logs_handler.go:134-161 | the loop terminates (measure: bytes left) and never lengthens its input |
| LogStream.StripDockerHeader | backend/internal/websocket/logs_handler.go:129-132 | an input shorter than 8 bytes is returned unchanged; the output is never longer than the input |
| LogStream.EncodeFrame | backend/internal/websocket/logs_handler.go:127-128 | an encoded frame is 8 header bytes plus its payload |
| LogStream.StripOneFrame | backend/internal/websocket/logs_handler.go:144-158 | a complete frame at the front is replaced by its payload and parsing resumes right after it |
| LogStream.StripFramesAfterFrames | backend/internal/websocket/logs_handler.go:137-159 | any run of complete frames at the front is replaced by their payloads in order |
| LogStream.RoundTrip | backend/internal/websocket/logs_handler.go:137-142 | well-formed frames followed by a tail shorter than a header strip to the payloads in order followed by the tail verbatim |
| LogStream.TruncatedFrame | backend/internal/websocket/logs_handler.go:147-152 | a frame whose declared length runs past the end loses its 8-byte header, and all remaining bytes are kept |
| LogStream.TagBytesIgnored | backend/internal/websocket/logs_handler.go:144-145 | the stream-type and reserved bytes do not affect the result; only bytes 4..7 are read |
| LogStream.LogsRequest | backend/internal/websocket/logs_handler.go:23-71 | 400 for an empty or malformed ID, otherwise options with `tail` defaulting to "100", `follow` true iff absent or exactly "true", `since` only when non-empty, stdout, stderr and timestamps on |
| LogStream.DeliveredChunks | backend/internal/websocket/logs_handler.go:92-110 | the chunks stripped are the data of the reads before the first read that returned an error (end of stream included), in order; that read's bytes are dropped |
| LogStream.FinalReadDropped | backend/internal/websocket/logs_handler.go:93-103 | bytes returned together with end of stream or a read error never reach the viewer, and no later read is looked at |
| LogStream.FrameWithEndOfStreamLost | backend/internal/websocket/logs_handler.go:93-111 | a complete frame is relayed when its read succeeds and lost when the same bytes come with end of stream |
| LogStream.MessagesFitBuffer | backend/internal/websocket/logs_handler.go:84-111 | with every read at most the 8192-byte buffer, every message is at most 8192 bytes |
| LogStream.RelayChunks | backend/internal/websocket/logs_handler.go:105-121 | at most one message per read, and never an empty message |
| LogStream.RelayIsStateless | backend/internal/websocket/logs_handler.go:110-111 | relaying a concatenation of read runs is the concatenation of relaying each run: nothing carries over |
| LogStream.MessagesComeFromReads | backend/internal/websocket/logs_handler.go:110-121 | every written message is the stripped form of one read |
| LogStream.SplitHeaderLeaks | backend/internal/websocket/logs_handler.go:129-142 | a frame split after 4 bytes is relayed as its raw header start followed by the rest with no header stripped |
| LogStream.SplitPayloadLosesText | backend/internal/websocket/logs_handler.go:137-152 | a 20-byte-payload frame split after 12 bytes is relayed as payload bytes 0–3 and 12–19: bytes 4–11 are lost, taken for the continuation's header |
| LogStream.LogsHandler | backend/internal/websocket/logs_handler.go:22-124 | a refused request gets its 400; a valid request from an origin the upgrader refuses is not upgraded and the runtime is not asked; otherwise a failed log call gets the single message "Failed to get logs", and a successful one is always relayed, with the validated options reaching the runtime and the viewer receiving the relayed successful reads |
| LogStream.InvalidIdNeverOpensLogs | backend/internal/websocket/logs_handler.go:24-33 | a malformed ID gets a 400 whatever the origin and whatever the runtime would have answered: the log call is never made |
| LogStream.ForeignOriginNeverOpensLogs | backend/internal/websocket/logs_handler.go:41-46 | a valid request from a refused origin is refused whatever the runtime would have answered: the log call is never made |
| StatsStream.PingBeforePongDeadline | backend/internal/websocket/stats_handler.go:17-29 | the handler's own ping period is 9/10 of its pong wait, strictly less, and equals the shared constants |
| StatsStream.StatsRequest | backend/internal/websocket/stats_handler.go:44-48 | refused with 400 "Container ID is required" iff the ID is empty; no format check |
| StatsStream.StatsCheckOrigin | backend/internal/websocket/stats_handler.go:31-37 | the handler's own upgrader accepts every origin |
| StatsStream.StatsGateIsLooser | backend/internal/websocket/stats_handler.go:31-48 | this path accepts an ID the validator refuses and an origin the configured list refuses |
| StatsStream.Produce | backend/internal/websocket/stats_handler.go:78-121 | after the producer has stopped nothing changes; a runtime error closes the queue; a decode error skips the tick; a decoded sample goes through the calculator, whose baselines are kept, and is appended when the queue holds fewer than 100, else dropped and counted |
| StatsStream.Consume | backend/internal/websocket/stats_handler.go:143-161 | writes the head of the queue in order; a closed, drained queue gets the close frame and the consumer stops; a failed write stops the consumer and the producer |
| StatsStream.Step | backend/internal/websocket/stats_handler.go:78-161 | cancellation stops producer and consumer together without a close frame and changes nothing else; a tick never writes; a consumer step never changes baselines or what was enqueued |
| StatsStream.StartIsValid | backend/internal/websocket/stats_handler.go:70 | the initial pump (empty queue of capacity 100) satisfies the invariant |
| StatsStream.StepPreservesValid | backend/internal/websocket/stats_handler.go:70-161 | every event preserves the invariant: queue ≤ 100, the written log is a prefix of everything enqueued, and while the consumer runs, enqueued = written + queue |
| StatsStream.RunPreservesValid | backend/internal/websocket/stats_handler.go:70-161 | over any event sequence the queue never exceeds 100 and results are written in exactly their enqueue order |
| StatsStream.WrittenOnlyGrows | backend/internal/websocket/stats_handler.go:143-161 | what was written stays written; the log only extends |
| StatsStream.StalledConsumerFillsToCapacity | backend/internal/websocket/stats_handler.go:112-119 | with the consumer stalled, n samples fill the queue up to 100 and no further; every excess sample is dropped and counted; the producer never blocks or closes |
| StatsStream.RuntimeErrorEndsProducer | backend/internal/websocket/stats_handler.go:84-100 | a runtime error closes the producer, after which baselines never change; a decode error leaves the state unchanged |
| StatsStream.ClosedRunKeepsBaselines | backend/internal/websocket/stats_handler.go:73-90 | once the producer has exited, no later event enqueues or changes baselines |
| StatsStream.DrainedChannelCloses | backend/internal/websocket/stats_handler.go:147-152 | a closed, drained queue makes the consumer send the close frame, and nothing more is ever written |
| StatsStream.StoppedConsumerWritesNothing | backend/internal/websocket/stats_handler.go:145-160 | after the consumer has stopped, no event writes anything |
| RateLimit.NewRateLimiter | backend/internal/middleware/ratelimit.go:28-35 | a new limiter has no visitors and keeps the given rate and duration |
| RateLimit.Allow | backend/internal/middleware/ratelimit.go:53-81 | unseen IP: allowed with {now, 1}; strictly more than `duration` since last allowed: allowed, count reset to 1; otherwise denied iff count ≥ rate, a denial changes nothing, an allowance increments count and sets lastSeen; only this IP's entry changes |
| RateLimit.Cleanup | backend/internal/middleware/ratelimit.go:37-47 | keeps exactly the visitors seen within the last 10 minutes, unchanged |
| RateLimit.RateLimitMiddleware | backend/internal/middleware/ratelimit.go:84-100 | aborts with 429 "Too many requests" / "Rate limit exceeded. Please try again later." iff `Allow` refuses; the limiter state is `Allow`'s |
| RateLimit.RunKeepsBounded | backend/internal/middleware/ratelimit.go:53-81 | any interleaving of requests and cleanups keeps every count between 1 and max(rate, 1) |
| RateLimit.FreshLimiterBounded | backend/internal/middleware/ratelimit.go:28-50 | from a new limiter the count bound holds after any event sequence |
| RateLimit.BurstIsCapped | backend/internal/middleware/ratelimit.go:73-76 | once an IP is at its limit, every request within the window is refused and the state after the burst equals the state before |
| HttpMetrics.Slide | backend/internal/metrics/prometheus.go:35-38 | the new window ends with the new duration and is a suffix of old window + duration; below 100 it is a plain append, at 100 the oldest entry is evicted |
| HttpMetrics.RecordHttpRequest | backend/internal/metrics/prometheus.go:25-39 | the counter for (method, path, status) goes up by exactly 1; the key's window slides; every other key and both gauges are unchanged |
| HttpMetrics.SlideKeepsLast | backend/internal/metrics/prometheus.go:32-38 | sliding n durations into an empty window leaves exactly the last min(n, 100), in arrival order |
| HttpMetrics.WindowIsLastDurations | backend/internal/metrics/prometheus.go:29-38 | after n requests for a new key, its counter rose by n and its window holds the last min(n, 100) durations in order |
| HttpMetrics.IncrementWebSocketConnections | backend/internal/metrics/prometheus.go:42-47 | active and total each rise by 1 |
| HttpMetrics.DecrementWebSocketConnections | backend/internal/metrics/prometheus.go:50-56 | active falls by 1 only when positive; total never changes |
| HttpMetrics.GaugesStayOrdered | backend/internal/metrics/prometheus.go:42-56 | any sequence of opens and closes keeps 0 ≤ active ≤ total; total equals its start plus the number of opens, so it never decreases |
| HttpMetrics.AverageLatency | backend/internal/metrics/prometheus.go:78-83 | defined iff the window is non-empty; for a non-negative sum, avg × n ≤ sum < (avg + 1) × n (truncating division) |
| HttpMetrics.AverageWithinRange | backend/internal/metrics/prometheus.go:79-83 | the mean of non-negative durations lies between any lower and upper bound of the window's entries |
| HttpMetrics.ReportedAverages | backend/internal/metrics/prometheus.go:77-86 | an average is reported for exactly the keys with a non-empty window, each the window's truncated mean |
| WsCommon.PingBeforePongDeadline | backend/internal/websocket/common.go:11-23 | the ping period is 54 s, strictly between 0 and the 60 s pong wait |
| WsCommon.EffectiveOrigins | backend/internal/websocket/common.go:27-30 | an empty configured list becomes ["*"]; a non-empty list is used as is |
| WsCommon.OriginAllowed | backend/internal/websocket/common.go:36-43 | accepted iff some entry is "*" or exactly equals the Origin header |
| WsCommon.CheckOrigin | backend/internal/websocket/common.go:27-43 | with nothing configured every origin passes; otherwise an origin passes iff some configured entry is "*" or equals it exactly |
| WsCommon.EmptyConfigAcceptsAll | backend/internal/websocket/common.go:27-30 | with nothing configured every origin is accepted |
| WsCommon.ExactMatchOnly | backend/internal/websocket/common.go:38-43 | without a wildcard, an origin is accepted iff it is literally in the list |
| WsCommon.MissingOriginHeader | backend/internal/websocket/common.go:36-43 | a missing Origin header passes iff the list holds "*" or an empty entry |
| WsCommon.LookalikeOriginsRefused | backend/internal/websocket/common.go:39 | an origin extending an allowed one, or differing in case, is refused |
| Auth.ExtractToken | backend/internal/middleware/auth.go:30-34 | the token is the trimmed header with one leading "Bearer " removed when present, else the trimmed header |
| Auth.AuthMiddleware | backend/internal/middleware/auth.go:11-48 | disabled: every request passes; enabled: empty header → 401 "Authorization header required"; otherwise passes iff the extracted token equals the configured one, else 401 "Invalid token" |
| Auth.BareTokenAccepted | backend/internal/middleware/auth.go:30-46 | a token T with non-space ends and no "Bearer " prefix is accepted as the header "T" |
| Auth.BearerHeaderCarries | backend/internal/middleware/auth.go:31-34 | a header trimming to "Bearer " + T carries T |
| Auth.BearerTokenAccepted | backend/internal/middleware/auth.go:30-46 | "Bearer T", with or without surrounding white space, is accepted for configured token T |
| Auth.BlankHeaderMatchesEmptyToken | backend/internal/middleware/auth.go:20-46 | with an empty configured token, a header holding only a no-break space (white space the middleware trims but the HTTP server does not) is let through, while an empty header is refused |
| Auth.PrefixStrippedOnce | backend/internal/middleware/auth.go:32-34 | only one "Bearer " is removed and the prefix is case-sensitive |
| Containers.DisplayName | backend/internal/api/containers.go:93-100 | with a non-empty first name, the name is that name with one leading `/` removed; otherwise the 12-character short ID |
| Containers.DisplayNameStripsOneSlash | backend/internal/api/containers.go:95-99 | the runtime's "/name" is displayed as "name" |
| Containers.ConvertPorts | backend/internal/api/containers.go:103-110 | ports are copied one for one, in order, with private port, public port and type preserved |
| Containers.ToInfo | backend/internal/api/containers.go:112-121 | ID, image, status, state, creation time and labels copied; name derived; ports converted |
| Containers.ListContainers | backend/internal/api/containers.go:72-132 | list failure → 500 "Failed to list containers: " + error; a container with an ID shorter than 12 makes the handler panic (at the first such entry); a successful list whose IDs are all at least 12 long always gets 200 with one converted entry per container in runtime order and total = count |
| Containers.ListedKeepsOrder | backend/internal/api/containers.go:91-122 | the i-th entry carries the i-th container's ID, and containers with different IDs give different entries |
| Containers.GetContainer | backend/internal/api/containers.go:135-167 | empty ID → 400 "Container ID is required"; malformed ID → 400 "Invalid container ID format"; inspect failure → 404 "Container not found"; otherwise 200 with the inspected data |
| Containers.InvalidIdNeverInspected | backend/internal/api/containers.go:137-146 | a malformed ID gets a 400 that does not depend on the runtime's answer: the runtime is never consulted |
| Containers.InspectedIdIsInert | backend/internal/api/containers.go:143-151 | any ID that reaches the runtime is 12–64 characters with no `/`, `.`, `\` or white space |
| ApiErrors.ErrorResponse | backend/internal/api/errors.go:20-42 | status and body code are equal; success is false; details is the first extra argument or empty; request ID is the stored correlation ID when it is a string, else empty |
| ApiErrors.BadRequest | backend/internal/api/errors.go:45-47 | status 400, details passed through |
| ApiErrors.Unauthorized | backend/internal/api/errors.go:50-52 | status 401, no details |
| ApiErrors.Forbidden | backend/internal/api/errors.go:55-57 | status 403, no details |
| ApiErrors.NotFound | backend/internal/api/errors.go:60-62 | status 404, no details |
| ApiErrors.InternalServerError | backend/internal/api/errors.go:65-67 | status 500, details passed through |
| ApiErrors.ExtraDetailsDropped | backend/internal/api/errors.go:34-36 | detail arguments after the first do not change the reply |
| ApiErrors.NonStringCorrelationIgnored | backend/internal/api/errors.go:21-25 | a non-string correlation value behaves as an absent one |
| ApiErrors.HelperStatusesDistinct | backend/internal/api/errors.go:44-67 | the five helpers answer with five distinct statuses, all in 400–599 |
| Server.NoRoute | backend/cmd/server/main.go:178-186 | JSON 404 "Not found" iff the path starts with "/api" or "/ws" or equals "/metrics"; every other unmatched path serves index.html |
| Server.FallbackExamples | backend/cmd/server/main.go:180 | client routes reach the app; "/apiary" and "/wsx" are held back because the prefix test is textual; "/metrics/" is classified as an app path |
| Server.ApiPathsNeverServeIndex | backend/cmd/server/main.go:180-183 | no path under "/api/" is handed to the app |
| Server.InitLoggerLevel | backend/cmd/server/main.go:235-247 | "debug", "info", "warn" and "error" select their level; anything else selects info |
| Server.RouterMode | backend/cmd/server/main.go:48-52 | debug mode iff LOG_LEVEL is exactly "debug" |
| Server.StartupAsWritten | backend/cmd/server/main.go:24-52 | the logger is built before the configuration is loaded, so it logs at info whatever `LOG_LEVEL` says, while the router mode follows the loaded value |
| Server.ConfiguredLevelIgnoredAtStartup | backend/cmd/server/main.go:26-52 | with `LOG_LEVEL=debug` the router runs in debug mode and the logger at info; `LOG_LEVEL=error` does not set the logger to error |
| Server.StartupCorrected | backend/cmd/server/main.go:233-247 | with the configuration loaded first, the logger's level is debug, warn or error exactly when that name is configured, and the router mode follows the same value |
| Server.DebugModeIffDebugLevel | backend/cmd/server/main.go:48-52 | in the corrected start-up, the router is in debug mode exactly when the logger is at debug level |
| Server.CorsOrigins | backend/cmd/server/main.go:75-78 | an empty origin list becomes ["*"] |
| Server.CorsDefaultMatchesUpgrader | backend/cmd/server/main.go:75-79 | the CORS default equals the WebSocket upgrader's default |
| Server.RateLimitSetup | backend/cmd/server/main.go:82-93 | a limiter is installed iff enabled; a limit of 0 becomes 100 and a duration of 0 one minute; it starts with no visitors |
| Server.DefaultLimiterAllowsHundred | backend/cmd/server/main.go:84-92 | with default settings the 100th request in a window is allowed and the 101st within the minute is refused |
| Server.ListenAddress | backend/cmd/server/main.go:189-198 | the address is host ":" port, with an empty host read as "0.0.0.0" and an empty port as "8080" |
| Server.AddressSplitsAtLastColon | backend/cmd/server/main.go:198 | for a colon-free port, the address splits back into host and port at its last colon |
| Server.DefaultAddress | backend/cmd/server/main.go:189-198 | with nothing configured the server listens on "0.0.0.0:8080" |

## Findings

| source | as written | input that shows it | evidently intended | confidence | as-written member | corrected member |
|---|---|---|---|---|---|---|
| backend/cmd/server/main.go:26-33 | `initLogger` runs before `loadConfig`, so it reads `LOG_LEVEL` before the default and the environment binding exist and always gets "", which selects info | `LOG_LEVEL=debug`: the router runs in debug mode while the logger stays at info | the logger's level follows `LOG_LEVEL`, as the router mode does | high; not executed | Server.StartupAsWritten | Server.StartupCorrected |

## Left out

- WebSocket transport is not modelled: upgrade, read and write deadlines, the pong handler, the ping goroutine, message size limits. These are I/O in the WebSocket library. Only the stats pump's queue abstraction is kept. A failed write in the logs loop is not modelled either; the logs loop's results are the messages it would write.
- Goroutines, contexts and mutexes are not modelled. The stats pump is a sequential event system. The calculator's baseline map is shared by every stats connection without synchronisation, which is a data race. A sequential model cannot express that race; here each operation sees a single consistent map.
- Floating point is not modelled: percentages are exact `real`s. The rendering of latencies as seconds in the metrics text is left out, as is the rest of the Prometheus text exposition. That rendering is pure formatting, and Go's map iteration order makes it nondeterministic.
- Clock reads are not modelled: `time.Now()` becomes a parameter, and the tickers become events. `Allow` reads the clock more than once, for the comparison and again for the new `lastSeen`. The model uses one `now` per call.
- JSON decoding of the runtime's stats body is not modelled, and neither are JSON encoding of replies or the `omitempty` field rules. The decode outcome is an input to the pump.
- The runtime client and its construction, the configuration loader and the regular-expression engine are not modelled. Configuration values arrive as the values the loader hands back, and the ID pattern is stated directly as a predicate.
- StatsStream.Produce: the calculator's error result is always nil, so the pump's "calculate failed" branch is unreachable and is not modelled.
- DockerMetrics.CalculateStats: the network table is a list in iteration order rather than a map. Because addition modulo 2^64 is commutative, order does not matter.
- DockerMetrics.CalculateStats: fields are `nat` (u64 ranges), with the wraps made explicit where the source subtracts or sums. The percentages are computed exactly, not as `float64`.
- HttpMetrics.RecordHttpRequest: the key is the triple (method, path, status), not the formatted text "method path status". Two different triples can format to the same text only when a path contains the separator, and that case is not modelled.
- HttpMetrics.AverageLatency: the sum is unbounded rather than a wrapping `int64`.
- HttpMetrics.GaugesStayOrdered: the gauges are unbounded rather than `int64`.
- Containers.DisplayName: requires an ID of at least 12 characters, because the Go slice panics otherwise. `Containers.ListContainers` models that panic as an explicit outcome instead of requiring it away.
- Containers.DisplayName: Go's `len` and slicing count bytes, while the model counts characters. An ID of fewer than 12 characters but at least 12 bytes of UTF-8 does not panic in Go, yet the model reports `Panicked`; such an ID would be sliced mid-character in Go.
- Containers.ListContainers: the reply's `Meta.Total` being omitted from JSON when it is zero is not modelled.
- ApiErrors.ErrorResponse: the timestamp is an input string, so its RFC 3339 formatting is not modelled.
- Server.NoRoute: the router's trailing-slash redirect runs before the fallback, so a `GET /metrics/` is redirected to `/metrics` and never reaches `NoRoute`; only requests that no route or redirect handles, such as `POST /metrics/`, reach `NoRoute`.
- LogStream.LogsHandler: an upgrade that fails for reasons other than the origin (a request that is not a WebSocket handshake) is not modelled; such a request, like a refused origin, never reaches the log call.
- The rest of the server is not modelled: route registration, static files, the health endpoint, graceful shutdown and logger construction. These are framework wiring, filesystem access or I/O.
- The container control and image handlers, the events stream, the correlation-ID and recovery middleware, the static-file servers and the CORS middleware are not modelled. They are pass-through wrappers or framework code, or their implementation is not part of this model. The same applies to the front-end reconnection client.
- Strings are sequences of Unicode characters. Invalid UTF-8 bytes in Go strings are not modelled.
