/** The decisions the server entry point makes from its configuration
    (backend/cmd/server/main.go): log level and router mode, CORS and
    rate-limit defaults, the listen address, and the fallback for paths no
    route matched. Configuration values arrive as the strings, flags and
    numbers the configuration library hands back. */
module Server {
  import opened Primitives
  import RateLimit
  import WsCommon

  // ---- Fallback route ----

  datatype Fallback =
    | NotFoundJson(status: int, error: string)   // `{"error": "Not found"}`
    | ServeIndex                                  // the single-page app's index.html

  /** `NoRoute`: API, WebSocket and metrics paths get a JSON 404; every other
      unmatched path is handed to the single-page app. The prefixes are
      textual, not path segments. */
  function NoRoute(path: string): (f: Fallback)
    ensures f.NotFoundJson? <==> HasPrefix(path, "/api") || HasPrefix(path, "/ws") || path == "/metrics"
    ensures f.NotFoundJson? ==> f == NotFoundJson(404, "Not found")
  {
    if HasPrefix(path, "/api") || HasPrefix(path, "/ws") || path == "/metrics" then NotFoundJson(404, "Not found")
    else ServeIndex
  }

  /** How the fallback classifies paths: client-side routes go to the app;
      unknown API paths, and paths that merely begin with the same letters,
      get the JSON 404. Only the exact metrics path is classified as an API
      path, so "/metrics/" is classified as an app path. */
  lemma FallbackExamples()
    ensures NoRoute("/containers/abc").ServeIndex?
    ensures NoRoute("/").ServeIndex?
    ensures NoRoute("/api/nope").NotFoundJson?
    ensures NoRoute("/apiary").NotFoundJson?
    ensures NoRoute("/wsx").NotFoundJson?
    ensures NoRoute("/metrics").NotFoundJson?
    ensures NoRoute("/metrics/").ServeIndex?
  {
    assert "/containers/abc"[1] != "/api"[1] && "/containers/abc"[1] != "/ws"[1];
    assert "/apiary"[..4] == "/api";
    assert "/wsx"[..3] == "/ws";
    assert "/metrics/"[1] != "/api"[1] && "/metrics/"[1] != "/ws"[1];
  }

  /** Every path below `/api/` is kept away from the app. */
  lemma ApiPathsNeverServeIndex(rest: string)
    ensures NoRoute("/api/" + rest).NotFoundJson?
  {
    assert ("/api/" + rest)[..4] == "/api";
  }

  // ---- Logging ----

  datatype LogLevel = Debug | Info | Warn | Error

  /** `initLogger`'s level switch: the four names select their level, any
      other value (including different case) selects info. */
  function InitLoggerLevel(logLevel: string): (l: LogLevel)
    ensures l == Debug <==> logLevel == "debug"
    ensures l == Warn <==> logLevel == "warn"
    ensures l == Error <==> logLevel == "error"
    ensures l == Info <==> logLevel != "debug" && logLevel != "warn" && logLevel != "error"
  {
    match logLevel
    case "debug" => Debug
    case "info" => Info
    case "warn" => Warn
    case "error" => Error
    case _ => Info
  }

  datatype GinMode = DebugMode | ReleaseMode

  function RouterMode(logLevel: string): (m: GinMode)
    ensures m == DebugMode <==> logLevel == "debug"
  {
    if logLevel == "debug" then DebugMode else ReleaseMode
  }

  /** What the configuration library answers for `LOG_LEVEL` before the
      configuration is loaded: no default and no environment binding exist
      yet, so the answer is the empty string. */
  const UnloadedLogLevel: string := ""

  /** The logger's level and the router's mode that start-up settles on;
      `configured` is the `LOG_LEVEL` value once the configuration is loaded
      (the environment's value, or the default `info`). */
  datatype Startup = Startup(loggerLevel: LogLevel, mode: GinMode)

  /** Start-up as written: the logger is built before the configuration is
      loaded and so reads the unloaded value, while the router mode is chosen
      after loading. Whatever is configured, the logger logs at info. */
  function StartupAsWritten(configured: string): (s: Startup)
    ensures s.loggerLevel == Info
    ensures s.mode == DebugMode <==> configured == "debug"
  {
    Startup(InitLoggerLevel(UnloadedLogLevel), RouterMode(configured))
  }

  /** With `LOG_LEVEL=debug` the router runs in debug mode but the logger
      stays at info, and `LOG_LEVEL=error` does not quieten the logger. */
  lemma ConfiguredLevelIgnoredAtStartup()
    ensures StartupAsWritten("debug") == Startup(Info, DebugMode)
    ensures StartupAsWritten("error").loggerLevel != Error
  {
  }

  /** Start-up with the configuration loaded before the logger is built:
      both the logger and the router see the configured value. */
  function StartupCorrected(configured: string): (s: Startup)
    ensures s.loggerLevel == Debug <==> configured == "debug"
    ensures s.loggerLevel == Warn <==> configured == "warn"
    ensures s.loggerLevel == Error <==> configured == "error"
    ensures s.mode == DebugMode <==> configured == "debug"
  {
    Startup(InitLoggerLevel(configured), RouterMode(configured))
  }

  /** Once the configuration is loaded first, the router runs in debug mode
      exactly when the logger logs at debug level. */
  lemma DebugModeIffDebugLevel(configured: string)
    ensures StartupCorrected(configured).mode == DebugMode <==> StartupCorrected(configured).loggerLevel == Debug
  {
  }

  // ---- CORS and rate limiting ----

  function CorsOrigins(configured: seq<string>): (origins: seq<string>)
    ensures |configured| == 0 ==> origins == ["*"]
    ensures |configured| > 0 ==> origins == configured
  {
    if |configured| == 0 then ["*"] else configured
  }

  /** The CORS middleware and the WebSocket upgrader apply the same default. */
  lemma CorsDefaultMatchesUpgrader(configured: seq<string>)
    ensures CorsOrigins(configured) == WsCommon.EffectiveOrigins(configured)
  {
  }

  const DefaultRateLimit: int := 100

  /** The limiter the router installs, if any: none when rate limiting is
      off; otherwise a limit of 0 reads as 100 and a duration of 0 (in
      nanoseconds) as one minute. Other values, negative ones included,
      are used as given. */
  function RateLimitSetup(enabled: bool, requests: int, duration: int): (l: Option<RateLimit.Limiter>)
    ensures l.Some? <==> enabled
    ensures l.Some? ==> l.value.visitors == map[]
    ensures l.Some? ==> l.value.rate == (if requests == 0 then DefaultRateLimit else requests)
    ensures l.Some? ==> l.value.duration == (if duration == 0 then RateLimit.Minute else duration)
  {
    if !enabled then None
    else
      var rate := if requests == 0 then DefaultRateLimit else requests;
      var window := if duration == 0 then RateLimit.Minute else duration;
      Some(RateLimit.NewRateLimiter(rate, window))
  }

  /** With rate limiting on and the settings left unset, a client gets 100
      requests through and the 101st, in the same minute, is refused. */
  lemma DefaultLimiterAllowsHundred(ip: string, now: int)
    ensures var l := RateLimitSetup(true, 0, 0).value;
            var full := l.(visitors := map[ip := RateLimit.Visitor(now, 100)]);
            && RateLimit.Allow(l.(visitors := map[ip := RateLimit.Visitor(now, 99)]), ip, now).allowed
            && !RateLimit.Allow(full, ip, now + RateLimit.Minute).allowed
  {
  }

  // ---- Listen address ----

  /** `host:port` with an empty host read as `0.0.0.0` and an empty port as `8080`. */
  function ListenAddress(host: string, port: string): (addr: string)
    ensures var h := if host == "" then "0.0.0.0" else host;
            var p := if port == "" then "8080" else port;
            && |addr| == |h| + 1 + |p|
            && addr[..|h|] == h && addr[|h|] == ':' && addr[|h| + 1..] == p
  {
    var p := if port == "" then "8080" else port;
    var h := if host == "" then "0.0.0.0" else host;
    h + ":" + p
  }

  /** When the port has no colon, the text after the address's last colon
      is the port: the address splits back into the configured parts. */
  lemma AddressSplitsAtLastColon(host: string, port: string)
    requires host != "" && port != ""
    requires forall i :: 0 <= i < |port| ==> port[i] != ':'
    ensures var addr := ListenAddress(host, port);
            && addr[|host|] == ':'
            && (forall i :: |host| < i < |addr| ==> addr[i] != ':')
            && addr[..|host|] == host && addr[|host| + 1..] == port
  {
    var addr := ListenAddress(host, port);
    forall i | |host| < i < |addr| ensures addr[i] != ':' {
      assert addr[i] == port[i - |host| - 1];
    }
  }

  lemma DefaultAddress()
    ensures ListenAddress("", "") == "0.0.0.0:8080"
  {
  }
}
