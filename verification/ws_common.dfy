/** Shared WebSocket settings (backend/internal/websocket/common.go): the
    heartbeat timing constants and the origin rule of `GetUpgrader`. */
module WsCommon {

  /** Durations are Go `time.Duration` values: integer nanoseconds. */
  const Second: nat := 1_000_000_000
  const PongWait: nat := 60 * Second
  const PingPeriod: nat := (PongWait * 9) / 10

  /** Pings go out strictly more often than the peer's pong deadline. */
  lemma PingBeforePongDeadline()
    ensures PingPeriod == 54 * Second
    ensures 0 < PingPeriod < PongWait
  {
  }

  /** The configured `CORS_ALLOWED_ORIGINS`, with an empty list read as `["*"]`. */
  function EffectiveOrigins(configured: seq<string>): (allowed: seq<string>)
    ensures |allowed| > 0
    ensures |configured| > 0 ==> allowed == configured
  {
    if |configured| == 0 then ["*"] else configured
  }

  /** The `CheckOrigin` loop over the allowed list: accept at the first
      entry that is `"*"` or equal to the request's Origin header. */
  function OriginAllowed(allowed: seq<string>, origin: string): (ok: bool)
    ensures ok <==> exists i :: 0 <= i < |allowed| && (allowed[i] == "*" || allowed[i] == origin)
  {
    if |allowed| == 0 then false
    else if allowed[0] == "*" || allowed[0] == origin then true
    else OriginAllowed(allowed[1..], origin)
  }

  /** The origin rule of the upgrader built by `GetUpgrader`. A missing
      Origin header reads as the empty string. */
  function CheckOrigin(configured: seq<string>, origin: string): (ok: bool)
    ensures |configured| == 0 ==> ok
    ensures |configured| > 0 ==>
              (ok <==> exists i :: 0 <= i < |configured| && (configured[i] == "*" || configured[i] == origin))
  {
    OriginAllowed(EffectiveOrigins(configured), origin)
  }

  /** With nothing configured every origin is accepted. */
  lemma EmptyConfigAcceptsAll(origin: string)
    ensures CheckOrigin([], origin)
  {
    assert EffectiveOrigins([])[0] == "*";
  }

  /** Without a wildcard, matching is exact and case-sensitive equality with
      some entry: no prefix, suffix or subdomain matching. */
  lemma ExactMatchOnly(configured: seq<string>, origin: string)
    requires |configured| > 0 && "*" !in configured
    ensures CheckOrigin(configured, origin) <==> origin in configured
  {
    if CheckOrigin(configured, origin) {
      var i :| 0 <= i < |configured| && (configured[i] == "*" || configured[i] == origin);
      assert configured[i] in configured;
    }
    if origin in configured {
      var i :| 0 <= i < |configured| && configured[i] == origin;
    }
  }

  /** A request without an Origin header passes only through a wildcard or
      an entry that is itself empty. */
  lemma MissingOriginHeader(configured: seq<string>)
    requires |configured| > 0
    ensures CheckOrigin(configured, "") <==> "*" in configured || "" in configured
  {
    if CheckOrigin(configured, "") {
      var i :| 0 <= i < |configured| && (configured[i] == "*" || configured[i] == "");
      assert configured[i] in configured;
    }
    if "*" in configured || "" in configured {
      var i :| 0 <= i < |configured| && (configured[i] == "*" || configured[i] == "");
    }
  }

  /** Concrete instances: an origin that merely extends an allowed one, or
      differs in case, is refused. */
  lemma LookalikeOriginsRefused()
    ensures !CheckOrigin(["https://app.example.com"], "https://app.example.com.evil.net")
    ensures !CheckOrigin(["https://app.example.com"], "https://APP.example.com")
    ensures CheckOrigin(["https://app.example.com"], "https://app.example.com")
  {
    assert "https://app.example.com" != "https://app.example.com.evil.net"[..|"https://app.example.com"| + 1];
    assert "https://app.example.com"[8] != "https://APP.example.com"[8];
  }
}
