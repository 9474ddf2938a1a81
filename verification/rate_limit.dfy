/** The per-IP request limiter (backend/internal/middleware/ratelimit.go).

    Each client IP has a visitor record `{lastSeen, count}`. A request from an
    unseen IP, or one arriving more than `duration` after the visitor's last
    allowed request, is allowed and restarts the count at 1; otherwise it is
    allowed only while the count is below `rate`. The window therefore
    re-arms from the last allowed request: this is a fixed-count window, not
    a token bucket. Times are integer nanoseconds passed in by the caller. */
module RateLimit {
  import opened Primitives

  const Minute: int := 60 * 1_000_000_000
  const IdleEviction: int := 10 * Minute

  datatype Visitor = Visitor(lastSeen: int, count: int)

  datatype Limiter = Limiter(visitors: map<string, Visitor>, rate: int, duration: int)

  /** A limiter with no visitors yet and the given settings. */
  function NewRateLimiter(rate: int, duration: int): (l: Limiter)
    ensures l.visitors == map[] && l.rate == rate && l.duration == duration
  {
    Limiter(map[], rate, duration)
  }

  datatype Decision = Decision(allowed: bool, limiter: Limiter)

  /** `RateLimiter.Allow`. */
  function Allow(l: Limiter, ip: string, now: int): (d: Decision)
    // only the entry for `ip` can change, and the settings never do
    ensures d.limiter.rate == l.rate && d.limiter.duration == l.duration
    ensures d.limiter.visitors.Keys == l.visitors.Keys + {ip}
    ensures forall k :: k in l.visitors && k != ip ==> d.limiter.visitors[k] == l.visitors[k]
    // first request from an IP
    ensures ip !in l.visitors ==> d.allowed && d.limiter.visitors[ip] == Visitor(now, 1)
    // window elapsed (strictly more than `duration` since the last allowed request)
    ensures ip in l.visitors && now - l.visitors[ip].lastSeen > l.duration ==>
              d.allowed && d.limiter.visitors[ip] == Visitor(now, 1)
    // within the window: denied exactly at the limit, and a denial changes nothing
    ensures ip in l.visitors && now - l.visitors[ip].lastSeen <= l.duration ==>
              (d.allowed <==> l.visitors[ip].count < l.rate)
    ensures !d.allowed ==> d.limiter == l
    ensures ip in l.visitors && now - l.visitors[ip].lastSeen <= l.duration && d.allowed ==>
              d.limiter.visitors[ip] == Visitor(now, l.visitors[ip].count + 1)
  {
    if ip !in l.visitors then
      Decision(true, l.(visitors := l.visitors[ip := Visitor(now, 1)]))
    else
      var v := l.visitors[ip];
      if now - v.lastSeen > l.duration then
        Decision(true, l.(visitors := l.visitors[ip := Visitor(now, 1)]))
      else if v.count >= l.rate then
        Decision(false, l)
      else
        Decision(true, l.(visitors := l.visitors[ip := Visitor(now, v.count + 1)]))
  }

  /** The cleanup pass at time `now`: drops visitors idle for more than ten minutes. */
  function Cleanup(l: Limiter, now: int): (r: Limiter)
    ensures r.rate == l.rate && r.duration == l.duration
    ensures forall ip :: ip in r.visitors <==> ip in l.visitors && now - l.visitors[ip].lastSeen <= IdleEviction
    ensures forall ip :: ip in r.visitors ==> r.visitors[ip] == l.visitors[ip]
  {
    l.(visitors := map ip | ip in l.visitors && now - l.visitors[ip].lastSeen <= IdleEviction :: l.visitors[ip])
  }

  // ---- Middleware ----

  datatype Reply = Reply(status: int, error: string, message: string)

  datatype Outcome = Outcome(reply: Option<Reply>, aborted: bool, limiter: Limiter)

  /** `RateLimitMiddleware`: 429 and abort exactly when `Allow` refuses. */
  function RateLimitMiddleware(l: Limiter, clientIp: string, now: int): (o: Outcome)
    ensures o.aborted <==> !Allow(l, clientIp, now).allowed
    ensures o.aborted ==> o.reply == Some(Reply(429, "Too many requests", "Rate limit exceeded. Please try again later."))
    ensures !o.aborted ==> o.reply.None?
    ensures o.limiter == Allow(l, clientIp, now).limiter
  {
    var d := Allow(l, clientIp, now);
    if !d.allowed then
      Outcome(Some(Reply(429, "Too many requests", "Rate limit exceeded. Please try again later.")), true, d.limiter)
    else
      Outcome(None, false, d.limiter)
  }

  // ---- Invariant ----

  /** Every recorded visitor has been allowed at least once and at most
      `max(rate, 1)` times in its current window. */
  ghost predicate Bounded(l: Limiter)
  {
    forall ip :: ip in l.visitors ==> 1 <= l.visitors[ip].count <= (if l.rate < 1 then 1 else l.rate)
  }

  datatype Event = Request(ip: string, now: int) | CleanupTick(now: int)

  function Apply(l: Limiter, e: Event): Limiter
  {
    match e
    case Request(ip, now) => Allow(l, ip, now).limiter
    case CleanupTick(now) => Cleanup(l, now)
  }

  function Run(l: Limiter, events: seq<Event>): Limiter
    decreases |events|
  {
    if |events| == 0 then l else Run(Apply(l, events[0]), events[1..])
  }

  lemma AllowKeepsBounded(l: Limiter, ip: string, now: int)
    requires Bounded(l)
    ensures Bounded(Allow(l, ip, now).limiter)
  {
  }

  /** From a fresh limiter, any interleaving of requests and cleanups keeps
      every count between 1 and `max(rate, 1)`. */
  lemma {:induction false} RunKeepsBounded(l: Limiter, events: seq<Event>)
    requires Bounded(l)
    ensures Bounded(Run(l, events))
    decreases |events|
  {
    if |events| > 0 {
      match events[0] {
        case Request(ip, now) => AllowKeepsBounded(l, ip, now);
        case CleanupTick(now) =>
      }
      RunKeepsBounded(Apply(l, events[0]), events[1..]);
    }
  }

  lemma FreshLimiterBounded(rate: int, duration: int, events: seq<Event>)
    ensures Bounded(Run(NewRateLimiter(rate, duration), events))
  {
    RunKeepsBounded(NewRateLimiter(rate, duration), events);
  }

  /** Once an IP has used up its count, every request arriving no more than
      `duration` after its last allowed one is refused, and the refusals do
      not move the window: the state after the burst is the state before. */
  lemma {:induction false} BurstIsCapped(l: Limiter, ip: string, times: seq<int>)
    requires ip in l.visitors && l.visitors[ip].count >= l.rate
    requires forall i :: 0 <= i < |times| ==> times[i] - l.visitors[ip].lastSeen <= l.duration
    ensures forall i :: 0 <= i < |times| ==> !Allow(RunRequests(l, ip, times[..i]), ip, times[i]).allowed
    ensures RunRequests(l, ip, times) == l
    decreases |times|
  {
    if |times| > 0 {
      var init := times[..|times| - 1];
      BurstIsCapped(l, ip, init);
      assert RunRequests(l, ip, times) == Allow(RunRequests(l, ip, init), ip, times[|times| - 1]).limiter;
      forall i | 0 <= i < |times|
        ensures !Allow(RunRequests(l, ip, times[..i]), ip, times[i]).allowed
      {
        if i < |init| {
          assert times[..i] == init[..i];
        } else {
          assert times[..i] == init;
        }
      }
    }
  }

  /** The limiter state after a run of requests from one IP at the given times. */
  function RunRequests(l: Limiter, ip: string, times: seq<int>): Limiter
  {
    if |times| == 0 then l
    else Allow(RunRequests(l, ip, times[..|times| - 1]), ip, times[|times| - 1]).limiter
  }
}
