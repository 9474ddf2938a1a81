/** The in-process counters behind the metrics endpoint
    (backend/internal/metrics/prometheus.go): per-request counters keyed by
    method, path and status, a bounded latency window per key, and the
    active/total WebSocket connection gauges. */
module HttpMetrics {
  import opened Primitives

  const LatencyWindow: nat := 100

  /** The Go key is the text `"<method> <path> <status>"`; it is kept here as
      its three parts. */
  datatype RequestKey = RequestKey(verb: string, path: string, status: int)

  /** Durations are Go `time.Duration` values: integer nanoseconds. */
  datatype Registry = Registry(
    requests: map<RequestKey, nat>,
    latencies: map<RequestKey, seq<int>>,
    wsActive: int,
    wsTotal: int)

  const Empty: Registry := Registry(map[], map[], 0, 0)

  function LatenciesOf(r: Registry, k: RequestKey): seq<int>
  {
    if k in r.latencies then r.latencies[k] else []
  }

  function CountOf(r: Registry, k: RequestKey): nat
  {
    if k in r.requests then r.requests[k] else 0
  }

  /** One duration entering a key's window: appended at the end, and the
      oldest entry evicted once the window would exceed 100. */
  function Slide(window: seq<int>, d: int): (w: seq<int>)
    ensures |w| > 0 && w[|w| - 1] == d
    ensures |w| <= |window| + 1 && w == (window + [d])[|window| + 1 - |w|..]
    ensures |window| < LatencyWindow ==> w == window + [d]
    ensures |window| >= LatencyWindow ==> |w| == |window| && w[..|w| - 1] == window[1..]
  {
    var appended := window + [d];
    if |appended| > LatencyWindow then appended[1..] else appended
  }

  /** `RecordHTTPRequest`: one more request for the key, and its duration
      slid into the key's window; every other key is untouched. */
  function RecordHttpRequest(r: Registry, verb: string, path: string, status: int, duration: int): (r': Registry)
    ensures var k := RequestKey(verb, path, status);
            && CountOf(r', k) == CountOf(r, k) + 1
            && k in r'.requests && k in r'.latencies
            && r'.latencies[k] == Slide(LatenciesOf(r, k), duration)
            && r'.requests.Keys == r.requests.Keys + {k}
            && r'.latencies.Keys == r.latencies.Keys + {k}
            && (forall k' :: k' in r.requests && k' != k ==> r'.requests[k'] == r.requests[k'])
            && (forall k' :: k' in r.latencies && k' != k ==> r'.latencies[k'] == r.latencies[k'])
    ensures r'.wsActive == r.wsActive && r'.wsTotal == r.wsTotal
  {
    var k := RequestKey(verb, path, status);
    r.(requests := r.requests[k := CountOf(r, k) + 1],
       latencies := r.latencies[k := Slide(LatenciesOf(r, k), duration)])
  }

  /** Recording a run of durations, all for the same key. */
  function RecordAll(r: Registry, k: RequestKey, ds: seq<int>): Registry
  {
    if |ds| == 0 then r
    else RecordHttpRequest(RecordAll(r, k, ds[..|ds| - 1]), k.verb, k.path, k.status, ds[|ds| - 1])
  }

  function Min(a: nat, b: nat): nat
  {
    if a < b then a else b
  }

  /** Sliding n durations into an empty window leaves exactly the last
      min(n, 100) of them, oldest first. */
  lemma {:induction false} SlideKeepsLast(ds: seq<int>)
    ensures SlideAll(ds) == ds[|ds| - Min(|ds|, LatencyWindow)..]
  {
    if |ds| > 0 {
      var init, last := ds[..|ds| - 1], ds[|ds| - 1];
      assert ds == init + [last];
      SlideKeepsLast(init);
      if |init| < LatencyWindow {
        assert SlideAll(init) == init;
      } else {
        SlideFullWindow(init, last);
      }
    }
  }

  /** The step of `SlideKeepsLast` once the window is full. */
  lemma SlideFullWindow(init: seq<int>, last: int)
    requires |init| >= LatencyWindow
    ensures Slide(init[|init| - LatencyWindow..], last) == (init + [last])[|init| + 1 - LatencyWindow..]
  {
    var w := init[|init| - LatencyWindow..];
    var start := |init| - LatencyWindow + 1;
    assert Slide(w, last) == (w + [last])[1..] == w[1..] + [last];
    assert w[1..] == init[start..];
  }

  function SlideAll(ds: seq<int>): seq<int>
  {
    if |ds| == 0 then [] else Slide(SlideAll(ds[..|ds| - 1]), ds[|ds| - 1])
  }

  /** After n requests for a key not yet seen, its count went up by n and
      its window holds exactly the last min(n, 100) durations, oldest first. */
  lemma {:induction false} WindowIsLastDurations(r: Registry, k: RequestKey, ds: seq<int>)
    requires k !in r.latencies
    ensures CountOf(RecordAll(r, k, ds), k) == CountOf(r, k) + |ds|
    ensures LatenciesOf(RecordAll(r, k, ds), k) == ds[|ds| - Min(|ds|, LatencyWindow)..]
  {
    WindowIsSlideAll(r, k, ds);
    SlideKeepsLast(ds);
  }

  lemma {:induction false} WindowIsSlideAll(r: Registry, k: RequestKey, ds: seq<int>)
    requires k !in r.latencies
    ensures CountOf(RecordAll(r, k, ds), k) == CountOf(r, k) + |ds|
    ensures LatenciesOf(RecordAll(r, k, ds), k) == SlideAll(ds)
  {
    if |ds| > 0 {
      WindowIsSlideAll(r, k, ds[..|ds| - 1]);
    }
  }

  // ---- WebSocket gauges ----

  function IncrementWebSocketConnections(r: Registry): (r': Registry)
    ensures r'.wsActive == r.wsActive + 1 && r'.wsTotal == r.wsTotal + 1
    ensures r'.requests == r.requests && r'.latencies == r.latencies
  {
    r.(wsActive := r.wsActive + 1, wsTotal := r.wsTotal + 1)
  }

  /** Lowers the active gauge but never below zero; the total never changes. */
  function DecrementWebSocketConnections(r: Registry): (r': Registry)
    ensures r.wsActive > 0 ==> r'.wsActive == r.wsActive - 1
    ensures r.wsActive <= 0 ==> r'.wsActive == r.wsActive
    ensures r'.wsTotal == r.wsTotal
    ensures r'.requests == r.requests && r'.latencies == r.latencies
  {
    if r.wsActive > 0 then r.(wsActive := r.wsActive - 1) else r
  }

  datatype WsEvent = Opened | Closed

  function ApplyWs(r: Registry, e: WsEvent): Registry
  {
    match e
    case Opened => IncrementWebSocketConnections(r)
    case Closed => DecrementWebSocketConnections(r)
  }

  function RunWs(r: Registry, events: seq<WsEvent>): Registry
    decreases |events|
  {
    if |events| == 0 then r else RunWs(ApplyWs(r, events[0]), events[1..])
  }

  /** Any sequence of opens and closes, even unmatched closes, keeps
      0 <= active <= total, and the total never decreases. */
  lemma {:induction false} GaugesStayOrdered(r: Registry, events: seq<WsEvent>)
    requires 0 <= r.wsActive <= r.wsTotal
    ensures var r' := RunWs(r, events);
            0 <= r'.wsActive <= r'.wsTotal && r'.wsTotal >= r.wsTotal
    ensures RunWs(r, events).wsTotal == r.wsTotal + Opens(events)
    decreases |events|
  {
    if |events| > 0 {
      GaugesStayOrdered(ApplyWs(r, events[0]), events[1..]);
    }
  }

  function Opens(events: seq<WsEvent>): nat
  {
    if |events| == 0 then 0 else (if events[0].Opened? then 1 else 0) + Opens(events[1..])
  }

  // ---- Reported averages ----

  function IntSum(xs: seq<int>): int
  {
    if |xs| == 0 then 0 else IntSum(xs[..|xs| - 1]) + xs[|xs| - 1]
  }

  /** Go's integer division, which truncates toward zero. */
  function TruncDiv(a: int, b: int): int
    requires b > 0
  {
    if a >= 0 then a / b else -((-a) / b)
  }

  /** The average a metrics scrape reports for one window: none for an
      empty window, otherwise the truncated integer mean. */
  function AverageLatency(window: seq<int>): (avg: Option<int>)
    ensures avg.Some? <==> |window| > 0
    ensures avg.Some? && IntSum(window) >= 0 ==>
              avg.value * |window| <= IntSum(window) < (avg.value + 1) * |window|
  {
    if |window| == 0 then None else Some(TruncDiv(IntSum(window), |window|))
  }

  lemma {:induction false} SumBounds(xs: seq<int>, lo: int, hi: int)
    requires forall i :: 0 <= i < |xs| ==> lo <= xs[i] <= hi
    ensures |xs| * lo <= IntSum(xs) <= |xs| * hi
  {
    if |xs| > 0 {
      SumBounds(xs[..|xs| - 1], lo, hi);
      assert |xs| * lo == (|xs| - 1) * lo + lo;
      assert |xs| * hi == (|xs| - 1) * hi + hi;
    }
  }

  lemma MulLe(a: int, b: int, n: nat)
    requires a <= b
    ensures a * n <= b * n
  {
  }

  /** The reported mean of non-negative durations lies between the smallest
      and the largest duration in the window. */
  lemma AverageWithinRange(window: seq<int>, lo: int, hi: int)
    requires |window| > 0 && 0 <= lo
    requires forall i :: 0 <= i < |window| ==> lo <= window[i] <= hi
    ensures lo <= AverageLatency(window).value <= hi
  {
    SumBounds(window, lo, hi);
    MulLe(0, lo, |window|);
    assert AverageLatency(window).value == IntSum(window) / |window|;
    DivAtLeast(IntSum(window), |window|, lo);
    DivAtMost(IntSum(window), |window|, hi);
  }

  lemma DivAtLeast(sum: int, n: int, lo: int)
    requires n > 0 && lo * n <= sum
    ensures lo <= sum / n
  {
    var q := sum / n;
    assert sum < (q + 1) * n;
    if q < lo {
      MulLe(q + 1, lo, n);
    }
  }

  lemma DivAtMost(sum: int, n: int, hi: int)
    requires n > 0 && sum <= hi * n
    ensures sum / n <= hi
  {
    var q := sum / n;
    assert q * n <= sum;
  }

  /** The averages a scrape reports: one per key with a non-empty window. */
  function ReportedAverages(r: Registry): (avgs: map<RequestKey, int>)
    ensures forall k :: k in avgs <==> k in r.latencies && |r.latencies[k]| > 0
    ensures forall k :: k in avgs ==> Some(avgs[k]) == AverageLatency(r.latencies[k])
  {
    map k | k in r.latencies && |r.latencies[k]| > 0 :: AverageLatency(r.latencies[k]).value
  }
}
