/** The stats relay (backend/internal/websocket/stats_handler.go) as a
    sequential, event-driven state machine.

    Per connection, a producer ticks once a second: it fetches one
    non-streamed sample, decodes it, passes it through the shared calculator
    and offers the result to a channel of capacity 100 without blocking. A
    consumer writes the channel's results to the viewer in order and sends a
    close frame once the channel is closed and drained. Each event below is
    one producer tick, one consumer step, or the connection's cancellation. */
module StatsStream {
  import opened Primitives
  import opened DockerMetrics
  import Validation
  import WsCommon

  const QueueCapacity: nat := 100

  /** This file declares its own copies of the heartbeat constants, in nanoseconds. */
  const Second: nat := 1_000_000_000
  const PongWait: nat := 60 * Second
  const PingPeriod: nat := (PongWait * 9) / 10

  lemma PingBeforePongDeadline()
    ensures 0 < PingPeriod < PongWait
    ensures PingPeriod == WsCommon.PingPeriod && PongWait == WsCommon.PongWait
  {
  }

  // ---- Gate ----

  datatype Rejection = Rejection(status: int, error: string)

  /** Only an empty ID is refused on this path; the ID format is not checked. */
  function StatsRequest(id: string): (r: Option<Rejection>)
    ensures r.Some? <==> id == ""
    ensures r.Some? ==> r.value == Rejection(400, "Container ID is required")
  {
    if id == "" then Some(Rejection(400, "Container ID is required")) else None
  }

  /** The handler's own upgrader accepts every origin, unlike `GetUpgrader`. */
  function StatsCheckOrigin(origin: string): (ok: bool)
    ensures ok
  {
    true
  }

  /** Unlike the logs and REST paths, the stats path lets through IDs the
      container-ID validator refuses, and origins the configured list refuses. */
  lemma StatsGateIsLooser()
    ensures StatsRequest("../../etc").None? && !Validation.ValidateContainerID("../../etc")
    ensures StatsCheckOrigin("https://evil.example") && !WsCommon.CheckOrigin(["https://app.example"], "https://evil.example")
  {
    assert !Validation.IsIdChar("../../etc"[0]);
  }

  // ---- The pump ----

  /** What one producer tick obtains: the runtime call failed, the body did
      not decode, or a sample decoded at time `now`. */
  datatype Fetch = RuntimeError | DecodeError | Decoded(sample: StatsResponse, now: int)

  datatype Event =
    | Tick(fetch: Fetch)       // the producer's ticker fired
    | Deliver(writeOk: bool)   // the consumer takes a turn; `writeOk` is the transport's answer
    | Cancel                   // the request context is done

  /** `enqueued` is the history of every result accepted into the channel;
      `dropped` counts results discarded on a full channel. */
  datatype Pump = Pump(
    id: string,
    baselines: Baselines,
    queue: seq<ContainerStats>,
    closed: bool,
    consumerDone: bool,
    closeFrameSent: bool,
    written: seq<ContainerStats>,
    enqueued: seq<ContainerStats>,
    dropped: nat)

  function Start(id: string, baselines: Baselines): Pump
  {
    Pump(id, baselines, [], false, false, false, [], [], 0)
  }

  ghost predicate Valid(p: Pump)
  {
    && |p.queue| <= QueueCapacity
    && |p.written| <= |p.enqueued| && p.enqueued[..|p.written|] == p.written
    && (!p.consumerDone ==> p.enqueued == p.written + p.queue)
    && (p.consumerDone ==> p.closed)
    && (p.closeFrameSent ==> p.consumerDone && p.queue == [])
  }

  /** One producer tick. Once the producer has exited nothing happens. */
  function Produce(p: Pump, f: Fetch): (r: Pump)
    ensures p.closed ==> r == p
    ensures !p.closed && f.RuntimeError? ==> r == p.(closed := true)
    ensures f.DecodeError? ==> r == p
    ensures !p.closed && f.Decoded? ==>
              var c := CalculateStats(p.baselines, p.id, f.sample, f.now);
              && r.baselines == c.baselines
              && (|p.queue| < QueueCapacity ==>
                    r == p.(baselines := c.baselines, queue := p.queue + [c.stats], enqueued := p.enqueued + [c.stats]))
              && (|p.queue| >= QueueCapacity ==>
                    r == p.(baselines := c.baselines, dropped := p.dropped + 1))
  {
    if p.closed then p
    else match f
      case RuntimeError => p.(closed := true)
      case DecodeError => p
      case Decoded(sample, now) =>
        var c := CalculateStats(p.baselines, p.id, sample, now);
        if |p.queue| < QueueCapacity then
          p.(baselines := c.baselines, queue := p.queue + [c.stats], enqueued := p.enqueued + [c.stats])
        else
          p.(baselines := c.baselines, dropped := p.dropped + 1)
  }

  /** One consumer step: write the head, or send the close frame once the
      channel is closed and drained. A failed write ends the handler, whose
      deferred cancel stops the producer too. */
  function Consume(p: Pump, writeOk: bool): (r: Pump)
    ensures p.consumerDone ==> r == p
    ensures !p.consumerDone && p.queue == [] && !p.closed ==> r == p
    ensures !p.consumerDone && p.queue == [] && p.closed ==>
              r == p.(consumerDone := true, closeFrameSent := true)
    ensures !p.consumerDone && p.queue != [] && writeOk ==>
              r == p.(queue := p.queue[1..], written := p.written + [p.queue[0]])
    ensures !p.consumerDone && p.queue != [] && !writeOk ==>
              r == p.(queue := p.queue[1..], consumerDone := true, closed := true)
  {
    if p.consumerDone then p
    else if p.queue == [] then
      if p.closed then p.(consumerDone := true, closeFrameSent := true) else p
    else if writeOk then p.(queue := p.queue[1..], written := p.written + [p.queue[0]])
    else p.(queue := p.queue[1..], consumerDone := true, closed := true)
  }

  /** One event. Cancellation stops both sides at once: no close frame is
      sent and the queue is left as it is. The producer never writes and the
      consumer never touches the baselines or the channel's history. */
  function Step(p: Pump, e: Event): (r: Pump)
    ensures e.Cancel? ==> && r.closed && r.consumerDone
                          && r.closeFrameSent == p.closeFrameSent
                          && r.queue == p.queue && r.written == p.written && r.enqueued == p.enqueued
                          && r.baselines == p.baselines && r.dropped == p.dropped
    ensures e.Tick? ==> r.written == p.written && r.consumerDone == p.consumerDone
    ensures e.Deliver? ==> r.baselines == p.baselines && r.enqueued == p.enqueued && r.dropped == p.dropped
  {
    match e
    case Tick(f) => Produce(p, f)
    case Deliver(ok) => Consume(p, ok)
    case Cancel => p.(closed := true, consumerDone := true)
  }

  function Run(p: Pump, events: seq<Event>): Pump
    decreases |events|
  {
    if |events| == 0 then p else Run(Step(p, events[0]), events[1..])
  }

  // ---- Properties ----

  lemma StartIsValid(id: string, b: Baselines)
    ensures Valid(Start(id, b))
  {
  }

  lemma StepPreservesValid(p: Pump, e: Event)
    requires Valid(p)
    ensures Valid(Step(p, e))
  {
    var r := Step(p, e);
    match e
    case Tick(f) =>
      if !p.closed && f.Decoded? && |p.queue| < QueueCapacity {
        assert r.enqueued == p.enqueued + [r.queue[|r.queue| - 1]];
        assert r.enqueued[..|r.written|] == p.enqueued[..|p.written|];
      }
    case Deliver(ok) =>
      if !p.consumerDone && p.queue != [] {
        if ok {
          assert r.written + r.queue == p.written + p.queue;
        }
      }
    case Cancel =>
  }

  /** Any run from a valid state keeps the channel within capacity and
      writes results in exactly the order they were accepted. */
  lemma {:induction false} RunPreservesValid(p: Pump, events: seq<Event>)
    requires Valid(p)
    ensures Valid(Run(p, events))
    ensures |Run(p, events).queue| <= QueueCapacity
    ensures Run(p, events).written == Run(p, events).enqueued[..|Run(p, events).written|]
    decreases |events|
  {
    if |events| > 0 {
      StepPreservesValid(p, events[0]);
      RunPreservesValid(Step(p, events[0]), events[1..]);
    }
  }

  /** The consumer's output only grows, so what is written stays written. */
  lemma {:induction false} WrittenOnlyGrows(p: Pump, events: seq<Event>)
    ensures |p.written| <= |Run(p, events).written|
    ensures Run(p, events).written[..|p.written|] == p.written
    decreases |events|
  {
    if |events| > 0 {
      var q := Step(p, events[0]);
      assert |p.written| <= |q.written| && q.written[..|p.written|] == p.written;
      WrittenOnlyGrows(q, events[1..]);
    }
  }

  predicate AllDecoded(events: seq<Event>)
  {
    forall i :: 0 <= i < |events| ==> events[i].Tick? && events[i].fetch.Decoded?
  }

  /** Backpressure: with the consumer stalled, n decoded ticks fill the
      channel up to its capacity and no further; every excess result is
      dropped and counted, and the producer never waits. */
  lemma {:induction false} StalledConsumerFillsToCapacity(p: Pump, events: seq<Event>)
    requires Valid(p) && !p.closed && AllDecoded(events)
    ensures var r := Run(p, events);
            && |r.queue| == (if |p.queue| + |events| <= QueueCapacity then |p.queue| + |events| else QueueCapacity)
            && |r.queue| + r.dropped == |p.queue| + p.dropped + |events|
            && !r.closed
    decreases |events|
  {
    if |events| > 0 {
      StepPreservesValid(p, events[0]);
      assert AllDecoded(events[1..]) by {
        forall i | 0 <= i < |events[1..]| ensures events[1..][i].Tick? && events[1..][i].fetch.Decoded? {
          assert events[1..][i] == events[i + 1];
        }
      }
      StalledConsumerFillsToCapacity(Step(p, events[0]), events[1..]);
    }
  }

  /** A decode failure skips the tick and leaves everything as it was; a
      runtime failure ends the producer, after which later ticks do nothing
      and the consumer drains what is queued and then closes. */
  lemma RuntimeErrorEndsProducer(p: Pump, events: seq<Event>)
    requires !p.closed
    ensures Run(p.(closed := true), events).baselines == p.baselines
    ensures Step(p, Tick(RuntimeError)).closed
    ensures Step(p, Tick(DecodeError)) == p
  {
    ClosedRunKeepsBaselines(p.(closed := true), events);
  }

  lemma {:induction false} ClosedRunKeepsBaselines(p: Pump, events: seq<Event>)
    requires p.closed
    ensures Run(p, events).baselines == p.baselines && Run(p, events).closed
    ensures |Run(p, events).enqueued| == |p.enqueued|
    decreases |events|
  {
    if |events| > 0 {
      ClosedRunKeepsBaselines(Step(p, events[0]), events[1..]);
    }
  }

  /** A closed, drained channel: the next consumer step sends the close
      frame and the consumer stops for good. */
  lemma DrainedChannelCloses(p: Pump, ok: bool, events: seq<Event>)
    requires Valid(p) && p.closed && p.queue == [] && !p.consumerDone
    ensures Step(p, Deliver(ok)).closeFrameSent
    ensures Run(Step(p, Deliver(ok)), events).written == p.written
  {
    StoppedConsumerWritesNothing(Step(p, Deliver(ok)), events);
  }

  lemma {:induction false} StoppedConsumerWritesNothing(p: Pump, events: seq<Event>)
    requires p.consumerDone
    ensures Run(p, events).written == p.written && Run(p, events).consumerDone
    decreases |events|
  {
    if |events| > 0 {
      StoppedConsumerWritesNothing(Step(p, events[0]), events[1..]);
    }
  }
}
