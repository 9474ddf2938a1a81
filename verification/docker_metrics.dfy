/** The per-container stats calculator (backend/internal/docker/metrics.go).

    The calculator keeps, per container ID, the last raw sample it saw (its
    baseline). Each calculation derives a CPU percentage from the counter
    deltas against that baseline, a cache-excluded memory percentage and the
    summed network and block-I/O byte counts, then overwrites the baseline
    with the new sample. The store is threaded explicitly: every operation
    takes the old baselines and returns the new ones. */
module DockerMetrics {
  import opened Primitives

  // ---- Raw runtime sample (the decoded Docker stats response) ----

  datatype CpuUsage = CpuUsage(totalUsage: u64, percpuUsage: seq<u64>)

  datatype CpuStats = CpuStats(cpuUsage: CpuUsage, systemUsage: u64, onlineCpus: u32)

  /** `stats` is the cgroup statistics table; a nil table and an empty one behave alike. */
  datatype MemoryStats = MemoryStats(usage: u64, limit: u64, stats: map<string, u64>)

  datatype NetworkStats = NetworkStats(rxBytes: u64, txBytes: u64)

  datatype BlkioEntry = BlkioEntry(op: string, value: u64)

  /** One sample. `networks` lists the per-interface counters in the order
      the map is iterated; addition modulo 2^64 makes the order irrelevant. */
  datatype StatsResponse = StatsResponse(
    cpuStats: CpuStats,
    memoryStats: MemoryStats,
    networks: seq<NetworkStats>,
    ioServiceBytes: seq<BlkioEntry>,
    pids: u64)

  // ---- Calculated result ----

  datatype ContainerStats = ContainerStats(
    containerId: string,
    timestamp: int,
    cpuPercent: real,
    memoryUsage: u64,
    memoryLimit: u64,
    memoryPercent: real,
    networkRx: u64,
    networkTx: u64,
    blockRead: u64,
    blockWrite: u64,
    pids: u64)

  /** The calculator's state: the last sample seen for each container. */
  type Baselines = map<string, StatsResponse>

  datatype Calculated = Calculated(stats: ContainerStats, baselines: Baselines)

  const MaxCpuPercent: real := 1000.0

  // ---- CPU ----

  /** Number of cores to scale by: the per-core list length, else the
      reported online count, else one. */
  function CoreCount(s: StatsResponse): (n: nat)
    ensures n >= 1
  {
    if |s.cpuStats.cpuUsage.percpuUsage| > 0 then |s.cpuStats.cpuUsage.percpuUsage|
    else if s.cpuStats.onlineCpus > 0 then s.cpuStats.onlineCpus
    else 1
  }

  /** `calculateCPUPercent`. Both deltas are uint64 subtractions; only a
      backwards CPU counter is guarded, the system delta may wrap. */
  function CalculateCpuPercent(prev: StatsResponse, curr: StatsResponse): (p: real)
    ensures 0.0 <= p <= MaxCpuPercent
    ensures var dSys := SubU64(curr.cpuStats.systemUsage, prev.cpuStats.systemUsage);
            var backwards := curr.cpuStats.cpuUsage.totalUsage < prev.cpuStats.cpuUsage.totalUsage;
            var dCpu := curr.cpuStats.cpuUsage.totalUsage - prev.cpuStats.cpuUsage.totalUsage;
            && (dSys == 0 || backwards ==> p == 0.0)
            && (dSys != 0 && !backwards ==>
                  && p * dSys as real <= dCpu as real * CoreCount(curr) as real * 100.0
                  && (p < MaxCpuPercent ==> p * dSys as real == dCpu as real * CoreCount(curr) as real * 100.0))
  {
    var prevCpu := prev.cpuStats.cpuUsage.totalUsage;
    var currCpu := curr.cpuStats.cpuUsage.totalUsage;
    var deltaCpu := SubU64(currCpu, prevCpu);
    var deltaSystem := SubU64(curr.cpuStats.systemUsage, prev.cpuStats.systemUsage);
    if deltaSystem == 0 || currCpu < prevCpu then 0.0
    else
      var raw := (deltaCpu as real / deltaSystem as real) * CoreCount(curr) as real * 100.0;
      RatioTimesDenominator(deltaCpu as real, deltaSystem as real, CoreCount(curr) as real, 100.0);
      if raw < 0.0 then 0.0
      else if raw > MaxCpuPercent then
        ScaleBelow(MaxCpuPercent, raw, deltaSystem as real);
        MaxCpuPercent
      else raw
  }

  lemma RatioTimesDenominator(a: real, b: real, c: real, d: real)
    requires b > 0.0
    ensures (a / b) * c * d * b == a * c * d
  {
    assert (a / b) * b == a;
  }

  lemma ScaleBelow(p: real, r: real, b: real)
    requires p <= r && b > 0.0
    ensures p * b <= r * b
  {
  }

  // ---- Memory ----

  /** The `"cache"` entry of the cgroup table, or 0 when absent. */
  function CacheBytes(m: MemoryStats): (cache: u64)
    ensures "cache" in m.stats ==> cache == m.stats["cache"]
    ensures "cache" !in m.stats ==> cache == 0
  {
    if "cache" in m.stats then m.stats["cache"] else 0
  }

  /** `usage - cache` as uint64: wraps when the cache exceeds the usage. */
  function Rss(m: MemoryStats): (rss: u64)
    ensures (rss + CacheBytes(m)) % TWO_64 == m.usage
    ensures CacheBytes(m) <= m.usage ==> rss == m.usage - CacheBytes(m)
    ensures CacheBytes(m) > m.usage ==> rss > m.usage
  {
    SubU64(m.usage, CacheBytes(m))
  }

  function MemoryPercent(m: MemoryStats): (p: real)
    ensures m.limit == 0 ==> p == 0.0
    ensures m.limit > 0 ==> p * m.limit as real == Rss(m) as real * 100.0
  {
    if m.limit > 0 then Rss(m) as real / m.limit as real * 100.0 else 0.0
  }

  // ---- Network and block I/O ----

  function RxValues(nets: seq<NetworkStats>): (xs: seq<u64>)
    ensures |xs| == |nets| && forall i :: 0 <= i < |nets| ==> xs[i] == nets[i].rxBytes
  {
    seq(|nets|, i requires 0 <= i < |nets| => nets[i].rxBytes)
  }

  function TxValues(nets: seq<NetworkStats>): (xs: seq<u64>)
    ensures |xs| == |nets| && forall i :: 0 <= i < |nets| ==> xs[i] == nets[i].txBytes
  {
    seq(|nets|, i requires 0 <= i < |nets| => nets[i].txBytes)
  }

  /** The values of the entries whose operation tag is exactly `op`, in order. */
  function OpValues(entries: seq<BlkioEntry>, op: string): seq<u64>
  {
    if |entries| == 0 then []
    else
      var last := entries[|entries| - 1];
      OpValues(entries[..|entries| - 1], op) + (if last.op == op then [last.value] else [])
  }

  // ---- The calculator ----

  /** `CalculateStats`. The Go method also returns an error, which is always nil. */
  function CalculateStats(prev: Baselines, id: string, s: StatsResponse, now: int): (r: Calculated)
    // the baseline for `id` becomes this sample on every path; nothing else changes
    ensures r.baselines.Keys == prev.Keys + {id}
    ensures r.baselines[id] == s
    ensures forall k :: k in prev && k != id ==> r.baselines[k] == prev[k]
    // CPU: zero for a first-seen container, otherwise derived from the baseline
    ensures id !in prev ==> r.stats.cpuPercent == 0.0
    ensures id in prev ==> r.stats.cpuPercent == CalculateCpuPercent(prev[id], s)
    ensures 0.0 <= r.stats.cpuPercent <= MaxCpuPercent
    // memory: cache excluded, zero without a limit
    ensures s.memoryStats.limit == 0 ==> r.stats.memoryPercent == 0.0
    ensures s.memoryStats.limit > 0 ==>
              r.stats.memoryPercent * s.memoryStats.limit as real == Rss(s.memoryStats) as real * 100.0
    // copied fields
    ensures r.stats.containerId == id && r.stats.timestamp == now
    ensures r.stats.memoryUsage == s.memoryStats.usage && r.stats.memoryLimit == s.memoryStats.limit
    ensures r.stats.pids == s.pids
  {
    var cpu := if id in prev then CalculateCpuPercent(prev[id], s) else 0.0;
    var result := ContainerStats(
      containerId := id,
      timestamp := now,
      cpuPercent := cpu,
      memoryUsage := s.memoryStats.usage,
      memoryLimit := s.memoryStats.limit,
      memoryPercent := MemoryPercent(s.memoryStats),
      networkRx := SumU64(RxValues(s.networks)),
      networkTx := SumU64(TxValues(s.networks)),
      blockRead := SumU64(OpValues(s.ioServiceBytes, "Read")),
      blockWrite := SumU64(OpValues(s.ioServiceBytes, "Write")),
      pids := s.pids);
    Calculated(result, prev[id := s])
  }

  /** `ResetStats`: forgets one container's baseline and no other. */
  function ResetStats(prev: Baselines, id: string): (r: Baselines)
    ensures id !in r
    ensures r.Keys == prev.Keys - {id}
    ensures forall k :: k in r ==> r[k] == prev[k]
  {
    prev - {id}
  }

  /** `ClearAllStats`: forgets every baseline. */
  function ClearAllStats(prev: Baselines): (r: Baselines)
    ensures forall k :: k !in r
  {
    map[]
  }

  // ---- Properties ----

  /** The reported totals are the exact sums over all interfaces and over
      the entries tagged exactly "Read"/"Write", reduced modulo 2^64 as the
      uint64 accumulators do. */
  lemma TotalsAreSums(prev: Baselines, id: string, s: StatsResponse, now: int)
    ensures var st := CalculateStats(prev, id, s, now).stats;
            && st.networkRx == Sum(RxValues(s.networks)) % TWO_64
            && st.networkTx == Sum(TxValues(s.networks)) % TWO_64
            && st.blockRead == Sum(OpValues(s.ioServiceBytes, "Read")) % TWO_64
            && st.blockWrite == Sum(OpValues(s.ioServiceBytes, "Write")) % TWO_64
  {
    SumU64IsSumMod(RxValues(s.networks));
    SumU64IsSumMod(TxValues(s.networks));
    SumU64IsSumMod(OpValues(s.ioServiceBytes, "Read"));
    SumU64IsSumMod(OpValues(s.ioServiceBytes, "Write"));
  }

  /** An entry whose tag is neither "Read" nor "Write" (including a
      differently cased one) leaves both block totals unchanged. */
  lemma OtherOpsIgnored(entries: seq<BlkioEntry>, e: BlkioEntry)
    requires e.op != "Read" && e.op != "Write"
    ensures OpValues(entries + [e], "Read") == OpValues(entries, "Read")
    ensures OpValues(entries + [e], "Write") == OpValues(entries, "Write")
  {
    assert (entries + [e])[..|entries|] == entries;
  }

  /** After a reset, the next calculation for that container reports 0 %
      CPU whatever the sample, while other containers keep their baselines. */
  lemma ResetMakesFirstSeen(prev: Baselines, id: string, other: string, s: StatsResponse, now: int)
    requires other != id && other in prev
    ensures CalculateStats(ResetStats(prev, id), id, s, now).stats.cpuPercent == 0.0
    ensures other in ResetStats(prev, id) && ResetStats(prev, id)[other] == prev[other]
  {
  }

  /** After clearing, every container is first-seen again. */
  lemma ClearMakesFirstSeen(prev: Baselines, id: string, s: StatsResponse, now: int)
    ensures CalculateStats(ClearAllStats(prev), id, s, now).stats.cpuPercent == 0.0
  {
  }

  /** A system counter that moved backwards is not treated as a reset: the
      wrapped delta is huge, so a forward-moving CPU counter still yields a
      positive (tiny) percentage rather than zero. */
  lemma BackwardsSystemCounterNotGuarded(prev: StatsResponse, curr: StatsResponse)
    requires curr.cpuStats.systemUsage < prev.cpuStats.systemUsage
    requires curr.cpuStats.cpuUsage.totalUsage > prev.cpuStats.cpuUsage.totalUsage
    ensures CalculateCpuPercent(prev, curr) > 0.0
  {
    var dSys := SubU64(curr.cpuStats.systemUsage, prev.cpuStats.systemUsage);
    var dCpu := SubU64(curr.cpuStats.cpuUsage.totalUsage, prev.cpuStats.cpuUsage.totalUsage);
    assert dSys > 0 && dCpu > 0;
    var q := dCpu as real / dSys as real;
    PositiveQuotient(dCpu as real, dSys as real);
    PositiveProduct(q, CoreCount(curr) as real);
    PositiveProduct(q * CoreCount(curr) as real, 100.0);
  }

  lemma PositiveQuotient(a: real, b: real)
    requires a > 0.0 && b > 0.0
    ensures a / b > 0.0
  {
  }

  lemma PositiveProduct(a: real, b: real)
    requires a > 0.0 && b > 0.0
    ensures a * b > 0.0
  {
  }

  /** Memory usage is the wrapped `usage - cache`: a cache larger than the
      usage makes the percentage enormous rather than negative or zero. */
  lemma CacheAboveUsageWraps()
    ensures MemoryPercent(MemoryStats(100, 1000, map["cache" := 200])) > 100.0
  {
    var m := MemoryStats(100, 1000, map["cache" := 200]);
    assert CacheBytes(m) == 200;
    assert Rss(m) == TWO_64 - 100;
  }

  function Sample(cpu: u64, system: u64, cores: u32, usage: u64, limit: u64, cache: u64): StatsResponse
  {
    StatsResponse(
      CpuStats(CpuUsage(cpu, seq(cores, _ => 100_000_000)), system, cores),
      MemoryStats(usage, limit, map["cache" := cache]),
      [], [], 10)
  }

  /** The worked example: baseline (1e9, 2e9), sample (2e9, 4e9) on four
      cores gives 200 % CPU; 1.2e9 used with 0.2e9 cache under a 2e9 limit
      gives 50 % memory. */
  lemma WorkedExample()
    ensures var first := CalculateStats(map[], "test-container-1",
                                        Sample(1_000_000_000, 2_000_000_000, 4, 1_000_000_000, 2_000_000_000, 200_000_000), 0);
            var second := CalculateStats(first.baselines, "test-container-1",
                                         Sample(2_000_000_000, 4_000_000_000, 4, 1_200_000_000, 2_000_000_000, 200_000_000), 1);
            && first.stats.cpuPercent == 0.0
            && second.stats.cpuPercent == 200.0
            && second.stats.memoryPercent == 50.0
  {
    var s1 := Sample(1_000_000_000, 2_000_000_000, 4, 1_000_000_000, 2_000_000_000, 200_000_000);
    var s2 := Sample(2_000_000_000, 4_000_000_000, 4, 1_200_000_000, 2_000_000_000, 200_000_000);
    assert CoreCount(s2) == 4;
    assert CacheBytes(s2.memoryStats) == 200_000_000;
  }
}
