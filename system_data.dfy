/** Snapshot assembly, src/agent/system_data.rs: the per-disk and
    per-interface records, the thread accounting loop and the top-process
    list of `collect_extended_metrics`, with the OS readings passed in as an
    `OsReadings` value; and `From<ExtendedSystemData> for SystemDataGB`. */
module SystemData {
  import opened Util
  import opened ProcStat
  import opened Metrics
  import opened Ranking

  // ---------------------------------------------------------------- disks

  /** `a - b` on `u64` as a release build computes it: wrapping on underflow. */
  function WrappingSub(a: u64, b: u64): u64
  {
    if a >= b then a - b else a - b + U64_MAX + 1
  }

  /** `100.0 * (total - available) as f32 / total as f32`. The division is not
      guarded: a volume of total size 0 gives NaN (or infinity), not 0. */
  function UsagePercent(total: u64, available: u64): (r: Float)
    ensures r.NonFinite? <==> total == 0
    ensures total > 0 && available <= total ==>
              0.0 <= r.value <= 100.0 && r.value * total as real == 100.0 * (total - available) as real
    ensures total > 0 && available == total ==> r == Finite(0.0)
    ensures total > 0 && available == 0 ==> r == Finite(100.0)
  {
    if total == 0 then NonFinite
    else
      var used := WrappingSub(total, available) as real;
      var p := 100.0 * used / total as real;
      PercentOfPart(used, total as real);
      Finite(p)
  }

  /** `100 * part / whole` for a part of a positive whole lies between 0 and 100. */
  lemma PercentOfPart(part: real, whole: real)
    requires whole > 0.0
    ensures 0.0 <= part <= whole ==> 0.0 <= 100.0 * part / whole <= 100.0
    ensures (100.0 * part / whole) * whole == 100.0 * part
    ensures part == whole ==> 100.0 * part / whole == 100.0
  {
    var q := part / whole;
    assert q * whole == part;
    assert (q - 1.0) * whole == part - whole;
    if 0.0 <= part <= whole {
      assert (q - 1.0) * whole <= 0.0;
      assert q - 1.0 <= 0.0;
      assert q * whole >= 0.0;
      assert q >= 0.0;
    }
    if part == whole {
      assert (q - 1.0) * whole == 0.0;
      assert q == 1.0;
    }
    assert 100.0 * part / whole == 100.0 * q;
  }

  function AsDiskMetrics(d: DiskReading): DiskIOMetrics
  {
    DiskIOMetrics(d.name, UsagePercent(d.totalSpace, d.availableSpace), d.totalSpace, d.availableSpace)
  }

  /** `disk_usage`: one record per disk, in order, with name and sizes copied. */
  function DiskUsage(disks: seq<DiskReading>): (r: seq<DiskIOMetrics>)
    ensures |r| == |disks|
    ensures forall i :: 0 <= i < |disks| ==>
              && r[i].nome == disks[i].name
              && r[i].total == disks[i].totalSpace
              && r[i].disponivel == disks[i].availableSpace
              && r[i].uso == UsagePercent(disks[i].totalSpace, disks[i].availableSpace)
  {
    Map(disks, AsDiskMetrics)
  }

  // ---------------------------------------------------------------- network

  function AsNetworkMetrics(n: NetworkReading): NetworkMetrics
  {
    NetworkMetrics(n.name, n.received, n.transmitted)
  }

  /** `network_usage`: one record per interface, in order, with the cumulative
      counters copied unchanged (no rate is computed). */
  function NetworkUsage(networks: seq<NetworkReading>): (r: seq<NetworkMetrics>)
    ensures |r| == |networks|
    ensures forall i :: 0 <= i < |networks| ==>
              && r[i].interfaceName == networks[i].name
              && r[i].bytesReceived == networks[i].received
              && r[i].bytesSent == networks[i].transmitted
  {
    Map(networks, AsNetworkMetrics)
  }

  // ---------------------------------------------------------------- threads

  /** The cpu usage above which a process's threads count as active. */
  const ACTIVE_CPU_THRESHOLD: real := 0.1

  predicate IsActive(p: ProcessReading)
  {
    p.cpuUsage > ACTIVE_CPU_THRESHOLD
  }

  /** The sum of the thread counts of `procs`. */
  function TotalThreads(procs: seq<ProcessReading>): nat
  {
    if procs == [] then 0
    else TotalThreads(procs[..|procs| - 1]) + ThreadCount(procs[|procs| - 1].stat)
  }

  /** The sum of the thread counts of the active processes of `procs`. */
  function ActiveThreads(procs: seq<ProcessReading>): nat
  {
    if procs == [] then 0
    else
      var p := procs[|procs| - 1];
      ActiveThreads(procs[..|procs| - 1]) + (if IsActive(p) then ThreadCount(p.stat) else 0)
  }

  function AsThreadDetail(p: ProcessReading): ThreadDetail
  {
    ThreadDetail(p.name, ThreadCount(p.stat), p.cpuUsage)
  }

  /** `thread_details`: one entry per process, in enumeration order. */
  function ThreadDetails(procs: seq<ProcessReading>): (r: seq<ThreadDetail>)
    ensures |r| == |procs|
    ensures forall i :: 0 <= i < |procs| ==>
              && r[i].processName == procs[i].name
              && r[i].threadCount == ThreadCount(procs[i].stat)
              && r[i].cpuUsage == procs[i].cpuUsage
  {
    Map(procs, AsThreadDetail)
  }

  lemma {:induction false} ActiveAtMostTotal(procs: seq<ProcessReading>)
    ensures ActiveThreads(procs) <= TotalThreads(procs)
  {
    if procs != [] {
      ActiveAtMostTotal(procs[..|procs| - 1]);
    }
  }

  /** The active count is the total count of the active processes alone. */
  lemma {:induction false} ActiveThreadsOfActiveProcesses(procs: seq<ProcessReading>)
    ensures ActiveThreads(procs) == TotalThreads(Filter(procs, IsActive))
  {
    if procs != [] {
      var init, p := procs[..|procs| - 1], procs[|procs| - 1];
      assert procs == init + [p];
      ActiveThreadsOfActiveProcesses(init);
      FilterConcat(init, [p], IsActive);
      FilterSingleton(p, IsActive);
      var f := Filter(init, IsActive);
      if IsActive(p) {
        assert (f + [p])[..|f + [p]| - 1] == f;
      } else {
        assert f + [] == f;
      }
    }
  }

  /** When no stat file can be opened or read, every process counts for one thread. */
  lemma {:induction false} TotalThreadsWithoutStatFiles(procs: seq<ProcessReading>)
    requires forall i :: 0 <= i < |procs| ==> !procs[i].stat.Read?
    ensures TotalThreads(procs) == |procs|
  {
    if procs != [] {
      TotalThreadsWithoutStatFiles(procs[..|procs| - 1]);
    }
  }

  /** `thread_per_core`: `total_threads as f32 / num_cpus::get() as f32`, the
      unguarded division, so a core count of 0 gives NaN or infinity. */
  function ThreadPerCore(totalThreads: nat, logicalCores: nat): (r: Float)
    ensures r.NonFinite? <==> logicalCores == 0
    ensures logicalCores > 0 ==> 0.0 <= r.value <= totalThreads as real && r.value * logicalCores as real == totalThreads as real
  {
    if logicalCores == 0 then NonFinite else Finite(totalThreads as real / logicalCores as real)
  }

  // ---------------------------------------------------------------- snapshot

  /** The snapshot `collect_extended_metrics` builds from one set of readings. */
  function Assemble(r: OsReadings): (data: ExtendedSystemData)
    ensures data.timestamp == r.unixSeconds && data.agentId == None
    ensures data.cpuUsage == r.globalCpuUsage && data.systemLoad == r.load
    ensures data.totalMemory == r.totalMemory && data.usedMemory == r.usedMemory
    ensures |data.diskUsage| == |r.disks| && |data.networkUsage| == |r.networks|
    ensures |data.topProcesses| <= TOP_PROCESS_LIMIT
    ensures data.threadMetrics.activeThreads <= data.threadMetrics.totalThreads
    ensures |data.threadMetrics.threadDetails| == |r.processes|
  {
    ActiveAtMostTotal(r.processes);
    TopProcessesShape(r.processes);
    var total := TotalThreads(r.processes);
    ExtendedSystemData(
      r.unixSeconds,
      None,
      r.globalCpuUsage,
      r.totalMemory,
      r.usedMemory,
      DiskUsage(r.disks),
      NetworkUsage(r.networks),
      TopProcesses(r.processes),
      r.load,
      ThreadMetrics(total, ActiveThreads(r.processes), ThreadPerCore(total, r.logicalCores), ThreadDetails(r.processes)))
  }

  /** Accounting for one more process adds its count to the sums and its entry to the details. */
  lemma AccountingStep(procs: seq<ProcessReading>, i: nat)
    requires i < |procs|
    ensures TotalThreads(procs[..i + 1]) == TotalThreads(procs[..i]) + ThreadCount(procs[i].stat)
    ensures ActiveThreads(procs[..i + 1]) == ActiveThreads(procs[..i]) + (if IsActive(procs[i]) then ThreadCount(procs[i].stat) else 0)
    ensures ThreadDetails(procs[..i + 1]) == ThreadDetails(procs[..i]) + [AsThreadDetail(procs[i])]
  {
    assert procs[..i + 1] == procs[..i] + [procs[i]];
    assert procs[..i + 1][..i] == procs[..i];
    MapConcat(procs[..i], [procs[i]], AsThreadDetail);
  }

  /** `collect_extended_metrics`, with the thread accounting done by the
      source's loop over the processes. It never fails. */
  method CollectExtendedMetrics(r: OsReadings) returns (data: ExtendedSystemData)
    ensures data == Assemble(r)
  {
    var procs := r.processes;
    var totalThreads: nat := 0;
    var activeThreads: nat := 0;
    var threadDetails: seq<ThreadDetail> := [];
    for i := 0 to |procs|
      invariant totalThreads == TotalThreads(procs[..i])
      invariant activeThreads == ActiveThreads(procs[..i])
      invariant threadDetails == ThreadDetails(procs[..i])
    {
      var process := procs[i];
      var threadCount := ThreadCount(process.stat);
      totalThreads := totalThreads + threadCount;
      if process.cpuUsage > ACTIVE_CPU_THRESHOLD {
        activeThreads := activeThreads + threadCount;
      }
      threadDetails := threadDetails + [ThreadDetail(process.name, threadCount, process.cpuUsage)];
      AccountingStep(procs, i);
    }
    assert procs[..|procs|] == procs;
    data := ExtendedSystemData(
      r.unixSeconds,
      None,
      r.globalCpuUsage,
      r.totalMemory,
      r.usedMemory,
      DiskUsage(r.disks),
      NetworkUsage(r.networks),
      TopProcesses(procs),
      r.load,
      ThreadMetrics(totalThreads, activeThreads, ThreadPerCore(totalThreads, r.logicalCores), threadDetails));
  }

  // ---------------------------------------------------------------- SystemDataGB

  /** Bytes per gigabyte in the conversion. */
  const GB: real := 1073741824.0

  /** `f64::round`: to the nearest integer, halves away from zero. */
  function Round(x: real): int
  {
    if x >= 0.0 then (x + 0.5).Floor else -((-x + 0.5).Floor)
  }

  /** `format_percentage`: rounds to two decimal places, a whole number of
      hundredths at most 0.005 away. */
  function FormatPercentage(value: real): (r: real)
    ensures -0.005 <= r - value <= 0.005
    ensures (r * 100.0).Floor as real == r * 100.0
  {
    Round(value * 100.0) as real / 100.0
  }

  /** Formatting an already formatted value changes nothing. */
  lemma FormatPercentageIdempotent(value: real)
    ensures FormatPercentage(FormatPercentage(value)) == FormatPercentage(value)
  {
    var k := Round(value * 100.0);
    assert FormatPercentage(value) * 100.0 == k as real;
    if k >= 0 {
      assert (k as real + 0.5).Floor == k;
    } else {
      assert (-(k as real) + 0.5).Floor == -k;
    }
  }

  /** `nome.starts_with("/dev/")`. */
  predicate HasDevPrefix(name: string)
  {
    |name| >= 5 && name[..5] == "/dev/"
  }

  predicate IsDevDisk(d: DiskIOMetrics)
  {
    HasDevPrefix(d.nome)
  }

  function AsDiskGB(d: DiskIOMetrics): DiskIOMetricsGB
  {
    DiskIOMetricsGB(d.nome, d.uso, d.total as real / GB, d.disponivel as real / GB)
  }

  /** The disk list of the conversion: the `/dev/` disks, converted. */
  function DisksGB(disks: seq<DiskIOMetrics>): seq<DiskIOMetricsGB>
  {
    Map(Filter(disks, IsDevDisk), AsDiskGB)
  }

  /** The disk list is determined disk by disk: a disk whose name starts with
      `/dev/` contributes its converted record and any other disk contributes
      nothing, and the contributions are concatenated in the original order. */
  lemma DisksGBByDisk(a: seq<DiskIOMetrics>, b: seq<DiskIOMetrics>, d: DiskIOMetrics)
    ensures DisksGB(a + b) == DisksGB(a) + DisksGB(b)
    ensures DisksGB([d]) == if IsDevDisk(d) then [AsDiskGB(d)] else []
  {
    FilterConcat(a, b, IsDevDisk);
    MapConcat(Filter(a, IsDevDisk), Filter(b, IsDevDisk), AsDiskGB);
    FilterSingleton(d, IsDevDisk);
  }

  /** Exactly the `/dev/` disks are kept: each of them appears converted, and
      every record kept is the conversion of one of them. */
  lemma {:induction false} DisksGBKeepsDevDisks(disks: seq<DiskIOMetrics>)
    ensures forall d :: d in disks && IsDevDisk(d) ==> AsDiskGB(d) in DisksGB(disks)
    ensures forall g :: g in DisksGB(disks) ==> exists d :: d in disks && IsDevDisk(d) && g == AsDiskGB(d)
  {
    if disks != [] {
      var d := disks[0];
      assert disks == [d] + disks[1..];
      DisksGBByDisk([d], disks[1..], d);
      DisksGBKeepsDevDisks(disks[1..]);
    }
  }

  function FormatProcess(p: ProcessMetrics): ProcessMetrics
  {
    ProcessMetrics(p.pid, p.name, FormatPercentage(p.cpuUsage), p.memoryUsage)
  }

  function FormatLoad(l: LoadAverages): LoadAverages
  {
    LoadAverages(FormatPercentage(l.oneMinute), FormatPercentage(l.fiveMinutes), FormatPercentage(l.fifteenMinutes))
  }

  /** `SystemDataGB::from`. */
  function ToSystemDataGB(data: ExtendedSystemData): (r: SystemDataGB)
    ensures r.timestamp == data.timestamp && r.cpuUsage == data.cpuUsage
    ensures r.networkUsage == data.networkUsage && r.threadMetrics == data.threadMetrics
    ensures r.totalMemoryGb * GB == data.totalMemory as real && r.usedMemoryGb * GB == data.usedMemory as real
    ensures r.diskUsage == DisksGB(data.diskUsage)
    ensures forall k :: 0 <= k < |r.diskUsage| ==> HasDevPrefix(r.diskUsage[k].nome)
    ensures |r.diskUsage| <= |data.diskUsage|
    ensures |r.topProcesses| == |data.topProcesses|
    ensures forall k :: 0 <= k < |data.topProcesses| ==>
              && r.topProcesses[k].pid == data.topProcesses[k].pid
              && r.topProcesses[k].name == data.topProcesses[k].name
              && r.topProcesses[k].memoryUsage == data.topProcesses[k].memoryUsage
              && -0.005 <= r.topProcesses[k].cpuUsage - data.topProcesses[k].cpuUsage <= 0.005
  {
    var devDisks := Filter(data.diskUsage, IsDevDisk);
    assert forall k :: 0 <= k < |devDisks| ==> devDisks[k] in devDisks;
    SystemDataGB(
      data.timestamp,
      data.cpuUsage,
      data.totalMemory as real / GB,
      data.usedMemory as real / GB,
      Map(devDisks, AsDiskGB),
      data.networkUsage,
      Map(data.topProcesses, FormatProcess),
      FormatLoad(data.systemLoad),
      data.threadMetrics)
  }
}
