/** The records of src/agent/system_data.rs (`ExtendedSystemData` and its
    parts, `SystemDataGB` and its disk record), and the OS readings that
    `collect_extended_metrics` takes from `sysinfo`, `/proc`, the clock and
    `num_cpus` — here passed in as values. Field names follow the source,
    including its Portuguese `nome`, `uso`, `disponivel`. */
module Metrics {
  import opened Util
  import opened ProcStat

  /** `u64` (the source's byte counters, timestamps and sizes). */
  const U64_MAX: nat := 0xFFFF_FFFF_FFFF_FFFF

  type u64 = n: nat | n <= U64_MAX

  /** A floating-point value: a real number, or the NaN or infinity that an
      IEEE division by zero yields. Rounding is not modelled. */
  datatype Float = Finite(value: real) | NonFinite

  datatype DiskIOMetrics = DiskIOMetrics(nome: string, uso: Float, total: u64, disponivel: u64)

  datatype NetworkMetrics = NetworkMetrics(interfaceName: string, bytesReceived: u64, bytesSent: u64)

  datatype ProcessMetrics = ProcessMetrics(pid: nat, name: string, cpuUsage: real, memoryUsage: u64)

  datatype LoadAverages = LoadAverages(oneMinute: real, fiveMinutes: real, fifteenMinutes: real)

  datatype ThreadDetail = ThreadDetail(processName: string, threadCount: usize, cpuUsage: real)

  datatype ThreadMetrics = ThreadMetrics(
    totalThreads: nat,
    activeThreads: nat,
    threadPerCore: Float,
    threadDetails: seq<ThreadDetail>)

  /** One snapshot: what the history store keeps and the push connection sends. */
  datatype ExtendedSystemData = ExtendedSystemData(
    timestamp: u64,
    agentId: Option<string>,
    cpuUsage: real,
    totalMemory: u64,
    usedMemory: u64,
    diskUsage: seq<DiskIOMetrics>,
    networkUsage: seq<NetworkMetrics>,
    topProcesses: seq<ProcessMetrics>,
    systemLoad: LoadAverages,
    threadMetrics: ThreadMetrics)

  datatype DiskIOMetricsGB = DiskIOMetricsGB(nome: string, uso: Float, total: real, disponivel: real)

  datatype SystemDataGB = SystemDataGB(
    timestamp: u64,
    cpuUsage: real,
    totalMemoryGb: real,
    usedMemoryGb: real,
    diskUsage: seq<DiskIOMetricsGB>,
    networkUsage: seq<NetworkMetrics>,
    topProcesses: seq<ProcessMetrics>,
    systemLoad: LoadAverages,
    threadMetrics: ThreadMetrics)

  /** One entry of `sys.disks()`. */
  datatype DiskReading = DiskReading(name: string, totalSpace: u64, availableSpace: u64)

  /** One entry of `sys.networks()`: the interface name and its cumulative counters. */
  datatype NetworkReading = NetworkReading(name: string, received: u64, transmitted: u64)

  /** One entry of `sys.processes().values()`, with what reading its stat file produced. */
  datatype ProcessReading = ProcessReading(pid: nat, name: string, cpuUsage: real, memory: u64, stat: StatRead)

  /** Everything `collect_extended_metrics` reads from the system, in enumeration order. */
  datatype OsReadings = OsReadings(
    unixSeconds: u64,
    globalCpuUsage: real,
    totalMemory: u64,
    usedMemory: u64,
    disks: seq<DiskReading>,
    networks: seq<NetworkReading>,
    processes: seq<ProcessReading>,
    load: LoadAverages,
    logicalCores: nat)
}
