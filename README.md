# Monitoring agent core, modelled in Dafny

The agent samples the machine once per interval and builds an
`ExtendedSystemData` snapshot. A snapshot holds disks, network interfaces,
up to ten of the busiest processes (only those with cpu usage above 0) and
thread accounting read from `/proc/[pid]/stat`. The agent keeps the most
recent snapshots in a bounded history (`MetricsRotation`). A WebSocket
handler pushes the latest one to each connected client once per second.
Snapshots can also be converted to a gigabyte-based record (`SystemDataGB`).

This project models those three sequential pieces and proves their contracts:

- `data_collector.dfy` (module `DataCollector`): the history store, as a
  class whose `metrics` sequence `AddMetric` updates in place, and the
  per-tick step `collect_metrics_with_logging`.
- `proc_stat.dfy` (`ProcStat`): the thread count read from a stat file. This
  covers Rust's `split_whitespace`, token 19, `parse::<usize>` and the
  default of 1.
- `ranking.dfy` (`Ranking`): the top-process pipeline. It filters on cpu > 0,
  applies the stable descending sort, then takes 10.
- `system_data.dfy` (`SystemData`): per-disk and per-interface records, the
  thread-accounting loop, snapshot assembly and `SystemDataGB::from`.
- `websocket.dfy` (`WebSocket`): `handle_ws_connection` as a state machine
  (open or closed) stepping over an explicit trace of events.
- `metrics.dfy` (`Metrics`) holds the records. `util.dfy` (`Util`) holds
  `Option`, `Result`, `Filter` and `Map`.

The operating system's outputs enter as values (`OsReadings`): the sysinfo
enumerations, the stat-file reads, the clock and the core count. The
`tokio::select!` race in the push loop is replaced by the sequence of events
that won it. Each tick carries what `get_metrics` returned at that moment
and the success or failure of serialization and of the send. The handler
only reads the store, and a tick carries a copy of it, so the handler
cannot change the store.

The model follows the code in three places where its results may surprise:

- Disk usage is `100 * (total - available) / total`, computed with no guard.
  A volume of total size 0 yields a non-finite value (`Float.NonFinite`),
  not 0.
- The thread count is read by token position. A command name containing a
  space therefore shifts the fields, and the value read is `nice` rather
  than `num_threads` (`ThreadCountWithSpaceInComm`).
- The push loop breaks only on an inbound `Err`. Every inbound `Ok` frame is
  ignored, and that includes a client's Close frame. So a close request
  alone does not end the loop; it ends at the next inbound error or failed
  send (`InboundOkIgnored`, `OnEvent`).

## Model

| member | source | states |
|---|---|---|
| `DataCollector.AfterAdd` | src/agent/data_collector.rs:21-29 | after an add the last entry is the new snapshot; below capacity nothing is removed (old contents followed by the snapshot); at capacity exactly the oldest entry is evicted; the length never goes above the capacity; the result is empty only for an empty store of capacity 0 |
| `DataCollector.HistoryIsWindow` | src/agent/data_collector.rs:14-29 | from a new store, after adds of `x1..xk` the contents are the last `min(k, max_entries)` inputs in insertion order, and never more than `max_entries` |
| `DataCollector.ZeroCapacityStaysEmpty` | src/agent/data_collector.rs:24-27 | with capacity 0 the store is empty after every sequence of adds |
| `DataCollector.CapacityThreeScenario` | src/agent/data_collector.rs:21-29 | capacity 3 given four snapshots in order keeps the last three |
| `DataCollector.MetricsRotation.constructor` | src/agent/data_collector.rs:14-19 | `new` gives an empty store of the given capacity that satisfies the window invariant |
| `DataCollector.MetricsRotation.AddMetric` | src/agent/data_collector.rs:21-29 | the in-place push and conditional removal of index 0 give `AfterAdd` of the old contents, keep the invariant that the store is the window of all inputs, and bound the length by the capacity |
| `DataCollector.MetricsRotation.GetMetrics` | src/agent/data_collector.rs:31-34 | returns the current contents (the last `max_entries` inputs) as a value, changing nothing |
| `DataCollector.CollectMetricsWithLogging` | src/agent/data_collector.rs:53-79 | always appends the assembled snapshot, the same one offered to the channel, and always returns `Ok(())` |
| `ProcStat.SplitWhitespace` | src/agent/system_data.rs:122 | every token is non-empty and contains no Unicode whitespace |
| `ProcStat.SplitJoin` | src/agent/system_data.rs:122 | tokens written out with any layout of whitespace gaps (any run before the first and after the last, a non-empty run between two) split back into exactly those tokens |
| `ProcStat.SplitWhitespaceDecomposes` | src/agent/system_data.rs:122 | conversely, every string is its tokens written out with its own whitespace gaps, so the split is the one token list the string is made of |
| `ProcStat.StatLineGapsValid` | src/agent/system_data.rs:118-122 | the kernel's layout `StatLineGaps` (no leading gap, single spaces between fields, a final newline) is a valid gap layout for any field list |
| `ProcStat.ParseUsize` | src/agent/system_data.rs:124 | a successful parse means a non-empty string of ASCII digits with at most a leading `+` |
| `ProcStat.ParseUsizeOverflow` | src/agent/system_data.rs:124-125 | an optional `+` followed by ASCII digits whose value exceeds `usize::MAX` is rejected, so the thread count falls back to 1 |
| `ProcStat.ParseUsizeComplete` | src/agent/system_data.rs:124 | an optional `+` followed by ASCII digits whose value fits in `usize` always parses to that value, leading zeros included |
| `ProcStat.ParseDecimal` | src/agent/system_data.rs:124 | the decimal text of any `usize`, with or without `+`, parses back to it |
| `ProcStat.ThreadCount` | src/agent/system_data.rs:118-131 | 1 when the stat file cannot be opened or read, and 1 when it has fewer than 20 tokens; otherwise `FieldCount` of the tokens |
| `ProcStat.ThreadCountOfStatLine` | src/agent/system_data.rs:118-131 | for 20 or more fields written out with any whitespace gaps (a trailing newline included), the count (`FieldCount`) is field index 19 parsed as `usize`, or 1 when that field does not parse |
| `ProcStat.ThreadCountOfDecimal` | src/agent/system_data.rs:118-125 | a stat file written as the kernel does (single spaces, a final newline) whose field index 19 is the decimal text of `n` yields `n` |
| `ProcStat.ThreadCountWithSpaceInComm` | src/agent/system_data.rs:122-123 | whatever the whitespace gaps, a command name split into two tokens makes the count come from field index 18 of the real layout |
| `Ranking.Candidates` | src/agent/system_data.rs:164-172 | every process the filter passes has cpu usage above 0 |
| `Ranking.CandidatesAreTheBusyProcesses` | src/agent/system_data.rs:164-172 | every process with cpu usage above 0 appears among the candidates, converted, and every candidate comes from such a process |
| `Ranking.CandidatesByProcess` | src/agent/system_data.rs:164-172 | the candidates keep enumeration order, process by process: a busy process contributes its converted record, any other nothing |
| `Ranking.Insert` | src/agent/system_data.rs:173 | inserting one entry adds exactly that entry to the multiset |
| `Ranking.SortDescending` | src/agent/system_data.rs:173 | the sort is a permutation of its input, ordered non-increasing by cpu usage |
| `Ranking.SortKeepsTies` | src/agent/system_data.rs:173 | the sort is stable: for every cpu value, the entries with that value appear in their original order |
| `Ranking.TopProcessesShape` | src/agent/system_data.rs:164-175 | `top_processes` (`TopProcesses`) has `min(candidates, 10)` entries, each with cpu usage above 0, in non-increasing cpu order |
| `Ranking.TopProcessesAreTheBusiest` | src/agent/system_data.rs:166-174 | the entries kept are candidates; every candidate left out uses no more cpu than any entry kept; with at most 10 candidates all are kept |
| `Ranking.FewBusyProcessesAllReported` | src/agent/system_data.rs:164-175 | with at most 10 busy processes, every process with cpu usage above 0 is reported in `TopProcesses` |
| `Ranking.TopProcessesKeepTieOrder` | src/agent/system_data.rs:173-174 | for every cpu value, the kept entries with that value are a prefix of the candidates with that value in enumeration order |
| `SystemData.UsagePercent` | src/agent/system_data.rs:105-106 | non-finite exactly when the total is 0; for `available <= total` with `total > 0`, `uso` lies in [0, 100] and `uso * total == 100 * (total - available)`; a full volume gives 100 and an empty one 0 |
| `SystemData.DiskUsage` | src/agent/system_data.rs:99-111 | one record per disk, in order, with `nome`, `total` and `disponivel` copied and `uso` as given by `UsagePercent` |
| `SystemData.NetworkUsage` | src/agent/system_data.rs:156-163 | one record per interface, in order, with the cumulative received and sent counters copied unchanged |
| `SystemData.ThreadDetails` | src/agent/system_data.rs:139-143 | one entry per process, in enumeration order, with its name, its thread count and its cpu usage |
| `SystemData.ActiveAtMostTotal` | src/agent/system_data.rs:133-137 | `active_threads <= total_threads` |
| `SystemData.ActiveThreadsOfActiveProcesses` | src/agent/system_data.rs:135-137 | `active_threads` is the total thread count of the processes with cpu usage above 0.1 |
| `SystemData.TotalThreadsWithoutStatFiles` | src/agent/system_data.rs:118-133 | when no stat file can be read, every process counts one thread |
| `SystemData.ThreadPerCore` | src/agent/system_data.rs:184 | non-finite exactly when the core count is 0; otherwise a value in [0, total] that times the core count gives back the total thread count |
| `SystemData.AccountingStep` | src/agent/system_data.rs:133-143 | one loop iteration adds the process's count to the total, adds it to the active sum only above 0.1, and appends its detail |
| `SystemData.Assemble` | src/agent/system_data.rs:146-187 | the snapshot copies the clock, global cpu, memory and load readings, has no agent id, one disk and one network record per reading, at most 10 top processes, one thread detail per process, and `active <= total` |
| `SystemData.CollectExtendedMetrics` | src/agent/system_data.rs:95-188 | the thread-accounting loop over the processes yields exactly the snapshot `Assemble` describes |
| `SystemData.FormatPercentage` | src/agent/system_data.rs:91-93 | the result is a whole number of hundredths, at most 0.005 away from the value |
| `SystemData.FormatPercentageIdempotent` | src/agent/system_data.rs:91-93 | formatting a formatted value changes nothing |
| `SystemData.DisksGBByDisk` | src/agent/system_data.rs:199-208 | the disk filter (`DisksGB`) works disk by disk and keeps the original order: a `/dev/` disk contributes its converted record and any other disk contributes nothing |
| `SystemData.DisksGBKeepsDevDisks` | src/agent/system_data.rs:199-208 | every `/dev/` disk is kept, converted, and every record kept comes from a `/dev/` disk |
| `SystemData.ToSystemDataGB` | src/agent/system_data.rs:190-225 | `timestamp`, cpu, `network_usage` and `thread_metrics` pass through; memory times GB is the byte count; the disks are the kept `/dev/` disks, each named with that prefix; `top_processes` is mapped position by position, keeping length, pid, name and memory, with cpu within 0.005 |
| `WebSocket.OnEvent` | src/server/websocket.rs:13-35 | an event pushes exactly when it is a tick with a non-empty store and successful serialization and send, and it pushes the store's last element; it closes exactly on an inbound error or a failed send of a serialized snapshot; an empty store and a failed serialization keep the connection open |
| `WebSocket.Run` | src/server/websocket.rs:12-38 | a connection left open has consumed the whole trace |
| `WebSocket.HandleWsConnection` | src/server/websocket.rs:8-38 | the loop ends in the state, with the pushes and after the number of events, that `Run` gives |
| `WebSocket.RunCharacterized` | src/server/websocket.rs:12-38 | the connection ends closed exactly when some event closes it; it stops at the first such event; the pushes are the latest snapshots of the delivering ticks up to there, in order |
| `WebSocket.ClosedIgnoresLaterEvents` | src/server/websocket.rs:19-21 | after a close no later event has any effect, so no later push happens |
| `WebSocket.PushesAtMostTicks` | src/server/websocket.rs:12-29 | there are at most as many pushes as ticks processed while open |
| `WebSocket.EmptyStoreNoPush` | src/server/websocket.rs:15-16 | while the store is empty nothing is pushed, and the connection closes only on an inbound error |
| `WebSocket.SerializationFailureSkipsOnePush` | src/server/websocket.rs:24-26 | a failed serialization skips only that push: the next successful tick pushes its latest snapshot |
| `WebSocket.InboundOkIgnored` | src/server/websocket.rs:32 | an inbound `Ok` frame causes no push and no state change |

## Left out

- The collector loop `collect_system_metrics` and its `interval` timer (src/agent/data_collector.rs:37-51). They are scheduling, not sequential logic.
- The `tokio::spawn` and `mpsc` send in `collect_metrics_with_logging`. The snapshot offered to the channel is returned as a value, and the send's failure is only logged by the source.
- The `Arc<Mutex<...>>` around the history. It only makes each call atomic; the class is used single-threaded.
- The `info!` and `error!` logging calls.
- `System::new_all`, `refresh_all`, the `/proc/[pid]/stat` file reads, `SystemTime::now`, `num_cpus::get` and `load_average`. Their results are fields of `OsReadings`. The panic of the clock's `unwrap` before 1970 is not modelled.
- The `None` arm of `ws_rx.next()` and the `else => break` arm (src/server/websocket.rs:30, 36). Under `select!` they depend on branch disabling.
- JSON serialization and the WebSocket send. Both are success or failure outcomes carried by each tick.
- Exact floating point: values are reals.
- NaN cpu values, which would make `partial_cmp().unwrap()` panic. Cpu values are reals, so they are never NaN. A NaN also fails the `> 0.0` filter in the code, so none reaches the sort there either.
- `UsagePercent`: the f32 rounding of the division is not modelled. A wrapped u64 subtraction is modelled, but the debug-build overflow panic is not.
- `ThreadPerCore`: the f32 division is exact over reals.
- `ToSystemDataGB`: the GB divisions and the f32-to-f64 widening of cpu are exact over reals.
- `FormatPercentage`: rounding is exact over reals. Representation error of f64 is not modelled.
- `CollectExtendedMetrics`: the thread sums are unbounded naturals. A `usize` overflow of `total_threads` or `active_threads` is not modelled.
- `ProcStat.ParseUsize`: `usize` is taken as 64 bits (a 64-bit target). On a 32-bit target the bound is 2^32 - 1, so values between that and `USIZE_MAX` would fail to parse there and give the default of 1.
- Other parts of the repository are not part of this model: src/monitoring/alerts.rs, src/security/auth.rs, src/agent/multi_agent.rs, src/main.rs, src/server/endpoints.rs, src/agent/logging.rs and the React front end. They are wiring, library wrappers or UI. alerts.rs, auth.rs and multi_agent.rs do not compile as written.
