# hotspot-bpf, modelled in Dafny

hotspot-bpf is an eBPF profiler with two kernel programs and a user-space reporter.

- **`cpu_hotspot.c`** runs on every `sched_switch`. It charges the elapsed time to the pid that was running on the CPU and counts how often one pid was switched out for another.
- **`memory_faults.c`** runs on every `handle_mm_fault` and counts faults per process.
- **Go collectors.** Each window, they read those kernel maps, drop empty entries, rank the rest and keep the top `limit`. They also name pids from `/proc` through a cache, and clear the maps with a bounded retry loop.
- **Reporter.** It merges the three snapshots into one row per process, derives CPU share and cost per fault, and labels each row with a diagnosis. It filters and ranks the rows for tables and picks one row as the focus of the status line.

This project models that core and proves what the code promises about it.

| module | file | models |
|---|---|---|
| `Wrappers` | wrappers.dfy | `Option` and `Result` |
| `Words` | words.dfy | `u32`/`u64` as integer ranges, with wrap-around arithmetic |
| `Durations` | durations.dfy | `time.Duration.Seconds()` with the "at most 0 becomes 1" default |
| `CBuffers` | cbuffers.dfy | `cStr`, `write_placeholder`, fixed-size string reads and the cgroup buffer |
| `GoStrings` | gostrings.dfy | `strings.ToLower`, `HasPrefix`, `Contains`, `TrimSpace`, `bytes.TrimRight(…, "\n")` and decimal formatting |
| `Ranking` | ranking.dfy | `sort.Slice` followed by `[:limit]`, and order-preserving filters |
| `MapSweep` | mapsweep.dfy | one iterate-and-delete pass over a kernel map, and the three-attempt retry loop |
| `MapIter` | mapiter.dfy | Go/eBPF map iteration in an order the contracts leave open |
| `Types` | types.dfy | the records of `pkg/types/types.go` and the `pid-N` label |
| `SchedTracer` | sched_tracer.dfy | `handle_sched_switch` and its three maps |
| `FaultTracer` | fault_tracer.dfy | `record_fault` and the `page_faults` map |
| `CpuCollector` | cpu_collector.dfy | the CPU collector's `Snapshot`, `Contention`, `Reset` and `commForPID` |
| `MemCollector` | mem_collector.dfy | the memory collector's `Snapshot`, `Reset` and `commForPID` |
| `Metrics` | metrics.dfy | classification, severity, filters, ranking tables and focus selection |
| `MetricsMerge` | metrics_merge.dfy | `BuildProcMetrics` |

## How the model is built

**Kernel programs.** Each kernel program is a class whose fields are its BPF maps, held as Dafny `map`s.
- The handler is a method that updates those fields in place.
- Its contract ties the new state to a pure function of the old state and the helpers' answers.
- The helpers are `bpf_ktime_get_ns`, `bpf_get_current_comm`, `bpf_get_current_pid_tgid` and the cgroup walk. The walk becomes a `CgroupLookup` that either resolves to a name or fails.
- Trace lemmas fold that function over a sequence of events.
- Counters wrap modulo 2^64, as `u64` does.

**User-space collectors.** The collectors are classes that hold the loaded program.
- Each iteration loop is a `while` loop that visits the keys in an order chosen by `:|`, so the contracts hold for every order.
- `iter.Err()` is an `IterEnd` input: the pass either runs to the end or stops after some number of entries with an error.
- The kernel's answers to each Reset pass are a `SweepPass` input: the delete error for each key, and how the iteration ends.
- `/proc/<pid>/comm` is a `ProcFs` map from pid to file contents. A missing key is a read error.

**Reporter.** The reporter's pure functions (classification, severity, filters) are functions. Its loops are methods proved equal to a specification function, and the properties are proved about that function.
- `BuildProcMetrics` is four loops over a mutable `map` of rows, then the final loop that builds `result` and `index`.
- Each loop is proved to compute a fold. Each fold is proved equal, pid by pid, to a closed form read off the inputs: the last CPU stat for the pid, the first non-empty name, and the sums of the pair counts.

## Model

| member | source | states |
|---|---|---|
| `Words.ShiftOrIsMulAdd` | bpf/cpu_hotspot.c:100 | `(v << 32) \| a` on 64-bit words equals `v·2^32 + a` when both halves fit in 32 bits |
| `Words.ShiftMaskIsDivMod` | pkg/collector/cpu/collector_linux.go:138-139 | `key >> 32` is `key / 2^32` and `key & 0xffffffff` is `key % 2^32` |
| `Durations.WindowSeconds` | pkg/collector/memory/collector_linux.go:60-63 | the window in seconds is always positive: `window/1e9` for a positive window, else 1 |
| `CBuffers.IndexNul` | pkg/collector/cpu/helpers.go:16 | -1 exactly when the buffer holds no NUL; otherwise the index of the first NUL |
| `CBuffers.CStr` | pkg/collector/cpu/helpers.go:15-21 | the result is a prefix of the buffer and holds no NUL; when it is shorter than the buffer, the next byte is NUL |
| `CBuffers.CStrUnique` | pkg/collector/memory/helpers.go:37-43 | those three facts pin the result down: any string with them is `cStr` of the buffer, so it is the bytes before the first NUL, or the whole buffer when there is none |
| `CBuffers.Placeholder` | bpf/cpu_hotspot.c:44-54 | a buffer of `len` bytes that reads as `"n/a"` cut to `len`, with zero bytes from position 3 on |
| `CBuffers.WritePlaceholder` | bpf/memory_faults.c:23-33 | a null buffer is left alone; otherwise the buffer becomes `Placeholder(len)` |
| `CBuffers.ReadStr` | bpf/cpu_hotspot.c:119 | a string read into an `len`-byte buffer is `len` bytes long and reads as the source cut to `len-1` bytes |
| `CBuffers.CgroupLabel` | bpf/cpu_hotspot.c:56-85 | the cgroup buffer after `snapshot_cgroup`, or after `write_placeholder` when the walk fails: `"n/a"` on failure, else the name cut to `len-1` |
| `CBuffers.FillCgroup` | bpf/cpu_hotspot.c:120-121 | an array filled by the cgroup walk or the placeholder holds exactly `CgroupLabel` |
| `CBuffers.ReadCgroup` | bpf/memory_faults.c:79-80 | returns the buffer `CgroupLabel` describes |
| `GoStrings.Contains` | pkg/report/metrics.go:350 | true exactly when `sub` occurs at some index of `s` |
| `GoStrings.ToLower` | pkg/report/metrics.go:349 | keeps the length; each upper-case ASCII letter becomes its lower-case letter (code + 32), and every other byte is kept |
| `GoStrings.ToLowerHasNoUpper` | pkg/report/metrics.go:361 | a lower-cased name holds no upper-case letter |
| `GoStrings.LeadingSpaces` | pkg/collector/cpu/helpers.go:37 | the length of the run of white space that starts the string |
| `GoStrings.TrailingSpaces` | pkg/collector/cpu/helpers.go:37 | where the run of white space that ends the string begins |
| `GoStrings.TrimLeftSpace` | pkg/collector/cpu/helpers.go:37 | a suffix of the input, with only white space cut, that does not start with white space |
| `GoStrings.TrimRightSpace` | pkg/collector/cpu/helpers.go:37 | a prefix of the input, with only white space cut, that does not end with white space |
| `GoStrings.TrimSpace` | pkg/collector/cpu/helpers.go:37 | a slice `s[i..j]` with only white space cut on both sides, neither starting nor ending with white space |
| `GoStrings.TrimSpaceSlice` | pkg/collector/cpu/helpers.go:37 | trimming the right and then the left side gives a slice cut only of white space on both ends |
| `GoStrings.TrimRightNewlines` | pkg/collector/memory/helpers.go:29 | a prefix of the input that does not end in `'\n'`; only newlines are cut |
| `GoStrings.TrimRightSpaceAfterNewlines` | pkg/collector/memory/helpers.go:29 | cutting newlines first does not change the right trim |
| `GoStrings.TrimSpaceAfterNewlines` | pkg/collector/memory/helpers.go:29 | `TrimSpace(TrimRight(data, "\n")) == TrimSpace(data)`, so the two `commForPID` variants agree |
| `GoStrings.FormatUint` | pkg/collector/cpu/helpers.go:30 | a non-empty string of decimal digits with no leading zero; it is "0" exactly for 0 |
| `GoStrings.ParseFormatUint` | pkg/collector/cpu/helpers.go:30 | reading the digits back gives the number |
| `GoStrings.FormatUintInjective` | pkg/collector/cpu/helpers.go:30 | different numbers print differently |
| `Types.PidLabel` | pkg/collector/cpu/helpers.go:33 | `"pid-"` followed by decimal digits that read back as the pid |
| `Types.PidLabelInjective` | pkg/collector/cpu/helpers.go:39 | different pids get different `pid-N` labels |
| `Ranking.Insert` | pkg/collector/cpu/collector_linux.go:72 | one step of the sort: one element longer, and the same multiset plus the new element |
| `Ranking.InsertSorted` | pkg/collector/cpu/collector_linux.go:72 | inserting into a sorted sequence keeps it sorted |
| `Ranking.SortBy` | pkg/collector/cpu/collector_linux.go:72 | `sort.Slice`: a permutation of the input, sorted by the key, keeping distinct elements distinct |
| `Ranking.PrefixIsTop` | pkg/collector/cpu/collector_linux.go:73-75 | a prefix of a sorted sequence is sorted and a sub-multiset, and nothing left out ranks before anything kept |
| `Ranking.TopBy` | pkg/report/metrics.go:177-180 | sort then truncate: `min(n, limit)` elements when `limit > 0`, else all; sorted; drawn from the input; nothing left out ranks before anything kept |
| `Ranking.Filter` | pkg/report/metrics.go:159-165 | the multiset of kept elements is exactly the input's elements that pass, with their multiplicities |
| `Ranking.FilterMembers` | pkg/report/metrics.go:171-176 | an element is kept exactly when it is in the input and passes |
| `MapIter.RowsSound` | pkg/collector/cpu/collector_linux.go:56-67 | every row an iteration appends is the row of a visited key that passes the test, built from that key's value |
| `MapIter.RowsComplete` | pkg/collector/cpu/collector_linux.go:56-67 | every visited key that passes the test has its row appended |
| `MapIter.RowsDistinct` | pkg/collector/cpu/collector_linux.go:56-67 | no row is appended twice, since each key is visited once |
| `MapIter.RowsCount` | pkg/collector/cpu/collector_linux.go:56-67 | as many rows as visited keys that pass the test |
| `MapIter.RowsOfFullVisit` | pkg/collector/memory/collector_linux.go:65-76 | a complete iteration lists exactly the passing keys, once each |
| `MapIter.TopOfLists` | pkg/collector/memory/collector_linux.go:81-84 | sorting and truncating such a list gives the top rows of the map in rank order |
| `MapSweep.Sweep` | pkg/collector/cpu/collector_linux.go:83-96 | one pass deletes only entries from the map; it reports success exactly when the iteration ends cleanly and no delete fails (other than `ErrKeyNotExist`), and then the map is empty; a failed delete names a key still present and its error; an iteration error is the one the iterator gave |
| `MapSweep.SweepWithRetries` | pkg/collector/cpu/collector_linux.go:82-98 | at most 3 passes; every pass but the last was aborted; an abort is returned only on pass 3; a clean first pass succeeds on the first attempt; success leaves the map empty |
| `SchedTracer.PairKeyHalves` | bpf/cpu_hotspot.c:100 | the key's upper half is the victim and its lower half the aggressor |
| `SchedTracer.PairKeyInjective` | bpf/cpu_hotspot.c:100 | different (victim, aggressor) pairs get different keys |
| `SchedTracer.Reads` | bpf/cpu_hotspot.c:117-121 | the comm buffer is 16 bytes and reads as the task name cut to 15; the cgroup buffer is 64 bytes and reads as `"n/a"` when the walk fails |
| `SchedTracer.Bumped` | bpf/cpu_hotspot.c:101-107 | a present counter goes up by one (mod 2^64), an absent one starts at 1, and every other counter is unchanged |
| `SchedTracer.ChargedRecord` | bpf/cpu_hotspot.c:115-129 | an existing record gains `delta` (mod 2^64) and keeps a non-empty comm and cgroup; an empty comm or cgroup of an existing record is replaced by the helpers' buffer; a new record starts at exactly `delta` with the helpers' comm and cgroup; buffer sizes are kept |
| `SchedTracer.ContentionAfter` | bpf/cpu_hotspot.c:99-108 | the pair counter is bumped only when both pids are nonzero; otherwise the map is unchanged |
| `SchedTracer.PidStatsAfter` | bpf/cpu_hotspot.c:111-130 | only a nonzero previous pid is charged `ts - st.ts` (mod 2^64); pid 0 never gains a record |
| `SchedTracer.AfterSwitch` | bpf/cpu_hotspot.c:88-138 | a failed per-CPU lookup changes nothing; otherwise this CPU's state becomes `(next_pid, ts)`, the pair counter and the pid record change as above, and pid 0 never gains a record |
| `SchedTracer.ZeroStates` | bpf/cpu_hotspot.c:19-24 | the per-CPU array holds one zeroed state for each CPU and nothing else |
| `SchedTracer.Hotspot.constructor` | bpf/cpu_hotspot.c:19-38 | a freshly loaded program: zeroed per-CPU states and empty hash maps |
| `SchedTracer.Hotspot.HandleSchedSwitch` | bpf/cpu_hotspot.c:88-138 | the maps after the handler are `AfterSwitch` of the maps before |
| `SchedTracer.Hotspot.CountPreemption` | bpf/cpu_hotspot.c:99-108 | the contention map becomes `ContentionAfter`; the other maps are untouched |
| `SchedTracer.Hotspot.ChargeRunning` | bpf/cpu_hotspot.c:111-130 | the pid map becomes `PidStatsAfter`; the other maps are untouched |
| `SchedTracer.RunSplits` | bpf/cpu_hotspot.c:88-138 | over a run of switches on one CPU, the pid map and the contention map each evolve on their own |
| `SchedTracer.StepChargesRunningPid` | bpf/cpu_hotspot.c:111-124 | one switch adds `ts - st.ts` to the CPU time of the pid that was running, and nothing to any other pid |
| `SchedTracer.PidStatsRunCharges` | bpf/cpu_hotspot.c:111-135 | over a run, a nonzero pid's CPU time grows by the sum of the intervals during which it was the running pid (mod 2^64) |
| `SchedTracer.PidStatsRunRecords` | bpf/cpu_hotspot.c:115-122 | after a run, a pid has a record exactly when it had one before, or is nonzero and ran during the run |
| `SchedTracer.RunChargesRunningTime` | bpf/cpu_hotspot.c:88-138 | the same two facts, in terms of the whole handler |
| `SchedTracer.FreshRunCpuTime` | bpf/cpu_hotspot.c:111-135 | from a fresh program, each nonzero pid's `cpu_time_ns` is the sum of the timestamp differences while it ran (mod 2^64), and pid 0 has no record |
| `SchedTracer.StepCountsPreemption` | bpf/cpu_hotspot.c:99-108 | one switch adds 1 to the counter of exactly its own (prev, next) pair |
| `SchedTracer.ContentionRunCounts` | bpf/cpu_hotspot.c:99-108 | over a run, a pair's counter grows by the number of switches from victim to aggressor (mod 2^64) |
| `SchedTracer.RunCountsPreemptions` | bpf/cpu_hotspot.c:88-138 | the same, in terms of the whole handler |
| `FaultTracer.RecordedStat` | bpf/memory_faults.c:71-82 | an existing record counts one more fault (mod 2^64) and keeps a non-empty cgroup; an empty cgroup, or a new record, takes the fresh buffer; a new record starts at 1 fault |
| `FaultTracer.RecordedFault` | bpf/memory_faults.c:66-85 | pid 0 leaves the map unchanged; otherwise exactly the faulting pid gains or keeps a record, and every other pid's record is unchanged |
| `FaultTracer.FaultProbe.constructor` | bpf/memory_faults.c:12-17 | a freshly loaded program has an empty map |
| `FaultTracer.FaultProbe.RecordFault` | bpf/memory_faults.c:66-85 | the map after the handler is `RecordedFault` of the map before, with the pid taken from the upper half of `pid_tgid` |
| `FaultTracer.StepCountsFault` | bpf/memory_faults.c:71-81 | one fault adds 1 to the faulting pid's count and nothing to any other pid's |
| `FaultTracer.RunCountsFaults` | bpf/memory_faults.c:71-82 | over a run, a nonzero pid's count grows by the number of its faults (mod 2^64) |
| `FaultTracer.RunRecordsFaulting` | bpf/memory_faults.c:76-81 | after a run, a nonzero pid has a record exactly when it had one or faulted |
| `FaultTracer.RunNeverRecordsIdle` | bpf/memory_faults.c:67-69 | pid 0 never gains a record |
| `FaultTracer.RunKeepsCgroup` | bpf/memory_faults.c:74-75 | a non-empty cgroup is never overwritten |
| `FaultTracer.RunKeepsSized` | bpf/memory_faults.c:9 | every cgroup buffer stays 64 bytes |
| `FaultTracer.FreshRunCounts` | bpf/memory_faults.c:71-82 | from an empty map, n faults by one nonzero pid give `faults == n` (mod 2^64), and pid 0 has no record |
| `CpuCollector.PairKeyRoundTrip` | pkg/collector/cpu/collector_linux.go:138-139 | decoding a packed key gives the victim and aggressor back, and re-packing a decoded key gives the key back |
| `CpuCollector.CommNameTrimmed` | pkg/collector/cpu/helpers.go:23-43 | a reported name is never empty and neither starts nor ends with white space |
| `CpuCollector.CommCache.constructor` | pkg/collector/cpu/collector_linux.go:132 | a new cache is empty |
| `CpuCollector.CommCache.CommForPid` | pkg/collector/cpu/helpers.go:23-43 | pid 0 gives `"idle"` and leaves the cache alone. Any other pid gives the cached name if there is one, else the trimmed `/proc` name, else `pid-N` when the read fails or the name is blank. The cache then maps that pid to the returned name, and no other key changes |
| `CpuCollector.CommCache.PairRowOf` | pkg/collector/cpu/collector_linux.go:138-146 | one contention row: the decoded pids, their names and the count |
| `CpuCollector.CollectBusy` | pkg/collector/cpu/collector_linux.go:53-70 | fails exactly when the iterator reports an error; on success lists the row of every pid with nonzero CPU time, once each |
| `CpuCollector.BusyOfFullVisit` | pkg/collector/cpu/collector_linux.go:56-67 | a complete iteration lists exactly the busy pids |
| `CpuCollector.TopOfBusy` | pkg/collector/cpu/collector_linux.go:72-75 | sorting and truncating gives the top busy rows |
| `CpuCollector.CollectCounted` | pkg/collector/cpu/collector_linux.go:129-150 | fails exactly when the iterator reports an error; on success lists the row of every nonzero counter, once each |
| `CpuCollector.CountedOfFullVisit` | pkg/collector/cpu/collector_linux.go:134-147 | a complete iteration lists exactly the nonzero counters |
| `CpuCollector.TopOfCounted` | pkg/collector/cpu/collector_linux.go:152-157 | sorting and truncating gives the top counters |
| `CpuCollector.TopCountedRows` | pkg/collector/cpu/collector_linux.go:135-146 | every returned row is a nonzero counter with its decoded pids and names |
| `CpuCollector.TopCountedPairs` | pkg/collector/cpu/collector_linux.go:138-146 | no (victim, aggressor) pair is returned twice |
| `CpuCollector.TopCountedBound` | pkg/collector/cpu/collector_linux.go:152-157 | no counter left out is larger than one returned |
| `CpuCollector.Collector.constructor` | pkg/collector/cpu/collector_linux.go:25-39 | the collector holds the loaded objects, with or without the contention map |
| `CpuCollector.Collector.Snapshot` | pkg/collector/cpu/collector_linux.go:50-78 | an iteration error gives the wrapped error. Otherwise the result has only pids with nonzero CPU time, each once with its own stat and names cut at NUL. It is sorted by `Ns` descending, cut to `limit` only when `limit > 0`, and omits no entry larger than one returned |
| `CpuCollector.Collector.Contention` | pkg/collector/cpu/collector_linux.go:124-160 | a missing map gives `ContentionUnavailable` and an iteration error the wrapped error. Otherwise the result has only nonzero counters, decoded and named, each pair once. It is sorted by count descending, cut to `limit` only when `limit > 0`, and omits no counter larger than one returned |
| `CpuCollector.Collector.Reset` | pkg/collector/cpu/collector_linux.go:81-121 | only deletes entries and never touches the per-CPU array. Success leaves the pid map, and the contention map when present, empty. Clean first passes succeed. On an emptied map, any pass that runs to the end is clean, so Reset is idempotent. Any pid-map failure returns before the contention map is touched. Each map gets at most three passes, and only a pass the iterator aborted is retried. Success needs a pass over each swept map that runs to the end. A delete failure names a key still present whose delete failed on the last pass of its map. An iterator error is that map's last pass's own error, and an abort is given up on only at the third pass |
| `MemCollector.CommNameAgrees` | pkg/collector/memory/helpers.go:15-35 | the memory collector's naming, which cuts newlines first, always agrees with the CPU collector's |
| `MemCollector.CommCache.constructor` | pkg/collector/memory/collector_linux.go:59 | a new cache is empty |
| `MemCollector.CommCache.CommForPid` | pkg/collector/memory/helpers.go:15-35 | pid 0 gives `"idle"` and leaves the cache alone. A cached pid gives its stored name. Otherwise the result is the `/proc` name with trailing newlines cut and white space trimmed, or `pid-N` on a read error or a blank name. The cache then maps that pid to the result, and no other key changes |
| `MemCollector.CommCache.FaultRowOf` | pkg/collector/memory/collector_linux.go:69-75 | one page-fault row: pid, name, cgroup cut at NUL, count and `faults / windowSeconds` |
| `MemCollector.FaultRateSign` | pkg/collector/memory/collector_linux.go:74 | the rate is never negative, and is 0 exactly when the count is 0 |
| `MemCollector.CollectFaulting` | pkg/collector/memory/collector_linux.go:55-79 | fails exactly when the iterator reports an error; on success lists the row of every pid with faults, once each |
| `MemCollector.FaultingOfFullVisit` | pkg/collector/memory/collector_linux.go:65-76 | a complete iteration lists exactly the pids with faults |
| `MemCollector.TopOfFaulting` | pkg/collector/memory/collector_linux.go:81-84 | sorting and truncating gives the top faulting rows |
| `MemCollector.TopFaultingRows` | pkg/collector/memory/collector_linux.go:66-75 | every returned row is a faulting pid's own row |
| `MemCollector.TopFaultingBound` | pkg/collector/memory/collector_linux.go:81-84 | no pid left out took more faults than one returned |
| `MemCollector.Collector.constructor` | pkg/collector/memory/collector_linux.go:28-42 | the collector holds the loaded objects |
| `MemCollector.Collector.Snapshot` | pkg/collector/memory/collector_linux.go:53-87 | an iteration error gives the wrapped error. Otherwise the result has only pids with faults, each once, rated over the window (1 second when the window is at most 0). It is sorted by faults descending, cut to `limit` only when `limit > 0`, and omits no pid with more faults than one returned |
| `MemCollector.Collector.Reset` | pkg/collector/memory/collector_linux.go:90-109 | only deletes entries; success leaves the map empty and follows a pass that runs to the end; a clean first pass succeeds at once; at most three passes, only aborted ones retried; a delete failure names a key still present whose delete failed on the last pass; an iteration error is the last pass's own, an abort only at the third pass |
| `Metrics.HideKernelEnabled` | pkg/report/metrics.go:42-47 | kernel threads are hidden unless `HideKernel` is explicitly false |
| `Metrics.ClassifyProc` | pkg/report/metrics.go:306-342 | the label is always one of the six diagnoses |
| `Metrics.ClassifyFirstMatch` | pkg/report/metrics.go:306-342 | each label is given exactly when its rule holds and no earlier rule does, in the order OOM risk, CPU-bound, Mem-thrashing, Starved, Noisy neighbor, then OK |
| `Metrics.ThrashingTiers` | pkg/report/metrics.go:326-331 | Mem-thrashing is the 1000-faults/0.5-cost tier or the 500/0.1 tier, both needing faults and less than 20% CPU |
| `Metrics.LabelsDistinct` | pkg/report/metrics.go:317-341 | the six labels are different strings |
| `Metrics.DiagnosisSeverity` | pkg/report/metrics.go:371-384 | severity lies between 0 and 4 |
| `Metrics.SeverityScale` | pkg/report/metrics.go:371-384 | 4, 3, 2 and 1 go exactly to Mem-thrashing, Starved, Noisy neighbor and CPU-bound; every other label gets 0 |
| `Metrics.IsKernelThread` | pkg/report/metrics.go:357-369 | true exactly for pid 0, or for a lower-cased name that starts with one of the seven kernel prefixes |
| `Metrics.PassesFilters` | pkg/report/metrics.go:344-355 | true exactly when the row is not a hidden kernel thread and the filter is empty or occurs in the lower-cased cgroup |
| `Metrics.UpperCaseFilterHidesAll` | pkg/report/metrics.go:348-352 | the filter is not lower-cased here, so a filter holding an upper-case letter rejects every row |
| `Metrics.FilterMetrics` | pkg/report/metrics.go:158-166 | the rows that pass the filters, in input order |
| `Metrics.FilterMetricsKeeps` | pkg/report/metrics.go:158-166 | a row is kept exactly when it is in the input and passes; each passing row is kept as often as it occurs |
| `Metrics.Candidates` | pkg/report/metrics.go:170-176 | the candidate loop keeps, in order, the rows that pass its test |
| `Metrics.CPUUsageRows` | pkg/report/metrics.go:169-182 | the CPU usage table: rows with nonzero `CPUNs` drawn from the input (no more often than there), in descending `CPUNs`, `min(n, topK)` of them for positive `topK`, else all, and no row left out has more CPU time than one returned; ties are in no fixed order |
| `Metrics.CPUUsageRowsTop` | pkg/report/metrics.go:169-182 | sorting the rows with CPU time and cutting to `topK` gives such a table, whatever order the sort leaves ties in |
| `Metrics.CPUCostRows` | pkg/report/metrics.go:185-203 | the cost table: rows with faults or CPU time drawn from the input (no more often than there), in ascending cost with ties in descending rate, capped by `topK`, and no row left out ranks before one returned; rows equal in both are in no fixed order |
| `Metrics.ByCostIsLess` | pkg/report/metrics.go:193-198 | the ranking key orders rows exactly as the sort's less function |
| `Metrics.CPUCostRowsTop` | pkg/report/metrics.go:185-203 | sorting the rows with faults or CPU time by cost and rate and cutting to `topK` gives such a table |
| `Metrics.FilterContentionRows` | pkg/report/metrics.go:206-234 | the pairs that pass, in input order, cut to `topK` when `topK > 0` |
| `Metrics.FilterContentionRowsKeeps` | pkg/report/metrics.go:206-234 | the result is a prefix of the kept pairs; every pair returned is in the input with both pids indexed, no hidden kernel thread and a cgroup match on one side; a passing pair is dropped only by the `topK` cut |
| `Metrics.SelectFocusCandidate` | pkg/report/metrics.go:237-266 | nil exactly for no rows. Otherwise, if some row passes the noise floor, the first row with the highest `severity·1000 + CPUPercent` among those; if none does, the first row with the highest `CPUPercent` |
| `Metrics.FocusUnique` | pkg/report/metrics.go:249-262 | "the first best" picks out one index |
| `Metrics.SeverityDominates` | pkg/report/metrics.go:248 | with CPU shares between 0 and 100, a more severe diagnosis always wins the focus |
| `MetricsMerge.TotalMemory` | pkg/report/metrics.go:58-61 | the memory total used for ratios is at least 1 (a failed or zero read becomes 1) |
| `MetricsMerge.Seconds` | pkg/report/metrics.go:77-80 | the interval in seconds is always positive |
| `MetricsMerge.Finish` | pkg/report/metrics.go:141-148 | keeps the pid and the `FaultsPerSec` field (the fallback rate only feeds the cost) |
| `MetricsMerge.FirstNonEmptyMeaning` | pkg/report/metrics.go:87-89 | a chain of "fill while empty" leaves "" exactly when every candidate is empty, and otherwise the first non-empty candidate |
| `MetricsMerge.FirstNonEmptySnoc` | pkg/report/metrics.go:102-107 | one more "fill while empty" step |
| `MetricsMerge.LastCpuMeaning` | pkg/report/metrics.go:81-95 | the CPU stat a pid's row ends with is its last in the input; there is none exactly when the pid has no CPU stat |
| `MetricsMerge.CpuCgroups` | pkg/report/metrics.go:87-89 | a pid has cgroup candidates from the CPU loop exactly when it has a CPU stat |
| `MetricsMerge.LastFaultMeaning` | pkg/report/metrics.go:97-110 | the fault figures a row ends with come from its last page-fault stat; there is none exactly when the pid has none |
| `MetricsMerge.InPairsMeaning` | pkg/report/metrics.go:112-125 | a pid is on a side of some pair exactly when some pair names it as victim or aggressor |
| `MetricsMerge.FaultRateOfLast` | pkg/collector/memory/collector_linux.go:74 | the last page-fault stat of a pid has a non-negative rate when all do |
| `MetricsMerge.CpuPhaseKeyed` | pkg/report/metrics.go:64-74 | after the CPU loop every row sits under its own pid, and pid 0 has none |
| `MetricsMerge.CpuPhaseRows` | pkg/report/metrics.go:81-95 | after the CPU loop, a nonzero pid has a row exactly when it has a CPU stat. The row takes `Comm`, `CPUNs`, `CPUMs = Ns/1e6` and `CPUPercent = 100·Ns/capacity` (0 when the capacity is not positive) from its last stat, and its cgroup is the first non-empty one |
| `MetricsMerge.CpuRowSnoc` | pkg/report/metrics.go:81-95 | one more CPU stat |
| `MetricsMerge.FaultPhaseKeyed` | pkg/report/metrics.go:97-101 | the page-fault loop keeps every row under its pid |
| `MetricsMerge.FaultPhaseRows` | pkg/report/metrics.go:97-110 | after the page-fault loop, a nonzero pid has a row exactly when it had one or has a stat; name and cgroup are filled only while empty; `Faults` and `FaultsPerSec` come from the last stat |
| `MetricsMerge.PairPhaseKeyed` | pkg/report/metrics.go:112-125 | the contention loop keeps every row under its pid |
| `MetricsMerge.PairPhaseRows` | pkg/report/metrics.go:112-125 | after the contention loop, a nonzero pid has a row exactly when it had one or is on a side of a pair. Its name is filled only while empty. `Preempted` grows by the sum of counts where it is the victim, and `PreemptsOthers` by the sum where it is the aggressor (mod 2^64). Its cgroup is not touched |
| `MetricsMerge.PairStepRow` | pkg/report/metrics.go:113-124 | one pair updates the victim's row, then the aggressor's |
| `MetricsMerge.PairRowAfterSnoc` | pkg/report/metrics.go:112-125 | one more pair |
| `MetricsMerge.PairCommSnoc` | pkg/report/metrics.go:114-121 | one more pair, for the name alone |
| `MetricsMerge.MergeCpu` | pkg/report/metrics.go:81-95 | the CPU loop computes `CpuPhase` |
| `MetricsMerge.MergeFaults` | pkg/report/metrics.go:97-110 | the page-fault loop computes `FaultPhase` |
| `MetricsMerge.MergeContention` | pkg/report/metrics.go:112-125 | the contention loop computes `PairPhase` |
| `MetricsMerge.MergeRss` | pkg/report/metrics.go:127-136 | the RSS loop sets `RSSMB = rss / 2^20` on the rows it finds and adds no row |
| `MetricsMerge.RssDone` | pkg/report/metrics.go:132-136 | a complete RSS pass gives `RssPhase` |
| `MetricsMerge.FinishRows` | pkg/report/metrics.go:138-152 | `index` has exactly the rows' pids, each mapped to its finished row, and `result` lists every finished row once |
| `MetricsMerge.FinishNext` | pkg/report/metrics.go:140-151 | one turn of the last loop keeps its invariant and visits one more row |
| `MetricsMerge.IndexOfVisits` | pkg/report/metrics.go:151 | the index built so far has exactly the visited pids, each mapped to its finished row |
| `MetricsMerge.FinishingStep` | pkg/report/metrics.go:140-151 | one row finished and stored keeps the invariant |
| `MetricsMerge.IndexStep` | pkg/report/metrics.go:151 | `index[pid] = copy` is one step of the index fold |
| `MetricsMerge.RestStep` | pkg/report/metrics.go:140 | removing a visited row from the rows left to visit |
| `MetricsMerge.ResultStep` | pkg/report/metrics.go:150 | `append(result, copy)` is one step of the result fold |
| `MetricsMerge.FinishingDone` | pkg/report/metrics.go:152 | when no row is left, the invariant gives the loop's postcondition |
| `MetricsMerge.BuildProcMetrics` | pkg/report/metrics.go:49-155 | `index` has one entry for each nonzero pid seen in the CPU stats, in the page-fault stats or on either side of a pair, and none for pid 0. Each entry is that pid's merged row. `result` lists exactly the index's rows, each pid once, and `index[x.PID] == x` for every row `x` |
| `MetricsMerge.FinishedPids` | pkg/report/metrics.go:149-151 | the last loop stores every row under its own pid |
| `MetricsMerge.MergedRows` | pkg/report/metrics.go:63-136 | after the four merging loops, the rows are keyed by pid, hold exactly the seen pids, and each equals the row read off the inputs |
| `MetricsMerge.GatheredAt` | pkg/report/metrics.go:132-136 | the RSS pass at one pid |
| `MetricsMerge.MergedKeyed` | pkg/report/metrics.go:64-74 | `ensure` files every row under its own pid, through all three loops |
| `MetricsMerge.MergedAt` | pkg/report/metrics.go:81-125 | after the three loops, a nonzero pid has a row exactly when it is seen, and the row is the composed closed form |
| `MetricsMerge.SeenPidsNonZero` | pkg/report/metrics.go:65-67 | pid 0 is never seen |
| `MetricsMerge.FinishedIsMerged` | pkg/report/metrics.go:141-148 | finishing each gathered row gives the merged row |
| `MetricsMerge.FinishedAt` | pkg/report/metrics.go:141-148 | the same, for one row |
| `MetricsMerge.GatheredRate` | pkg/report/metrics.go:109 | the rate a row carries into the last loop is never negative |
| `MetricsMerge.SeenPidsMember` | pkg/report/metrics.go:81-125 | a nonzero pid is seen exactly when it has a CPU stat, a page-fault stat, or a pair |
| `MetricsMerge.ListedIndex` | pkg/report/metrics.go:149-154 | a listing and an index of the same finished rows agree: every listed row is indexed under its pid, every indexed row is listed, pids are distinct, and the sizes match |

## Left out

- `NewCollector` and `Close` (loading, attaching and detaching the eBPF objects), the `!linux` stubs and the generated bindings: they are loader plumbing with no logic to state. The constructors stand in for a loaded program.
- `cmd/hotspot/main.go`, the terminal UI and `FocusSummary`: flag parsing, rendering and `fmt.Sprintf` formatting.
- `getTotalMem` and its `sync.Once`: a one-time initialisation that `BuildProcMetrics` does not use.
- Reading `/proc/<pid>/statm` and `/proc/meminfo` (`pkg/collector/memory/memory.go` is not part of this model). RSS is an input map from pid to bytes. The memory total is an `Option<u64>`, where `None` stands for a failed read.
- `runtime.NumCPU()` and the `/proc/<pid>/comm` reads are inputs. `/proc` is fixed for the length of one call.
- `snapshot_cgroup`'s walk over kernel structures is a `CgroupLookup` that either resolves to a name or fails. `bpf_ktime_get_ns`, `bpf_get_current_comm` and `bpf_get_current_pid_tgid` are parameters.
- The `max_entries` capacities of the BPF maps, and failed `bpf_map_update_elem` calls: the model's maps never fill up.
- Concurrency: handlers on several CPUs, the kernel updating maps while user space iterates, and entries inserted during a Reset. Each handler call is one atomic step on one CPU. Concurrent invalidation appears only as an aborted pass, given as an input.
- IEEE floating point: `float64` fields are reals, so there is no rounding, infinity or NaN.
- The order among equal keys after `sort.Slice`, which is not stable. The methods' contracts only fix the order of rows whose keys differ; the specification functions SortBy and TopBy pick one order, that of an insertion sort, and only the lemmas about them depend on it. Sorting is an insertion sort on sequences rather than an in-place sort of a slice.
- CpuCollector.Collector.Snapshot: requires `limit >= 0`. The Go code allocates its result with `limit` as the capacity, which panics on a negative limit; that panic is not modelled. The command in cmd/hotspot/main.go raises `topK` to at least 1 (lines 52-53) and passes multiples of it (lines 108-120).
- CpuCollector.Collector.Contention: requires `limit >= 0` when the contention map is present, for the same allocation panic; without the map it fails before allocating and takes any limit.
- MemCollector.Collector.Snapshot: requires `limit >= 0`, for the same allocation panic, which is not modelled.
- The order of Go map iteration, in the collectors and in the last loop of `BuildProcMetrics`, is left open. `result` is specified as a list of distinct rows, not a particular order.
- `BuildProcMetrics`: requires every page-fault stat to carry a non-negative `FaultsPerSec`. `MemCollector.FaultRateSign` proves that every rate the collector produces is non-negative. Go would compute `+Inf` or NaN for a rate of -1, which has no counterpart among the reals.
- `MetricsMerge.FinishRows`: proved once for any per-row function that keeps the pid. `BuildProcMetrics` applies it to `MetricsMerge.FinishedRow`, whose second branch, for a negative rate, is never reached.
- The lower-casing of the cgroup filter happens in `cmd/hotspot/main.go`, outside this model. `Metrics.UpperCaseFilterHidesAll` shows what happens without it.
- The 64-bit packing and unpacking are modelled on integers (`v·2^32 + a`, `key / 2^32`, `key % 2^32`). `Words.ShiftOrIsMulAdd` and `Words.ShiftMaskIsDivMod` prove that these agree with the shifts and masks on 64-bit words.
- Bytes of C buffers and Go strings are `char`s. Only ASCII case and white space are modelled, as in the inputs these functions see.
