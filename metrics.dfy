/** The report layer (pkg/report/metrics.go) on per-process rows: the
    classifier, the severity scale, the kernel-thread and cgroup filters, the
    ranking tables and the choice of the process to focus on. The merge that
    builds the rows is in MetricsMerge. */
module Metrics {
  import opened Wrappers
  import opened Words
  import opened GoStrings
  import opened Types
  import opened Ranking

  /** `ProcMetrics`: CPU, memory and contention figures of one pid for one
      window. */
  datatype ProcMetrics = ProcMetrics(
    pid: u32, comm: string, cgroup: string,
    cpuNs: u64, cpuMs: real, cpuPercent: real,
    rssMB: real, rssRatio: real,
    faults: u64, faultsPerSec: real, cpuCostPerFault: real,
    preempted: u64, preemptsOthers: u64,
    diagnosis: string)

  /** `FilterConfig`; a nil `HideKernel` is `None`. */
  datatype FilterConfig = FilterConfig(hideKernel: Option<bool>, cgroupFilter: string)

  /** `hideKernelEnabled`: kernel threads are hidden unless explicitly shown. */
  function HideKernelEnabled(cfg: FilterConfig): (r: bool)
    ensures r <==> cfg.hideKernel != Some(false)
  {
    if cfg.hideKernel.None? then true else cfg.hideKernel.value
  }

  const OOM_RISK: string := "OOM risk \U{2013} memory growth"
  const CPU_BOUND: string := "CPU-bound"
  const MEM_THRASHING: string := "Mem-thrashing"
  const STARVED: string := "Starved"
  const NOISY_NEIGHBOR: string := "Noisy neighbor"
  const OK_LABEL: string := "OK"

  /** `classifyProc`: the first rule that matches names the row. */
  function ClassifyProc(row: ProcMetrics): (diag: string)
    ensures diag == OOM_RISK || diag == CPU_BOUND || diag == MEM_THRASHING
            || diag == STARVED || diag == NOISY_NEIGHBOR || diag == OK_LABEL
  {
    var costlyFaults := row.cpuCostPerFault > 0.1 && row.faults > 0;
    var veryCostlyFaults := row.cpuCostPerFault > 0.5 && row.faults > 0;
    var bigProcess := row.rssMB > 1000.0;
    var highRatio := row.rssRatio > 0.3;
    var manyFaults := row.faultsPerSec > 200.0;
    if (bigProcess || highRatio) && manyFaults then OOM_RISK
    else if row.cpuPercent > 50.0 && row.faultsPerSec < 1.0 && row.preempted == 0 then CPU_BOUND
    else if row.faultsPerSec > 1000.0 && veryCostlyFaults && row.cpuPercent < 20.0 then MEM_THRASHING
    else if row.faultsPerSec > 500.0 && costlyFaults && row.cpuPercent < 20.0 then MEM_THRASHING
    else if row.preempted > 100 && row.cpuPercent < 10.0 then STARVED
    else if row.preemptsOthers > 100 && row.cpuPercent > 30.0 then NOISY_NEIGHBOR
    else OK_LABEL
  }

  /** A large or RAM-heavy process taking many faults. */
  predicate OomRisk(row: ProcMetrics)
  {
    (row.rssMB > 1000.0 || row.rssRatio > 0.3) && row.faultsPerSec > 200.0
  }

  /** Busy on the CPU, almost no faults, never preempted. */
  predicate CpuBound(row: ProcMetrics)
  {
    row.cpuPercent > 50.0 && row.faultsPerSec < 1.0 && row.preempted == 0
  }

  /** Many faults that each cost CPU time, while the process gets little CPU:
      the two tiers of the source collapse into one (ThrashingTiers). */
  predicate MemThrashing(row: ProcMetrics)
  {
    row.faults > 0 && row.cpuPercent < 20.0 && row.faultsPerSec > 500.0 && row.cpuCostPerFault > 0.1
  }

  /** Often preempted, little CPU. */
  predicate Starved(row: ProcMetrics)
  {
    row.preempted > 100 && row.cpuPercent < 10.0
  }

  /** Often preempting others, much CPU. */
  predicate NoisyNeighbor(row: ProcMetrics)
  {
    row.preemptsOthers > 100 && row.cpuPercent > 30.0
  }

  /** The stricter Mem-thrashing tier (more than 1000 faults/s at a cost above
      0.5) only matches rows the looser tier (500 faults/s, 0.1) matches too. */
  lemma ThrashingTiers(row: ProcMetrics)
    ensures (row.faultsPerSec > 1000.0 && row.cpuCostPerFault > 0.5 && row.faults > 0 && row.cpuPercent < 20.0)
            ==> MemThrashing(row)
    ensures MemThrashing(row) <==>
            (row.faultsPerSec > 1000.0 && row.cpuCostPerFault > 0.5 && row.faults > 0 && row.cpuPercent < 20.0)
            || (row.faultsPerSec > 500.0 && row.cpuCostPerFault > 0.1 && row.faults > 0 && row.cpuPercent < 20.0)
  {
  }

  /** The six labels are pairwise different. */
  lemma LabelsDistinct()
    ensures OOM_RISK != CPU_BOUND && OOM_RISK != MEM_THRASHING && OOM_RISK != STARVED
    ensures OOM_RISK != NOISY_NEIGHBOR && OOM_RISK != OK_LABEL
    ensures CPU_BOUND != MEM_THRASHING && CPU_BOUND != STARVED && CPU_BOUND != NOISY_NEIGHBOR && CPU_BOUND != OK_LABEL
    ensures MEM_THRASHING != STARVED && MEM_THRASHING != NOISY_NEIGHBOR && MEM_THRASHING != OK_LABEL
    ensures STARVED != NOISY_NEIGHBOR && STARVED != OK_LABEL && NOISY_NEIGHBOR != OK_LABEL
  {
    assert OOM_RISK[0] == 'O' && CPU_BOUND[0] == 'C' && MEM_THRASHING[0] == 'M';
    assert STARVED[0] == 'S' && NOISY_NEIGHBOR[0] == 'N' && OK_LABEL[0] == 'O' && OOM_RISK[1] != OK_LABEL[1];
  }

  /** Each label is given exactly when its rule matches and no earlier rule does. */
  lemma ClassifyFirstMatch(row: ProcMetrics)
    ensures ClassifyProc(row) == OOM_RISK <==> OomRisk(row)
    ensures ClassifyProc(row) == CPU_BOUND <==> !OomRisk(row) && CpuBound(row)
    ensures ClassifyProc(row) == MEM_THRASHING <==> !OomRisk(row) && !CpuBound(row) && MemThrashing(row)
    ensures ClassifyProc(row) == STARVED <==>
              !OomRisk(row) && !CpuBound(row) && !MemThrashing(row) && Starved(row)
    ensures ClassifyProc(row) == NOISY_NEIGHBOR <==>
              !OomRisk(row) && !CpuBound(row) && !MemThrashing(row) && !Starved(row) && NoisyNeighbor(row)
    ensures ClassifyProc(row) == OK_LABEL <==>
              !OomRisk(row) && !CpuBound(row) && !MemThrashing(row) && !Starved(row) && !NoisyNeighbor(row)
  {
    LabelsDistinct();
    ThrashingTiers(row);
  }

  /** `diagnosisSeverity`: how much a label draws attention. */
  function DiagnosisSeverity(diag: string): (s: int)
    ensures 0 <= s <= 4
  {
    if diag == MEM_THRASHING then 4
    else if diag == STARVED then 3
    else if diag == NOISY_NEIGHBOR then 2
    else if diag == CPU_BOUND then 1
    else 0
  }

  /** Severity ranks Mem-thrashing over Starved over Noisy neighbor over
      CPU-bound; every other label, OOM risk among them, scores 0. */
  lemma SeverityScale(diag: string)
    ensures DiagnosisSeverity(diag) == 4 <==> diag == MEM_THRASHING
    ensures DiagnosisSeverity(diag) == 3 <==> diag == STARVED
    ensures DiagnosisSeverity(diag) == 2 <==> diag == NOISY_NEIGHBOR
    ensures DiagnosisSeverity(diag) == 1 <==> diag == CPU_BOUND
    ensures DiagnosisSeverity(diag) == 0 <==>
              diag != MEM_THRASHING && diag != STARVED && diag != NOISY_NEIGHBOR && diag != CPU_BOUND
    ensures DiagnosisSeverity(OOM_RISK) == 0 && DiagnosisSeverity(OK_LABEL) == 0
  {
    LabelsDistinct();
  }

  /** The name prefixes of kernel threads. */
  const KERNEL_PREFIXES: seq<string> := ["kworker", "ksoftirqd", "kthreadd", "migration", "watchdog", "rcu", "irq/"]

  /** `isKernelThread`: pid 0, or a lower-cased name that starts with one of
      the kernel prefixes. */
  function IsKernelThread(row: ProcMetrics): (r: bool)
    ensures r <==> row.pid == 0 || exists i :: 0 <= i < |KERNEL_PREFIXES| && HasPrefix(ToLower(row.comm), KERNEL_PREFIXES[i])
  {
    if row.pid == 0 then true
    else
      var name := ToLower(row.comm);
      var r := HasPrefix(name, "kworker") || HasPrefix(name, "ksoftirqd") || HasPrefix(name, "kthreadd")
               || HasPrefix(name, "migration") || HasPrefix(name, "watchdog") || HasPrefix(name, "rcu")
               || HasPrefix(name, "irq/");
      assert r <==> exists i :: 0 <= i < |KERNEL_PREFIXES| && HasPrefix(name, KERNEL_PREFIXES[i]) by {
        if r {
          if HasPrefix(name, "kworker") { assert HasPrefix(name, KERNEL_PREFIXES[0]); }
          else if HasPrefix(name, "ksoftirqd") { assert HasPrefix(name, KERNEL_PREFIXES[1]); }
          else if HasPrefix(name, "kthreadd") { assert HasPrefix(name, KERNEL_PREFIXES[2]); }
          else if HasPrefix(name, "migration") { assert HasPrefix(name, KERNEL_PREFIXES[3]); }
          else if HasPrefix(name, "watchdog") { assert HasPrefix(name, KERNEL_PREFIXES[4]); }
          else if HasPrefix(name, "rcu") { assert HasPrefix(name, KERNEL_PREFIXES[5]); }
          else { assert HasPrefix(name, KERNEL_PREFIXES[6]); }
        }
      }
      r
  }

  /** `passesFilters`: a row is shown unless kernel threads are hidden and it
      is one, or a cgroup filter is set and the lower-cased cgroup does not
      contain it. */
  function PassesFilters(row: ProcMetrics, cfg: FilterConfig): (r: bool)
    ensures r <==> && !(HideKernelEnabled(cfg) && IsKernelThread(row))
                   && (cfg.cgroupFilter == [] || exists i :: OccursAt(ToLower(row.cgroup), cfg.cgroupFilter, i))
  {
    if HideKernelEnabled(cfg) && IsKernelThread(row) then false
    else if cfg.cgroupFilter != [] then
      var cg := ToLower(row.cgroup);
      Contains(cg, cfg.cgroupFilter)
    else true
  }

  /** The filter is compared with the lower-cased cgroup but is not lower-cased
      itself: a filter holding an upper-case letter hides every row. */
  lemma UpperCaseFilterHidesAll(row: ProcMetrics, cfg: FilterConfig, k: nat)
    requires k < |cfg.cgroupFilter| && IsUpper(cfg.cgroupFilter[k])
    ensures !PassesFilters(row, cfg)
  {
    var cg := ToLower(row.cgroup);
    if exists i :: OccursAt(cg, cfg.cgroupFilter, i) {
      var i :| OccursAt(cg, cfg.cgroupFilter, i);
      assert cg[i + k] == cfg.cgroupFilter[k];
      ToLowerHasNoUpper(row.cgroup);
      assert false;
    }
  }

  /** PassesFilters under a configuration, as the predicate of a loop. */
  function PassesWith(cfg: FilterConfig): ProcMetrics -> bool
  {
    (row: ProcMetrics) => PassesFilters(row, cfg)
  }

  /** `FilterMetrics`: the rows that pass the filters, in their input order. */
  method FilterMetrics(rows: seq<ProcMetrics>, cfg: FilterConfig) returns (filtered: seq<ProcMetrics>)
    ensures filtered == Filter(rows, PassesWith(cfg))
  {
    filtered := [];
    for i := 0 to |rows|
      invariant filtered == Filter(rows[..i], PassesWith(cfg))
    {
      FilterStep(rows, i, PassesWith(cfg));
      if PassesFilters(rows[i], cfg) {
        filtered := filtered + [rows[i]];
      }
    }
    assert rows[..|rows|] == rows;
  }

  /** What FilterMetrics keeps: the rows that pass the filters, each as often
      as in the input, and no other. */
  lemma FilterMetricsKeeps(rows: seq<ProcMetrics>, cfg: FilterConfig)
    ensures forall x :: x in Filter(rows, PassesWith(cfg)) <==> x in rows && PassesFilters(x, cfg)
    ensures forall x :: PassesFilters(x, cfg) ==> multiset(Filter(rows, PassesWith(cfg)))[x] == multiset(rows)[x]
  {
    FilterMembers(rows, PassesWith(cfg));
  }

  /** The rows with CPU time. */
  predicate HasCpuTime(row: ProcMetrics)
  {
    row.cpuNs != 0
  }

  /** The sort key of CPUUsageRows: more CPU time first. */
  function ByCpuNs(row: ProcMetrics): Rank
  {
    Rank(-(row.cpuNs as real), 0.0)
  }

  /** An append loop over `rows` keeping the rows that pass `keep`. */
  method Candidates(rows: seq<ProcMetrics>, keep: ProcMetrics -> bool) returns (candidates: seq<ProcMetrics>)
    ensures candidates == Filter(rows, keep)
  {
    candidates := [];
    for i := 0 to |rows|
      invariant candidates == Filter(rows[..i], keep)
    {
      FilterStep(rows, i, keep);
      if keep(rows[i]) {
        candidates := candidates + [rows[i]];
      }
    }
    assert rows[..|rows|] == rows;
  }

  /** The CPU usage table over `rows` with limit `topK`: rows with CPU time
      drawn from the input (no more often than there), most CPU time first, as
      many as there are up to `topK` when positive, and no row with CPU time
      left out that has more of it than one shown. The order among rows with
      equal CPU time is left open, as an unstable sort leaves it. */
  predicate TopCpuUsage(top: seq<ProcMetrics>, rows: seq<ProcMetrics>, topK: int)
  {
    && multiset(top) <= multiset(Filter(rows, HasCpuTime))
    && (forall x :: x in top ==> x in rows && x.cpuNs != 0)
    && (forall i, j :: 0 <= i < j < |top| ==> top[i].cpuNs >= top[j].cpuNs)
    && |top| == Capped(|Filter(rows, HasCpuTime)|, topK)
    && (forall x :: x in rows && x.cpuNs != 0 && x !in top ==> forall y :: y in top ==> x.cpuNs <= y.cpuNs)
  }

  /** CPUUsageRows: the rows with CPU time, most first, cut to `topK` when
      positive. */
  method CPUUsageRows(rows: seq<ProcMetrics>, topK: int) returns (top: seq<ProcMetrics>)
    ensures TopCpuUsage(top, rows, topK)
  {
    var candidates := Candidates(rows, HasCpuTime);
    candidates := SortBy(candidates, ByCpuNs);
    if topK > 0 && |candidates| > topK {
      candidates := candidates[..topK];
    }
    top := candidates;
    CPUUsageRowsTop(rows, topK);
  }

  /** Sorting the rows with CPU time by ByCpuNs and cutting the result to
      `topK` gives a CPU usage table. */
  lemma CPUUsageRowsTop(rows: seq<ProcMetrics>, topK: int)
    ensures TopCpuUsage(TopBy(Filter(rows, HasCpuTime), ByCpuNs, topK), rows, topK)
  {
    var c := Filter(rows, HasCpuTime);
    var top := TopBy(c, ByCpuNs, topK);
    FilterMembers(rows, HasCpuTime);
    TopMembers(c, ByCpuNs, topK);
    forall i, j | 0 <= i < j < |top|
      ensures top[i].cpuNs >= top[j].cpuNs
    {
      assert !Before(ByCpuNs(top[j]), ByCpuNs(top[i]));
    }
  }

  /** What a top selection holds comes from its input. */
  lemma TopMembers<T(!new)>(s: seq<T>, key: T -> Rank, limit: int)
    ensures forall x :: x in TopBy(s, key, limit) ==> x in s
  {
    var top := TopBy(s, key, limit);
    forall x | x in top
      ensures x in s
    {
      assert x in multiset(top);
    }
  }

  /** The rows CPUCostRows considers: those with faults or CPU time. */
  predicate HasCost(row: ProcMetrics)
  {
    !(row.faults == 0 && row.cpuMs == 0.0)
  }

  /** Cheapest CPU per fault first; on equal cost, more faults per second first. */
  function ByCost(row: ProcMetrics): Rank
  {
    Rank(row.cpuCostPerFault, -row.faultsPerSec)
  }

  /** The cost table over `rows` with limit `topK`: rows with faults or CPU
      time drawn from the input (no more often than there), in ascending cost
      with ties in descending rate, as many as there are up to `topK` when
      positive, and none left out that ranks before one shown. The order among
      rows equal in both cost and rate is left open. */
  predicate TopCpuCost(top: seq<ProcMetrics>, rows: seq<ProcMetrics>, topK: int)
  {
    && multiset(top) <= multiset(Filter(rows, HasCost))
    && (forall x :: x in top ==> x in rows && HasCost(x))
    && (forall i, j :: 0 <= i < j < |top| ==>
          top[i].cpuCostPerFault < top[j].cpuCostPerFault
          || (top[i].cpuCostPerFault == top[j].cpuCostPerFault && top[i].faultsPerSec >= top[j].faultsPerSec))
    && |top| == Capped(|Filter(rows, HasCost)|, topK)
    && (forall x :: x in rows && HasCost(x) && x !in top ==> forall y :: y in top ==> !Before(ByCost(x), ByCost(y)))
  }

  /** CPUCostRows: the rows with faults or CPU time, by cost per fault
      ascending and rate descending, cut to `topK` when positive. */
  method CPUCostRows(rows: seq<ProcMetrics>, topK: int) returns (top: seq<ProcMetrics>)
    ensures TopCpuCost(top, rows, topK)
  {
    var candidates := Candidates(rows, HasCost);
    candidates := SortBy(candidates, ByCost);
    if topK > 0 && |candidates| > topK {
      candidates := candidates[..topK];
    }
    top := candidates;
    CPUCostRowsTop(rows, topK);
  }

  /** `ByCost` is the `less` of the sort in CPUCostRows. */
  lemma ByCostIsLess(a: ProcMetrics, b: ProcMetrics)
    ensures Before(ByCost(a), ByCost(b)) <==>
              if a.cpuCostPerFault == b.cpuCostPerFault then a.faultsPerSec > b.faultsPerSec
              else a.cpuCostPerFault < b.cpuCostPerFault
  {
  }

  /** Sorting the rows with faults or CPU time by ByCost and cutting the
      result to `topK` gives a cost table. */
  lemma CPUCostRowsTop(rows: seq<ProcMetrics>, topK: int)
    ensures TopCpuCost(TopBy(Filter(rows, HasCost), ByCost, topK), rows, topK)
  {
    var c := Filter(rows, HasCost);
    var top := TopBy(c, ByCost, topK);
    FilterMembers(rows, HasCost);
    TopMembers(c, ByCost, topK);
    forall i, j | 0 <= i < j < |top|
      ensures top[i].cpuCostPerFault < top[j].cpuCostPerFault
              || (top[i].cpuCostPerFault == top[j].cpuCostPerFault && top[i].faultsPerSec >= top[j].faultsPerSec)
    {
      assert !Before(ByCost(top[j]), ByCost(top[i]));
    }
  }

  /** The test FilterContentionRows applies to a pair: both pids have a row,
      neither is a hidden kernel thread, and with a cgroup filter set at
      least one side's lower-cased cgroup contains it. */
  predicate KeepPair(entry: ContentionStat, cfg: FilterConfig, procIndex: map<u32, ProcMetrics>)
  {
    && entry.victimPid in procIndex && entry.aggressorPid in procIndex
    && !(HideKernelEnabled(cfg) && (IsKernelThread(procIndex[entry.victimPid]) || IsKernelThread(procIndex[entry.aggressorPid])))
    && (cfg.cgroupFilter == []
        || Contains(ToLower(procIndex[entry.victimPid].cgroup), cfg.cgroupFilter)
        || Contains(ToLower(procIndex[entry.aggressorPid].cgroup), cfg.cgroupFilter))
  }

  function KeepPairWith(cfg: FilterConfig, procIndex: map<u32, ProcMetrics>): ContentionStat -> bool
  {
    (entry: ContentionStat) => KeepPair(entry, cfg, procIndex)
  }

  /** `FilterContentionRows`: the pairs that pass, in input order, cut to
      `topK` when positive (an empty input gives nil, the empty slice). */
  method FilterContentionRows(entries: seq<ContentionStat>, cfg: FilterConfig, procIndex: map<u32, ProcMetrics>, topK: int)
    returns (rows: seq<ContentionStat>)
    ensures rows == Truncate(Filter(entries, KeepPairWith(cfg, procIndex)), topK)
  {
    if |entries| == 0 {
      return [];
    }
    rows := [];
    var hideKernel := HideKernelEnabled(cfg);
    for i := 0 to |entries|
      invariant rows == Filter(entries[..i], KeepPairWith(cfg, procIndex))
    {
      FilterStep(entries, i, KeepPairWith(cfg, procIndex));
      var entry := entries[i];
      if entry.victimPid !in procIndex || entry.aggressorPid !in procIndex {
        continue;
      }
      var victim := procIndex[entry.victimPid];
      var aggressor := procIndex[entry.aggressorPid];
      if hideKernel && (IsKernelThread(victim) || IsKernelThread(aggressor)) {
        continue;
      }
      if cfg.cgroupFilter != [] {
        var vMatch := Contains(ToLower(victim.cgroup), cfg.cgroupFilter);
        var aMatch := Contains(ToLower(aggressor.cgroup), cfg.cgroupFilter);
        if !vMatch && !aMatch {
          continue;
        }
      }
      rows := rows + [entry];
    }
    assert entries[..|entries|] == entries;
    if topK > 0 && |rows| > topK {
      rows := rows[..topK];
    }
  }

  /** The contention table keeps pairs in input order: it is a prefix of the
      passing pairs, holds only passing pairs of the input, and is as long as
      the limit allows. */
  lemma FilterContentionRowsKeeps(entries: seq<ContentionStat>, cfg: FilterConfig, procIndex: map<u32, ProcMetrics>, topK: int)
    ensures var kept := Filter(entries, KeepPairWith(cfg, procIndex));
            var rows := Truncate(kept, topK);
            && rows <= kept
            && |rows| == Capped(|kept|, topK)
            && (forall e :: e in rows ==> e in entries && KeepPair(e, cfg, procIndex))
            && (forall e :: e in entries && KeepPair(e, cfg, procIndex) && e !in rows ==> topK > 0 && |rows| == topK)
  {
    var kept := Filter(entries, KeepPairWith(cfg, procIndex));
    FilterMembers(entries, KeepPairWith(cfg, procIndex));
    var rows := Truncate(kept, topK);
    assert forall e :: e in rows ==> e in kept;
  }

  /** The score that ranks focus candidates: a thousand per severity step, plus
      the CPU share. */
  function FocusScore(row: ProcMetrics): real
  {
    DiagnosisSeverity(row.diagnosis) as real * 1000.0 + row.cpuPercent
  }

  /** A row above the noise floor: a diagnosis with a severity, or at least 1%
      CPU, or at least one fault per second. */
  predicate AboveNoise(row: ProcMetrics)
  {
    !(DiagnosisSeverity(row.diagnosis) == 0 && row.cpuPercent < 1.0 && row.faultsPerSec < 1.0)
  }

  /** `rows[i]` is the first row above the noise floor with the highest score. */
  predicate FirstBestScore(rows: seq<ProcMetrics>, i: int)
  {
    && 0 <= i < |rows| && AboveNoise(rows[i])
    && (forall j :: 0 <= j < |rows| && AboveNoise(rows[j]) ==> FocusScore(rows[j]) <= FocusScore(rows[i]))
    && (forall j :: 0 <= j < i && AboveNoise(rows[j]) ==> FocusScore(rows[j]) < FocusScore(rows[i]))
  }

  /** `rows[i]` is the first row with the highest CPU share. */
  predicate FirstMaxCpu(rows: seq<ProcMetrics>, i: int)
  {
    && 0 <= i < |rows|
    && (forall j :: 0 <= j < |rows| ==> rows[j].cpuPercent <= rows[i].cpuPercent)
    && (forall j :: 0 <= j < i ==> rows[j].cpuPercent < rows[i].cpuPercent)
  }

  /** `SelectFocusCandidate`: nil for no rows; otherwise the first best-scoring
      row above the noise floor, or when no row is above it the first row with
      the most CPU. */
  method SelectFocusCandidate(rows: seq<ProcMetrics>) returns (best: Option<ProcMetrics>)
    ensures best.None? <==> rows == []
    ensures (exists i :: 0 <= i < |rows| && AboveNoise(rows[i])) ==>
              exists i :: FirstBestScore(rows, i) && best == Some(rows[i])
    ensures rows != [] && (forall i :: 0 <= i < |rows| ==> !AboveNoise(rows[i])) ==>
              exists i :: FirstMaxCpu(rows, i) && best == Some(rows[i])
  {
    if |rows| == 0 {
      return None;
    }
    best := None;
    var bestScore := -1.0;
    ghost var bestIdx := -1;
    for i := 0 to |rows|
      invariant best.None? <==> forall j :: 0 <= j < i ==> !AboveNoise(rows[j])
      invariant best.Some? ==> 0 <= bestIdx < i && best == Some(rows[bestIdx]) && bestScore == FocusScore(rows[bestIdx])
      invariant best.Some? ==> AboveNoise(rows[bestIdx])
      invariant best.Some? ==> forall j :: 0 <= j < i && AboveNoise(rows[j]) ==> FocusScore(rows[j]) <= bestScore
      invariant best.Some? ==> forall j :: 0 <= j < bestIdx && AboveNoise(rows[j]) ==> FocusScore(rows[j]) < bestScore
    {
      var row := rows[i];
      var severity := DiagnosisSeverity(row.diagnosis);
      if severity == 0 && row.cpuPercent < 1.0 && row.faultsPerSec < 1.0 {
        continue;
      }
      var score := severity as real * 1000.0 + row.cpuPercent;
      if best.None? || score > bestScore {
        best := Some(row);
        bestScore := score;
        bestIdx := i;
      }
    }
    if best.Some? {
      assert FirstBestScore(rows, bestIdx);
      return;
    }
    var maxIdx := 0;
    for i := 1 to |rows|
      invariant 0 <= maxIdx < i
      invariant forall j :: 0 <= j < i ==> rows[j].cpuPercent <= rows[maxIdx].cpuPercent
      invariant forall j :: 0 <= j < maxIdx ==> rows[j].cpuPercent < rows[maxIdx].cpuPercent
    {
      if rows[i].cpuPercent > rows[maxIdx].cpuPercent {
        maxIdx := i;
      }
    }
    assert FirstMaxCpu(rows, maxIdx);
    best := Some(rows[maxIdx]);
  }

  /** There is only one first best row (and one first row of most CPU), so
      the focus is determined by the rows. */
  lemma FocusUnique(rows: seq<ProcMetrics>, i: int, j: int)
    ensures FirstBestScore(rows, i) && FirstBestScore(rows, j) ==> i == j
    ensures FirstMaxCpu(rows, i) && FirstMaxCpu(rows, j) ==> i == j
  {
  }

  /** With CPU shares between 0 and 100%, severity decides the focus: a row
      with a more severe diagnosis always scores higher. */
  lemma SeverityDominates(a: ProcMetrics, b: ProcMetrics)
    requires 0.0 <= a.cpuPercent <= 100.0 && 0.0 <= b.cpuPercent <= 100.0
    requires DiagnosisSeverity(a.diagnosis) > DiagnosisSeverity(b.diagnosis)
    ensures FocusScore(a) > FocusScore(b)
  {
  }
}
