/** `BuildProcMetrics` (pkg/report/metrics.go): merging the CPU, page-fault
    and contention snapshots of one window into one row per process. The
    merge walks the three slices in order, filling a map of rows through
    `ensure`, then adds resident memory and the derived figures. What /proc
    reports (resident set sizes, total memory) and the number of CPUs are
    inputs.

    Each loop is specified by a fold over its input (CpuPhase, FaultPhase,
    PairPhase, RssPhase); the lemmas give each pid's row after a fold in closed
    form, which Merged puts together. */
module MetricsMerge {
  import opened Wrappers
  import opened Words
  import opened Types
  import opened Ranking
  import opened MapIter
  import opened Metrics
  import Durations

  const MIB: real := 1048576.0

  /** A fresh row for `pid`, every other field zero or empty. */
  function Blank(pid: u32): ProcMetrics
  {
    ProcMetrics(pid, "", "", 0, 0.0, 0.0, 0.0, 0.0, 0, 0.0, 0.0, 0, 0, "")
  }

  /** The row the ensure helper hands out for a nonzero pid: the existing one or a
      blank one. */
  function RowOf(rows: map<u32, ProcMetrics>, pid: u32): ProcMetrics
  {
    if pid in rows then rows[pid] else Blank(pid)
  }

  /** `x`, or `y` in place of an empty `x`: how a name or cgroup is filled in. */
  function FillEmpty(x: string, y: string): string
  {
    if x == [] then y else x
  }

  /** The CPU time available in the interval: its nanoseconds times the CPU count. */
  function Capacity(interval: int, numCpu: nat): real
  {
    interval as real * numCpu as real
  }

  /** The total memory TotalMemoryBytes reports, with 1 in place of an error or of zero. */
  function TotalMemory(total: Option<u64>): (m: real)
    ensures m >= 1.0
  {
    if total.None? || total.value == 0 then 1.0 else total.value as real
  }

  // ---- The loops, one iteration at a time ----

  /** What one CPU stat does to its pid's row: the name and CPU figures are
      overwritten, the cgroup is filled only while empty; CPU% is set only for
      a positive capacity. */
  function CpuSide(row: ProcMetrics, stat: CPUStat, capacity: real): ProcMetrics
  {
    row.(comm := stat.comm, cgroup := FillEmpty(row.cgroup, stat.cgroup),
         cpuNs := stat.ns, cpuMs := stat.ns as real / 1000000.0,
         cpuPercent := if capacity > 0.0 then 100.0 * stat.ns as real / capacity else row.cpuPercent)
  }

  /** One iteration of the CPU loop; pid 0 is skipped. */
  function CpuStep(rows: map<u32, ProcMetrics>, stat: CPUStat, capacity: real): map<u32, ProcMetrics>
  {
    if stat.pid == 0 then rows else rows[stat.pid := CpuSide(RowOf(rows, stat.pid), stat, capacity)]
  }

  /** The rows after the CPU loop over `stats`, starting from no rows. */
  function CpuPhase(stats: seq<CPUStat>, capacity: real): map<u32, ProcMetrics>
    decreases |stats|
  {
    if stats == [] then map[]
    else CpuStep(CpuPhase(stats[..|stats| - 1], capacity), stats[|stats| - 1], capacity)
  }

  /** One iteration of the page-fault loop: name and cgroup filled only while
      empty, the fault figures overwritten. */
  function FaultStep(rows: map<u32, ProcMetrics>, pf: PageFaultStat): map<u32, ProcMetrics>
  {
    if pf.pid == 0 then rows
    else
      var row := RowOf(rows, pf.pid);
      rows[pf.pid := row.(comm := FillEmpty(row.comm, pf.comm), cgroup := FillEmpty(row.cgroup, pf.cgroup),
                          faults := pf.faults, faultsPerSec := pf.faultsPerSec)]
  }

  function FaultPhase(rows: map<u32, ProcMetrics>, pfs: seq<PageFaultStat>): map<u32, ProcMetrics>
    decreases |pfs|
  {
    if pfs == [] then rows
    else FaultStep(FaultPhase(rows, pfs[..|pfs| - 1]), pfs[|pfs| - 1])
  }

  /** One iteration of the contention loop: the victim (if not pid 0) gets its
      name filled while empty and the count added to `Preempted`; then the
      aggressor likewise with `PreemptsOthers`. Both additions wrap at 2^64. */
  function PairStep(rows: map<u32, ProcMetrics>, pair: ContentionStat): map<u32, ProcMetrics>
  {
    var afterVictim :=
      if pair.victimPid == 0 then rows
      else
        var v := RowOf(rows, pair.victimPid);
        rows[pair.victimPid := v.(comm := FillEmpty(v.comm, pair.victimComm), preempted := AddU64(v.preempted, pair.count))];
    if pair.aggressorPid == 0 then afterVictim
    else
      var a := RowOf(afterVictim, pair.aggressorPid);
      afterVictim[pair.aggressorPid := a.(comm := FillEmpty(a.comm, pair.aggressorComm),
                                          preemptsOthers := AddU64(a.preemptsOthers, pair.count))]
  }

  function PairPhase(rows: map<u32, ProcMetrics>, pairs: seq<ContentionStat>): map<u32, ProcMetrics>
    decreases |pairs|
  {
    if pairs == [] then rows
    else PairStep(PairPhase(rows, pairs[..|pairs| - 1]), pairs[|pairs| - 1])
  }

  /** The resident-memory loop: every row whose pid /proc reports gets its size
      in MiB; the order of that map's iteration does not matter, as each pid
      is reported once. */
  function RssPhase(rows: map<u32, ProcMetrics>, rss: map<u32, u64>): map<u32, ProcMetrics>
  {
    map p | p in rows :: if p in rss then rows[p].(rssMB := rss[p] as real / MIB) else rows[p]
  }

  /** The last loop on one row: RSS share of memory, CPU cost per fault (with
      the fault rate recomputed from the count when the collector left it at
      0), and the diagnosis of the row so completed. The rate field itself is
      left as it was, and the diagnosis reads that field. */
  function Finish(row: ProcMetrics, seconds: real, totalMem: real): (r: ProcMetrics)
    requires seconds > 0.0 && totalMem > 0.0 && row.faultsPerSec >= 0.0
    ensures r.pid == row.pid && r.faultsPerSec == row.faultsPerSec
  {
    var cpuMsPerSec := row.cpuMs / seconds;
    var faultRate := if row.faultsPerSec == 0.0 && row.faults > 0 then row.faults as real / seconds else row.faultsPerSec;
    var done := row.(rssRatio := row.rssMB * MIB / totalMem, cpuCostPerFault := cpuMsPerSec / (faultRate + 1.0));
    done.(diagnosis := ClassifyProc(done))
  }

  // ---- Closed forms: what each pid's row holds after the loops ----

  /** What filling an empty string from each of `xs` in turn leaves. */
  function FirstNonEmpty(xs: seq<string>): string
    decreases |xs|
  {
    if xs == [] then [] else FillEmpty(FirstNonEmpty(xs[..|xs| - 1]), xs[|xs| - 1])
  }

  /** It is the first non-empty string of `xs`, and "" when there is none. */
  lemma {:induction false} FirstNonEmptyMeaning(xs: seq<string>)
    ensures FirstNonEmpty(xs) == [] <==> forall i :: 0 <= i < |xs| ==> xs[i] == []
    ensures FirstNonEmpty(xs) != [] ==>
              exists i :: 0 <= i < |xs| && xs[i] == FirstNonEmpty(xs) && forall j :: 0 <= j < i ==> xs[j] == []
    decreases |xs|
  {
    if xs != [] {
      var n := |xs| - 1;
      FirstNonEmptyMeaning(xs[..n]);
      assert forall i :: 0 <= i < n ==> xs[..n][i] == xs[i];
    }
  }

  lemma FirstNonEmptySnoc(xs: seq<string>, x: string)
    ensures FirstNonEmpty(xs + [x]) == FillEmpty(FirstNonEmpty(xs), x)
  {
    assert (xs + [x])[..|xs|] == xs;
  }

  /** The last CPU stat of pid `p`, if any. */
  function LastCpu(s: seq<CPUStat>, p: u32): Option<CPUStat>
    decreases |s|
  {
    if s == [] then None
    else if s[|s| - 1].pid == p then Some(s[|s| - 1])
    else LastCpu(s[..|s| - 1], p)
  }

  /** LastCpu is absent exactly when `p` has no CPU stat, and otherwise is a
      stat of `p` after which `p` has none. */
  lemma {:induction false} LastCpuMeaning(s: seq<CPUStat>, p: u32)
    ensures LastCpu(s, p).None? <==> forall i :: 0 <= i < |s| ==> s[i].pid != p
    ensures LastCpu(s, p).Some? ==>
              exists i :: 0 <= i < |s| && s[i] == LastCpu(s, p).value && s[i].pid == p
                          && forall j :: i < j < |s| ==> s[j].pid != p
    decreases |s|
  {
    if s != [] {
      var n := |s| - 1;
      LastCpuMeaning(s[..n], p);
      assert forall i :: 0 <= i < n ==> s[..n][i] == s[i];
    }
  }

  /** The cgroups of pid `p`'s CPU stats, in order. */
  function CpuCgroups(s: seq<CPUStat>, p: u32): (r: seq<string>)
    ensures r == [] <==> LastCpu(s, p).None?
    decreases |s|
  {
    if s == [] then []
    else
      var n := |s| - 1;
      CpuCgroups(s[..n], p) + (if s[n].pid == p then [s[n].cgroup] else [])
  }

  /** The last page-fault stat of pid `p`, if any. */
  function LastFault(f: seq<PageFaultStat>, p: u32): Option<PageFaultStat>
    decreases |f|
  {
    if f == [] then None
    else if f[|f| - 1].pid == p then Some(f[|f| - 1])
    else LastFault(f[..|f| - 1], p)
  }

  /** LastFault is absent exactly when `p` has no page-fault stat, and
      otherwise is a stat of `p` after which `p` has none. */
  lemma {:induction false} LastFaultMeaning(f: seq<PageFaultStat>, p: u32)
    ensures LastFault(f, p).None? <==> forall i :: 0 <= i < |f| ==> f[i].pid != p
    ensures LastFault(f, p).Some? ==>
              exists i :: 0 <= i < |f| && f[i] == LastFault(f, p).value && f[i].pid == p
                          && forall j :: i < j < |f| ==> f[j].pid != p
    decreases |f|
  {
    if f != [] {
      var n := |f| - 1;
      LastFaultMeaning(f[..n], p);
      assert forall i :: 0 <= i < n ==> f[..n][i] == f[i];
    }
  }

  /** The names of pid `p`'s page-fault stats, in order. */
  function FaultComms(f: seq<PageFaultStat>, p: u32): seq<string>
    decreases |f|
  {
    if f == [] then []
    else
      var n := |f| - 1;
      FaultComms(f[..n], p) + (if f[n].pid == p then [f[n].comm] else [])
  }

  /** The cgroups of pid `p`'s page-fault stats, in order. */
  function FaultCgroups(f: seq<PageFaultStat>, p: u32): seq<string>
    decreases |f|
  {
    if f == [] then []
    else
      var n := |f| - 1;
      FaultCgroups(f[..n], p) + (if f[n].pid == p then [f[n].cgroup] else [])
  }

  /** The names the pairs give pid `p`, in order: within a pair, the victim's
      before the aggressor's. */
  function PairComms(ct: seq<ContentionStat>, p: u32): seq<string>
    decreases |ct|
  {
    if ct == [] then []
    else
      var n := |ct| - 1;
      PairComms(ct[..n], p)
        + (if ct[n].victimPid == p then [ct[n].victimComm] else [])
        + (if ct[n].aggressorPid == p then [ct[n].aggressorComm] else [])
  }

  /** The sum of the counts of the pairs where `p` is the victim. */
  function VictimCount(ct: seq<ContentionStat>, p: u32): nat
    decreases |ct|
  {
    if ct == [] then 0
    else
      var n := |ct| - 1;
      VictimCount(ct[..n], p) + (if ct[n].victimPid == p then ct[n].count else 0)
  }

  /** The sum of the counts of the pairs where `p` is the aggressor. */
  function AggressorCount(ct: seq<ContentionStat>, p: u32): nat
    decreases |ct|
  {
    if ct == [] then 0
    else
      var n := |ct| - 1;
      AggressorCount(ct[..n], p) + (if ct[n].aggressorPid == p then ct[n].count else 0)
  }

  /** Whether `p` is on either side of some pair. */
  function InPairs(ct: seq<ContentionStat>, p: u32): bool
    decreases |ct|
  {
    if ct == [] then false
    else InPairs(ct[..|ct| - 1], p) || ct[|ct| - 1].victimPid == p || ct[|ct| - 1].aggressorPid == p
  }

  lemma {:induction false} InPairsMeaning(ct: seq<ContentionStat>, p: u32)
    ensures InPairs(ct, p) <==> exists i :: 0 <= i < |ct| && (ct[i].victimPid == p || ct[i].aggressorPid == p)
    decreases |ct|
  {
    if ct != [] {
      var n := |ct| - 1;
      InPairsMeaning(ct[..n], p);
      assert forall i :: 0 <= i < n ==> ct[..n][i] == ct[i];
    }
  }

  /** Pid `p`'s row after the CPU loop: the name, CPU time and CPU share of its
      last CPU stat, and the first non-empty cgroup among its CPU stats. */
  function CpuRow(p: u32, s: seq<CPUStat>, capacity: real): ProcMetrics
  {
    var last := LastCpu(s, p);
    if last.None? then Blank(p)
    else
      var c := last.value;
      Blank(p).(comm := c.comm, cgroup := FirstNonEmpty(CpuCgroups(s, p)), cpuNs := c.ns,
                cpuMs := c.ns as real / 1000000.0,
                cpuPercent := if capacity > 0.0 then 100.0 * c.ns as real / capacity else 0.0)
  }

  /** A row after the page-fault loop: name and cgroup are the first non-empty
      of what it had and what its stats carry; the fault figures are its last
      stat's. */
  function FaultRowAfter(b: ProcMetrics, f: seq<PageFaultStat>): ProcMetrics
  {
    var last := LastFault(f, b.pid);
    b.(comm := FillEmpty(b.comm, FirstNonEmpty(FaultComms(f, b.pid))),
       cgroup := FillEmpty(b.cgroup, FirstNonEmpty(FaultCgroups(f, b.pid))),
       faults := if last.Some? then last.value.faults else b.faults,
       faultsPerSec := if last.Some? then last.value.faultsPerSec else b.faultsPerSec)
  }

  /** A row after the contention loop: the name is the first non-empty of what
      it had and the names the pairs give it, and the two counters grow by the
      sums of its pairs' counts (modulo 2^64). The cgroup is not touched. */
  function PairRowAfter(b: ProcMetrics, ct: seq<ContentionStat>): ProcMetrics
  {
    b.(comm := FillEmpty(b.comm, FirstNonEmpty(PairComms(ct, b.pid))),
       preempted := (b.preempted + VictimCount(ct, b.pid)) % U64_MODULUS,
       preemptsOthers := (b.preemptsOthers + AggressorCount(ct, b.pid)) % U64_MODULUS)
  }

  /** The pids BuildProcMetrics reports: every nonzero pid of a CPU stat, of a
      page-fault stat, or on either side of a pair. */
  function SeenPids(cpu: seq<CPUStat>, pf: seq<PageFaultStat>, ct: seq<ContentionStat>): set<u32>
  {
    (set i | 0 <= i < |cpu| && cpu[i].pid != 0 :: cpu[i].pid)
    + (set i | 0 <= i < |pf| && pf[i].pid != 0 :: pf[i].pid)
    + (set i | 0 <= i < |ct| && ct[i].victimPid != 0 :: ct[i].victimPid)
    + (set i | 0 <= i < |ct| && ct[i].aggressorPid != 0 :: ct[i].aggressorPid)
  }

  /** How BuildProcMetrics is parameterised by its environment. */
  datatype Env = Env(interval: int, numCpu: nat, totalMem: Option<u64>, rss: map<u32, u64>)

  /** The interval in seconds, 1 when the interval is not positive. */
  function Seconds(env: Env): (s: real)
    ensures s > 0.0
  {
    Durations.WindowSeconds(env.interval)
  }

  /** Pid `p`'s row before the last loop, field by field from the inputs. */
  function Gathered(p: u32, cpu: seq<CPUStat>, pf: seq<PageFaultStat>, ct: seq<ContentionStat>, env: Env): ProcMetrics
  {
    var row := PairRowAfter(FaultRowAfter(CpuRow(p, cpu, Capacity(env.interval, env.numCpu)), pf), ct);
    if p in env.rss then row.(rssMB := env.rss[p] as real / MIB) else row
  }

  /** Pid `p`'s reported row. */
  function Merged(p: u32, cpu: seq<CPUStat>, pf: seq<PageFaultStat>, ct: seq<ContentionStat>, env: Env): ProcMetrics
    requires forall i :: 0 <= i < |pf| ==> pf[i].faultsPerSec >= 0.0
  {
    FaultRateOfLast(pf, p);
    Finish(Gathered(p, cpu, pf, ct, env), Seconds(env), TotalMemory(env.totalMem))
  }

  /** The last page-fault stat's rate is never negative when no stat's is. */
  lemma FaultRateOfLast(pf: seq<PageFaultStat>, p: u32)
    requires forall i :: 0 <= i < |pf| ==> pf[i].faultsPerSec >= 0.0
    ensures LastFault(pf, p).Some? ==> LastFault(pf, p).value.faultsPerSec >= 0.0
  {
    LastFaultMeaning(pf, p);
  }

  // ---- The fold lemmas ----

  /** The rows never hold pid 0, and each row carries its own pid. */
  predicate Keyed(rows: map<u32, ProcMetrics>)
  {
    forall p :: p in rows ==> p != 0 && rows[p].pid == p
  }

  lemma {:induction false} CpuPhaseKeyed(s: seq<CPUStat>, capacity: real)
    ensures Keyed(CpuPhase(s, capacity))
    decreases |s|
  {
    if s != [] {
      CpuPhaseKeyed(s[..|s| - 1], capacity);
    }
  }

  /** After the CPU loop, a nonzero pid has a row exactly when it has a CPU
      stat, and the row is CpuRow. */
  lemma {:induction false} CpuPhaseRows(s: seq<CPUStat>, capacity: real, p: u32)
    requires p != 0
    ensures p in CpuPhase(s, capacity) <==> LastCpu(s, p).Some?
    ensures RowOf(CpuPhase(s, capacity), p) == CpuRow(p, s, capacity)
    decreases |s|
  {
    if s != [] {
      CpuPhaseRows(s[..|s| - 1], capacity, p);
      CpuRowSnoc(p, s, capacity);
    }
  }

  /** CpuRow grows by one CpuSide per stat of its pid. */
  lemma CpuRowSnoc(p: u32, s: seq<CPUStat>, capacity: real)
    requires s != []
    ensures CpuRow(p, s, capacity)
         == if s[|s| - 1].pid == p then CpuSide(CpuRow(p, s[..|s| - 1], capacity), s[|s| - 1], capacity)
            else CpuRow(p, s[..|s| - 1], capacity)
  {
    var n := |s| - 1;
    var c := s[n];
    if c.pid == p {
      var row := CpuRow(p, s[..n], capacity);
      assert CpuCgroups(s, p) == CpuCgroups(s[..n], p) + [c.cgroup];
      FirstNonEmptySnoc(CpuCgroups(s[..n], p), c.cgroup);
      assert row.cgroup == FirstNonEmpty(CpuCgroups(s[..n], p));
      assert row == Blank(p).(comm := row.comm, cgroup := row.cgroup, cpuNs := row.cpuNs, cpuMs := row.cpuMs,
                              cpuPercent := row.cpuPercent);
      assert capacity <= 0.0 ==> row.cpuPercent == 0.0;
      assert LastCpu(s, p) == Some(c);
      assert CpuRow(p, s, capacity)
          == Blank(p).(comm := c.comm, cgroup := FillEmpty(row.cgroup, c.cgroup), cpuNs := c.ns,
                       cpuMs := c.ns as real / 1000000.0,
                       cpuPercent := if capacity > 0.0 then 100.0 * c.ns as real / capacity else 0.0);
    } else {
      assert LastCpu(s, p) == LastCpu(s[..n], p);
      assert CpuCgroups(s, p) == CpuCgroups(s[..n], p);
    }
  }

  lemma {:induction false} FaultPhaseKeyed(rows: map<u32, ProcMetrics>, f: seq<PageFaultStat>)
    requires Keyed(rows)
    ensures Keyed(FaultPhase(rows, f))
    decreases |f|
  {
    if f != [] {
      FaultPhaseKeyed(rows, f[..|f| - 1]);
    }
  }

  /** After the page-fault loop, a nonzero pid has a row exactly when it had
      one or has a page-fault stat, and the row is FaultRowAfter of the row it
      had (a blank one if none). */
  lemma {:induction false} FaultPhaseRows(rows: map<u32, ProcMetrics>, f: seq<PageFaultStat>, p: u32)
    requires Keyed(rows) && p != 0
    ensures p in FaultPhase(rows, f) <==> p in rows || LastFault(f, p).Some?
    ensures RowOf(FaultPhase(rows, f), p) == FaultRowAfter(RowOf(rows, p), f)
    decreases |f|
  {
    if f != [] {
      var n := |f| - 1;
      var prev := FaultPhase(rows, f[..n]);
      FaultPhaseRows(rows, f[..n], p);
      FaultPhaseKeyed(rows, f[..n]);
      var b := RowOf(rows, p);
      assert b.pid == p;
      if f[n].pid == p {
        var pf := f[n];
        var mid := RowOf(prev, p);
        assert LastFault(f, p) == Some(pf);
        assert RowOf(FaultPhase(rows, f), p)
            == mid.(comm := FillEmpty(mid.comm, pf.comm), cgroup := FillEmpty(mid.cgroup, pf.cgroup),
                    faults := pf.faults, faultsPerSec := pf.faultsPerSec);
        assert FaultComms(f, p) == FaultComms(f[..n], p) + [pf.comm];
        FirstNonEmptySnoc(FaultComms(f[..n], p), pf.comm);
        assert FaultCgroups(f, p) == FaultCgroups(f[..n], p) + [pf.cgroup];
        FirstNonEmptySnoc(FaultCgroups(f[..n], p), pf.cgroup);
      } else {
        assert LastFault(f, p) == LastFault(f[..n], p);
        assert FaultComms(f, p) == FaultComms(f[..n], p);
        assert FaultCgroups(f, p) == FaultCgroups(f[..n], p);
        assert RowOf(FaultPhase(rows, f), p) == RowOf(prev, p);
      }
    }
  }

  lemma {:induction false} PairPhaseKeyed(rows: map<u32, ProcMetrics>, ct: seq<ContentionStat>)
    requires Keyed(rows)
    ensures Keyed(PairPhase(rows, ct))
    decreases |ct|
  {
    if ct != [] {
      PairPhaseKeyed(rows, ct[..|ct| - 1]);
    }
  }

  /** After the contention loop, a nonzero pid has a row exactly when it had
      one or is on a side of some pair, and the row is PairRowAfter of the row
      it had (a blank one if none). */
  lemma {:induction false} PairPhaseRows(rows: map<u32, ProcMetrics>, ct: seq<ContentionStat>, p: u32)
    requires Keyed(rows) && p != 0
    ensures p in PairPhase(rows, ct) <==> p in rows || InPairs(ct, p)
    ensures RowOf(PairPhase(rows, ct), p) == PairRowAfter(RowOf(rows, p), ct)
    decreases |ct|
  {
    if ct != [] {
      var n := |ct| - 1;
      PairPhaseRows(rows, ct[..n], p);
      PairPhaseKeyed(rows, ct[..n]);
      PairStepRow(PairPhase(rows, ct[..n]), ct[n], p);
      PairRowAfterSnoc(RowOf(rows, p), ct);
    }
  }

  /** What one pair does to a row: the victim side, then the aggressor side. */
  function VictimSide(row: ProcMetrics, pair: ContentionStat): ProcMetrics
  {
    if pair.victimPid == row.pid
    then row.(comm := FillEmpty(row.comm, pair.victimComm), preempted := AddU64(row.preempted, pair.count))
    else row
  }

  function AggressorSide(row: ProcMetrics, pair: ContentionStat): ProcMetrics
  {
    if pair.aggressorPid == row.pid
    then row.(comm := FillEmpty(row.comm, pair.aggressorComm), preemptsOthers := AddU64(row.preemptsOthers, pair.count))
    else row
  }

  lemma PairStepRow(rows: map<u32, ProcMetrics>, pair: ContentionStat, p: u32)
    requires Keyed(rows) && p != 0
    ensures p in PairStep(rows, pair) <==> p in rows || pair.victimPid == p || pair.aggressorPid == p
    ensures RowOf(PairStep(rows, pair), p) == AggressorSide(VictimSide(RowOf(rows, p), pair), pair)
  {
    assert RowOf(rows, p).pid == p;
  }

  lemma PairRowAfterSnoc(b: ProcMetrics, ct: seq<ContentionStat>)
    requires ct != []
    ensures PairRowAfter(b, ct) == AggressorSide(VictimSide(PairRowAfter(b, ct[..|ct| - 1]), ct[|ct| - 1]), ct[|ct| - 1])
  {
    var n := |ct| - 1;
    var pair := ct[n];
    var p := b.pid;
    PairCommSnoc(b.comm, ct, p);
    if pair.victimPid == p {
      ModAddLeft(b.preempted + VictimCount(ct[..n], p), pair.count);
    }
    if pair.aggressorPid == p {
      ModAddLeft(b.preemptsOthers + AggressorCount(ct[..n], p), pair.count);
    }
  }

  /** The name a row ends with grows by the victim's, then the aggressor's
      name of each pair it is in. */
  lemma PairCommSnoc(c: string, ct: seq<ContentionStat>, p: u32)
    requires ct != []
    ensures var n := |ct| - 1;
            var c1 := FillEmpty(c, FirstNonEmpty(PairComms(ct[..n], p)));
            var c2 := if ct[n].victimPid == p then FillEmpty(c1, ct[n].victimComm) else c1;
            FillEmpty(c, FirstNonEmpty(PairComms(ct, p)))
            == if ct[n].aggressorPid == p then FillEmpty(c2, ct[n].aggressorComm) else c2
  {
    var n := |ct| - 1;
    var pair := ct[n];
    var xs := PairComms(ct[..n], p);
    var vs: seq<string> := if pair.victimPid == p then [pair.victimComm] else [];
    var as_: seq<string> := if pair.aggressorPid == p then [pair.aggressorComm] else [];
    assert PairComms(ct, p) == xs + vs + as_;
    if pair.victimPid == p {
      FirstNonEmptySnoc(xs, pair.victimComm);
    } else {
      assert xs + vs == xs;
    }
    if pair.aggressorPid == p {
      FirstNonEmptySnoc(xs + vs, pair.aggressorComm);
    } else {
      assert xs + vs + as_ == xs + vs;
    }
  }

  // ---- The method ----

  /** The CPU loop. */
  method MergeCpu(cpuStats: seq<CPUStat>, capacity: real) returns (rows: map<u32, ProcMetrics>)
    ensures rows == CpuPhase(cpuStats, capacity)
  {
    rows := map[];
    for i := 0 to |cpuStats|
      invariant rows == CpuPhase(cpuStats[..i], capacity)
    {
      assert cpuStats[..i + 1][..i] == cpuStats[..i];
      var stat := cpuStats[i];
      if stat.pid == 0 {
        continue;
      }
      var row := RowOf(rows, stat.pid);
      row := row.(comm := stat.comm);
      if row.cgroup == [] {
        row := row.(cgroup := stat.cgroup);
      }
      row := row.(cpuNs := stat.ns, cpuMs := stat.ns as real / 1000000.0);
      if capacity > 0.0 {
        row := row.(cpuPercent := 100.0 * stat.ns as real / capacity);
      }
      rows := rows[stat.pid := row];
    }
    assert cpuStats[..|cpuStats|] == cpuStats;
  }

  /** The page-fault loop. */
  method MergeFaults(rows0: map<u32, ProcMetrics>, pageFaults: seq<PageFaultStat>) returns (rows: map<u32, ProcMetrics>)
    ensures rows == FaultPhase(rows0, pageFaults)
  {
    rows := rows0;
    for i := 0 to |pageFaults|
      invariant rows == FaultPhase(rows0, pageFaults[..i])
    {
      assert pageFaults[..i + 1][..i] == pageFaults[..i];
      var pf := pageFaults[i];
      if pf.pid == 0 {
        continue;
      }
      var row := RowOf(rows, pf.pid);
      if row.comm == [] {
        row := row.(comm := pf.comm);
      }
      if row.cgroup == [] {
        row := row.(cgroup := pf.cgroup);
      }
      row := row.(faults := pf.faults, faultsPerSec := pf.faultsPerSec);
      rows := rows[pf.pid := row];
    }
    assert pageFaults[..|pageFaults|] == pageFaults;
  }

  /** The contention loop. */
  method MergeContention(rows0: map<u32, ProcMetrics>, contention: seq<ContentionStat>) returns (rows: map<u32, ProcMetrics>)
    ensures rows == PairPhase(rows0, contention)
  {
    rows := rows0;
    for i := 0 to |contention|
      invariant rows == PairPhase(rows0, contention[..i])
    {
      assert contention[..i + 1][..i] == contention[..i];
      var pair := contention[i];
      if pair.victimPid != 0 {
        var victim := RowOf(rows, pair.victimPid);
        if victim.comm == [] {
          victim := victim.(comm := pair.victimComm);
        }
        victim := victim.(preempted := AddU64(victim.preempted, pair.count));
        rows := rows[pair.victimPid := victim];
      }
      if pair.aggressorPid != 0 {
        var aggressor := RowOf(rows, pair.aggressorPid);
        if aggressor.comm == [] {
          aggressor := aggressor.(comm := pair.aggressorComm);
        }
        aggressor := aggressor.(preemptsOthers := AddU64(aggressor.preemptsOthers, pair.count));
        rows := rows[pair.aggressorPid := aggressor];
      }
    }
    assert contention[..|contention|] == contention;
  }

  /** The resident-memory loop over the map /proc reported, in whatever order. */
  method MergeRss(rows0: map<u32, ProcMetrics>, rss: map<u32, u64>) returns (rows: map<u32, ProcMetrics>)
    ensures rows == RssPhase(rows0, rss)
  {
    rows := rows0;
    var rest := rss;
    while rest != map[]
      invariant rows.Keys == rows0.Keys
      invariant forall p :: p in rest ==> p in rss && rest[p] == rss[p]
      invariant forall p :: p in rows ==>
                  rows[p] == if p in rss && p !in rest then rows0[p].(rssMB := rss[p] as real / MIB) else rows0[p]
      decreases |rest|
    {
      var pid :| pid in rest;
      var size := rest[pid];
      rest := rest - {pid};
      if pid in rows {
        rows := rows[pid := rows[pid].(rssMB := size as real / MIB)];
      }
    }
    RssDone(rows0, rss, rows);
  }

  /** When /proc's map has been walked through, the rows are RssPhase's. */
  lemma RssDone(rows0: map<u32, ProcMetrics>, rss: map<u32, u64>, rows: map<u32, ProcMetrics>)
    requires rows.Keys == rows0.Keys
    requires forall p :: p in rows ==> rows[p] == if p in rss then rows0[p].(rssMB := rss[p] as real / MIB) else rows0[p]
    ensures rows == RssPhase(rows0, rss)
  {
  }

  /** The work of the last loop on pid `p`'s row. Every row it meets carries
      its pid and a rate that is not negative, so the second branch is never
      taken there; it only makes the function total. */
  function FinishedRow(seconds: real, totalMem: real): (u32, ProcMetrics) -> ProcMetrics
    requires seconds > 0.0 && totalMem > 0.0
  {
    (p: u32, row: ProcMetrics) =>
      if row.faultsPerSec >= 0.0 then Finish(row.(pid := p), seconds, totalMem) else row.(pid := p)
  }

  predicate AnyRow(p: u32, row: ProcMetrics)
  {
    true
  }

  function RowPid(x: ProcMetrics): u32
  {
    x.pid
  }

  /** The last loop, with the per-row work as `finish`: finish every row,
      appending it to `result` and storing it in `index` under its pid. */
  method FinishRows(rows: map<u32, ProcMetrics>, finish: (u32, ProcMetrics) -> ProcMetrics)
    returns (result: seq<ProcMetrics>, index: map<u32, ProcMetrics>)
    requires forall p, row :: finish(p, row).pid == p
    ensures index.Keys == rows.Keys
    ensures forall p :: p in index ==> index[p] == finish(p, rows[p])
    ensures Lists(result, rows, AnyRow, finish, RowPid)
  {
    result := [];
    index := map[];
    var rest := rows;
    ghost var seen: seq<(u32, ProcMetrics)> := [];
    while rest != map[]
      invariant FinishingRows(rows, finish, rest, seen, result, index)
      decreases |rest|
    {
      rest, seen, result, index := FinishNext(rows, finish, rest, seen, result, index);
    }
    FinishingDone(rows, finish, seen, result, index);
  }

  /** One iteration of the last loop: take some pid not yet visited, finish its
      row, append it and index it. */
  method FinishNext(rows: map<u32, ProcMetrics>, finish: (u32, ProcMetrics) -> ProcMetrics,
                    rest: map<u32, ProcMetrics>, ghost seen: seq<(u32, ProcMetrics)>,
                    result: seq<ProcMetrics>, index: map<u32, ProcMetrics>)
    returns (rest': map<u32, ProcMetrics>, ghost seen': seq<(u32, ProcMetrics)>,
             result': seq<ProcMetrics>, index': map<u32, ProcMetrics>)
    requires forall p, row :: finish(p, row).pid == p
    requires FinishingRows(rows, finish, rest, seen, result, index) && rest != map[]
    ensures FinishingRows(rows, finish, rest', seen', result', index') && |rest'| < |rest|
  {
    var pid :| pid in rest;
    FinishingStep(rows, finish, rest, seen, result, index, pid);
    var row := rest[pid];
    var done := finish(pid, row);
    assert done.pid == pid;
    rest' := rest - {pid};
    seen' := seen + [(pid, row)];
    result' := result + [done];
    index' := index[done.pid := done];
  }

  /** The invariant of the last loop: `rest` is what is left of the rows, `seen`
      the entries visited, and `result` and `index` hold their finished rows. */
  predicate FinishingRows(rows: map<u32, ProcMetrics>, finish: (u32, ProcMetrics) -> ProcMetrics,
                          rest: map<u32, ProcMetrics>, seen: seq<(u32, ProcMetrics)>,
                          result: seq<ProcMetrics>, index: map<u32, ProcMetrics>)
  {
    && rest.Keys == rows.Keys - KeysOf(seen)
    && (forall p :: p in rest ==> rest[p] == rows[p])
    && Visits(seen, rows)
    && result == Rows(seen, AnyRow, finish)
    && index == IndexOf(seen, finish)
  }

  /** The index the last loop has built after visiting `seen`. */
  function IndexOf(seen: seq<(u32, ProcMetrics)>, finish: (u32, ProcMetrics) -> ProcMetrics): map<u32, ProcMetrics>
    decreases |seen|
  {
    if seen == [] then map[]
    else
      var e := seen[|seen| - 1];
      IndexOf(seen[..|seen| - 1], finish)[e.0 := finish(e.0, e.1)]
  }

  /** Every visited pid is indexed, to its finished row. */
  lemma {:induction false} IndexOfVisits(seen: seq<(u32, ProcMetrics)>, rows: map<u32, ProcMetrics>,
                                         finish: (u32, ProcMetrics) -> ProcMetrics)
    requires Visits(seen, rows)
    ensures IndexOf(seen, finish).Keys == KeysOf(seen)
    ensures forall p :: p in IndexOf(seen, finish) ==> p in rows && IndexOf(seen, finish)[p] == finish(p, rows[p])
    decreases |seen|
  {
    if seen != [] {
      var n := |seen| - 1;
      assert Visits(seen[..n], rows) by {
        assert forall i :: 0 <= i < n ==> seen[..n][i] == seen[i];
      }
      IndexOfVisits(seen[..n], rows, finish);
    }
  }

  lemma FinishingStep(rows: map<u32, ProcMetrics>, finish: (u32, ProcMetrics) -> ProcMetrics,
                      rest: map<u32, ProcMetrics>, seen: seq<(u32, ProcMetrics)>,
                      result: seq<ProcMetrics>, index: map<u32, ProcMetrics>, pid: u32)
    requires FinishingRows(rows, finish, rest, seen, result, index) && pid in rest
    ensures pid in rows && rest[pid] == rows[pid]
    ensures FinishingRows(rows, finish, rest - {pid}, seen + [(pid, rows[pid])], result + [finish(pid, rows[pid])],
                          index[pid := finish(pid, rows[pid])])
  {
    VisitsSnoc(seen, rows, pid);
    ResultStep(seen, result, (pid, rows[pid]), finish);
    IndexStep(seen, index, (pid, rows[pid]), finish);
    RestStep(rows, rest, KeysOf(seen), pid);
  }

  lemma IndexStep(seen: seq<(u32, ProcMetrics)>, index: map<u32, ProcMetrics>, e: (u32, ProcMetrics),
                  finish: (u32, ProcMetrics) -> ProcMetrics)
    requires index == IndexOf(seen, finish)
    ensures index[e.0 := finish(e.0, e.1)] == IndexOf(seen + [e], finish)
  {
    assert (seen + [e])[..|seen|] == seen;
  }

  lemma RestStep(rows: map<u32, ProcMetrics>, rest: map<u32, ProcMetrics>, keys: set<u32>, pid: u32)
    requires rest.Keys == rows.Keys - keys && pid in rest
    requires forall p :: p in rest ==> rest[p] == rows[p]
    ensures (rest - {pid}).Keys == rows.Keys - (keys + {pid})
    ensures forall p :: p in rest - {pid} ==> (rest - {pid})[p] == rows[p]
  {
  }

  lemma ResultStep(seen: seq<(u32, ProcMetrics)>, result: seq<ProcMetrics>, e: (u32, ProcMetrics),
                   finish: (u32, ProcMetrics) -> ProcMetrics)
    requires result == Rows(seen, AnyRow, finish)
    ensures result + [finish(e.0, e.1)] == Rows(seen + [e], AnyRow, finish)
  {
    RowsSnoc(seen, e, AnyRow, finish);
  }

  lemma FinishingDone(rows: map<u32, ProcMetrics>, finish: (u32, ProcMetrics) -> ProcMetrics,
                      seen: seq<(u32, ProcMetrics)>, result: seq<ProcMetrics>, index: map<u32, ProcMetrics>)
    requires forall p, row :: finish(p, row).pid == p
    requires FinishingRows(rows, finish, map[], seen, result, index)
    ensures index.Keys == rows.Keys
    ensures forall p :: p in index ==> index[p] == finish(p, rows[p])
    ensures Lists(result, rows, AnyRow, finish, RowPid)
  {
    assert KeysOf(seen) == rows.Keys;
    RowsOfFullVisit(seen, rows, AnyRow, finish, RowPid);
    IndexOfVisits(seen, rows, finish);
  }

  /** BuildProcMetrics over the three snapshots and the interval, with the
      CPU count, the total-memory answer and the resident sizes /proc reports
      in `env`: one row per nonzero pid seen in any input, equal to Merged; the
      index maps each pid to its row, and the slice lists each row once. */
  method BuildProcMetrics(cpuStats: seq<CPUStat>, pageFaults: seq<PageFaultStat>, contention: seq<ContentionStat>, env: Env)
    returns (result: seq<ProcMetrics>, index: map<u32, ProcMetrics>)
    requires forall i :: 0 <= i < |pageFaults| ==> pageFaults[i].faultsPerSec >= 0.0
    ensures index.Keys == SeenPids(cpuStats, pageFaults, contention)
    ensures forall p :: p in index ==> index[p] == Merged(p, cpuStats, pageFaults, contention, env)
    ensures forall x :: x in result ==> x.pid in index && index[x.pid] == x
    ensures forall p :: p in index ==> index[p] in result
    ensures forall i, j :: 0 <= i < j < |result| ==> result[i].pid != result[j].pid
    ensures |result| == |index|
  {
    var totalMem := TotalMemory(env.totalMem);
    var capacity := Capacity(env.interval, env.numCpu);
    var seconds := Seconds(env);
    var rows := MergeCpu(cpuStats, capacity);
    rows := MergeFaults(rows, pageFaults);
    rows := MergeContention(rows, contention);
    var merged := rows;
    rows := MergeRss(rows, env.rss);
    MergedRows(cpuStats, pageFaults, contention, env, merged, rows);
    var finish := FinishedRow(seconds, totalMem);
    FinishedPids(seconds, totalMem);
    result, index := FinishRows(rows, finish);
    ListedIndex(result, rows, index, finish);
    FinishedIsMerged(rows, cpuStats, pageFaults, contention, env);
  }

  lemma FinishedPids(seconds: real, totalMem: real)
    requires seconds > 0.0 && totalMem > 0.0
    ensures forall p, row :: FinishedRow(seconds, totalMem)(p, row).pid == p
  {
  }

  /** The rows before the last loop, in closed form. */
  lemma MergedRows(cpu: seq<CPUStat>, pf: seq<PageFaultStat>, ct: seq<ContentionStat>, env: Env,
                   merged: map<u32, ProcMetrics>, rows: map<u32, ProcMetrics>)
    requires merged == PairPhase(FaultPhase(CpuPhase(cpu, Capacity(env.interval, env.numCpu)), pf), ct)
    requires rows == RssPhase(merged, env.rss)
    ensures Keyed(rows)
    ensures rows.Keys == SeenPids(cpu, pf, ct)
    ensures forall p :: p in rows ==> rows[p] == Gathered(p, cpu, pf, ct, env)
  {
    var capacity := Capacity(env.interval, env.numCpu);
    MergedKeyed(cpu, pf, ct, capacity);
    forall p: u32 | p != 0
      ensures p in merged <==> p in SeenPids(cpu, pf, ct)
    {
      MergedAt(cpu, pf, ct, capacity, p);
    }
    SeenPidsNonZero(cpu, pf, ct);
    forall p | p in rows
      ensures rows[p] == Gathered(p, cpu, pf, ct, env)
    {
      MergedAt(cpu, pf, ct, capacity, p);
      GatheredAt(merged, env, p, PairRowAfter(FaultRowAfter(CpuRow(p, cpu, capacity), pf), ct));
    }
  }

  /** RssPhase's row for one pid. */
  lemma GatheredAt(merged: map<u32, ProcMetrics>, env: Env, p: u32, row: ProcMetrics)
    requires p in merged && merged[p] == row
    ensures RssPhase(merged, env.rss)[p] == if p in env.rss then row.(rssMB := env.rss[p] as real / MIB) else row
  {
  }

  lemma MergedKeyed(cpu: seq<CPUStat>, pf: seq<PageFaultStat>, ct: seq<ContentionStat>, capacity: real)
    ensures Keyed(PairPhase(FaultPhase(CpuPhase(cpu, capacity), pf), ct))
  {
    CpuPhaseKeyed(cpu, capacity);
    FaultPhaseKeyed(CpuPhase(cpu, capacity), pf);
    PairPhaseKeyed(FaultPhase(CpuPhase(cpu, capacity), pf), ct);
  }

  /** One pid's row after the three slices have been merged. */
  lemma MergedAt(cpu: seq<CPUStat>, pf: seq<PageFaultStat>, ct: seq<ContentionStat>, capacity: real, p: u32)
    requires p != 0
    ensures p in PairPhase(FaultPhase(CpuPhase(cpu, capacity), pf), ct) <==> p in SeenPids(cpu, pf, ct)
    ensures RowOf(PairPhase(FaultPhase(CpuPhase(cpu, capacity), pf), ct), p)
         == PairRowAfter(FaultRowAfter(CpuRow(p, cpu, capacity), pf), ct)
  {
    var r1 := CpuPhase(cpu, capacity);
    var r2 := FaultPhase(r1, pf);
    CpuPhaseKeyed(cpu, capacity);
    FaultPhaseKeyed(r1, pf);
    CpuPhaseRows(cpu, capacity, p);
    FaultPhaseRows(r1, pf, p);
    PairPhaseRows(r2, ct, p);
    SeenPidsMember(cpu, pf, ct, p);
  }

  lemma SeenPidsNonZero(cpu: seq<CPUStat>, pf: seq<PageFaultStat>, ct: seq<ContentionStat>)
    ensures 0 !in SeenPids(cpu, pf, ct)
  {
  }

  /** What the last loop makes of the gathered rows is Merged. */
  lemma FinishedIsMerged(rows: map<u32, ProcMetrics>, cpu: seq<CPUStat>, pf: seq<PageFaultStat>, ct: seq<ContentionStat>, env: Env)
    requires forall i :: 0 <= i < |pf| ==> pf[i].faultsPerSec >= 0.0
    requires Keyed(rows)
    requires forall p :: p in rows ==> rows[p] == Gathered(p, cpu, pf, ct, env)
    ensures forall p :: p in rows ==> FinishedRow(Seconds(env), TotalMemory(env.totalMem))(p, rows[p]) == Merged(p, cpu, pf, ct, env)
  {
    forall p | p in rows
      ensures FinishedRow(Seconds(env), TotalMemory(env.totalMem))(p, rows[p]) == Merged(p, cpu, pf, ct, env)
    {
      FinishedAt(p, rows[p], cpu, pf, ct, env);
    }
  }

  lemma FinishedAt(p: u32, row: ProcMetrics, cpu: seq<CPUStat>, pf: seq<PageFaultStat>, ct: seq<ContentionStat>, env: Env)
    requires forall i :: 0 <= i < |pf| ==> pf[i].faultsPerSec >= 0.0
    requires row == Gathered(p, cpu, pf, ct, env) && row.pid == p
    ensures FinishedRow(Seconds(env), TotalMemory(env.totalMem))(p, row) == Merged(p, cpu, pf, ct, env)
  {
    GatheredRate(p, cpu, pf, ct, env);
    assert row.(pid := p) == row;
  }

  /** The gathered rate is that of the pid's last page-fault stat, or 0. */
  lemma GatheredRate(p: u32, cpu: seq<CPUStat>, pf: seq<PageFaultStat>, ct: seq<ContentionStat>, env: Env)
    requires forall i :: 0 <= i < |pf| ==> pf[i].faultsPerSec >= 0.0
    ensures Gathered(p, cpu, pf, ct, env).faultsPerSec >= 0.0
  {
    FaultRateOfLast(pf, p);
  }

  /** Membership in SeenPids through the folds. */
  lemma SeenPidsMember(cpu: seq<CPUStat>, pf: seq<PageFaultStat>, ct: seq<ContentionStat>, p: u32)
    requires p != 0
    ensures p in SeenPids(cpu, pf, ct) <==> LastCpu(cpu, p).Some? || LastFault(pf, p).Some? || InPairs(ct, p)
  {
    LastCpuMeaning(cpu, p);
    LastFaultMeaning(pf, p);
    InPairsMeaning(ct, p);
    if LastCpu(cpu, p).Some? {
      var i :| 0 <= i < |cpu| && cpu[i].pid == p;
      assert cpu[i].pid in (set i | 0 <= i < |cpu| && cpu[i].pid != 0 :: cpu[i].pid);
    }
    if LastFault(pf, p).Some? {
      var i :| 0 <= i < |pf| && pf[i].pid == p;
      assert pf[i].pid in (set i | 0 <= i < |pf| && pf[i].pid != 0 :: pf[i].pid);
    }
    if InPairs(ct, p) {
      var i :| 0 <= i < |ct| && (ct[i].victimPid == p || ct[i].aggressorPid == p);
      if ct[i].victimPid == p {
        assert ct[i].victimPid in (set i | 0 <= i < |ct| && ct[i].victimPid != 0 :: ct[i].victimPid);
      } else {
        assert ct[i].aggressorPid in (set i | 0 <= i < |ct| && ct[i].aggressorPid != 0 :: ct[i].aggressorPid);
      }
    }
  }

  /** The listing FinishRows builds and its index agree: each result is its
      pid's index entry, each entry is listed, and pids are not repeated. */
  lemma ListedIndex(result: seq<ProcMetrics>, rows: map<u32, ProcMetrics>, index: map<u32, ProcMetrics>,
                    finish: (u32, ProcMetrics) -> ProcMetrics)
    requires index.Keys == rows.Keys
    requires forall p :: p in index ==> index[p] == finish(p, rows[p])
    requires Lists(result, rows, AnyRow, finish, RowPid)
    ensures forall x :: x in result ==> x.pid in index && index[x.pid] == x
    ensures forall p :: p in index ==> index[p] in result
    ensures forall i, j :: 0 <= i < j < |result| ==> result[i].pid != result[j].pid
    ensures |result| == |index|
  {
    assert Kept(rows, rows.Keys, AnyRow) == rows.Keys;
    forall i, j | 0 <= i < j < |result|
      ensures result[i].pid != result[j].pid
    {
      assert result[i] in result && result[j] in result;
    }
    assert |index.Keys| == |index|;
  }
}
