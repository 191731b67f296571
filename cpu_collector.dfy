/** The user-space side of the CPU tracer (pkg/collector/cpu): reading the
    per-pid CPU time and the preemption counters out of the kernel maps,
    ranking them, resolving process names through a per-call cache, and
    clearing the maps between windows. What the kernel answers (how an
    iteration ends, which deletes fail) and the contents of
    /proc/<pid>/comm are inputs. */
module CpuCollector {
  import opened Wrappers
  import opened Words
  import opened CBuffers
  import opened GoStrings
  import opened Types
  import opened Ranking
  import opened MapSweep
  import opened SchedTracer
  import opened MapIter

  /** The errors the collector returns, one per wrapped error it builds, plus
      the iterator error that Reset passes on unwrapped. */
  datatype Error =
    | IteratingCpuStats(cause: MapError)          // Snapshot's iteration failed
    | IteratingContention(cause: MapError)        // Contention's iteration failed
    | ContentionUnavailable                       // no contention map was loaded
    | ClearingPid(pid: u32, cause: MapError)      // Reset could not delete a pid
    | ClearingContentionEntry(cause: MapError)    // Reset could not delete a pair
    | MapFailure(cause: MapError)                 // the iterator's own error

  /** The victim half of a contention key: its upper 32 bits. */
  function VictimOf(key: u64): u32
  {
    key / U32_MODULUS
  }

  /** The aggressor half of a contention key: its lower 32 bits. */
  function AggressorOf(key: u64): u32
  {
    key % U32_MODULUS
  }

  /** Splitting a key undoes the kernel's packing, and packing the halves gives
      the key back: keys and (victim, aggressor) pairs correspond one to one. */
  lemma PairKeyRoundTrip(victim: u32, aggressor: u32, key: u64)
    ensures VictimOf(PairKey(victim, aggressor)) == victim && AggressorOf(PairKey(victim, aggressor)) == aggressor
    ensures PairKey(VictimOf(key), AggressorOf(key)) == key
  {
    PairKeyHalves(victim, aggressor);
    assert key == (key / U32_MODULUS) * U32_MODULUS + key % U32_MODULUS;
  }

  /** The name `commForPID` gives a pid when /proc reads as `proc`: "idle" for pid 0,
      the trimmed contents of /proc/<pid>/comm, or "pid-<pid>" when the file cannot
      be read or holds only white space. */
  function CommName(proc: ProcFs, pid: u32): string
  {
    if pid == 0 then "idle"
    else if pid !in proc then PidLabel(pid)
    else
      var comm := TrimSpace(proc[pid]);
      if comm == [] then PidLabel(pid) else comm
  }

  /** A process name is never empty and never starts or ends with white space. */
  lemma CommNameTrimmed(proc: ProcFs, pid: u32)
    ensures var name := CommName(proc, pid); name != [] && !IsSpace(name[0]) && !IsSpace(name[|name| - 1])
  {
    var s := PidLabel(pid);
    assert IsDigit(s[4..][|s[4..]| - 1]);
  }

  /** The `cache` map that Contention threads through its `commForPID` calls. */
  class CommCache {
    var names: map<u32, string>

    /** Every cached name is the one a fresh lookup would give. */
    predicate Consistent(proc: ProcFs)
      reads this
    {
      forall p :: p in names ==> names[p] == CommName(proc, p)
    }

    /** An empty cache. */
    constructor ()
      ensures names == map[]
    {
      names := map[];
    }

    /** commForPID: a cached name is returned as is; otherwise
        /proc/<pid>/comm is read, trimmed (or replaced by "pid-<pid>"), cached and
        returned. Pid 0 is never cached. */
    method CommForPid(pid: u32, proc: ProcFs) returns (name: string)
      requires Consistent(proc)
      modifies this
      ensures Consistent(proc)
      ensures name == CommName(proc, pid)
      ensures names == if pid == 0 then old(names) else old(names)[pid := name]
    {
      if pid == 0 {
        return "idle";
      }
      if pid in names {
        name := names[pid];
        assert names == names[pid := name];
        return;
      }
      if pid !in proc {
        name := PidLabel(pid);
        names := names[pid := name];
        return;
      }
      var comm := TrimSpace(proc[pid]);
      if comm == [] {
        comm := PidLabel(pid);
      }
      names := names[pid := comm];
      return comm;
    }

    /** The body of the Contention loop for a nonzero counter: both halves of
        the key named through the cache, victim first. */
    method PairRowOf(key: u64, count: u64, proc: ProcFs) returns (x: ContentionStat)
      requires Consistent(proc)
      modifies this
      ensures Consistent(proc)
      ensures x == PairRow(key, count, proc)
    {
      var victim := VictimOf(key);
      var aggressor := AggressorOf(key);
      var victimComm := CommForPid(victim, proc);
      var aggressorComm := CommForPid(aggressor, proc);
      x := ContentionStat(victim, victimComm, aggressor, aggressorComm, count);
    }
  }

  /** The row Snapshot reports for a pid record. */
  function StatRow(pid: u32, ps: PidStat): CPUStat
  {
    CPUStat(pid, CStr(ps.comm), CStr(ps.cgroup), ps.cpuTimeNs)
  }

  function StatPid(x: CPUStat): u32
  {
    x.pid
  }

  /** The records Snapshot reports: those with CPU time; the others are skipped. */
  predicate IsBusy(pid: u32, ps: PidStat)
  {
    ps.cpuTimeNs != 0
  }

  /** The pids Snapshot reports. */
  function Busy(stats: map<u32, PidStat>): set<u32>
  {
    Kept(stats, stats.Keys, IsBusy)
  }

  /** The sort key of Snapshot: more CPU time first. */
  function ByNs(s: CPUStat): Rank
  {
    Rank(-(s.ns as real), 0.0)
  }

  /** `rows` holds the row of every busy pid once, in some order: what the
      iteration loop of Snapshot appends. */
  predicate ListsBusy(rows: seq<CPUStat>, stats: map<u32, PidStat>)
  {
    Lists(rows, stats, IsBusy, StatRow, StatPid)
  }

  /** What Snapshot returns: rows of busy pids, each pid once, most CPU time
      first, as many as there are busy pids up to `limit` (when positive), and
      no busy pid left out that used more CPU time than one shown. */
  predicate TopBusy(rows: seq<CPUStat>, stats: map<u32, PidStat>, limit: int)
  {
    && (forall x :: x in rows ==> x.pid in Busy(stats) && x == StatRow(x.pid, stats[x.pid]))
    && (forall i, j :: 0 <= i < j < |rows| ==> rows[i].pid != rows[j].pid)
    && SortedBy(rows, ByNs)
    && |rows| == Capped(|Busy(stats)|, limit)
    && (forall p :: p in Busy(stats) && StatRow(p, stats[p]) !in rows ==>
          forall y :: y in rows ==> stats[p].cpuTimeNs <= y.ns)
  }

  /** The iteration loop of Snapshot over the pid map `stats`, ending as `end`
      says: `ok` is false when the iterator reports an error. */
  method CollectBusy(stats: map<u32, PidStat>, end: IterEnd) returns (rows: seq<CPUStat>, ok: bool)
    ensures ok <==> end.Exhausted?
    ensures ok ==> ListsBusy(rows, stats)
  {
    rows := [];
    var rest := stats;
    ghost var seen: seq<(u32, PidStat)> := [];
    var visited := 0;
    while rest != map[] && !(end.StoppedAfter? && visited == end.visited)
      invariant forall p :: p in rest ==> p in stats && rest[p] == stats[p]
      invariant forall p :: p in stats ==> p in rest || p in KeysOf(seen)
      invariant forall p :: p in KeysOf(seen) ==> p !in rest
      invariant Visits(seen, stats)
      invariant rows == Rows(seen, IsBusy, StatRow)
      decreases |rest|
    {
      var pid :| pid in rest;
      var stat := rest[pid];
      rest := rest - {pid};
      visited := visited + 1;
      VisitsSnoc(seen, stats, pid);
      RowsSnoc(seen, (pid, stat), IsBusy, StatRow);
      seen := seen + [(pid, stat)];
      if stat.cpuTimeNs == 0 {
        continue;
      }
      rows := rows + [StatRow(pid, stat)];
    }
    ok := end.Exhausted?;
    if ok {
      assert KeysOf(seen) == stats.Keys;
      BusyOfFullVisit(seen, stats);
    }
  }

  /** Once every pid record has been seen, the rows list the busy pids. */
  lemma BusyOfFullVisit(seen: seq<(u32, PidStat)>, stats: map<u32, PidStat>)
    requires Visits(seen, stats) && KeysOf(seen) == stats.Keys
    ensures ListsBusy(Rows(seen, IsBusy, StatRow), stats)
  {
    RowsOfFullVisit(seen, stats, IsBusy, StatRow, StatPid);
  }

  /** Sorting and truncating a listing of the busy pids gives Snapshot's answer. */
  lemma TopOfBusy(rows: seq<CPUStat>, stats: map<u32, PidStat>, limit: int)
    requires ListsBusy(rows, stats)
    ensures TopBusy(TopBy(rows, ByNs, limit), stats, limit)
  {
    var top := TopBy(rows, ByNs, limit);
    InMultisetSubset(top, rows);
    forall i, j | 0 <= i < j < |top|
      ensures top[i].pid != top[j].pid
    {
      assert top[i] in rows && top[j] in rows;
    }
  }

  /** The row Contention reports for a counter, with names resolved through /proc. */
  function PairRow(key: u64, count: u64, proc: ProcFs): ContentionStat
  {
    ContentionStat(VictimOf(key), CommName(proc, VictimOf(key)), AggressorOf(key), CommName(proc, AggressorOf(key)), count)
  }

  /** PairRow with the /proc contents fixed. */
  function PairRowIn(proc: ProcFs): (u64, u64) -> ContentionStat
  {
    (key: u64, count: u64) => PairRow(key, count, proc)
  }

  /** The key a Contention row was read from. */
  function KeyOf(x: ContentionStat): u64
  {
    PairKey(x.victimPid, x.aggressorPid)
  }

  /** The counters Contention reports: those that moved; zero counters are skipped. */
  predicate IsCounted(key: u64, count: u64)
  {
    count != 0
  }

  /** The keys Contention reports. */
  function Counted(contention: map<u64, u64>): set<u64>
  {
    Kept(contention, contention.Keys, IsCounted)
  }

  /** The sort key of Contention: more preemptions first. */
  function ByCount(s: ContentionStat): Rank
  {
    Rank(-(s.count as real), 0.0)
  }

  /** `rows` holds the row of every nonzero counter once, in some order. */
  predicate ListsCounted(rows: seq<ContentionStat>, contention: map<u64, u64>, proc: ProcFs)
  {
    Lists(rows, contention, IsCounted, PairRowIn(proc), KeyOf)
  }

  /** What Contention returns: rows of nonzero counters, each (victim, aggressor)
      pair once, most preemptions first, as many as there are nonzero counters up
      to `limit` (when positive), and no counter left out that is larger than
      one shown. */
  predicate TopCounted(rows: seq<ContentionStat>, contention: map<u64, u64>, proc: ProcFs, limit: int)
  {
    && (forall x :: x in rows ==> KeyOf(x) in Counted(contention) && x == PairRow(KeyOf(x), contention[KeyOf(x)], proc))
    && (forall i, j :: 0 <= i < j < |rows| ==>
          (rows[i].victimPid, rows[i].aggressorPid) != (rows[j].victimPid, rows[j].aggressorPid))
    && SortedBy(rows, ByCount)
    && |rows| == Capped(|Counted(contention)|, limit)
    && (forall k :: k in Counted(contention) && PairRow(k, contention[k], proc) !in rows ==>
          forall y :: y in rows ==> contention[k] <= y.count)
  }

  /** The iteration loop of Contention over the counters, naming both pids of
      each through one cache: `ok` is false when the iterator reports an error. */
  method CollectCounted(contention: map<u64, u64>, end: IterEnd, proc: ProcFs) returns (rows: seq<ContentionStat>, ok: bool)
    ensures ok <==> end.Exhausted?
    ensures ok ==> ListsCounted(rows, contention, proc)
  {
    var cache := new CommCache();
    rows := [];
    var rest := contention;
    ghost var seen: seq<(u64, u64)> := [];
    var visited := 0;
    while rest != map[] && !(end.StoppedAfter? && visited == end.visited)
      invariant cache.Consistent(proc)
      invariant forall k :: k in rest ==> k in contention && rest[k] == contention[k]
      invariant forall k :: k in contention ==> k in rest || k in KeysOf(seen)
      invariant forall k :: k in KeysOf(seen) ==> k !in rest
      invariant Visits(seen, contention)
      invariant rows == Rows(seen, IsCounted, PairRowIn(proc))
      decreases |rest|
    {
      var key :| key in rest;
      var count := rest[key];
      rest := rest - {key};
      visited := visited + 1;
      VisitsSnoc(seen, contention, key);
      RowsSnoc(seen, (key, count), IsCounted, PairRowIn(proc));
      seen := seen + [(key, count)];
      if count == 0 {
        continue;
      }
      var x := cache.PairRowOf(key, count, proc);
      rows := rows + [x];
    }
    ok := end.Exhausted?;
    if ok {
      assert KeysOf(seen) == contention.Keys;
      CountedOfFullVisit(seen, contention, proc);
    }
  }

  /** Once every counter has been seen, the rows list the nonzero ones. */
  lemma CountedOfFullVisit(seen: seq<(u64, u64)>, contention: map<u64, u64>, proc: ProcFs)
    requires Visits(seen, contention) && KeysOf(seen) == contention.Keys
    ensures ListsCounted(Rows(seen, IsCounted, PairRowIn(proc)), contention, proc)
  {
    forall k: u64, c: u64
      ensures KeyOf(PairRowIn(proc)(k, c)) == k
    {
      PairKeyRoundTrip(VictimOf(k), AggressorOf(k), k);
    }
    RowsOfFullVisit(seen, contention, IsCounted, PairRowIn(proc), KeyOf);
  }

  /** Sorting and truncating a listing of the nonzero counters gives Contention's answer. */
  lemma TopOfCounted(rows: seq<ContentionStat>, contention: map<u64, u64>, proc: ProcFs, limit: int)
    requires ListsCounted(rows, contention, proc)
    ensures TopCounted(TopBy(rows, ByCount, limit), contention, proc, limit)
  {
    var top := TopBy(rows, ByCount, limit);
    TopOfLists(rows, contention, IsCounted, PairRowIn(proc), KeyOf, ByCount, limit);
    TopCountedRows(top, contention, proc, limit);
    TopCountedPairs(top, contention, proc, limit);
    TopCountedBound(top, contention, proc, limit);
  }

  /** In a top selection of the counters, every row is the row of a nonzero counter. */
  lemma TopCountedRows(top: seq<ContentionStat>, contention: map<u64, u64>, proc: ProcFs, limit: int)
    requires TopOf(top, contention, IsCounted, PairRowIn(proc), KeyOf, ByCount, limit)
    ensures forall x :: x in top ==> KeyOf(x) in Counted(contention) && x == PairRow(KeyOf(x), contention[KeyOf(x)], proc)
  {
  }

  /** Rows of different keys name different (victim, aggressor) pairs. */
  lemma TopCountedPairs(top: seq<ContentionStat>, contention: map<u64, u64>, proc: ProcFs, limit: int)
    requires TopOf(top, contention, IsCounted, PairRowIn(proc), KeyOf, ByCount, limit)
    ensures forall i, j :: 0 <= i < j < |top| ==>
              (top[i].victimPid, top[i].aggressorPid) != (top[j].victimPid, top[j].aggressorPid)
  {
  }

  /** A counter left out is no larger than any counter shown. */
  lemma TopCountedBound(top: seq<ContentionStat>, contention: map<u64, u64>, proc: ProcFs, limit: int)
    requires TopOf(top, contention, IsCounted, PairRowIn(proc), KeyOf, ByCount, limit)
    ensures forall k :: k in Counted(contention) && PairRow(k, contention[k], proc) !in top ==>
              forall y :: y in top ==> contention[k] <= y.count
  {
  }

  /** The Go collector: the loaded program's maps, and whether the objects
      carry the contention map at all (a nil `CpuContention`). */
  class Collector {
    const objs: Hotspot
    const hasContention: bool

    constructor (objs: Hotspot, hasContention: bool)
      ensures this.objs == objs && this.hasContention == hasContention
    {
      this.objs := objs;
      this.hasContention := hasContention;
    }

    /** Snapshot: the pids with nonzero CPU time, most CPU time first,
        at most `limit` of them when `limit > 0`. The iteration ends as `end`
        says; an iterator error fails the call. Allocating the result with
        `limit` as its capacity panics on a negative limit. */
    method Snapshot(limit: int, end: IterEnd) returns (r: Result<seq<CPUStat>, Error>)
      requires limit >= 0
      ensures end.StoppedAfter? ==> r == Err(IteratingCpuStats(end.err))
      ensures end.Exhausted? ==> r.Ok? && TopBusy(r.value, objs.pidStats, limit)
    {
      var stats, ok := CollectBusy(objs.pidStats, end);
      if !ok {
        return Err(IteratingCpuStats(end.err));
      }
      TopOfBusy(stats, objs.pidStats, limit);
      return Ok(TopBy(stats, ByNs, limit));
    }

    /** Contention: the (victim, aggressor) counters that are nonzero,
        most preemptions first, at most `limit` of them when `limit > 0`, with
        both pids named through a cache local to the call. A collector without
        the contention map fails before allocating, so only then may `limit` be
        negative. */
    method Contention(limit: int, end: IterEnd, proc: ProcFs) returns (r: Result<seq<ContentionStat>, Error>)
      requires hasContention ==> limit >= 0
      ensures !hasContention ==> r == Err(ContentionUnavailable)
      ensures hasContention && end.StoppedAfter? ==> r == Err(IteratingContention(end.err))
      ensures hasContention && end.Exhausted? ==> r.Ok? && TopCounted(r.value, objs.contention, proc, limit)
    {
      if !hasContention {
        return Err(ContentionUnavailable);
      }
      var stats, ok := CollectCounted(objs.contention, end, proc);
      if !ok {
        return Err(IteratingContention(end.err));
      }
      TopOfCounted(stats, objs.contention, proc, limit);
      return Ok(TopBy(stats, ByCount, limit));
    }

    /** Reset: sweep the pid map, then (when present) the contention map, each
        with up to three attempts; `statPasses(a)` and `pairPasses(a)` are the
        kernel's answers on attempt `a`. `statAttempts` and `pairAttempts` count
        the passes made over each map, `pairAttempts == 0` meaning that the
        contention map was not swept. A failed delete is reported with its pid
        (or as a contention entry); an iterator error is returned as is. The
        per-CPU array is never cleared. */
    method Reset(statPasses: nat -> SweepPass<u32>, pairPasses: nat -> SweepPass<u64>)
      returns (err: Option<Error>, ghost statAttempts: nat, ghost pairAttempts: nat)
      modifies objs
      ensures objs.cpuState == old(objs.cpuState)
      ensures SubMap(objs.pidStats, old(objs.pidStats)) && SubMap(objs.contention, old(objs.contention))
      ensures err.None? ==> objs.pidStats == map[] && (hasContention ==> objs.contention == map[])
      ensures !hasContention ==> objs.contention == old(objs.contention)
      // only aborted passes are retried, on each map
      ensures RetriedOnlyAborts(statPasses, statAttempts)
      ensures pairAttempts == 0 ==> objs.contention == old(objs.contention)
      ensures pairAttempts != 0 ==> hasContention && objs.pidStats == map[] && RetriedOnlyAborts(pairPasses, pairAttempts)
      // success means the last pass over each swept map ran to the end
      ensures err.None? ==> statPasses(statAttempts).end.Exhausted?
                            && (hasContention ==> pairAttempts != 0 && pairPasses(pairAttempts).end.Exhausted?)
      // a clean first pass over each map succeeds
      ensures (Clean(old(objs.pidStats).Keys, statPasses(1))
               && (hasContention ==> Clean(old(objs.contention).Keys, pairPasses(1)))) ==> err.None?
      // a failure on the pid map stops before the contention map is touched
      ensures err.Some? && err.value.ClearingPid? ==>
                pairAttempts == 0
                && err.value.pid in objs.pidStats && DeleteFails(statPasses(statAttempts), err.value.pid)
                && err.value.cause == statPasses(statAttempts).deleteErrors[err.value.pid]
      ensures err.Some? && err.value.ClearingContentionEntry? ==>
                pairAttempts != 0
                && exists k :: k in objs.contention && DeleteFails(pairPasses(pairAttempts), k)
                               && err.value.cause == pairPasses(pairAttempts).deleteErrors[k]
      // an iterator error is the one of the map whose sweep gave up
      ensures err.Some? && err.value.MapFailure? ==>
                if pairAttempts == 0 then GaveUpWith(statPasses, statAttempts, err.value.cause)
                else GaveUpWith(pairPasses, pairAttempts, err.value.cause)
      ensures err.Some? ==> err.value.ClearingPid? || err.value.ClearingContentionEntry? || err.value.MapFailure?
    {
      pairAttempts := 0;
      var rest, status, attempts := SweepWithRetries(objs.pidStats, statPasses);
      statAttempts := attempts;
      objs.pidStats := rest;
      if status.DeleteFailed? {
        return Some(ClearingPid(status.key, status.err)), statAttempts, pairAttempts;
      }
      if status.IterationFailed? {
        return Some(MapFailure(status.err)), statAttempts, pairAttempts;
      }
      if hasContention {
        var crest, cstatus, cattempts := SweepWithRetries(objs.contention, pairPasses);
        pairAttempts := cattempts;
        objs.contention := crest;
        if cstatus.DeleteFailed? {
          return Some(ClearingContentionEntry(cstatus.err)), statAttempts, pairAttempts;
        }
        if cstatus.IterationFailed? {
          return Some(MapFailure(cstatus.err)), statAttempts, pairAttempts;
        }
      }
      return None, statAttempts, pairAttempts;
    }
  }
}
