/** The user-space side of the memory tracer (pkg/collector/memory): reading
    the per-pid fault records out of the kernel map, turning counts into rates
    over the window, ranking them, naming the processes through a per-call
    cache, and clearing the map between windows. How an iteration ends, which
    deletes fail and the contents of /proc/<pid>/comm are inputs. */
module MemCollector {
  import opened Wrappers
  import opened Words
  import opened CBuffers
  import opened GoStrings
  import opened Types
  import opened Ranking
  import opened MapSweep
  import opened MapIter
  import opened FaultTracer
  import opened Durations
  import CpuCollector

  /** The errors the collector returns, one per wrapped error it builds. */
  datatype Error =
    | IteratingPageFaults(cause: MapError)        // iterating the fault map failed
    | ClearingPid(pid: u32, cause: MapError)      // Reset could not delete a pid

  /** The name this package's `commForPID` gives a pid when /proc reads as
      `proc`: "idle" for pid 0; otherwise the contents of /proc/<pid>/comm with
      trailing newlines cut and white space trimmed, or "pid-<pid>" when the
      file cannot be read or holds only white space. */
  function CommName(proc: ProcFs, pid: u32): string
  {
    if pid == 0 then "idle"
    else if pid !in proc then PidLabel(pid)
    else
      var comm := TrimSpace(TrimRightNewlines(proc[pid]));
      if comm == [] then PidLabel(pid) else comm
  }

  /** Cutting the newlines first changes nothing: both collectors name every
      pid alike. */
  lemma CommNameAgrees(proc: ProcFs, pid: u32)
    ensures CommName(proc, pid) == CpuCollector.CommName(proc, pid)
  {
    if pid in proc {
      TrimSpaceAfterNewlines(proc[pid]);
    }
  }

  /** The `cache` map that Snapshot threads through its `commForPID` calls. */
  class CommCache {
    var names: map<u32, string>

    /** Every cached name is the one a fresh lookup would give. */
    predicate Consistent(proc: ProcFs)
      reads this
    {
      forall p :: p in names ==> names[p] == CommName(proc, p)
    }

    /** An empty cache. */
    constructor ()
      ensures names == map[]
    {
      names := map[];
    }

    /** commForPID: a cached name is returned as is; otherwise
        /proc/<pid>/comm is read, cut and trimmed (or replaced by "pid-<pid>"),
        cached and returned. Pid 0 is never cached. */
    method CommForPid(pid: u32, proc: ProcFs) returns (name: string)
      requires Consistent(proc)
      modifies this
      ensures Consistent(proc)
      ensures name == CommName(proc, pid)
      ensures names == if pid == 0 then old(names) else old(names)[pid := name]
    {
      if pid == 0 {
        return "idle";
      }
      if pid in names {
        name := names[pid];
        assert names == names[pid := name];
        return;
      }
      if pid !in proc {
        name := PidLabel(pid);
        names := names[pid := name];
        return;
      }
      var comm := TrimSpace(TrimRightNewlines(proc[pid]));
      if comm == [] {
        comm := PidLabel(pid);
      }
      names := names[pid := comm];
      return comm;
    }

    /** The body of the Snapshot loop for a record with faults: its row, the
        name resolved through the cache. */
    method FaultRowOf(pid: u32, stat: FaultStat, proc: ProcFs, seconds: real) returns (x: PageFaultStat)
      requires Consistent(proc) && seconds > 0.0
      modifies this
      ensures Consistent(proc)
      ensures x == FaultRow(pid, stat, proc, seconds)
    {
      var comm := CommForPid(pid, proc);
      x := PageFaultStat(pid, comm, CStr(stat.cgroup), stat.faults, stat.faults as real / seconds);
    }
  }

  /** The row Snapshot reports for a fault record over a window of `seconds`. */
  function FaultRow(pid: u32, stat: FaultStat, proc: ProcFs, seconds: real): PageFaultStat
    requires seconds > 0.0
  {
    PageFaultStat(pid, CommName(proc, pid), CStr(stat.cgroup), stat.faults, stat.faults as real / seconds)
  }

  /** FaultRow with the /proc contents and the window fixed. */
  function FaultRowIn(proc: ProcFs, seconds: real): (u32, FaultStat) -> PageFaultStat
    requires seconds > 0.0
  {
    (pid: u32, stat: FaultStat) => FaultRow(pid, stat, proc, seconds)
  }

  function FaultPid(x: PageFaultStat): u32
  {
    x.pid
  }

  /** The records Snapshot reports: those with faults; the others are skipped. */
  predicate HasFaults(pid: u32, stat: FaultStat)
  {
    stat.faults != 0
  }

  /** The pids Snapshot reports. */
  function Faulting(faults: map<u32, FaultStat>): set<u32>
  {
    Kept(faults, faults.Keys, HasFaults)
  }

  /** The sort key of Snapshot: more faults first. */
  function ByFaults(s: PageFaultStat): Rank
  {
    Rank(-(s.faults as real), 0.0)
  }

  /** A rate is a fault count over a positive number of seconds: it is never
      negative, and zero only for a count of zero. */
  lemma FaultRateSign(pid: u32, stat: FaultStat, proc: ProcFs, seconds: real)
    requires seconds > 0.0
    ensures FaultRow(pid, stat, proc, seconds).faultsPerSec >= 0.0
    ensures FaultRow(pid, stat, proc, seconds).faultsPerSec == 0.0 <==> stat.faults == 0
  {
    var r := stat.faults as real / seconds;
    assert r * seconds == stat.faults as real;
  }

  /** `rows` holds the row of every pid with faults once, in some order. */
  predicate ListsFaulting(rows: seq<PageFaultStat>, faults: map<u32, FaultStat>, proc: ProcFs, seconds: real)
    requires seconds > 0.0
  {
    Lists(rows, faults, HasFaults, FaultRowIn(proc, seconds), FaultPid)
  }

  /** What Snapshot returns: rows of pids with faults, each pid once, with its
      rate over the window, most faults first, as many as there are such pids up
      to `limit` (when positive), and no such pid left out that took more faults
      than one shown. */
  predicate TopFaulting(rows: seq<PageFaultStat>, faults: map<u32, FaultStat>, proc: ProcFs, seconds: real, limit: int)
    requires seconds > 0.0
  {
    && (forall x :: x in rows ==> x.pid in Faulting(faults) && x == FaultRow(x.pid, faults[x.pid], proc, seconds))
    && (forall i, j :: 0 <= i < j < |rows| ==> rows[i].pid != rows[j].pid)
    && SortedBy(rows, ByFaults)
    && |rows| == Capped(|Faulting(faults)|, limit)
    && (forall p :: p in Faulting(faults) && FaultRow(p, faults[p], proc, seconds) !in rows ==>
          forall y :: y in rows ==> faults[p].faults <= y.faults)
  }

  /** The iteration loop of Snapshot over the fault map, naming each pid through
      one cache: `ok` is false when the iterator reports an error. */
  method CollectFaulting(faults: map<u32, FaultStat>, end: IterEnd, proc: ProcFs, seconds: real)
    returns (rows: seq<PageFaultStat>, ok: bool)
    requires seconds > 0.0
    ensures ok <==> end.Exhausted?
    ensures ok ==> ListsFaulting(rows, faults, proc, seconds)
  {
    var cache := new CommCache();
    rows := [];
    var rest := faults;
    ghost var seen: seq<(u32, FaultStat)> := [];
    var visited := 0;
    while rest != map[] && !(end.StoppedAfter? && visited == end.visited)
      invariant cache.Consistent(proc)
      invariant forall p :: p in rest ==> p in faults && rest[p] == faults[p]
      invariant forall p :: p in faults ==> p in rest || p in KeysOf(seen)
      invariant forall p :: p in KeysOf(seen) ==> p !in rest
      invariant Visits(seen, faults)
      invariant rows == Rows(seen, HasFaults, FaultRowIn(proc, seconds))
      decreases |rest|
    {
      var pid :| pid in rest;
      var stat := rest[pid];
      rest := rest - {pid};
      visited := visited + 1;
      VisitsSnoc(seen, faults, pid);
      RowsSnoc(seen, (pid, stat), HasFaults, FaultRowIn(proc, seconds));
      seen := seen + [(pid, stat)];
      if stat.faults == 0 {
        continue;
      }
      var x := cache.FaultRowOf(pid, stat, proc, seconds);
      assert x == FaultRowIn(proc, seconds)(pid, stat);
      rows := rows + [x];
    }
    ok := end.Exhausted?;
    if ok {
      assert KeysOf(seen) == faults.Keys;
      FaultingOfFullVisit(seen, faults, proc, seconds);
    }
  }

  /** Once every record has been seen, the rows list the pids with faults. */
  lemma FaultingOfFullVisit(seen: seq<(u32, FaultStat)>, faults: map<u32, FaultStat>, proc: ProcFs, seconds: real)
    requires seconds > 0.0
    requires Visits(seen, faults) && KeysOf(seen) == faults.Keys
    ensures ListsFaulting(Rows(seen, HasFaults, FaultRowIn(proc, seconds)), faults, proc, seconds)
  {
    RowsOfFullVisit(seen, faults, HasFaults, FaultRowIn(proc, seconds), FaultPid);
  }

  /** Sorting and truncating a listing of the pids with faults gives Snapshot's answer. */
  lemma TopOfFaulting(rows: seq<PageFaultStat>, faults: map<u32, FaultStat>, proc: ProcFs, seconds: real, limit: int)
    requires seconds > 0.0
    requires ListsFaulting(rows, faults, proc, seconds)
    ensures TopFaulting(TopBy(rows, ByFaults, limit), faults, proc, seconds, limit)
  {
    var top := TopBy(rows, ByFaults, limit);
    TopOfLists(rows, faults, HasFaults, FaultRowIn(proc, seconds), FaultPid, ByFaults, limit);
    TopFaultingRows(top, faults, proc, seconds, limit);
    TopFaultingBound(top, faults, proc, seconds, limit);
  }

  /** In a top selection of the fault records, every row is the row of a pid with faults. */
  lemma TopFaultingRows(top: seq<PageFaultStat>, faults: map<u32, FaultStat>, proc: ProcFs, seconds: real, limit: int)
    requires seconds > 0.0
    requires TopOf(top, faults, HasFaults, FaultRowIn(proc, seconds), FaultPid, ByFaults, limit)
    ensures forall x :: x in top ==> x.pid in Faulting(faults) && x == FaultRow(x.pid, faults[x.pid], proc, seconds)
  {
  }

  /** A pid left out took no more faults than any pid shown. */
  lemma TopFaultingBound(top: seq<PageFaultStat>, faults: map<u32, FaultStat>, proc: ProcFs, seconds: real, limit: int)
    requires seconds > 0.0
    requires TopOf(top, faults, HasFaults, FaultRowIn(proc, seconds), FaultPid, ByFaults, limit)
    ensures forall p :: p in Faulting(faults) && FaultRow(p, faults[p], proc, seconds) !in top ==>
              forall y :: y in top ==> faults[p].faults <= y.faults
  {
  }

  /** The Go collector: the loaded probe's map. */
  class Collector {
    const objs: FaultProbe

    constructor (objs: FaultProbe)
      ensures this.objs == objs
    {
      this.objs := objs;
    }

    /** Snapshot: the pids with faults, most faults first, at
        most `limit` of them when `limit > 0`, each with its faults per second
        over `window` nanoseconds, named through a cache local to the call. The
        iteration ends as `end` says; an iterator error fails the call.
        Allocating the result with `limit` as its capacity panics on a
        negative limit. */
    method Snapshot(limit: int, window: int, end: IterEnd, proc: ProcFs) returns (r: Result<seq<PageFaultStat>, Error>)
      requires limit >= 0
      ensures end.StoppedAfter? ==> r == Err(IteratingPageFaults(end.err))
      ensures end.Exhausted? ==> r.Ok? && TopFaulting(r.value, objs.pageFaults, proc, WindowSeconds(window), limit)
    {
      var seconds := WindowSeconds(window);
      var stats, ok := CollectFaulting(objs.pageFaults, end, proc, seconds);
      if !ok {
        return Err(IteratingPageFaults(end.err));
      }
      TopOfFaulting(stats, objs.pageFaults, proc, seconds, limit);
      return Ok(TopBy(stats, ByFaults, limit));
    }

    /** Reset: sweep the fault map with up to three attempts; `passes(a)` are
        the kernel's answers on attempt `a` and `attempts` counts the passes
        made. A failed delete is reported with its pid; an iterator error that is
        not an abort with attempts left is wrapped. */
    method Reset(passes: nat -> SweepPass<u32>) returns (err: Option<Error>, ghost attempts: nat)
      modifies objs
      ensures SubMap(objs.pageFaults, old(objs.pageFaults))
      ensures err.None? ==> objs.pageFaults == map[]
      // only aborted passes are retried
      ensures RetriedOnlyAborts(passes, attempts)
      // success comes from the first pass that runs to the end
      ensures err.None? ==> passes(attempts).end.Exhausted?
      ensures Clean(old(objs.pageFaults).Keys, passes(1)) ==> err.None? && attempts == 1
      ensures err.Some? && err.value.ClearingPid? ==>
                err.value.pid in objs.pageFaults && DeleteFails(passes(attempts), err.value.pid)
                && err.value.cause == passes(attempts).deleteErrors[err.value.pid]
      ensures err.Some? && err.value.IteratingPageFaults? ==> GaveUpWith(passes, attempts, err.value.cause)
    {
      var rest, status, tries := SweepWithRetries(objs.pageFaults, passes);
      attempts := tries;
      objs.pageFaults := rest;
      if status.DeleteFailed? {
        return Some(ClearingPid(status.key, status.err)), attempts;
      }
      if status.IterationFailed? {
        return Some(IteratingPageFaults(status.err)), attempts;
      }
      return None, attempts;
    }
  }
}
