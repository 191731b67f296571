/** The page-fault probe of the memory tracer (bpf/memory_faults.c): on every
    `handle_mm_fault` it counts one fault for the current process and records
    the process's cgroup the first time it is seen (or while it is still empty).
    The kernel helpers are inputs: the current `pid_tgid` and what the cgroup
    walk finds. */
module FaultTracer {
  import opened Words
  import opened CBuffers

  const CGROUP_LEN: nat := 64

  /** `struct fault_stat`. */
  datatype FaultStat = FaultStat(faults: u64, cgroup: seq<char>)

  /** The pid half of bpf_get_current_pid_tgid's answer: the thread-group id (the process id seen
      from user space) held in the upper half of the 64-bit word (see
      Words.ShiftMaskIsDivMod). */
  function PidOf(pidTgid: u64): u32
  {
    pidTgid / U32_MODULUS
  }

  /** The record of `pid` after one more fault: a new record starts at one fault
      with the cgroup buffer just filled; an existing one counts one more fault
      (wrapping at 2^64) and has its cgroup filled only while it is still empty. */
  function RecordedStat(faults: map<u32, FaultStat>, pid: u32, cgroup: seq<char>): (r: FaultStat)
    ensures r.faults == if pid in faults then AddU64(faults[pid].faults, 1) else 1
    ensures pid in faults && !IsEmptyBuf(faults[pid].cgroup) ==> r.cgroup == faults[pid].cgroup
    ensures pid !in faults || IsEmptyBuf(faults[pid].cgroup) ==> r.cgroup == cgroup
  {
    if pid in faults then
      var entry := faults[pid];
      FaultStat(AddU64(entry.faults, 1), if IsEmptyBuf(entry.cgroup) then cgroup else entry.cgroup)
    else
      FaultStat(1, cgroup)
  }

  /** The `page_faults` map after `record_fault` runs for `pidTgid`, where `cgroup` is
      the buffer the cgroup walk would fill (CBuffers.CgroupLabel): a fault in pid 0
      (the idle task) is ignored; otherwise only the faulting pid's record changes. */
  function RecordedFault(faults: map<u32, FaultStat>, pidTgid: u64, cgroup: seq<char>): (r: map<u32, FaultStat>)
    ensures PidOf(pidTgid) == 0 ==> r == faults
    ensures PidOf(pidTgid) != 0 ==> r.Keys == faults.Keys + {PidOf(pidTgid)}
    ensures forall q :: q in faults && q != PidOf(pidTgid) ==> r[q] == faults[q]
    ensures 0 !in faults ==> 0 !in r
  {
    var pid := PidOf(pidTgid);
    if pid == 0 then faults else faults[pid := RecordedStat(faults, pid, cgroup)]
  }

  /** The loaded probe's `page_faults` map, updated in place by its handler. */
  class FaultProbe {
    var pageFaults: map<u32, FaultStat>

    /** A freshly loaded program: the map is empty. */
    constructor ()
      ensures pageFaults == map[]
    {
      pageFaults := map[];
    }

    /** `record_fault` for the current task `pidTgid`, its cgroup walk finding `lookup`. */
    method RecordFault(pidTgid: u64, lookup: CgroupLookup)
      modifies this
      ensures pageFaults == RecordedFault(old(pageFaults), pidTgid, CgroupLabel(lookup, CGROUP_LEN))
    {
      var pid := PidOf(pidTgid);
      if pid == 0 {
        return;
      }
      if pid in pageFaults {
        var entry := pageFaults[pid];
        entry := entry.(faults := AddU64(entry.faults, 1));
        if IsEmptyBuf(entry.cgroup) {
          var cgroup := ReadCgroup(lookup, CGROUP_LEN);
          entry := entry.(cgroup := cgroup);
        }
        pageFaults := pageFaults[pid := entry];
      } else {
        var cgroup := ReadCgroup(lookup, CGROUP_LEN);
        pageFaults := pageFaults[pid := FaultStat(1, cgroup)];
      }
    }
  }

  /** The map after a sequence of faults, one handler run after another. */
  function Run(faults: map<u32, FaultStat>, events: seq<(u64, seq<char>)>): map<u32, FaultStat>
    decreases |events|
  {
    if events == [] then faults
    else Run(RecordedFault(faults, events[0].0, events[0].1), events[1..])
  }

  /** The fault count recorded for `pid`, 0 without a record. */
  function FaultsOf(faults: map<u32, FaultStat>, pid: u32): u64
  {
    if pid in faults then faults[pid].faults else 0
  }

  /** The number of faults taken by `pid` in a sequence of events. */
  function FaultCount(pid: u32, events: seq<(u64, seq<char>)>): nat
    decreases |events|
  {
    if events == [] then 0
    else (if PidOf(events[0].0) == pid then 1 else 0) + FaultCount(pid, events[1..])
  }

  /** One fault: the faulting pid's count grows by one, every other pid's stays. */
  lemma StepCountsFault(faults: map<u32, FaultStat>, pidTgid: u64, cgroup: seq<char>, pid: u32)
    requires pid != 0
    ensures FaultsOf(RecordedFault(faults, pidTgid, cgroup), pid)
              == (FaultsOf(faults, pid) + (if PidOf(pidTgid) == pid then 1 else 0)) % U64_MODULUS
  {
  }

  /** Over a run of faults, a nonzero pid's count grows by exactly the number of
      faults it took (modulo 2^64, as the u64 counter wraps). */
  lemma {:induction false} RunCountsFaults(faults: map<u32, FaultStat>, events: seq<(u64, seq<char>)>, pid: u32)
    requires pid != 0
    ensures FaultsOf(Run(faults, events), pid) == (FaultsOf(faults, pid) + FaultCount(pid, events)) % U64_MODULUS
    decreases |events|
  {
    if events != [] {
      var f1 := RecordedFault(faults, events[0].0, events[0].1);
      var c := if PidOf(events[0].0) == pid then 1 else 0;
      StepCountsFault(faults, events[0].0, events[0].1, pid);
      RunCountsFaults(f1, events[1..], pid);
      AddTwiceWrapped(FaultsOf(faults, pid), c, FaultCount(pid, events[1..]),
                      FaultsOf(f1, pid), FaultsOf(Run(f1, events[1..]), pid));
    }
  }

  /** Over a run of faults, a nonzero pid has a record exactly when it had one
      before or took a fault. */
  lemma {:induction false} RunRecordsFaulting(faults: map<u32, FaultStat>, events: seq<(u64, seq<char>)>, pid: u32)
    requires pid != 0
    ensures pid in Run(faults, events) <==> pid in faults || FaultCount(pid, events) > 0
    decreases |events|
  {
    if events != [] {
      var f1 := RecordedFault(faults, events[0].0, events[0].1);
      assert pid in f1 <==> pid in faults || PidOf(events[0].0) == pid;
      RunRecordsFaulting(f1, events[1..], pid);
    }
  }

  /** Pid 0 never gets a record. */
  lemma {:induction false} RunNeverRecordsIdle(faults: map<u32, FaultStat>, events: seq<(u64, seq<char>)>)
    requires 0 !in faults
    ensures 0 !in Run(faults, events)
    decreases |events|
  {
    if events != [] {
      RunNeverRecordsIdle(RecordedFault(faults, events[0].0, events[0].1), events[1..]);
    }
  }

  /** Once a pid's cgroup buffer is non-empty it is never rewritten. */
  lemma {:induction false} RunKeepsCgroup(faults: map<u32, FaultStat>, events: seq<(u64, seq<char>)>, pid: u32)
    requires pid in faults && !IsEmptyBuf(faults[pid].cgroup)
    ensures pid in Run(faults, events) && Run(faults, events)[pid].cgroup == faults[pid].cgroup
    decreases |events|
  {
    if events != [] {
      var f1 := RecordedFault(faults, events[0].0, events[0].1);
      assert pid in f1 && f1[pid].cgroup == faults[pid].cgroup;
      RunKeepsCgroup(f1, events[1..], pid);
    }
  }

  /** Every record keeps a 64-byte cgroup buffer. */
  lemma {:induction false} RunKeepsSized(faults: map<u32, FaultStat>, events: seq<(u64, seq<char>)>)
    requires forall p :: p in faults ==> |faults[p].cgroup| == CGROUP_LEN
    requires forall i :: 0 <= i < |events| ==> |events[i].1| == CGROUP_LEN
    ensures forall p :: p in Run(faults, events) ==> |Run(faults, events)[p].cgroup| == CGROUP_LEN
    decreases |events|
  {
    if events != [] {
      var f1 := RecordedFault(faults, events[0].0, events[0].1);
      assert forall p :: p in f1 ==> |f1[p].cgroup| == CGROUP_LEN;
      RunKeepsSized(f1, events[1..]);
    }
  }

  /** From a freshly loaded map, every nonzero pid's count is the number of faults
      it took, modulo 2^64; pid 0 is never recorded. */
  lemma FreshRunCounts(events: seq<(u64, seq<char>)>, pid: u32)
    requires pid != 0
    ensures FaultsOf(Run(map[], events), pid) == FaultCount(pid, events) % U64_MODULUS
    ensures 0 !in Run(map[], events)
  {
    RunCountsFaults(map[], events, pid);
    RunNeverRecordsIdle(map[], events);
  }
}
