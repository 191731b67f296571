/** The records the collectors hand to the report (pkg/types). Go's float64
    fields are reals. */
module Types {
  import opened Words
  import GoStrings

  /** How many rows each ranking shows by default. */
  const DEFAULT_TOP_K := 5

  /** CPU time one pid consumed during a window. */
  datatype CPUStat = CPUStat(pid: u32, comm: string, cgroup: string, ns: u64)

  /** How often `aggressor` preempted `victim` during a window. */
  datatype ContentionStat = ContentionStat(
    victimPid: u32, victimComm: string,
    aggressorPid: u32, aggressorComm: string,
    count: u64)

  /** The resident set size of a process. */
  datatype MemStat = MemStat(pid: int, comm: string, rssBytes: u64)

  /** Page faults one pid took during a window, and their rate. */
  datatype PageFaultStat = PageFaultStat(pid: u32, comm: string, cgroup: string, faults: u64, faultsPerSec: real)

  /** What reading /proc/<pid>/comm yields: the file's bytes for the pids whose
      file can be read; a read of any other pid fails. */
  type ProcFs = map<u32, string>

  /** "pid-" and the pid in decimal: the name of a process whose comm is unknown. */
  function PidLabel(pid: u32): (s: string)
    ensures |s| > 4 && s[..4] == "pid-"
    ensures forall i :: 0 <= i < |s[4..]| ==> GoStrings.IsDigit(s[4..][i])
    ensures GoStrings.ParseUint(s[4..]) == pid
  {
    GoStrings.ParseFormatUint(pid);
    assert ("pid-" + GoStrings.FormatUint(pid))[4..] == GoStrings.FormatUint(pid);
    "pid-" + GoStrings.FormatUint(pid)
  }

  /** Different pids get different labels. */
  lemma PidLabelInjective(a: u32, b: u32)
    requires PidLabel(a) == PidLabel(b)
    ensures a == b
  {
    assert PidLabel(a)[4..] == PidLabel(b)[4..];
  }
}
