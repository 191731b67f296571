/** The sched_switch handler of the CPU tracer (bpf/cpu_hotspot.c): per-CPU
    state (the pid switched in and when), per-pid CPU time with the task's comm and cgroup, and a
    counter per (victim, aggressor) pair. The kernel helpers are inputs: the
    clock, the current task's comm and what the cgroup walk finds. */
module SchedTracer {
  import opened Words
  import opened CBuffers

  const COMM_LEN: nat := 16
  const CGROUP_LEN: nat := 64

  /** `struct cpu_state`: the pid last switched in on this CPU, and when. */
  datatype CpuState = CpuState(pid: u32, ts: u64)

  /** `struct pid_stat`. */
  datatype PidStat = PidStat(cpuTimeNs: u64, comm: seq<char>, cgroup: seq<char>)

  /** The fixed sizes of the `comm` and `cgroup` arrays. */
  predicate Sized(ps: PidStat)
  {
    |ps.comm| == COMM_LEN && |ps.cgroup| == CGROUP_LEN
  }

  /** The tracepoint arguments the handler reads. */
  datatype Switch = Switch(prevPid: u32, nextPid: u32)

  /** What the kernel helpers produce during one event: the `bpf_ktime_get_ns`
      clock, and the comm and cgroup buffers they would fill for the current task. */
  datatype KernelReads = KernelReads(now: u64, comm: seq<char>, cgroup: seq<char>)

  /** The three maps. The per-CPU array becomes one `cpu_state` per CPU; a lookup
      on a CPU without one fails. */
  datatype Maps = Maps(cpuState: map<nat, CpuState>, pidStats: map<u32, PidStat>, contention: map<u64, u64>)

  /** The contention key of a pair: the victim in the upper 32 bits, the
      aggressor in the lower (see Words.ShiftOrIsMulAdd). */
  function PairKey(victim: u32, aggressor: u32): u64
  {
    victim * U32_MODULUS + aggressor
  }

  /** The upper half of a pair key is the victim, the lower half the aggressor. */
  lemma PairKeyHalves(victim: u32, aggressor: u32)
    ensures PairKey(victim, aggressor) / U32_MODULUS == victim
    ensures PairKey(victim, aggressor) % U32_MODULUS == aggressor
  {
    var k := PairKey(victim, aggressor);
    assert k == victim * U32_MODULUS + aggressor;
  }

  /** Different pairs get different keys. */
  lemma PairKeyInjective(v1: u32, a1: u32, v2: u32, a2: u32)
    requires PairKey(v1, a1) == PairKey(v2, a2)
    ensures v1 == v2 && a1 == a2
  {
    PairKeyHalves(v1, a1);
    PairKeyHalves(v2, a2);
  }

  /** The helpers' answers for a task named `taskComm` whose cgroup walk finds
      `lookup`: bpf_get_current_comm fills the 16-byte comm buffer with the
      name cut to 15 characters, and the cgroup buffer is what
      `snapshot_cgroup` or `write_placeholder` leave. */
  function Reads(now: u64, taskComm: seq<char>, lookup: CgroupLookup): (k: KernelReads)
    ensures k.now == now && |k.comm| == COMM_LEN && |k.cgroup| == CGROUP_LEN
    ensures CStr(k.comm) == CStr(taskComm)[..Min(|CStr(taskComm)|, COMM_LEN - 1)]
    ensures lookup.Unresolved? ==> CStr(k.cgroup) == PLACEHOLDER
  {
    KernelReads(now, ReadStr(taskComm, COMM_LEN), CgroupLabel(lookup, CGROUP_LEN))
  }

  /** The counter of `key` after one more preemption: created at 1, else incremented. */
  function Bumped(contention: map<u64, u64>, key: u64): (r: map<u64, u64>)
    ensures r.Keys == contention.Keys + {key}
    ensures r[key] == if key in contention then AddU64(contention[key], 1) else 1
    ensures forall k :: k in contention && k != key ==> r[k] == contention[k]
  {
    contention[key := if key in contention then AddU64(contention[key], 1) else 1]
  }

  /** The record of `pid` after it ran for `delta` more nanoseconds: a new record
      starts at `delta` with the current comm and cgroup; an existing one adds
      `delta` and fills in its comm and cgroup only where they are still empty. */
  function ChargedRecord(stats: map<u32, PidStat>, pid: u32, delta: u64, k: KernelReads): (r: PidStat)
    ensures r.cpuTimeNs == if pid in stats then AddU64(stats[pid].cpuTimeNs, delta) else delta
    ensures pid in stats && !IsEmptyBuf(stats[pid].comm) ==> r.comm == stats[pid].comm
    ensures pid in stats && !IsEmptyBuf(stats[pid].cgroup) ==> r.cgroup == stats[pid].cgroup
    ensures pid in stats && IsEmptyBuf(stats[pid].comm) ==> r.comm == k.comm
    ensures pid in stats && IsEmptyBuf(stats[pid].cgroup) ==> r.cgroup == k.cgroup
    ensures pid !in stats ==> r.comm == k.comm && r.cgroup == k.cgroup
    ensures |k.comm| == COMM_LEN && |k.cgroup| == CGROUP_LEN && (pid in stats ==> Sized(stats[pid])) ==> Sized(r)
  {
    if pid in stats then
      var ps := stats[pid];
      PidStat(
        AddU64(ps.cpuTimeNs, delta),
        if IsEmptyBuf(ps.comm) then k.comm else ps.comm,
        if IsEmptyBuf(ps.cgroup) then k.cgroup else ps.cgroup)
    else
      PidStat(delta, k.comm, k.cgroup)
  }

  /** The pid records after `pid` is charged; no other record changes. */
  function Charged(stats: map<u32, PidStat>, pid: u32, delta: u64, k: KernelReads): map<u32, PidStat>
  {
    stats[pid := ChargedRecord(stats, pid, delta, k)]
  }

  /** The pair counters after an event: bumped for (prev, next) when both are nonzero. */
  function ContentionAfter(contention: map<u64, u64>, ev: Switch): (r: map<u64, u64>)
    ensures ev.prevPid == 0 || ev.nextPid == 0 ==> r == contention
    ensures ev.prevPid != 0 && ev.nextPid != 0 ==> r == Bumped(contention, PairKey(ev.prevPid, ev.nextPid))
  {
    if ev.prevPid != 0 && ev.nextPid != 0 then Bumped(contention, PairKey(ev.prevPid, ev.nextPid)) else contention
  }

  /** The pid records after an event on a CPU whose state was `st`: the pid that was
      running, if not the idle pid 0, is charged the time since it was switched in. */
  function PidStatsAfter(stats: map<u32, PidStat>, st: CpuState, k: KernelReads): (r: map<u32, PidStat>)
    ensures st.pid == 0 ==> r == stats
    ensures st.pid != 0 ==> r == Charged(stats, st.pid, SubU64(k.now, st.ts), k)
    ensures 0 !in stats ==> 0 !in r
  {
    if st.pid != 0 then Charged(stats, st.pid, SubU64(k.now, st.ts), k) else stats
  }

  /** The maps after `handle_sched_switch` runs on `cpu` for the event `ev`. */
  function AfterSwitch(m: Maps, cpu: nat, ev: Switch, k: KernelReads): (r: Maps)
    // a failed per-CPU lookup changes nothing
    ensures cpu !in m.cpuState ==> r == m
    // the per-CPU state becomes (next_pid, now), on this CPU only
    ensures cpu in m.cpuState ==> r.cpuState == m.cpuState[cpu := CpuState(ev.nextPid, k.now)]
    // the pair counter is touched only when both pids are nonzero
    ensures cpu in m.cpuState ==> r.contention == ContentionAfter(m.contention, ev)
    // the pid that was running is charged; the idle pid never gets a record
    ensures cpu in m.cpuState ==> r.pidStats == PidStatsAfter(m.pidStats, m.cpuState[cpu], k)
    ensures 0 !in m.pidStats ==> 0 !in r.pidStats
  {
    if cpu !in m.cpuState then m
    else
      var st := m.cpuState[cpu];
      Maps(m.cpuState[cpu := CpuState(ev.nextPid, k.now)], PidStatsAfter(m.pidStats, st, k), ContentionAfter(m.contention, ev))
  }

  /** The per-CPU array of a freshly loaded program on `cpus` CPUs: every state zeroed. */
  function ZeroStates(cpus: nat): (r: map<nat, CpuState>)
    ensures forall c :: c in r <==> 0 <= c < cpus
    ensures forall c :: c in r ==> r[c] == CpuState(0, 0)
  {
    if cpus == 0 then map[]
    else
      var r := ZeroStates(cpus - 1)[cpus - 1 := CpuState(0, 0)];
      assert forall c :: c in r <==> 0 <= c < cpus by {
        forall c
          ensures c in r <==> 0 <= c < cpus
        {
          if 0 <= c < cpus - 1 {
            assert c in ZeroStates(cpus - 1);
          }
        }
      }
      r
  }

  /** The maps of a freshly loaded program. */
  function Fresh(cpus: nat): Maps
  {
    Maps(ZeroStates(cpus), map[], map[])
  }

  /** The loaded CPU tracer's maps, updated in place by its handler. */
  class Hotspot {
    var cpuState: map<nat, CpuState>
    var pidStats: map<u32, PidStat>
    var contention: map<u64, u64>

    function Contents(): Maps
      reads this
    {
      Maps(cpuState, pidStats, contention)
    }

    /** Freshly loaded maps on `cpus` CPUs: every per-CPU state zeroed, the hash maps empty. */
    constructor (cpus: nat)
      ensures Contents() == Fresh(cpus)
    {
      cpuState := ZeroStates(cpus);
      pidStats := map[];
      contention := map[];
    }

    /** `handle_sched_switch` at time `now`, with the current task named `taskComm`
        and its cgroup walk finding `lookup`. */
    method HandleSchedSwitch(cpu: nat, ev: Switch, now: u64, taskComm: seq<char>, lookup: CgroupLookup)
      modifies this
      ensures Contents() == AfterSwitch(old(Contents()), cpu, ev, Reads(now, taskComm, lookup))
    {
      var ts := now;
      if cpu !in cpuState {
        return;
      }
      var st := cpuState[cpu];
      CountPreemption(ev);
      ChargeRunning(st, ts, taskComm, lookup);
      cpuState := cpuState[cpu := CpuState(ev.nextPid, ts)];
    }

    /** The contention half of the handler: bump the (prev, next) counter when
        both pids are nonzero. */
    method CountPreemption(ev: Switch)
      modifies this
      ensures contention == ContentionAfter(old(contention), ev)
      ensures cpuState == old(cpuState) && pidStats == old(pidStats)
    {
      var victim, aggressor := ev.prevPid, ev.nextPid;
      if victim != 0 && aggressor != 0 {
        var pair := PairKey(victim, aggressor);
        if pair in contention {
          contention := contention[pair := AddU64(contention[pair], 1)];
        } else {
          contention := contention[pair := 1];
        }
      }
    }

    /** The accounting half of the handler: charge the pid recorded in `st` for the
        time since it was switched in, creating its record or filling in an empty
        comm or cgroup. */
    method ChargeRunning(st: CpuState, ts: u64, taskComm: seq<char>, lookup: CgroupLookup)
      modifies this
      ensures pidStats == PidStatsAfter(old(pidStats), st, Reads(ts, taskComm, lookup))
      ensures cpuState == old(cpuState) && contention == old(contention)
    {
      ghost var k := Reads(ts, taskComm, lookup);
      assert k == KernelReads(ts, ReadStr(taskComm, COMM_LEN), CgroupLabel(lookup, CGROUP_LEN));
      if st.pid != 0 {
        var delta := SubU64(ts, st.ts);
        var pid := st.pid;
        var rec: PidStat;
        if pid !in pidStats {
          var cgroup := ReadCgroup(lookup, CGROUP_LEN);
          rec := PidStat(delta, ReadStr(taskComm, COMM_LEN), cgroup);
        } else {
          rec := pidStats[pid];
          rec := rec.(cpuTimeNs := AddU64(rec.cpuTimeNs, delta));
          if IsEmptyBuf(rec.cgroup) {
            var cgroup := ReadCgroup(lookup, CGROUP_LEN);
            rec := rec.(cgroup := cgroup);
          }
          if IsEmptyBuf(rec.comm) {
            rec := rec.(comm := ReadStr(taskComm, COMM_LEN));
          }
        }
        assert rec == ChargedRecord(pidStats, pid, delta, k);
        pidStats := pidStats[pid := rec];
      }
    }
  }

  /** The maps after a sequence of events on one CPU, one handler run after another. */
  function Run(m: Maps, cpu: nat, events: seq<(Switch, KernelReads)>): Maps
    decreases |events|
  {
    if events == [] then m
    else Run(AfterSwitch(m, cpu, events[0].0, events[0].1), cpu, events[1..])
  }

  /** The pid records over a run, driven by the per-CPU state alone. */
  function PidStatsRun(stats: map<u32, PidStat>, st: CpuState, events: seq<(Switch, KernelReads)>): map<u32, PidStat>
    decreases |events|
  {
    if events == [] then stats
    else
      PidStatsRun(PidStatsAfter(stats, st, events[0].1), CpuState(events[0].0.nextPid, events[0].1.now), events[1..])
  }

  /** The pair counters over a run, driven by the events alone. */
  function ContentionRun(contention: map<u64, u64>, events: seq<(Switch, KernelReads)>): map<u64, u64>
    decreases |events|
  {
    if events == [] then contention
    else ContentionRun(ContentionAfter(contention, events[0].0), events[1..])
  }

  /** On a CPU whose state can be looked up, a run updates the pid records and the
      pair counters independently of each other. */
  lemma {:induction false} RunSplits(m: Maps, cpu: nat, events: seq<(Switch, KernelReads)>)
    requires cpu in m.cpuState
    ensures Run(m, cpu, events).pidStats == PidStatsRun(m.pidStats, m.cpuState[cpu], events)
    ensures Run(m, cpu, events).contention == ContentionRun(m.contention, events)
    decreases |events|
  {
    if events != [] {
      var m1 := AfterSwitch(m, cpu, events[0].0, events[0].1);
      assert m1.cpuState[cpu] == CpuState(events[0].0.nextPid, events[0].1.now);
      RunSplits(m1, cpu, events[1..]);
    }
  }

  /** The CPU time recorded for `pid`, 0 without a record. */
  function CpuTime(stats: map<u32, PidStat>, pid: u32): u64
  {
    if pid in stats then stats[pid].cpuTimeNs else 0
  }

  /** The sum of the clock differences between consecutive events on one CPU
      during which `pid` was the running pid, starting from state `st`. */
  function RunningTime(pid: u32, st: CpuState, events: seq<(Switch, KernelReads)>): nat
    decreases |events|
  {
    if events == [] then 0
    else
      var now := events[0].1.now;
      (if st.pid == pid then SubU64(now, st.ts) else 0)
        + RunningTime(pid, CpuState(events[0].0.nextPid, now), events[1..])
  }

  /** Whether `pid` was the running pid when one of the events happened. */
  predicate WasRunning(pid: u32, st: CpuState, events: seq<(Switch, KernelReads)>)
    decreases |events|
  {
    events != [] && (st.pid == pid || WasRunning(pid, CpuState(events[0].0.nextPid, events[0].1.now), events[1..]))
  }

  /** One event: the running pid's CPU time grows by the time since it was
      switched in; every other pid's stays. */
  lemma StepChargesRunningPid(stats: map<u32, PidStat>, st: CpuState, k: KernelReads, pid: u32)
    requires pid != 0
    ensures CpuTime(PidStatsAfter(stats, st, k), pid)
              == (CpuTime(stats, pid) + (if st.pid == pid then SubU64(k.now, st.ts) else 0)) % U64_MODULUS
  {
    if st.pid != 0 {
      var r := Charged(stats, st.pid, SubU64(k.now, st.ts), k);
      if st.pid != pid && pid in stats {
        assert r[pid] == stats[pid];
      }
    }
  }

  /** Over a run of events, a nonzero pid's CPU time grows by exactly the time it
      was running (modulo 2^64, as the u64 counter wraps). */
  lemma {:induction false} PidStatsRunCharges(stats: map<u32, PidStat>, st: CpuState, events: seq<(Switch, KernelReads)>, pid: u32)
    requires pid != 0
    ensures CpuTime(PidStatsRun(stats, st, events), pid)
              == (CpuTime(stats, pid) + RunningTime(pid, st, events)) % U64_MODULUS
    decreases |events|
  {
    if events != [] {
      var k := events[0].1;
      var stats1 := PidStatsAfter(stats, st, k);
      var st1 := CpuState(events[0].0.nextPid, k.now);
      var d := if st.pid == pid then SubU64(k.now, st.ts) else 0;
      StepChargesRunningPid(stats, st, k, pid);
      PidStatsRunCharges(stats1, st1, events[1..], pid);
      AddTwiceWrapped(CpuTime(stats, pid), d, RunningTime(pid, st1, events[1..]),
                      CpuTime(stats1, pid), CpuTime(PidStatsRun(stats1, st1, events[1..]), pid));
    }
  }

  /** Over a run of events, a pid has a record exactly when it had one before or
      was the running pid at some event; the idle pid 0 never gets one. */
  lemma {:induction false} PidStatsRunRecords(stats: map<u32, PidStat>, st: CpuState, events: seq<(Switch, KernelReads)>, pid: u32)
    ensures pid in PidStatsRun(stats, st, events) <==> pid in stats || (pid != 0 && WasRunning(pid, st, events))
    decreases |events|
  {
    if events != [] {
      var k := events[0].1;
      assert pid in PidStatsAfter(stats, st, k) <==> pid in stats || (pid != 0 && st.pid == pid);
      PidStatsRunRecords(PidStatsAfter(stats, st, k), CpuState(events[0].0.nextPid, k.now), events[1..], pid);
    }
  }

  /** The running-time account of the whole handler: over a run on one CPU, a
      nonzero pid's CPU time grows by the time it was running there, modulo 2^64. */
  lemma RunChargesRunningTime(m: Maps, cpu: nat, events: seq<(Switch, KernelReads)>, pid: u32)
    requires cpu in m.cpuState && pid != 0
    ensures CpuTime(Run(m, cpu, events).pidStats, pid)
              == (CpuTime(m.pidStats, pid) + RunningTime(pid, m.cpuState[cpu], events)) % U64_MODULUS
    ensures pid in Run(m, cpu, events).pidStats <==> pid in m.pidStats || WasRunning(pid, m.cpuState[cpu], events)
  {
    RunSplits(m, cpu, events);
    PidStatsRunCharges(m.pidStats, m.cpuState[cpu], events, pid);
    PidStatsRunRecords(m.pidStats, m.cpuState[cpu], events, pid);
  }

  /** From freshly loaded maps, every pid's CPU time is the wrapped total of the
      intervals it was running on that CPU, and pid 0 is never recorded. */
  lemma FreshRunCpuTime(cpus: nat, cpu: nat, events: seq<(Switch, KernelReads)>, pid: u32)
    requires cpu < cpus && pid != 0
    ensures CpuTime(Run(Fresh(cpus), cpu, events).pidStats, pid) == RunningTime(pid, CpuState(0, 0), events) % U64_MODULUS
    ensures 0 !in Run(Fresh(cpus), cpu, events).pidStats
  {
    var m0 := Fresh(cpus);
    assert m0.cpuState[cpu] == CpuState(0, 0);
    RunSplits(m0, cpu, events);
    PidStatsRunCharges(m0.pidStats, m0.cpuState[cpu], events, pid);
    PidStatsRunRecords(m0.pidStats, m0.cpuState[cpu], events, 0);
  }

  /** The number of events in which `victim` was switched out for `aggressor`. */
  function Preemptions(victim: u32, aggressor: u32, events: seq<(Switch, KernelReads)>): nat
    decreases |events|
  {
    if events == [] then 0
    else (if events[0].0 == Switch(victim, aggressor) then 1 else 0) + Preemptions(victim, aggressor, events[1..])
  }

  /** The counter recorded for a pair, 0 without an entry. */
  function PairCount(contention: map<u64, u64>, key: u64): u64
  {
    if key in contention then contention[key] else 0
  }

  /** One event: a pair's counter grows by one exactly when the event switches
      its victim out for its aggressor. */
  lemma StepCountsPreemption(contention: map<u64, u64>, ev: Switch, victim: u32, aggressor: u32)
    requires victim != 0 && aggressor != 0
    ensures PairCount(ContentionAfter(contention, ev), PairKey(victim, aggressor))
              == (PairCount(contention, PairKey(victim, aggressor))
                  + (if ev == Switch(victim, aggressor) then 1 else 0)) % U64_MODULUS
  {
    var key := PairKey(victim, aggressor);
    if ev.prevPid != 0 && ev.nextPid != 0 {
      var pair := PairKey(ev.prevPid, ev.nextPid);
      var r := Bumped(contention, pair);
      if pair == key {
        PairKeyInjective(ev.prevPid, ev.nextPid, victim, aggressor);
      } else if key in contention {
        assert r[key] == contention[key];
      }
    }
  }

  /** Over a run of events, the counter of a pair of nonzero pids grows by the
      number of events in which the first was switched out for the second
      (modulo 2^64). */
  lemma {:induction false} ContentionRunCounts(contention: map<u64, u64>, events: seq<(Switch, KernelReads)>, victim: u32, aggressor: u32)
    requires victim != 0 && aggressor != 0
    ensures PairCount(ContentionRun(contention, events), PairKey(victim, aggressor))
              == (PairCount(contention, PairKey(victim, aggressor)) + Preemptions(victim, aggressor, events)) % U64_MODULUS
    decreases |events|
  {
    if events == [] {
    } else {
      var key := PairKey(victim, aggressor);
      var ev := events[0].0;
      var c1 := ContentionAfter(contention, ev);
      var c := if ev == Switch(victim, aggressor) then 1 else 0;
      StepCountsPreemption(contention, ev, victim, aggressor);
      ContentionRunCounts(c1, events[1..], victim, aggressor);
      AddTwiceWrapped(PairCount(contention, key), c, Preemptions(victim, aggressor, events[1..]),
                      PairCount(c1, key), PairCount(ContentionRun(c1, events[1..]), key));
    }
  }

  /** The contention account of the whole handler, on one CPU. */
  lemma RunCountsPreemptions(m: Maps, cpu: nat, events: seq<(Switch, KernelReads)>, victim: u32, aggressor: u32)
    requires cpu in m.cpuState && victim != 0 && aggressor != 0
    ensures PairCount(Run(m, cpu, events).contention, PairKey(victim, aggressor))
              == (PairCount(m.contention, PairKey(victim, aggressor)) + Preemptions(victim, aggressor, events)) % U64_MODULUS
  {
    RunSplits(m, cpu, events);
    ContentionRunCounts(m.contention, events, victim, aggressor);
  }
}
