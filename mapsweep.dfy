/** The iterate-and-delete pass that both collectors' Reset use to clear an
    eBPF hash map, and the bounded retry around it. The kernel's answers
    (which deletes fail, how an iteration ends) are supplied per pass. */
module MapSweep {

  /** The errors the eBPF map library reports. */
  datatype MapError = ErrKeyNotExist | ErrIterationAborted | ErrOther(code: int)

  /** How an iteration over a map ends: after every key with no error, or after
      `visited` keys with `err` from the iterator's Err. */
  datatype IterEnd = Exhausted | StoppedAfter(visited: nat, err: MapError)

  /** What the kernel answers during one pass: the error each failing delete
      returns, and how the iteration ends. */
  datatype SweepPass<K> = SweepPass(deleteErrors: map<K, MapError>, end: IterEnd)

  /** How a pass ended: every key deleted, a delete failed, or the iterator failed. */
  datatype SweepStatus<K> = Swept | DeleteFailed(key: K, err: MapError) | IterationFailed(err: MapError)

  /** The number of attempts a Reset makes per map (resetSweepRetries). */
  const RESET_SWEEP_RETRIES := 3

  /** A delete that Reset treats as fatal: any error but ErrKeyNotExist. */
  predicate DeleteFails<K>(pass: SweepPass<K>, k: K)
  {
    k in pass.deleteErrors && pass.deleteErrors[k] != ErrKeyNotExist
  }

  /** The iteration stopped with ErrIterationAborted. */
  predicate Aborted(end: IterEnd)
  {
    end.StoppedAfter? && end.err == ErrIterationAborted
  }

  /** The retry rule held over `attempts` passes: at most three, and every pass
      before the last was aborted. */
  predicate RetriedOnlyAborts<K>(passes: nat -> SweepPass<K>, attempts: nat)
  {
    1 <= attempts <= RESET_SWEEP_RETRIES && forall a :: 1 <= a < attempts ==> Aborted(passes(a).end)
  }

  /** Pass `attempt` ended with the iterator error `e`, and an abort is given up
      on only at the last attempt. */
  predicate GaveUpWith<K>(passes: nat -> SweepPass<K>, attempt: nat, e: MapError)
  {
    && passes(attempt).end.StoppedAfter?
    && e == passes(attempt).end.err
    && (e == ErrIterationAborted ==> attempt == RESET_SWEEP_RETRIES)
  }

  predicate SubMap<K, V(==)>(a: map<K, V>, b: map<K, V>)
  {
    forall k :: k in a ==> k in b && a[k] == b[k]
  }

  /** True when every key of `m` would be deleted by `pass`: it iterates to the
      end and no delete fails. */
  predicate Clean<K>(m: set<K>, pass: SweepPass<K>)
  {
    pass.end.Exhausted? && forall k :: k in m ==> !DeleteFails(pass, k)
  }

  /** One sweep of Reset over a map: walk it with its iterator, deleting every
      key seen and stopping at the first delete that fails with anything but
      ErrKeyNotExist, then report the iterator's own error. The map is visited in an order the contract does not fix. A delete that
      reports ErrKeyNotExist leaves the key gone. */
  method Sweep<K, V(==)>(m: map<K, V>, pass: SweepPass<K>) returns (rest: map<K, V>, status: SweepStatus<K>)
    ensures SubMap(rest, m)
    ensures status.Swept? <==> Clean(m.Keys, pass)
    ensures status.Swept? ==> rest == map[]
    ensures status.DeleteFailed? ==>
              status.key in rest && DeleteFails(pass, status.key) && status.err == pass.deleteErrors[status.key]
    ensures status.IterationFailed? ==>
              pass.end.StoppedAfter? && status.err == pass.end.err && |m| - |rest| <= pass.end.visited
  {
    rest := m;
    var visited := 0;
    while rest != map[] && !(pass.end.StoppedAfter? && visited == pass.end.visited)
      invariant SubMap(rest, m)
      invariant visited + |rest| == |m|
      invariant pass.end.StoppedAfter? ==> visited <= pass.end.visited
      invariant forall k :: k in m && k !in rest ==> !DeleteFails(pass, k)
      decreases |rest|
    {
      var k :| k in rest;
      visited := visited + 1;
      if DeleteFails(pass, k) {
        return rest, DeleteFailed(k, pass.deleteErrors[k]);
      }
      rest := rest - {k};
    }
    if pass.end.StoppedAfter? {
      status := IterationFailed(pass.end.err);
    } else {
      status := Swept;
    }
  }

  /** The retry loop of Reset: sweep up to RESET_SWEEP_RETRIES times, sweeping
      again only when the iterator aborted and attempts are left; a failed
      delete or any other iterator error ends the loop with that error, and a
      clean sweep ends it with success. `passes(attempt)` are the kernel's
      answers on each attempt, and `attempts` counts the passes made. */
  method SweepWithRetries<K, V(==)>(m: map<K, V>, passes: nat -> SweepPass<K>)
    returns (rest: map<K, V>, status: SweepStatus<K>, ghost attempts: nat)
    ensures SubMap(rest, m)
    ensures 1 <= attempts <= RESET_SWEEP_RETRIES
    ensures status.Swept? ==> rest == map[] && passes(attempts).end.Exhausted?
    ensures status.DeleteFailed? ==>
              status.key in rest && DeleteFails(passes(attempts), status.key)
              && status.err == passes(attempts).deleteErrors[status.key]
    ensures status.IterationFailed? ==> GaveUpWith(passes, attempts, status.err)
    ensures forall a :: 1 <= a < attempts ==> Aborted(passes(a).end)
    ensures Clean(m.Keys, passes(1)) ==> status.Swept? && attempts == 1
  {
    rest := m;
    var attempt := 1;
    status := Swept;
    attempts := 0;
    while attempt <= RESET_SWEEP_RETRIES
      invariant 1 <= attempt <= RESET_SWEEP_RETRIES
      invariant attempts == attempt - 1
      invariant SubMap(rest, m)
      invariant forall a :: 1 <= a < attempt ==> Aborted(passes(a).end)
      invariant attempt > 1 ==> !Clean(m.Keys, passes(1))
      invariant attempt == 1 ==> rest == m
    {
      var pass := passes(attempt);
      var r, st := Sweep(rest, pass);
      assert SubMap(r, m);
      rest := r;
      attempts := attempt;
      if st.IterationFailed? {
        if st.err == ErrIterationAborted && attempt < RESET_SWEEP_RETRIES {
          attempt := attempt + 1;
          continue;
        }
        return rest, st, attempts;
      }
      return rest, st, attempts;
    }
    assert false;
  }
}
