/** Lease safety: while every worker renews in time, a reclaim only ever takes jobs
    from dead workers, and each job has one executor. */
module Leases {
  import opened Wrappers
  import opened Clock
  import opened JobRows
  import opened Protocol
  import opened ProtocolInvariant

  /** No live execution read the clock for its last claim or renewal more than a
      lease ago. */
  ghost predicate Timely(s: System) {
    forall e | e in s.live :: s.clock - s.live[e].renewed <= s.lease
  }

  /** Every state of the run is timely. */
  ghost predicate AlwaysTimely(r: Run) {
    Timely(End(r)) && (r.Then? ==> AlwaysTimely(r.before))
  }

  /** Throughout the run no live execution goes longer without a claim or renewal. */
  ghost predicate RenewedWithin(r: Run, gap: int) {
    && (forall e | e in End(r).live :: End(r).clock - End(r).live[e].renewed <= gap)
    && (r.Then? ==> RenewedWithin(r.before, gap))
  }

  lemma LeaseIsConstant(s: System, a: Action)
    requires Enabled(s, a)
    ensures Apply(s, a).lease == s.lease
  {
  }

  lemma {:induction false} PromptRunsAreTimely(r: Run, gap: int)
    requires IsRun(r) && RenewedWithin(r, gap) && gap <= End(r).lease
    ensures AlwaysTimely(r)
  {
    if r.Then? {
      LeaseIsConstant(End(r.before), r.action);
      PromptRunsAreTimely(r.before, gap);
    }
  }

  ghost predicate OneExecutorEach(s: System) {
    forall e, f | e in s.live && f in s.live && s.live[e].job == s.live[f].job :: e == f
  }

  /** What a sole executor knows of its row: it is not back in the queue, its
      attempt and usage totals are the executor's own, and while it runs its lease
      is the one the executor last asked for. */
  ghost predicate Owns(x: Exec, row: Row, lease: int) {
    && !row.state.Queued?
    && row.attempts == x.attempts
    && row.usage == x.usage
    && (row.state.Running? ==> row.leaseUntil == Some(Millis(x.renewed + lease)))
  }

  ghost predicate Exclusive(s: System) {
    && OneExecutorEach(s)
    && (forall e | e in s.live && s.live[e].job in s.table :: Owns(s.live[e], s.table[s.live[e].job], s.lease))
  }

  /** Truncating both the lease and the clock to milliseconds never makes a lease
      look lapsed early. */
  lemma TimelyLeaseHolds(s: System, e: ExecId, now: int)
    requires Exclusive(s) && Timely(s) && now <= s.clock
    requires e in s.live && s.live[e].job in s.table
    ensures !Lapsed(s.table[s.live[e].job], Millis(now))
  {
    assert Owns(s.live[e], s.table[s.live[e].job], s.lease);
    MillisMonotone(now, s.live[e].renewed + s.lease);
  }

  lemma ClaimKeepsExclusive(s: System, e: ExecId, id: JobId, worker: string, now: int)
    requires Inv(s) && Exclusive(s) && Enabled(s, Claim(e, id, worker, now))
    ensures Exclusive(AfterClaim(s, e, id, worker, now))
  {
    var s' := AfterClaim(s, e, id, worker, now);
    PendingRowsRewriteFreely(s.table, id, Claimed(s.table[id], worker, Millis(now + s.lease), Millis(now)));
    assert forall f | f in s.live :: s.live[f].job == id ==> Owns(s.live[f], s.table[id], s.lease);
    forall f | f in s'.live && s'.live[f].job in s'.table
      ensures Owns(s'.live[f], s'.table[s'.live[f].job], s'.lease)
    {
      if f != e {
        assert s.live[f].job != id;
        assert Owns(s.live[f], s.table[s.live[f].job], s.lease);
      }
    }
  }

  lemma RenewKeepsExclusive(s: System, e: ExecId, now: int)
    requires Inv(s) && Exclusive(s) && Enabled(s, Renew(e, now))
    ensures Exclusive(Apply(s, Renew(e, now)))
  {
    var id := s.live[e].job;
    if id in s.table && s.table[id].state.Running? {
      PendingRowsRewriteFreely(s.table, id,
        s.table[id].(leaseUntil := Some(Millis(now + s.lease)), updatedAt := Millis(now)));
    }
  }

  lemma ChargeKeepsExclusive(s: System, e: ExecId, delta: Usage, now: int)
    requires Inv(s) && Exclusive(s) && Enabled(s, Charge(e, delta, now))
    ensures Exclusive(AfterCharge(s, e, delta, now))
  {
    var id := s.live[e].job;
    if id in s.table {
      ChargeIsAccepted(s.table, id, delta, Millis(now));
    }
  }

  lemma FinishKeepsExclusive(s: System, e: ExecId, result: HandlerResult, now: int, delay: int)
    requires Inv(s) && Exclusive(s) && e in s.live
    ensures Exclusive(AfterFinish(s, e, result, now, delay))
  {
    var s' := AfterFinish(s, e, result, now, delay);
    forall f | f in s'.live && s'.live[f].job in s'.table
      ensures Owns(s'.live[f], s'.table[s'.live[f].job], s'.lease)
    {
      assert f in s.live && s.live[f].job != s.live[e].job;
      assert Owns(s.live[f], s.table[s.live[f].job], s.lease);
    }
  }

  lemma ReclaimKeepsExclusive(s: System, now: int)
    requires Exclusive(s) && Timely(s) && now <= s.clock
    ensures Exclusive(Apply(s, Reclaim(now)))
  {
    forall e | e in s.live && s.live[e].job in s.table
      ensures !Lapsed(s.table[s.live[e].job], Millis(now))
    {
      TimelyLeaseHolds(s, e, now);
    }
  }

  lemma StepKeepsExclusive(s: System, a: Action)
    requires Inv(s) && Exclusive(s) && Enabled(s, a)
    requires a.Reclaim? ==> Timely(s)
    ensures Exclusive(Apply(s, a))
  {
    match a
    case Claim(e, id, worker, now) => ClaimKeepsExclusive(s, e, id, worker, now);
    case Renew(e, now) => RenewKeepsExclusive(s, e, now);
    case Charge(e, delta, now) => ChargeKeepsExclusive(s, e, delta, now);
    case Finish(e, result, now, delay) => FinishKeepsExclusive(s, e, result, now, delay);
    case Reclaim(now) => ReclaimKeepsExclusive(s, now);
    case _ =>
  }

  lemma {:induction false} TimelyRunsAreExclusive(r: Run)
    requires IsRun(r) && AlwaysTimely(r)
    ensures Exclusive(End(r))
  {
    match r
    case Start(_) =>
    case Then(before, a) =>
      TimelyRunsAreExclusive(before);
      RunsKeepInv(before);
      StepKeepsExclusive(End(before), a);
  }

  /** In a run of timely renewals no job ever has two executors, every executor's
      in-memory totals equal its row's, and a reclaim at any clock reading takes
      no job whose worker is alive. */
  lemma LiveWorkersKeepTheirJobs(r: Run, now: int)
    requires IsRun(r) && AlwaysTimely(r) && now <= End(r).clock
    ensures OneExecutorEach(End(r))
    ensures forall e | e in End(r).live && End(r).live[e].job in End(r).table ::
              && End(r).live[e].usage == End(r).table[End(r).live[e].job].usage
              && End(r).live[e].attempts == End(r).table[End(r).live[e].job].attempts
              && End(r).live[e].job !in LapsedIds(End(r).table, Millis(now))
  {
    var s := End(r);
    TimelyRunsAreExclusive(r);
    forall e | e in s.live && s.live[e].job in s.table
      ensures Owns(s.live[e], s.table[s.live[e].job], s.lease)
      ensures s.live[e].job !in LapsedIds(s.table, Millis(now))
    {
      TimelyLeaseHolds(s, e, now);
    }
  }
}
