/** Disturbances do not stop the queue: from any reachable state on, once no more
    workers die or shut down, and reclaims keep coming, every job ends. */
module Liveness {
  import opened Clock
  import opened JobRows
  import opened Protocol
  import opened ProtocolInvariant
  import opened Lifecycle
  import opened Drain
  import opened Fairness

  /** Everything goes but new jobs, deaths of workers and shutdowns. */
  predicate Undisturbed(a: Action) {
    !a.Enqueue? && !a.Crash? && (a.Finish? ==> !a.result.Interrupted?)
  }

  ghost predicate RunsUndisturbed(st: States, sched: Schedule) {
    Inv(st(0)) && Unfolds(st, sched) && forall n: nat :: Undisturbed(sched(n))
  }

  ghost predicate ReclaimComes(sched: Schedule, n: nat, t: int) {
    exists m: nat :: n <= m && sched(m).Reclaim? && t <= sched(m).now
  }

  ghost predicate ReclaimsCome(sched: Schedule) {
    forall n: nat, t: int :: ReclaimComes(sched, n, t)
  }

  ghost predicate FairlyUndisturbed(st: States, sched: Schedule) {
    RunsUndisturbed(st, sched) && Fair(st, sched) && ReclaimsCome(sched)
  }

  // ----- what is left to do -----

  /** Permitted attempts that have not been used, one by one. */
  ghost function Spare(s: System): set<(JobId, int)> {
    set id, k | id in s.table && s.table[id].attempts <= k < s.table[id].maxAttempts :: (id, k)
  }

  /** Executions that could still put their job back in the queue. */
  ghost function MayRetry(s: System): set<ExecId> {
    set e | e in s.live && s.live[e].attempts < s.live[e].maxAttempts
  }

  ghost function Unfinished(s: System): set<JobId> {
    set id | id in s.table && !s.table[id].state.Terminal()
  }

  /** Less is left, counting first attempts, then retries, then jobs. */
  ghost predicate Advances(s: System, s': System) {
    || Spare(s') < Spare(s)
    || (Spare(s') == Spare(s) && MayRetry(s') < MayRetry(s))
    || (Spare(s') == Spare(s) && MayRetry(s') == MayRetry(s) && Unfinished(s') < Unfinished(s))
  }

  ghost predicate Stalls(s: System, s': System) {
    Spare(s') == Spare(s) && MayRetry(s') == MayRetry(s) && Unfinished(s') == Unfinished(s)
  }

  ghost predicate NoWorse(s: System, s': System) {
    Advances(s, s') || Stalls(s, s')
  }

  lemma Together(s: System, t: System, u: System)
    requires NoWorse(s, t) && NoWorse(t, u)
    ensures NoWorse(s, u)
    ensures Advances(s, t) || Advances(t, u) ==> Advances(s, u)
  {
  }

  // ----- no step undoes progress -----

  /** No attempt is given back, nothing is started and nothing finished reopens. */
  ghost predicate Lighter(s: System, s': System) {
    && (forall id | id in s'.table ::
          && id in s.table
          && s'.table[id].attempts >= s.table[id].attempts && s'.table[id].maxAttempts == s.table[id].maxAttempts
          && (s.table[id].state.Terminal() ==> s'.table[id].state.Terminal()))
    && (forall e | e in s'.live ::
          && e in s.live && s'.live[e].attempts == s.live[e].attempts
          && s'.live[e].maxAttempts == s.live[e].maxAttempts)
  }

  lemma LighterIsNoWorse(s: System, s': System)
    requires Lighter(s, s')
    ensures NoWorse(s, s')
    ensures forall e | e in MayRetry(s) && e !in s'.live :: Advances(s, s')
    ensures forall id | id in Unfinished(s) && id !in Unfinished(s') :: Advances(s, s')
  {
    SpareShrinks(s, s');
    assert MayRetry(s') <= MayRetry(s);
    forall id | id in Unfinished(s')
      ensures id in Unfinished(s)
    {
      assert id in s'.table && !s'.table[id].state.Terminal();
    }
  }

  /** Attempts are only ever used up. */
  lemma SpareShrinks(s: System, s': System)
    requires forall id | id in s'.table ::
               && id in s.table
               && s'.table[id].attempts >= s.table[id].attempts && s'.table[id].maxAttempts == s.table[id].maxAttempts
    ensures Spare(s') <= Spare(s)
  {
    forall p | p in Spare(s')
      ensures p in Spare(s)
    {
      assert p.0 in s'.table && s'.table[p.0].attempts <= p.1 < s'.table[p.0].maxAttempts;
    }
  }

  lemma ClaimIsNoWorse(s: System, a: Action)
    requires Inv(s) && Enabled(s, a) && a.Claim?
    ensures NoWorse(s, Apply(s, a))
    ensures var s' := Apply(s, a); a.exec in s'.live && s'.live[a.exec].job == a.id && a.id in Unfinished(s')
  {
    var s' := Apply(s, a);
    ClaimRaisesAttempts(s, a);
    PendingRowsRewriteFreely(s.table, a.id,
                             Claimed(s.table[a.id], a.worker, Millis(a.now + s.lease), Millis(a.now)));
    SpareShrinks(s, s');
    var row := s.table[a.id];
    if row.attempts < row.maxAttempts {
      assert (a.id, row.attempts) in Spare(s) && (a.id, row.attempts) !in Spare(s');
    } else {
      assert MayRetry(s') == MayRetry(s);
      assert Unfinished(s') == Unfinished(s);
    }
  }

  /** An execution that ends uses up its own retry, or finishes its job for good. */
  lemma FinishIsNoWorse(s: System, a: Action)
    requires Inv(s) && Enabled(s, a) && a.Finish? && Undisturbed(a)
    ensures NoWorse(s, Apply(s, a)) && a.exec !in Apply(s, a).live
    ensures a.exec in MayRetry(s) ==> Advances(s, Apply(s, a))
    ensures a.exec !in MayRetry(s) ==> Lighter(s, Apply(s, a)) && s.live[a.exec].job !in Unfinished(Apply(s, a))
  {
    var s' := Apply(s, a);
    FinishKeepsAttempts(s, a);
    SpareShrinks(s, s');
    assert MayRetry(s') == MayRetry(s) - {a.exec};
    if a.exec !in MayRetry(s) {
      SpentExecutionsFinish(s, a);
      LighterIsNoWorse(s, s');
    }
  }

  lemma FinishKeepsAttempts(s: System, a: Action)
    requires Enabled(s, a) && a.Finish? && Undisturbed(a)
    ensures var s' := Apply(s, a);
            && s'.live == s.live - {a.exec} && s'.table.Keys == s.table.Keys
            && forall id | id in s.table ::
                 s'.table[id].attempts == s.table[id].attempts && s'.table[id].maxAttempts == s.table[id].maxAttempts
  {
  }

  lemma SpentExecutionsFinish(s: System, a: Action)
    requires Inv(s) && Enabled(s, a) && a.Finish? && Undisturbed(a) && a.exec !in MayRetry(s)
    ensures var s', job := Apply(s, a), s.live[a.exec].job;
            && s'.table.Keys == s.table.Keys
            && (job in s.table ==> s'.table[job].state.Terminal())
            && (forall id | id in s.table && id != job :: s'.table[id] == s.table[id])
  {
  }

  lemma OthersAreLighter(s: System, a: Action)
    requires Inv(s) && Enabled(s, a) && Undisturbed(a) && !a.Claim? && !a.Finish?
    ensures Lighter(s, Apply(s, a))
  {
    if a.Charge? {
      ChargesAreLighter(s, a);
    } else if a.Renew? || a.Progress? {
      ReportsAreLighter(s, a);
    }
  }

  lemma ChargesAreLighter(s: System, a: Action)
    requires Enabled(s, a) && a.Charge?
    ensures Lighter(s, Apply(s, a))
  {
  }

  lemma ReportsAreLighter(s: System, a: Action)
    requires Enabled(s, a) && (a.Renew? || a.Progress?)
    ensures Lighter(s, Apply(s, a))
  {
  }

  lemma StepIsNoWorse(s: System, a: Action)
    requires Inv(s) && Enabled(s, a) && Undisturbed(a)
    ensures NoWorse(s, Apply(s, a))
  {
    if a.Claim? {
      ClaimIsNoWorse(s, a);
    } else if a.Finish? {
      FinishIsNoWorse(s, a);
    } else {
      OthersAreLighter(s, a);
      LighterIsNoWorse(s, Apply(s, a));
    }
  }

  // ----- along a schedule -----

  lemma {:induction false} InvAt(st: States, sched: Schedule, n: nat)
    requires RunsUndisturbed(st, sched)
    ensures Inv(st(n))
  {
    if n > 0 {
      InvAt(st, sched, n - 1);
      assert StepsAt(st, sched, n - 1);
      StepKeepsInv(st(n - 1), sched(n - 1));
    }
  }

  lemma {:induction false} NoWorseLater(st: States, sched: Schedule, n: nat, m: nat)
    requires RunsUndisturbed(st, sched) && n <= m
    ensures NoWorse(st(n), st(m))
  {
    if n < m {
      NoWorseLater(st, sched, n, m - 1);
      InvAt(st, sched, m - 1);
      assert StepsAt(st, sched, m - 1);
      StepIsNoWorse(st(m - 1), sched(m - 1));
      Together(st(n), st(m - 1), st(m));
    }
  }

  /** An execution stays as it is until it ends. */
  lemma {:induction false} ExecutionStays(st: States, sched: Schedule, e: ExecId, n: nat, m: nat)
    requires RunsUndisturbed(st, sched) && n <= m && e in st(n).live
    requires forall k: nat | n <= k < m :: !(sched(k).Finish? && sched(k).exec == e)
    ensures e in st(m).live
    ensures st(m).live[e].job == st(n).live[e].job
    ensures st(m).live[e].attempts == st(n).live[e].attempts
    ensures st(m).live[e].maxAttempts == st(n).live[e].maxAttempts
  {
    if n < m {
      ExecutionStays(st, sched, e, n, m - 1);
      assert StepsAt(st, sched, m - 1);
      StepKeepsExecution(st(m - 1), sched(m - 1), e);
    }
  }

  lemma StepKeepsExecution(s: System, a: Action, e: ExecId)
    requires Enabled(s, a) && Undisturbed(a) && e in s.live && !(a.Finish? && a.exec == e)
    ensures e in Apply(s, a).live
    ensures Apply(s, a).live[e].job == s.live[e].job && Apply(s, a).live[e].attempts == s.live[e].attempts
    ensures Apply(s, a).live[e].maxAttempts == s.live[e].maxAttempts
  {
  }

  lemma {:induction false} FirstFinish(sched: Schedule, e: ExecId, n: nat, m: nat) returns (first: nat)
    requires n <= m && sched(m).Finish? && sched(m).exec == e
    ensures n <= first && sched(first).Finish? && sched(first).exec == e
    ensures forall k: nat | n <= k < first :: !(sched(k).Finish? && sched(k).exec == e)
    decreases m
  {
    first := m;
    if k: nat :| n <= k < m && sched(k).Finish? && sched(k).exec == e {
      first := FirstFinish(sched, e, n, k);
    }
  }

  /** A live execution ends, as what it was all along. */
  lemma ExecutionsEnd(st: States, sched: Schedule, n: nat, e: ExecId) returns (m: nat)
    requires FairlyUndisturbed(st, sched) && e in st(n).live
    ensures n <= m && sched(m).Finish? && sched(m).exec == e && e in st(m).live
    ensures st(m).live[e].job == st(n).live[e].job
    ensures e in MayRetry(st(n)) ==> e in MayRetry(st(m))
  {
    var last: nat :| n <= last && sched(last).Finish? && sched(last).exec == e;
    m := FirstFinish(sched, e, n, last);
    ExecutionStays(st, sched, e, n, m);
  }

  /** When it does, less is left: its own retry, or its job. */
  lemma ExecutionsLeadOn(st: States, sched: Schedule, n: nat, e: ExecId) returns (m: nat)
    requires FairlyUndisturbed(st, sched) && e in st(n).live
    requires e in MayRetry(st(n)) || st(n).live[e].job in Unfinished(st(n))
    ensures n <= m && Advances(st(n), st(m))
  {
    m := ExecutionsEnd(st, sched, n, e);
    NoWorseLater(st, sched, n, m);
    if !Advances(st(n), st(m)) {
      StalledKeepsJobs(st(n), st(m), st(n).live[e].job);
      InvAt(st, sched, m);
      FinishLeadsOn(st, sched, m);
      Together(st(n), st(m), st(m + 1));
      m := m + 1;
    }
  }

  lemma StalledKeepsJobs(s: System, s': System, id: JobId)
    requires NoWorse(s, s') && !Advances(s, s')
    ensures id in Unfinished(s) ==> id in Unfinished(s')
  {
  }

  lemma FinishLeadsOn(st: States, sched: Schedule, n: nat)
    requires RunsUndisturbed(st, sched) && Inv(st(n)) && sched(n).Finish? && sched(n).exec in st(n).live
    requires sched(n).exec in MayRetry(st(n)) || st(n).live[sched(n).exec].job in Unfinished(st(n))
    ensures Advances(st(n), st(n + 1)) && NoWorse(st(n), st(n + 1))
  {
    assert StepsAt(st, sched, n);
    FinishAdvances(st(n), sched(n));
  }

  lemma FinishAdvances(s: System, a: Action)
    requires Inv(s) && Enabled(s, a) && a.Finish? && Undisturbed(a)
    requires a.exec in MayRetry(s) || s.live[a.exec].job in Unfinished(s)
    ensures Advances(s, Apply(s, a)) && NoWorse(s, Apply(s, a))
  {
    FinishIsNoWorse(s, a);
    if a.exec !in MayRetry(s) {
      LighterIsNoWorse(s, Apply(s, a));
    }
  }

  lemma ClaimsLeadOn(st: States, sched: Schedule, n: nat) returns (m: nat)
    requires FairlyUndisturbed(st, sched) && sched(n).Claim?
    ensures n <= m && Advances(st(n), st(m))
  {
    InvAt(st, sched, n);
    assert StepsAt(st, sched, n);
    ClaimIsNoWorse(st(n), sched(n));
    m := ExecutionsLeadOn(st, sched, n + 1, sched(n).exec);
    NoWorseLater(st, sched, n + 1, m);
    Together(st(n), st(n + 1), st(m));
  }

  lemma ClaimsLeadOnFrom(st: States, sched: Schedule, n: nat, k: nat) returns (m: nat)
    requires FairlyUndisturbed(st, sched) && n <= k && sched(k).Claim?
    ensures n <= m && Advances(st(n), st(m))
  {
    m := ClaimsLeadOn(st, sched, k);
    NoWorseLater(st, sched, n, k);
    NoWorseLater(st, sched, k, m);
    Together(st(n), st(k), st(m));
  }

  /** A job nobody executes waits as it is, or has its lapsed lease reclaimed. */
  predicate Waits(row: Row, row': Row) {
    row' == row || (row.state.Running? && row'.state.Queued? && row'.runAfter == row.runAfter)
  }

  lemma StepLetsWait(s: System, a: Action, id: JobId)
    requires Inv(s) && Enabled(s, a) && Undisturbed(a) && !a.Claim?
    requires Abandoned(s, id) && id in Unfinished(s)
    ensures Abandoned(Apply(s, a), id)
    ensures Advances(s, Apply(s, a)) || (id in Apply(s, a).table && Waits(s.table[id], Apply(s, a).table[id]))
  {
    AbandonedRowWaits(s, a, id);
    if id !in Apply(s, a).table || Apply(s, a).table[id].state.Terminal() {
      if !a.Finish? {
        OthersAreLighter(s, a);
        LighterIsNoWorse(s, Apply(s, a));
      }
    }
  }

  lemma AbandonedRowWaits(s: System, a: Action, id: JobId)
    requires Inv(s) && Enabled(s, a) && Undisturbed(a) && !a.Claim?
    requires Abandoned(s, id) && id in Unfinished(s)
    ensures Abandoned(Apply(s, a), id) && id in Apply(s, a).table
    ensures Waits(s.table[id], Apply(s, a).table[id]) || (a.Cancel? && Apply(s, a).table[id].state.Terminal())
  {
    if a.Charge? || a.Renew? || a.Progress? {
      ReportsSpareAbandoned(s, a, id);
    }
  }

  lemma ReportsSpareAbandoned(s: System, a: Action, id: JobId)
    requires Enabled(s, a) && (a.Charge? || a.Renew? || a.Progress?) && Abandoned(s, id) && id in s.table
    ensures Abandoned(Apply(s, a), id) && id in Apply(s, a).table && Apply(s, a).table[id] == s.table[id]
  {
  }

  lemma {:induction false} WaitsUntil(st: States, sched: Schedule, n: nat, m: nat, id: JobId)
    requires RunsUndisturbed(st, sched) && n <= m
    requires Abandoned(st(n), id) && id in Unfinished(st(n))
    requires forall k: nat | n <= k < m :: !sched(k).Claim?
    ensures Advances(st(n), st(m))
         || (Abandoned(st(m), id) && id in Unfinished(st(m))
             && Waits(st(n).table[id], st(m).table[id]))
  {
    if n < m {
      WaitsUntil(st, sched, n, m - 1, id);
      InvAt(st, sched, m - 1);
      assert StepsAt(st, sched, m - 1);
      NoWorseLater(st, sched, n, m - 1);
      StepIsNoWorse(st(m - 1), sched(m - 1));
      Together(st(n), st(m - 1), st(m));
      if !Advances(st(n), st(m - 1)) {
        StepLetsWait(st(m - 1), sched(m - 1), id);
      }
    }
  }

  /** A queued job comes due and a claim follows, if not of it then of another. */
  lemma QueuedJobsLeadOn(st: States, sched: Schedule, n: nat, id: JobId) returns (m: nat)
    requires FairlyUndisturbed(st, sched) && Abandoned(st(n), id)
    requires id in st(n).table && st(n).table[id].state.Queued?
    ensures n <= m && Advances(st(n), st(m))
  {
    var due := st(n).table[id].runAfter * MILLISECOND;
    assert ClockReaches(st, n, due);
    m :| n <= m && due <= st(m).clock;
    if k: nat :| n <= k < m && sched(k).Claim? {
      m := ClaimsLeadOnFrom(st, sched, n, k);
    } else {
      WaitsUntil(st, sched, n, m, id);
      if !Advances(st(n), st(m)) {
        MillisMonotone(due, st(m).clock);
        m := DueJobsLeadOn(st, sched, n, m, id);
      }
    }
  }

  /** A due job is claimed, or another is, or it is cancelled. */
  lemma DueJobsLeadOn(st: States, sched: Schedule, n: nat, ripe: nat, id: JobId) returns (m: nat)
    requires FairlyUndisturbed(st, sched) && Abandoned(st(n), id) && n <= ripe
    requires id in st(n).table && st(n).table[id].state.Queued?
    requires Runnable(st(ripe).table, id, Millis(st(ripe).clock)) && st(ripe).table[id] == st(n).table[id]
    ensures n <= m && Advances(st(n), st(m))
  {
    m :| ripe <= m && (sched(m).Claim? || !Runnable(st(m).table, id, Millis(st(m).clock)));
    if k: nat :| n <= k <= m && sched(k).Claim? {
      m := ClaimsLeadOnFrom(st, sched, n, k);
    } else {
      WaitsUntil(st, sched, n, m, id);
      ClockGoesOn(st, sched, ripe, m);
      MillisMonotone(st(ripe).clock, st(m).clock);
    }
  }

  /** A job whose worker is gone is reclaimed once its lease has lapsed. */
  lemma AbandonedJobsLeadOn(st: States, sched: Schedule, n: nat, id: JobId) returns (m: nat)
    requires FairlyUndisturbed(st, sched) && Abandoned(st(n), id)
    requires id in st(n).table && st(n).table[id].state.Running?
    ensures n <= m && Advances(st(n), st(m))
  {
    InvAt(st, sched, n);
    assert RowOk(st(n).table[id]);
    var lapse := (st(n).table[id].leaseUntil.value + 1) * MILLISECOND;
    assert ReclaimComes(sched, n, lapse);
    m :| n <= m && sched(m).Reclaim? && lapse <= sched(m).now;
    if k: nat :| n <= k < m && sched(k).Claim? {
      m := ClaimsLeadOnFrom(st, sched, n, k);
    } else {
      WaitsUntil(st, sched, n, m, id);
      if !Advances(st(n), st(m)) {
        MillisMonotone(lapse, sched(m).now);
        m := ReclaimLeadsOn(st, sched, n, m, id);
      }
    }
  }

  lemma ReclaimLeadsOn(st: States, sched: Schedule, n: nat, k: nat, id: JobId) returns (m: nat)
    requires FairlyUndisturbed(st, sched) && n <= k && sched(k).Reclaim?
    requires Abandoned(st(k), id) && id in st(k).table
    requires st(k).table[id].state.Queued? || Lapsed(st(k).table[id], Millis(sched(k).now))
    ensures n <= m && Advances(st(n), st(m))
  {
    assert StepsAt(st, sched, k);
    ReclaimRequeues(st(k), sched(k), id);
    m := QueuedJobsLeadOn(st, sched, k + 1, id);
    NoWorseLater(st, sched, n, k + 1);
    NoWorseLater(st, sched, k + 1, m);
    Together(st(n), st(k + 1), st(m));
  }

  lemma ReclaimRequeues(s: System, a: Action, id: JobId)
    requires Enabled(s, a) && a.Reclaim? && Abandoned(s, id) && id in s.table
    requires s.table[id].state.Queued? || Lapsed(s.table[id], Millis(a.now))
    ensures Abandoned(Apply(s, a), id) && id in Apply(s, a).table && Apply(s, a).table[id].state.Queued?
  {
  }

  lemma WorkLeadsOn(st: States, sched: Schedule, n: nat, id: JobId) returns (m: nat)
    requires FairlyUndisturbed(st, sched) && id in Unfinished(st(n))
    ensures n <= m && Advances(st(n), st(m))
  {
    if e :| e in st(n).live && st(n).live[e].job == id {
      m := ExecutionsLeadOn(st, sched, n, e);
    } else if st(n).table[id].state.Queued? {
      m := QueuedJobsLeadOn(st, sched, n, id);
    } else {
      m := AbandonedJobsLeadOn(st, sched, n, id);
    }
  }

  // ----- the end -----

  /** All jobs terminal and no execution left that could reopen one. */
  ghost predicate Settled(s: System) {
    AllTerminal(s.table) && forall e | e in s.live :: s.live[e].attempts >= s.live[e].maxAttempts
  }

  lemma {:induction false} EventuallySettled(st: States, sched: Schedule, n: nat) returns (m: nat)
    requires FairlyUndisturbed(st, sched)
    ensures n <= m && Settled(st(m))
    decreases Spare(st(n)), MayRetry(st(n)), Unfinished(st(n))
  {
    m := n;
    if id :| id in st(n).table && !st(n).table[id].state.Terminal() {
      m := WorkLeadsOn(st, sched, n, id);
      m := EventuallySettled(st, sched, m);
    } else if e :| e in st(n).live && st(n).live[e].attempts < st(n).live[e].maxAttempts {
      m := ExecutionsLeadOn(st, sched, n, e);
      m := EventuallySettled(st, sched, m);
    }
  }

  lemma SettledStays(s: System, a: Action)
    requires Inv(s) && Enabled(s, a) && Undisturbed(a) && Settled(s)
    ensures Settled(Apply(s, a)) && Apply(s, a).live.Keys <= s.live.Keys
    ensures a.Finish? ==> a.exec !in Apply(s, a).live
  {
    if a.Finish? {
      FinishIsNoWorse(s, a);
    } else {
      OthersAreLighter(s, a);
    }
  }

  lemma {:induction false} SettledLater(st: States, sched: Schedule, n: nat, m: nat)
    requires RunsUndisturbed(st, sched) && n <= m && Settled(st(n))
    ensures Settled(st(m)) && st(m).live.Keys <= st(n).live.Keys
    ensures n < m && sched(m - 1).Finish? ==> sched(m - 1).exec !in st(m).live
  {
    if n < m {
      SettledLater(st, sched, n, m - 1);
      InvAt(st, sched, m - 1);
      assert StepsAt(st, sched, m - 1);
      SettledStays(st(m - 1), sched(m - 1));
    }
  }

  lemma {:induction false} EventuallyIdle(st: States, sched: Schedule, n: nat) returns (m: nat)
    requires FairlyUndisturbed(st, sched) && Settled(st(n))
    ensures n <= m && Settled(st(m)) && st(m).live.Keys == {}
    decreases st(n).live.Keys
  {
    m := n;
    if e :| e in st(n).live {
      var last: nat :| n <= last && sched(last).Finish? && sched(last).exec == e;
      SettledLater(st, sched, n, last + 1);
      m := EventuallyIdle(st, sched, last + 1);
    }
  }

  /** Nothing runs, every job is terminal, and rows only ever leave by a purge. */
  ghost predicate AtRest(s: System, t: Table) {
    && AllTerminal(s.table) && s.live.Keys == {}
    && forall id | id in s.table :: id in t && s.table[id] == t[id]
  }

  lemma RestStays(s: System, a: Action, t: Table)
    requires Inv(s) && Enabled(s, a) && Undisturbed(a) && AtRest(s, t)
    ensures AtRest(Apply(s, a), t)
  {
  }

  lemma {:induction false} RestsFor(st: States, sched: Schedule, n: nat, m: nat)
    requires RunsUndisturbed(st, sched) && n <= m
    requires AllTerminal(st(n).table) && st(n).live.Keys == {}
    ensures AtRest(st(m), st(n).table)
  {
    if n < m {
      RestsFor(st, sched, n, m - 1);
      InvAt(st, sched, m - 1);
      assert StepsAt(st, sched, m - 1);
      RestStays(st(m - 1), sched(m - 1), st(n).table);
    }
  }

  /** From whatever state a run has reached, with any number of dead workers, stale
      executions and cancelled or requeued jobs, and however often leases lapse
      from then on: if no more workers die, shut down or jobs are added, handlers
      return, due work is polled for, reclaims keep coming and time passes, then
      from some point on every job is terminal, no worker is at work, and no row
      changes any more but to be purged. */
  lemma {:induction false} FairQueuesComeToRest(r: Run, st: States, sched: Schedule)
    requires IsRun(r) && st(0) == End(r) && Unfolds(st, sched) && (forall n: nat :: Undisturbed(sched(n)))
    requires Fair(st, sched) && ReclaimsCome(sched)
    ensures exists n: nat :: forall m: nat | n <= m :: AtRest(st(m), st(n).table)
  {
    RunsKeepInv(r);
    var n := EventuallySettled(st, sched, 0);
    n := EventuallyIdle(st, sched, n);
    forall m: nat | n <= m
      ensures AtRest(st(m), st(n).table)
    {
      RestsFor(st, sched, n, m);
    }
  }
}
