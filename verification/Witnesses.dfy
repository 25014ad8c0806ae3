/** Concrete runs showing that tempting stronger claims fail. */
module Witnesses {
  import opened Wrappers
  import opened Clock
  import opened JobRows
  import opened Protocol
  import opened ProtocolInvariant
  import opened Leases

  const JOB := 1
  const LEASE := 900 * SECOND

  const KEY := "convert:1"

  function Ask(maxAttempts: int, key: string): Request {
    Request("convert", "{}", 0, maxAttempts, key, None)
  }

  /** One job, enqueued and claimed at the given time. */
  function ClaimedAt(lease: int, now: int, maxAttempts: int, key: string): Run {
    Then(Then(Start(System(lease, map[], now, map[], map[])), Enqueue(JOB, Ask(maxAttempts, key), now)),
         Claim(0, JOB, "worker-0", now))
  }

  lemma ClaimedAtIsARun(lease: int, now: int, maxAttempts: int, key: string)
    requires 1 <= maxAttempts && 0 < lease
    ensures IsRun(ClaimedAt(lease, now, maxAttempts, key))
    ensures var s := End(ClaimedAt(lease, now, maxAttempts, key));
            && s.lease == lease && s.clock == now && s.live.Keys == {0} && s.history.Keys == {JOB}
            && s.live[0].job == JOB && s.live[0].attempts == 1 && s.live[0].maxAttempts == maxAttempts
            && s.live[0].renewed == now
            && s.table.Keys == {JOB} && s.table[JOB].state.Running? && s.table[JOB].attempts == 1
            && s.table[JOB].maxAttempts == maxAttempts && s.table[JOB].runAfter == Millis(now)
            && s.table[JOB].leaseUntil == Some(Millis(now + lease))
            && s.table[JOB].dedupeKey == (if key == "" then None else Some(key))
            && s.table[JOB].progress == 0.0
    ensures Events(ClaimedAt(lease, now, maxAttempts, key), JOB).reclaims == 0
  {
    var r := ClaimedAt(lease, now, maxAttempts, key);
    var before := r.before;
    var s := End(before);
    assert IsRun(before.before);
    assert IsRun(before);
    assert s.table == map[JOB := FreshRow(Ask(maxAttempts, key), Millis(now))];
    assert IsNext(s.table, JOB, Millis(now));
    assert Events(before.before, JOB) == NO_HISTORY;
    assert Events(before, JOB) == NO_HISTORY;
    assert Events(r, JOB) == Tally(NO_HISTORY, s, Claim(0, JOB, "worker-0", now), JOB);
  }

  /** The same at time zero with the lease of fifteen minutes. */
  function ClaimedOnce(maxAttempts: int, key: string): Run {
    ClaimedAt(LEASE, 0, maxAttempts, key)
  }

  lemma ClaimedOnceIsARun(maxAttempts: int, key: string)
    requires 1 <= maxAttempts
    ensures IsRun(ClaimedOnce(maxAttempts, key))
    ensures var s := End(ClaimedOnce(maxAttempts, key));
            && s.lease == LEASE && s.clock == 0 && s.live.Keys == {0} && s.history.Keys == {JOB}
            && s.live[0].job == JOB && s.live[0].attempts == 1 && s.live[0].maxAttempts == maxAttempts
            && s.table.Keys == {JOB} && s.table[JOB].state.Running? && s.table[JOB].attempts == 1
            && s.table[JOB].maxAttempts == maxAttempts && s.table[JOB].runAfter == 0
            && s.table[JOB].leaseUntil == Some(Millis(LEASE))
            && s.table[JOB].dedupeKey == (if key == "" then None else Some(key))
            && s.table[JOB].progress == 0.0
    ensures Events(ClaimedOnce(maxAttempts, key), JOB).reclaims == 0
  {
    ClaimedAtIsARun(LEASE, 0, maxAttempts, key);
  }

  /** Cancelling does not stop a worker, and its success overwrites the
      cancellation: Complete has no guard on the state. */
  lemma CancelledJobsCanSucceed()
    ensures var cancelled := Then(ClaimedOnce(3, ""), Cancel(JOB, 0));
            var finished := Then(cancelled, Finish(0, ReturnedNil, 0, 0));
            && IsRun(finished)
            && End(cancelled).table[JOB].state.Cancelled?
            && End(finished).table[JOB].state.Succeeded?
  {
    ClaimedOnceIsARun(3, "");
  }

  /** Neither claim nor reclaim compares attempts with the limit, so a lapsed
      lease takes a job with one permitted attempt to a second. It also leaves
      two executions of the job alive. */
  lemma {:induction false} ReclaimsExceedTheLimit()
    ensures var again := Then(LapsedOnce(), Claim(1, JOB, "worker-1", LEASE + MILLISECOND));
            && IsRun(again)
            && End(again).table[JOB].attempts == 2 > End(again).table[JOB].maxAttempts
            && End(again).live.Keys == {0, 1}
            && End(again).live[0].job == End(again).live[1].job
  {
    LapsedOnceIsARun();
    var t := End(LapsedOnce()).table;
    assert IsNext(t, JOB, Millis(LEASE + MILLISECOND));
  }

  /** The job's only permitted attempt outlasts its lease, which is reclaimed. */
  function LapsedOnce(): Run {
    Then(Then(ClaimedOnce(1, ""), Tick(LEASE + MILLISECOND)), Reclaim(LEASE + MILLISECOND))
  }

  lemma LapsedOnceIsARun()
    ensures IsRun(LapsedOnce())
    ensures var s := End(LapsedOnce());
            && s.clock == LEASE + MILLISECOND && s.live == End(ClaimedOnce(1, "")).live
            && s.live.Keys == {0} && s.live[0].job == JOB
            && s.table.Keys == {JOB} && s.table[JOB].state.Queued? && s.table[JOB].attempts == 1
            && s.table[JOB].maxAttempts == 1 && s.table[JOB].runAfter == 0
            && s.table[JOB].dedupeKey == None && s.table[JOB].progress == 0.0
  {
    ClaimedOnceIsARun(1, "");
    assert IsRun(LapsedOnce().before);
  }

  // ----- how late a renewal may be -----

  /** A job claimed just before a millisecond turns lapses one nanosecond after a
      whole lease. */
  lemma LeasesLapseAtOnce(lease: int)
    requires 0 < lease
    ensures var now := -1 - lease;
            var late := Then(ClaimedAt(lease, now, 1, ""), Tick(0));
            && IsRun(late) && End(late).lease == lease && RenewedWithin(late, lease + 1)
            && End(late).clock == 0 && 0 in End(late).live && End(late).live[0].job == JOB
            && JOB in LapsedIds(End(late).table, Millis(0))
  {
    var claimed := ClaimedAt(lease, -1 - lease, 1, "");
    ClaimedAtIsARun(lease, -1 - lease, 1, "");
    assert End(claimed.before).live == map[] && End(claimed.before.before).live == map[];
    assert RenewedWithin(claimed.before, lease + 1);
    assert Millis(-1) < Millis(0);
  }

  /** Workers renew every third of a lease. Renewals may be late by the other two
      thirds, and by no more: exactly then no reclaim can take a live worker's job. */
  lemma RenewalsMayBeThisLate(lease: int, late: int)
    requires 0 < lease && 0 <= late
    ensures late <= lease - lease / 3
       <==> forall r, e, now ::
              IsRun(r) && End(r).lease == lease && RenewedWithin(r, lease / 3 + late) && now <= End(r).clock
              && e in End(r).live && End(r).live[e].job in End(r).table
              ==> End(r).live[e].job !in LapsedIds(End(r).table, Millis(now))
  {
    if late <= lease - lease / 3 {
      forall r, e, now |
        IsRun(r) && End(r).lease == lease && RenewedWithin(r, lease / 3 + late) && now <= End(r).clock
        && e in End(r).live && End(r).live[e].job in End(r).table
        ensures End(r).live[e].job !in LapsedIds(End(r).table, Millis(now))
      {
        PromptRunsAreTimely(r, lease / 3 + late);
        LiveWorkersKeepTheirJobs(r, now);
      }
    } else {
      var r := Then(ClaimedAt(lease, -1 - lease, 1, ""), Tick(0));
      LeasesLapseAtOnce(lease);
      WiderGapsHold(r, lease + 1, lease / 3 + late);
    }
  }

  lemma {:induction false} WiderGapsHold(r: Run, gap: int, wider: int)
    requires RenewedWithin(r, gap) && gap <= wider
    ensures RenewedWithin(r, wider)
  {
    if r.Then? {
      WiderGapsHold(r.before, gap, wider);
    }
  }

  // ----- the attempt budget is exact -----

  const LATE := LEASE + MILLISECOND

  /** The only job, `n` times claimed, in the given state and due. */
  ghost predicate Lone(s: System, maxAttempts: nat, n: nat, state: State) {
    && s.lease == LEASE && s.table.Keys == {JOB} && JOB in s.history
    && (forall e | e in s.live :: e < n)
    && (var row := s.table[JOB];
        && row.state == state && row.attempts == n && row.maxAttempts == maxAttempts
        && row.runAfter <= Millis(s.clock) && row.dedupeKey == None && row.progress == 0.0)
  }

  /** Just claimed for the n-th time, by execution n - 1. */
  ghost predicate AtClaim(s: System, maxAttempts: nat, n: nat) {
    && Lone(s, maxAttempts, n, Running)
    && n - 1 in s.live && s.live[n - 1].job == JOB
    && s.live[n - 1].attempts == n && s.live[n - 1].maxAttempts == maxAttempts
    && s.table[JOB].leaseUntil == Some(Millis(s.clock + LEASE))
  }

  lemma {:induction false} ClaimAgain(r: Run, maxAttempts: nat, n: nat) returns (next: Run)
    requires IsRun(r) && Lone(End(r), maxAttempts, n, Queued)
    ensures IsRun(next) && AtClaim(End(next), maxAttempts, n + 1)
    ensures Events(next, JOB).reclaims == Events(r, JOB).reclaims
  {
    var s := End(r);
    assert IsNext(s.table, JOB, Millis(s.clock));
    next := Then(r, Claim(n, JOB, "worker-0", s.clock));
  }

  lemma {:induction false} FailOnce(r: Run, maxAttempts: nat, n: nat) returns (next: Run)
    requires IsRun(r) && 1 <= n < maxAttempts && AtClaim(End(r), maxAttempts, n)
    ensures IsRun(next) && Lone(End(next), maxAttempts, n, Queued)
    ensures Events(next, JOB).reclaims == Events(r, JOB).reclaims
  {
    next := Then(r, Finish(n - 1, ReturnedError("unreadable page"), End(r).clock, 0));
  }

  lemma {:induction false} WaitOutLease(r: Run, maxAttempts: nat, n: nat) returns (next: Run)
    requires IsRun(r) && 1 <= n && AtClaim(End(r), maxAttempts, n)
    ensures IsRun(next) && Lone(End(next), maxAttempts, n, Running)
    ensures Lapsed(End(next).table[JOB], Millis(End(next).clock))
    ensures Events(next, JOB).reclaims == Events(r, JOB).reclaims
  {
    var now := End(r).clock + LATE;
    assert Millis(now) == Millis(End(r).clock + LEASE) + 1;
    next := Then(r, Tick(now));
  }

  lemma ReclaimOnce(r: Run, maxAttempts: nat, n: nat) returns (next: Run)
    requires IsRun(r) && Lone(End(r), maxAttempts, n, Running)
    requires Lapsed(End(r).table[JOB], Millis(End(r).clock))
    ensures IsRun(next) && Lone(End(next), maxAttempts, n, Queued)
    ensures Events(next, JOB).reclaims == Events(r, JOB).reclaims + 1
  {
    next := Then(r, Reclaim(End(r).clock));
  }

  /** A run in which the job is claimed `n` times and never succeeds: up to the
      limit each failure is retried, after it each lease is left to lapse. */
  lemma {:induction false} ClaimedOften(maxAttempts: nat, n: nat) returns (r: Run)
    requires 1 <= maxAttempts && 1 <= n
    ensures IsRun(r) && AtClaim(End(r), maxAttempts, n)
    ensures Events(r, JOB).reclaims == if n <= maxAttempts then 0 else n - maxAttempts
  {
    if n == 1 {
      ClaimedOnceIsARun(maxAttempts, "");
      r := ClaimedOnce(maxAttempts, "");
    } else {
      r := ClaimedOften(maxAttempts, n - 1);
      r := ClaimedOnceMore(r, maxAttempts, n - 1);
    }
  }

  lemma {:induction false} ClaimedOnceMore(before: Run, maxAttempts: nat, n: nat) returns (r: Run)
    requires 1 <= maxAttempts && 1 <= n && IsRun(before) && AtClaim(End(before), maxAttempts, n)
    ensures IsRun(r) && AtClaim(End(r), maxAttempts, n + 1)
    ensures Events(r, JOB).reclaims == Events(before, JOB).reclaims + (if n < maxAttempts then 0 else 1)
  {
    if n < maxAttempts {
      r := FailOnce(before, maxAttempts, n);
    } else {
      r := WaitOutLease(before, maxAttempts, n);
      r := ReclaimOnce(r, maxAttempts, n);
    }
    r := ClaimAgain(r, maxAttempts, n);
  }

  /** The bound on attempts cannot be lowered: for every limit and every number of
      reclaims there is a run in which a job is attempted exactly that often. */
  lemma TheBudgetIsExact(maxAttempts: nat, reclaims: nat)
    requires 1 <= maxAttempts
    ensures exists r :: IsRun(r) && JOB in End(r).table && End(r).table[JOB].maxAttempts == maxAttempts
                     && Events(r, JOB).reclaims == reclaims
                     && End(r).table[JOB].attempts == maxAttempts + reclaims
  {
    var r := ClaimedOften(maxAttempts, maxAttempts + reclaims);
  }
}
