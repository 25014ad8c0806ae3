/** What a job keeps for life, and how it can leave a terminal state. */
module Lifecycle {
  import opened Wrappers
  import opened Clock
  import opened JobRows
  import opened Protocol
  import opened ProtocolInvariant
  import opened Leases
  import opened Dedupe

  /** No execution of the job is alive. */
  ghost predicate Abandoned(s: System, id: JobId) {
    forall e | e in s.live :: s.live[e].job != id
  }

  // ----- lasting properties of a row -----

  predicate SameJob(row: Row, later: Row) {
    && later.kind == row.kind && later.payload == row.payload && later.priority == row.priority
    && later.maxAttempts == row.maxAttempts && later.dedupeKey == row.dedupeKey
    && (row.startedAt.Some? ==> later.startedAt == row.startedAt)
  }

  lemma StepKeepsIdentity(s: System, a: Action, id: JobId)
    requires Inv(s) && Enabled(s, a) && id in s.history
    ensures id in Apply(s, a).history
    ensures id in Apply(s, a).table ==> id in s.table && SameJob(s.table[id], Apply(s, a).table[id])
  {
    if a.Finish? {
      FinishKeepsIdentity(s, a, id);
    } else if a.Renew? || a.Progress? || a.Charge? {
      ReportKeepsIdentity(s, a, id);
    }
  }

  lemma FinishKeepsIdentity(s: System, a: Action, id: JobId)
    requires Enabled(s, a) && a.Finish? && id in s.history
    ensures id in Apply(s, a).history
    ensures id in Apply(s, a).table ==> id in s.table && SameJob(s.table[id], Apply(s, a).table[id])
  {
  }

  lemma ReportKeepsIdentity(s: System, a: Action, id: JobId)
    requires Enabled(s, a) && (a.Renew? || a.Progress? || a.Charge?) && id in s.history
    ensures id in Apply(s, a).history
    ensures id in Apply(s, a).table ==> id in s.table && SameJob(s.table[id], Apply(s, a).table[id])
  {
  }

  /** A row, once inserted, keeps its identity, its limit, its key and its first
      start time until it is purged, and a purged id never comes back. */
  lemma {:induction false} JobsKeepTheirIdentity(r: Run, later: Run, id: JobId)
    requires IsRun(later) && IsRun(r) && Extends(later, r) && id in End(r).history
    ensures id in End(later).history
    ensures id in End(later).table ==> id in End(r).table && SameJob(End(r).table[id], End(later).table[id])
  {
    if later != r {
      JobsKeepTheirIdentity(r, later.before, id);
      RunsKeepInv(later.before);
      StepKeepsIdentity(End(later.before), later.action, id);
    }
  }

  // ----- leaving a terminal state -----

  /** The action ends an execution of `id` with something other than a release. */
  predicate Overwrites(s: System, a: Action, id: JobId) {
    a.Finish? && a.exec in s.live && s.live[a.exec].job == id && !a.result.Interrupted?
  }

  lemma TerminalRowsYieldOnlyToExecutors(s: System, a: Action, id: JobId)
    requires Inv(s) && Enabled(s, a) && id in s.table && s.table[id].state.Terminal()
    ensures id !in Apply(s, a).table ==> a.Purge? && Purgeable(s.table[id], a.cutoff)
    ensures id in Apply(s, a).table && Apply(s, a).table[id].state != s.table[id].state ==> Overwrites(s, a, id)
  {
    if a.Finish? {
      FinishYieldsOnlyToExecutors(s, a, id);
    } else if a.Renew? || a.Progress? || a.Charge? {
      ReportsLeaveTerminalRows(s, a, id);
    }
  }

  lemma FinishYieldsOnlyToExecutors(s: System, a: Action, id: JobId)
    requires Enabled(s, a) && a.Finish? && id in s.table && s.table[id].state.Terminal()
    ensures id in Apply(s, a).table
    ensures Apply(s, a).table[id].state != s.table[id].state ==> Overwrites(s, a, id)
  {
  }

  lemma ReportsLeaveTerminalRows(s: System, a: Action, id: JobId)
    requires Enabled(s, a) && (a.Renew? || a.Progress? || a.Charge?) && id in s.table
    ensures id in Apply(s, a).table && Apply(s, a).table[id].state == s.table[id].state
  {
  }

  lemma AbandonedTerminalRowsRest(s: System, a: Action, id: JobId)
    requires Inv(s) && Enabled(s, a) && id in s.history && Abandoned(s, id)
    requires id in s.table ==> s.table[id].state.Terminal()
    ensures Abandoned(Apply(s, a), id)
    ensures id in Apply(s, a).table ==> id in s.table && Apply(s, a).table[id] == s.table[id]
  {
  }

  /** A terminal job with no executor left is final: in every continuation its row
      is exactly as it was, or has been purged. */
  lemma {:induction false} TerminalIsFinal(r: Run, later: Run, id: JobId)
    requires IsRun(r) && IsRun(later) && Extends(later, r)
    requires id in End(r).table && End(r).table[id].state.Terminal() && Abandoned(End(r), id)
    ensures Abandoned(End(later), id) && id in End(later).history
    ensures id in End(later).table ==> End(later).table[id] == End(r).table[id]
  {
    RunsKeepInv(r);
    if later != r {
      TerminalIsFinal(r, later.before, id);
      RunsKeepInv(later.before);
      AbandonedTerminalRowsRest(End(later.before), later.action, id);
      JobsKeepTheirIdentity(r, later, id);
    }
  }

  /** In a timely run a terminal row, a cancelled one included, changes state only
      when the one executor the job has reports its outcome. */
  lemma OnlyTheExecutorOverwrites(r: Run, a: Action, id: JobId)
    requires IsRun(Then(r, a)) && AlwaysTimely(r)
    requires id in End(r).table && End(r).table[id].state.Terminal()
    requires id in Apply(End(r), a).table && Apply(End(r), a).table[id].state != End(r).table[id].state
    ensures Overwrites(End(r), a, id)
    ensures forall e | e in End(r).live && End(r).live[e].job == id :: e == a.exec
  {
    RunsKeepInv(r);
    TerminalRowsYieldOnlyToExecutors(End(r), a, id);
    LiveWorkersKeepTheirJobs(r, End(r).clock);
  }

  /** Exactly when a cancellation outlives the worker it did not stop: the outcome
      is a release, or a retry that the dedupe index refuses. */
  lemma CancellationSurvivesIff(s: System, e: ExecId, result: HandlerResult, now: int, delay: int)
    requires Inv(s) && Enabled(s, Finish(e, result, now, delay))
    requires s.live[e].job in s.table && s.table[s.live[e].job].state.Cancelled?
    ensures var x := s.live[e];
            var row := s.table[x.job];
            x.job in Apply(s, Finish(e, result, now, delay)).table
            && (Apply(s, Finish(e, result, now, delay)).table[x.job].state.Cancelled?
                <==> || result.Interrupted?
                     || (result.ReturnedError? && x.attempts < x.maxAttempts && row.dedupeKey.Some?
                         && exists holder :: holder != x.job && Holds(s.table, holder, row.dedupeKey.value)))
  {
    var x := s.live[e];
    match Settle(result, x.kind, x.attempts, x.maxAttempts)
    case Retry(cause) => RetryIsRefusedIff(s.table, x.job, cause, Millis(now + delay), Millis(now));
    case _ =>
  }

  /** A progress report never fails, and lands exactly on running rows: on any other
      it is dropped in silence, so a handler does not learn of a cancellation. */
  lemma {:induction false} ProgressLandsIffRunning(r: Run, id: JobId, fraction: real, note: string, now: int)
    requires IsRun(r) && id in End(r).table
    ensures var t := End(r).table;
            var w := UpdateJobProgress(t, id, Clamp(fraction), note, now);
            var clamped := if fraction < 0.0 then 0.0 else if fraction > 1.0 then 1.0 else fraction;
            && w.Ok?
            && w.value == if t[id].state.Running?
                          then t[id := t[id].(progress := clamped, note := note, updatedAt := now)]
                          else t
  {
    RunsKeepInv(r);
    if End(r).table[id].state.Running? {
      PendingRowsRewriteFreely(End(r).table, id,
        End(r).table[id].(progress := Clamp(fraction), note := note, updatedAt := now));
    }
  }

  /** A running job was due when it was claimed, and has been ever since. */
  ghost predicate RunningIsDue(s: System) {
    forall id | id in s.table && s.table[id].state.Running? :: s.table[id].runAfter <= Millis(s.clock)
  }

  lemma StepKeepsDue(s: System, a: Action)
    requires RunningIsDue(s) && Enabled(s, a)
    ensures RunningIsDue(Apply(s, a))
  {
  }

  lemma {:induction false} RunningJobsAreDue(r: Run)
    requires IsRun(r)
    ensures RunningIsDue(End(r))
  {
    if r.Then? {
      RunningJobsAreDue(r.before);
      StepKeepsDue(End(r.before), r.action);
    }
  }

  /** Back in the queue, a job comes due exactly when it should: after a failure
      once the backoff has passed, after a release or a lapsed lease at once. */
  lemma RequeuedJobsComeDue(r: Run, a: Action, id: JobId, at: int)
    requires IsRun(Then(r, a)) && (a.Finish? || a.Reclaim?)
    requires id in End(r).table && id in Apply(End(r), a).table
    requires Apply(End(r), a).table[id].state.Queued? && !End(r).table[id].state.Queued?
    ensures a.Finish? && a.result.ReturnedError? ==>
              && Apply(End(r), a).table[id].lastError == a.result.cause
              && (Runnable(Apply(End(r), a).table, id, at) <==> Millis(a.now + a.delay) <= at)
    ensures a.Finish? && a.result.Interrupted? ==>
              && Apply(End(r), a).table[id].attempts == End(r).table[id].attempts - 1
              && (Runnable(Apply(End(r), a).table, id, at) <==> Millis(a.now) <= at)
    ensures a.Finish? ==> a.result.ReturnedError? || a.result.Interrupted?
    ensures a.Reclaim? ==>
              && Apply(End(r), a).table[id].attempts == End(r).table[id].attempts
              && Apply(End(r), a).table[id].runAfter == End(r).table[id].runAfter
              && Runnable(Apply(End(r), a).table, id, Millis(End(r).clock))
  {
    RunsKeepInv(r);
    RunningJobsAreDue(r);
    if a.Reclaim? {
      ReclaimedRowIsDue(End(r), a.now, id);
    } else {
      FinishedRowComesDue(End(r), a.exec, a.result, a.now, a.delay, id);
    }
  }

  lemma ReclaimedRowIsDue(s: System, now: int, id: JobId)
    requires RunningIsDue(s) && now <= s.clock && id in s.table && !s.table[id].state.Queued?
    requires Apply(s, Reclaim(now)).table[id].state.Queued?
    ensures Apply(s, Reclaim(now)).table[id] == Reclaimed(s.table[id], Millis(now))
    ensures Runnable(Apply(s, Reclaim(now)).table, id, Millis(s.clock))
  {
  }

  lemma FinishedRowComesDue(s: System, e: ExecId, result: HandlerResult, now: int, delay: int, id: JobId)
    requires TableOk(s.table) && e in s.live && id in s.table && !s.table[id].state.Queued?
    requires id in AfterFinish(s, e, result, now, delay).table
    requires AfterFinish(s, e, result, now, delay).table[id].state.Queued?
    ensures var row, row' := s.table[id], AfterFinish(s, e, result, now, delay).table[id];
            match result
            case ReturnedError(cause) => row'.lastError == cause && row'.runAfter == Millis(now + delay)
            case Interrupted => row'.attempts == row.attempts - 1 && row'.runAfter == Millis(now)
            case _ => false
  {
  }

  /** The clock reading an action carries. */
  function Reading(s: System, a: Action): int {
    if a.Enqueue? || a.Claim? || a.Renew? || a.Progress? || a.Charge? || a.Finish? || a.Cancel? || a.Reclaim?
    then a.now else s.clock
  }

  /** Every write stamps the row it changes with the writer's clock, and no row
      changes otherwise. */
  lemma WritesAreStamped(s: System, a: Action, id: JobId)
    requires Inv(s) && Enabled(s, a) && id in Apply(s, a).table
    ensures (id in s.table && Apply(s, a).table[id] == s.table[id])
         || Apply(s, a).table[id].updatedAt == Millis(Reading(s, a))
  {
  }

  // ----- what is recorded -----

  /** What an execution's end leaves in its row, for every result: the attempt count
      decides by what was copied at claim time; the cause is kept; everything not
      named stays. A retry may be refused, and a release finds only a running row. */
  lemma OutcomesAreRecorded(s: System, e: ExecId, result: HandlerResult, now: int, delay: int)
    requires Inv(s) && Enabled(s, Finish(e, result, now, delay)) && s.live[e].job in s.table
    ensures var x, t' := s.live[e], Apply(s, Finish(e, result, now, delay)).table;
            && x.job in t'
            && var row, row' := s.table[x.job], t'[x.job];
               var freed := row.(leaseUntil := None, worker := "", updatedAt := Millis(now));
               match result
               case ReturnedNil =>
                 row' == freed.(state := Succeeded, progress := 1.0, note := x.note, finishedAt := Some(Millis(now)))
               case NoHandler =>
                 row' == freed.(state := Failed, lastError := "no handler registered for job kind: " + x.kind,
                                finishedAt := Some(Millis(now)))
               case Interrupted =>
                 row' == if row.state.Running?
                         then freed.(state := Queued, attempts := row.attempts - 1, runAfter := Millis(now)) else row
               case ReturnedError(cause) =>
                 if x.attempts >= x.maxAttempts
                 then row' == freed.(state := Failed, lastError := cause, finishedAt := Some(Millis(now)))
                 else if KeyIsTaken(s.table, x.job) then row' == row
                 else row' == freed.(state := Queued, lastError := cause, runAfter := Millis(now + delay))
  {
    var x := s.live[e];
    var row := s.table[x.job];
    assert RowOk(row);
    if result.Interrupted? && row.state.Running? {
      PendingRowsRewriteFreely(s.table, x.job, Released(row, Millis(now)));
    } else if result.ReturnedError? && x.attempts < x.maxAttempts {
      RetryIsRefusedIff(s.table, x.job, result.cause, Millis(now + delay), Millis(now));
    }
  }

  /** The job has left the pending states and another pending one has its key. */
  ghost predicate KeyIsTaken(t: Table, id: JobId)
    requires id in t
  {
    && !t[id].state.Pending() && t[id].dedupeKey.Some?
    && exists holder :: holder != id && Holds(t, holder, t[id].dedupeKey.value)
  }

  /** What heartbeats, usage reports, cancellations and reclaims leave in a row. */
  lemma OtherWritesAreRecorded(s: System, a: Action, id: JobId)
    requires Inv(s) && Enabled(s, a) && id in s.table
    requires a.Renew? || a.Charge? || a.Cancel? || a.Reclaim?
    ensures id in Apply(s, a).table
    ensures var row, row' := s.table[id], Apply(s, a).table[id];
            var stopped := row.(leaseUntil := None, worker := "", updatedAt := Millis(a.now));
            match a
            case Renew(e, now) =>
              row' == if s.live[e].job == id && row.state.Running?
                      then row.(leaseUntil := Some(Millis(now + s.lease)), updatedAt := Millis(now)) else row
            case Charge(e, delta, now) =>
              row' == if s.live[e].job == id
                      then row.(usage := Usage(row.usage.tokensIn + delta.tokensIn,
                                               row.usage.tokensOut + delta.tokensOut,
                                               row.usage.costMicros + delta.costMicros),
                                updatedAt := Millis(now)) else row
            case Cancel(cancelled, now) =>
              row' == if cancelled == id && (row.state.Queued? || row.state.Running?)
                      then stopped.(state := Cancelled, finishedAt := Some(Millis(now))) else row
            case Reclaim(now) =>
              row' == if row.state.Running? && row.leaseUntil.Some? && row.leaseUntil.value < Millis(now)
                      then stopped.(state := Queued, lastError := "worker lease expired; job reclaimed") else row
            case _ => true
  {
    if a.Charge? {
      ChargeIsAccepted(s.table, id, a.delta, Millis(a.now));
    } else if a.Renew? && s.live[a.exec].job == id {
      PendingOrIdle(s.table, id, s.table[id].(leaseUntil := Some(Millis(a.now + s.lease)), updatedAt := Millis(a.now)));
    } else if a.Cancel? {
      PendingOrIdle(s.table, id, s.table[id].(state := Cancelled, leaseUntil := None, worker := "",
                                              finishedAt := Some(Millis(a.now)), updatedAt := Millis(a.now)));
    }
  }

  lemma PendingOrIdle(t: Table, id: JobId, row: Row)
    requires TableOk(t) && id in t && row.dedupeKey == t[id].dedupeKey && 0.0 <= row.progress <= 1.0
    ensures t[id].state.Pending() ==> Write(t, id, row) == Ok(t[id := row])
  {
    if t[id].state.Pending() {
      PendingRowsRewriteFreely(t, id, row);
    }
  }

  /** What a claim leaves in its row. */
  lemma ClaimsAreRecorded(s: System, e: ExecId, id: JobId, worker: string, now: int)
    requires Inv(s) && Enabled(s, Claim(e, id, worker, now))
    ensures var s' := Apply(s, Claim(e, id, worker, now));
            && id in s'.table && e in s'.live
            && s'.table[id] == s.table[id].(state := Running, worker := worker, attempts := s.table[id].attempts + 1,
                                            leaseUntil := Some(Millis(now + s.lease)), updatedAt := Millis(now),
                                            startedAt := s'.table[id].startedAt)
            && s'.table[id].startedAt
               == (if s.table[id].startedAt.Some? then s.table[id].startedAt else Some(Millis(now)))
            && s'.live[e].job == id && s'.live[e].kind == s.table[id].kind
            && s'.live[e].attempts == s.table[id].attempts + 1 && s'.live[e].maxAttempts == s.table[id].maxAttempts
            && s'.live[e].note == s.table[id].note && s'.live[e].usage == s.table[id].usage && s'.live[e].renewed == now
  {
    PendingRowsRewriteFreely(s.table, id, Claimed(s.table[id], worker, Millis(now + s.lease), Millis(now)));
  }

  /** Whatever ends a job, its row is dated with the reading of whoever ended it; so a
      purge takes exactly the jobs ended before its cutoff. */
  lemma EndedJobsAreDated(s: System, a: Action, id: JobId)
    requires Inv(s) && Enabled(s, a) && id in s.table && id in Apply(s, a).table
    requires Apply(s, a).table[id].state.Terminal() && Apply(s, a).table[id].state != s.table[id].state
    ensures Apply(s, a).table[id].finishedAt == Some(Millis(Reading(s, a)))
    ensures a.Finish? || (a.Cancel? && a.id == id && Apply(s, a).table[id].state.Cancelled?)
  {
    if a.Charge? || a.Renew? || a.Progress? {
      ReportsLeaveTerminalRows(s, a, id);
    }
  }

  // ----- Enqueue against everyone else -----

  /** Enqueue inserts into one table and, if its key is held, looks the holder up in
      a later one. It fails exactly when the job that held the key at the insert was
      no longer pending at the lookup and no other job had taken the key since;
      otherwise it yields the new job, or one that holds the key. */
  lemma EnqueueFailsIff(r: Run, later: Run, id: JobId, request: Request, now: int, found: Option<JobId>)
    requires IsRun(r) && IsRun(later) && Extends(later, r) && id !in End(r).table
    requires FindsPending(End(later).table, request.dedupeKey, found)
    ensures var t, t', key := End(r).table, End(later).table, request.dedupeKey;
            var outcome := EnqueueOutcome(t, id, request, now, found);
            && (outcome.Refused? <==>
                  && key != ""
                  && (exists holder :: Holds(t, holder, key) && (holder in t' ==> t'[holder].state.Terminal()))
                  && (forall other :: !Holds(t', other, key)))
            && (outcome.Added? <==> key == "" || forall holder :: !Holds(t, holder, key))
            && (outcome.AlreadyQueued? ==> Holds(t', outcome.existing, key))
  {
    var t, t', key := End(r).table, End(later).table, request.dedupeKey;
    EnqueueIsRefusedIff(t, id, request, now);
    RunsKeepInv(r);
    forall holder | Holds(t, holder, key)
      ensures Holds(t', holder, key) || holder !in t' || t'[holder].state.Terminal()
    {
      JobsKeepTheirIdentity(r, later, holder);
    }
  }
}
