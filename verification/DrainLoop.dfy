/** One worker's loop, run until the batch is done: which state each job ends in
    depends only on what its handler returns, not on the order of the work. */
module DrainLoop {
  import opened Wrappers
  import opened Clock
  import opened JobRows
  import opened Protocol
  import opened Worker
  import opened Drain
  import opened ClaimOrder
  import P = ProtocolInvariant

  /** What a handler does with one attempt: what it reports, then what it returns. */
  datatype Attempt = Attempt(reports: seq<Report>, result: HandlerResult)

  /** What the handler does with the n-th attempt of a job. */
  type Handlers = (JobId, int) -> Attempt

  /** Nobody shuts the pool down, and a missing handler reports nothing. */
  ghost predicate NeverInterrupted(h: Handlers) {
    forall id, n :: !h(id, n).result.Interrupted? && (h(id, n).result.NoHandler? ==> h(id, n).reports == [])
  }

  datatype Fate = Fate(state: State, attempts: int)

  /** The first attempt after `done` that is decisive: nil succeeds, a missing
      handler fails, and so does an error once the limit is reached. */
  function FateOf(h: Handlers, id: JobId, done: int, maxAttempts: int): (f: Fate)
    requires done < maxAttempts
    ensures done < f.attempts <= maxAttempts && f.state.Terminal()
    ensures f.state.Failed? ==> f.attempts == maxAttempts || h(id, f.attempts).result.NoHandler?
    decreases maxAttempts - done
  {
    var n := done + 1;
    match h(id, n).result
    case ReturnedNil => Fate(Succeeded, n)
    case NoHandler => Fate(Failed, n)
    case _ => if n >= maxAttempts then Fate(Failed, n) else FateOf(h, id, n, maxAttempts)
  }

  /** A job fated to succeed is exactly one for which some permitted attempt returns
      nil with only errors before it. */
  lemma {:induction false} FatedToSucceedIff(h: Handlers, id: JobId, done: int, maxAttempts: int)
    requires done < maxAttempts && NeverInterrupted(h)
    ensures FateOf(h, id, done, maxAttempts).state == Succeeded
       <==> exists n :: done < n <= maxAttempts && h(id, n).result.ReturnedNil?
                     && forall k | done < k < n :: h(id, k).result.ReturnedError?
    decreases maxAttempts - done
  {
    var n := done + 1;
    if h(id, n).result.ReturnedNil? {
      assert forall k | done < k < n :: h(id, k).result.ReturnedError?;
    } else if h(id, n).result.ReturnedError? && n < maxAttempts {
      FatedToSucceedIff(h, id, n, maxAttempts);
      if m :| && n < m <= maxAttempts && h(id, m).result.ReturnedNil?
              && forall k | n < k < m :: h(id, k).result.ReturnedError? {
        assert forall k | done < k < m :: h(id, k).result.ReturnedError?;
      }
    }
  }

  /** Rows of a batch at rest between executions: each on course for its fate. */
  ghost predicate OnCourse(h: Handlers, id: JobId, row: Row) {
    && 1 <= row.maxAttempts
    && (row.state.Queued? || row.state.Terminal())
    && (row.state.Queued? ==>
          0 <= row.attempts < row.maxAttempts
          && FateOf(h, id, row.attempts, row.maxAttempts) == FateOf(h, id, 0, row.maxAttempts))
    && (row.state.Terminal() ==> Fate(row.state, row.attempts) == FateOf(h, id, 0, row.maxAttempts))
  }

  ghost predicate BatchOnCourse(h: Handlers, t: Table) {
    TableOk(t) && forall id | id in t :: OnCourse(h, id, t[id])
  }

  /** A worker that has just claimed a job. */
  function JustClaimed(t: Table, id: JobId, worker: string, leaseUntil: int, now: int): Worked
    requires id in t
  {
    var claimed := Commit(t, ClaimJob(t, id, worker, leaseUntil, Millis(now)));
    Worked(claimed, FromRow(id, if id in claimed then claimed[id] else t[id]), [])
  }

  /** Claiming a job, running its handler, and settling what that returned. */
  function Executed(h: Handlers, t: Table, id: JobId, worker: string, leaseUntil: int, now: int, delay: int): Table
    requires id in t
  {
    var w := JustClaimed(t, id, worker, leaseUntil, now);
    AfterExecute(w, h(id, w.copy.attempts).reports, h(id, w.copy.attempts).result, now, delay).table
  }

  lemma ExecutionStaysOnCourse(
      h: Handlers, t: Table, id: JobId, worker: string, leaseUntil: int, now: int, delay: int)
    requires BatchOnCourse(h, t) && NeverInterrupted(h) && IsNext(t, id, Millis(now)) && worker != ""
    ensures var t' := Executed(h, t, id, worker, leaseUntil, now, delay);
            && BatchOnCourse(h, t') && t'.Keys == t.Keys
            && t'[id].attempts == t[id].attempts + 1
            && (forall other | other in t :: t'[other].maxAttempts == t[other].maxAttempts)
            && (forall other | other in t && other != id :: t'[other] == t[other])
            && t'[id].runAfter <= (if t[id].runAfter < Millis(now + delay) then Millis(now + delay) else t[id].runAfter)
  {
    var w := JustClaimed(t, id, worker, leaseUntil, now);
    ClaimingGetsUnderWay(h, t, id, worker, leaseUntil, now);
    HandlingStaysOnCourse(h, w, now, delay);
  }

  /** Running the handler of a claimed job and settling what it returned. */
  lemma HandlingStaysOnCourse(h: Handlers, w: Worked, now: int, delay: int)
    requires TableOk(w.table) && NeverInterrupted(h) && w.copy.id in w.table
    requires w.copy == FromRow(w.copy.id, w.table[w.copy.id]) && UnderWay(h, w.copy.id, w.table[w.copy.id])
    ensures var id, attempt := w.copy.id, h(w.copy.id, w.copy.attempts);
            var t' := AfterExecute(w, attempt.reports, attempt.result, now, delay).table;
            && TableOk(t') && t'.Keys == w.table.Keys && OnCourse(h, id, t'[id])
            && (forall other | other in w.table && other != id :: t'[other] == w.table[other])
            && t'[id].attempts == w.table[id].attempts && t'[id].maxAttempts == w.table[id].maxAttempts
            && (t'[id].runAfter == w.table[id].runAfter || t'[id].runAfter == Millis(now + delay))
  {
    var id, attempt := w.copy.id, h(w.copy.id, w.copy.attempts);
    var begun := if attempt.result.NoHandler? then w else Announced(w);
    ReportsMirror(begun, attempt.reports);
    var told := AfterReports(begun, attempt.reports);
    var settlement := Settle(attempt.result, w.copy.kind, w.copy.attempts, w.copy.maxAttempts);
    assert Redressed(w.table[id], told.table[id]);
    SettlingStaysOnCourse(h, told.table, id, settlement, told.copy.note, now, delay);
  }

  lemma ClaimingGetsUnderWay(h: Handlers, t: Table, id: JobId, worker: string, leaseUntil: int, now: int)
    requires BatchOnCourse(h, t) && IsNext(t, id, Millis(now)) && worker != ""
    ensures var w := JustClaimed(t, id, worker, leaseUntil, now);
            && TableOk(w.table) && w.table.Keys == t.Keys && w.copy == FromRow(id, w.table[id])
            && w.table[id] == Claimed(t[id], worker, leaseUntil, Millis(now)) && UnderWay(h, id, w.table[id])
            && (forall other | other in t && other != id :: w.table[other] == t[other])
  {
    ClaimTakesOne(t, id, worker, leaseUntil, Millis(now));
    assert OnCourse(h, id, t[id]);
  }

  /** The row of an attempt under way: the job is fated as it was, from before it. */
  ghost predicate UnderWay(h: Handlers, id: JobId, row: Row) {
    && row.state.Running? && 1 <= row.attempts <= row.maxAttempts
    && FateOf(h, id, row.attempts - 1, row.maxAttempts) == FateOf(h, id, 0, row.maxAttempts)
  }

  lemma SettlingStaysOnCourse(
      h: Handlers, t: Table, id: JobId, settlement: Settlement, note: string, now: int, delay: int)
    requires TableOk(t) && NeverInterrupted(h) && id in t && UnderWay(h, id, t[id])
    requires settlement == Settle(h(id, t[id].attempts).result, t[id].kind, t[id].attempts, t[id].maxAttempts)
    ensures var t' := Commit(t, SettleJob(t, id, settlement, note, now, delay));
            && TableOk(t') && t'.Keys == t.Keys && OnCourse(h, id, t'[id])
            && (forall other | other in t && other != id :: t'[other] == t[other])
            && t'[id].attempts == t[id].attempts && t'[id].maxAttempts == t[id].maxAttempts
            && (t'[id].runAfter == t[id].runAfter || t'[id].runAfter == Millis(now + delay))
  {
    P.FinishKeepsTable(t, id, settlement, note, now, delay);
    if settlement.Retry? {
      P.PendingRowsRewriteFreely(t, id, Retried(t[id], settlement.cause, Millis(now + delay), Millis(now)));
    }
  }

  lemma CourseBoundsAttempts(h: Handlers, t: Table, ids: seq<JobId>)
    requires BatchOnCourse(h, t) && Enumerates(ids, t)
    ensures 0 <= Remaining(ids, t)
  {
    assert forall id | id in t :: OnCourse(h, id, t[id]);
    RemainingIsNonNegative(ids, t);
  }

  /** What was published before has no bearing on the table. */
  lemma EventsDoNotMatter(
      w: Worked, events: seq<Event>, reports: seq<Report>, result: HandlerResult, now: int, delay: int)
    ensures var quiet := AfterExecute(w.(events := events), reports, result, now, delay);
            quiet.table == AfterExecute(w, reports, result, now, delay).table
  {
    var begun := if result.NoHandler? then w else Announced(w);
    var begun' := if result.NoHandler? then w.(events := events) else Announced(w.(events := events));
    ReportsIgnoreEvents(begun, begun', reports);
  }

  lemma {:induction false} ReportsIgnoreEvents(w: Worked, w': Worked, reports: seq<Report>)
    requires w'.table == w.table && w'.copy == w.copy
    ensures AfterReports(w', reports).table == AfterReports(w, reports).table
    ensures AfterReports(w', reports).copy == AfterReports(w, reports).copy
  {
    if reports != [] {
      ReportsIgnoreEvents(w, w', reports[..|reports| - 1]);
    }
  }

  /** One turn of the loop: claim the next due job, run it, settle it. */
  method WorkOnce(pool: Pool, worker: string, h: Handlers, backoff: int -> nat, now: int)
    returns (done: Option<JobId>, delay: nat)
    requires BatchOnCourse(h, pool.queue.rows) && worker != "" && NeverInterrupted(h)
    modifies pool.queue
    ensures BatchOnCourse(h, pool.queue.rows)
    ensures done.None? ==>
              && pool.queue.rows == old(pool.queue.rows)
              && forall id | id in pool.queue.rows :: !Runnable(pool.queue.rows, id, Millis(now))
    ensures done.Some? ==>
              && IsNext(old(pool.queue.rows), done.value, Millis(now))
              && pool.queue.rows
                 == Executed(h, old(pool.queue.rows), done.value, worker, Millis(now + pool.lease), now, delay)
  {
    ghost var t := pool.queue.rows;
    delay := 0;
    var job := pool.Claim(worker, now);
    if job == null {
      return None, 0;
    }
    delay := backoff(job.attempts);
    var attempt := h(job.id, job.attempts);
    assert pool.Working(job).(events := []) == JustClaimed(t, job.id, worker, Millis(now + pool.lease), now);
    EventsDoNotMatter(pool.Working(job), [], attempt.reports, attempt.result, now, delay);
    pool.Execute(job, attempt.reports, attempt.result, now, delay);
    ExecutionStaysOnCourse(h, t, job.id, worker, Millis(now + pool.lease), now, delay);
    done := Some(job.id);
  }

  lemma TurnSpendsOne(h: Handlers, t: Table, id: JobId, worker: string, leaseUntil: int, now: int, delay: nat,
                      ids: seq<JobId>, horizon: int)
    requires BatchOnCourse(h, t) && NeverInterrupted(h) && IsNext(t, id, Millis(now)) && worker != ""
    requires Enumerates(ids, t) && forall other | other in t :: t[other].runAfter * MILLISECOND <= horizon
    ensures var t' := Executed(h, t, id, worker, leaseUntil, now, delay);
            && BatchOnCourse(h, t') && t'.Keys == t.Keys
            && (forall other | other in t :: t'[other].maxAttempts == t[other].maxAttempts)
            && 0 <= Remaining(ids, t') == Remaining(ids, t) - 1
            && (forall other | other in t ::
                  t'[other].runAfter * MILLISECOND <= if horizon < now + delay then now + delay else horizon)
  {
    var t' := Executed(h, t, id, worker, leaseUntil, now, delay);
    ExecutionStaysOnCourse(h, t, id, worker, leaseUntil, now, delay);
    RemainingChanges(ids, t, t', id);
    CourseBoundsAttempts(h, t', ids);
  }

  /** Claim, execute, and sleep when nothing is due, until the batch is done. */
  method WorkUntilDone(pool: Pool, worker: string, h: Handlers, backoff: int -> nat, poll: int, start: int,
                       ghost ids: seq<JobId>)
    returns (claims: nat)
    requires TableOk(pool.queue.rows) && worker != "" && 0 < poll && NeverInterrupted(h)
    requires forall id | id in pool.queue.rows ::
               pool.queue.rows[id].state.Queued? && pool.queue.rows[id].attempts == 0
    requires Enumerates(ids, pool.queue.rows)
    modifies pool.queue
    ensures TableOk(pool.queue.rows) && pool.queue.rows.Keys == old(pool.queue.rows).Keys
    ensures forall id | id in pool.queue.rows ::
              && pool.queue.rows[id].maxAttempts == old(pool.queue.rows)[id].maxAttempts
              && Fate(pool.queue.rows[id].state, pool.queue.rows[id].attempts)
                 == FateOf(h, id, 0, pool.queue.rows[id].maxAttempts)
    ensures forall i | 0 <= i < |ids| :: ids[i] in pool.queue.rows
    ensures claims == Remaining(ids, old(pool.queue.rows)) - Remaining(ids, pool.queue.rows)
                   <= Remaining(ids, old(pool.queue.rows))
  {
    claims := 0;
    var now := start;
    ghost var before := pool.queue.rows;
    ghost var horizon := Horizon(ids, before);
    CourseBoundsAttempts(h, before, ids);
    while true
      invariant BatchOnCourse(h, pool.queue.rows) && pool.queue.rows.Keys == before.Keys
      invariant forall id | id in before :: pool.queue.rows[id].maxAttempts == before[id].maxAttempts
      invariant claims == Remaining(ids, before) - Remaining(ids, pool.queue.rows)
      invariant 0 <= Remaining(ids, pool.queue.rows)
      invariant forall id | id in before :: pool.queue.rows[id].runAfter * MILLISECOND <= horizon
      decreases Remaining(ids, pool.queue.rows), if now < horizon then horizon - now else 0
    {
      ghost var t := pool.queue.rows;
      var done, delay := WorkOnce(pool, worker, h, backoff, now);
      if done.Some? {
        TurnSpendsOne(h, t, done.value, worker, Millis(now + pool.lease), now, delay, ids, horizon);
        claims := claims + 1;
        horizon := if horizon < now + delay then now + delay else horizon;
      } else {
        if forall id | id in pool.queue.rows :: pool.queue.rows[id].state.Terminal() {
          break;
        }
        now := now + poll;
      }
    }
  }

  /** A time by which every job of the batch is due. */
  ghost function Horizon(ids: seq<JobId>, t: Table): (latest: int)
    requires forall i | 0 <= i < |ids| :: ids[i] in t
    ensures forall i | 0 <= i < |ids| :: t[ids[i]].runAfter * MILLISECOND <= latest
  {
    if ids == [] then 0 else
      assert forall i | 1 <= i < |ids| :: ids[i] == ids[1..][i - 1];
      var rest := Horizon(ids[1..], t);
      if rest < t[ids[0]].runAfter * MILLISECOND then t[ids[0]].runAfter * MILLISECOND else rest
  }
}
