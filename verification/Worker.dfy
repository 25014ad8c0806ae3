/** A pool's side of the protocol: claiming a job into memory, forwarding what its
    handler reports, and settling the outcome. */
module Worker {
  import opened Wrappers
  import opened Clock
  import opened JobRows
  import opened JobTable
  import opened Protocol
  import P = ProtocolInvariant

  /** A job as a worker holds it: copied from its row at claim time, then updated
      in memory after each successful write. */
  class Job {
    const id: JobId
    const kind: string
    const attempts: int
    const maxAttempts: int
    var state: State
    var progress: real
    var note: string
    var lastError: string
    var usage: Usage
    var updatedAt: int

    constructor FromRow(id: JobId, row: Row)
      ensures Value() == JobRows.FromRow(id, row)
    {
      this.id, kind, attempts, maxAttempts := id, row.kind, row.attempts, row.maxAttempts;
      state, progress, note, lastError := row.state, row.progress, row.note, row.lastError;
      usage, updatedAt := row.usage, row.updatedAt;
    }

    function Value(): Copy
      reads this
    {
      Copy(id, kind, attempts, maxAttempts, state, progress, note, lastError, usage, updatedAt)
    }
  }

  /** The part of a job in memory that the protocol tracks. */
  function Snapshot(c: Copy, renewed: int): Exec {
    Exec(c.id, c.kind, c.attempts, c.maxAttempts, c.note, c.usage, renewed)
  }

  /** What a handler tells its reporter. */
  datatype Report =
    | ProgressReport(fraction: real, note: string, now: int)
    | UsageReport(delta: Usage, now: int)

  /** The action a report performs on behalf of an execution. */
  function ReportAction(e: ExecId, report: Report): Action {
    match report
    case ProgressReport(fraction, note, now) => Progress(e, fraction, note, now)
    case UsageReport(delta, now) => Charge(e, delta, now)
  }

  // ----- what an execution does -----

  /** The table, the worker's copy of its job, and the events it has published. */
  datatype Worked = Worked(table: Table, copy: Copy, events: seq<Event>)

  function Announced(w: Worked): Worked {
    w.(events := w.events + [EventFor(w.copy)])
  }

  /** Memory follows an accepted write; progress is announced, usage is not. */
  function AfterReport(w: Worked, report: Report): Worked {
    match report
    case ProgressReport(fraction, note, now) =>
      (match UpdateJobProgress(w.table, w.copy.id, Clamp(fraction), note, Millis(now))
       case Ok(t) =>
         Announced(w.(table := t, copy := w.copy.(progress := Clamp(fraction), note := note, updatedAt := Millis(now))))
       case Err(_) => w)
    case UsageReport(delta, now) =>
      (match RecordJobUsage(w.table, w.copy.id, delta, Millis(now))
       case Ok(t) => w.(table := t, copy := w.copy.(usage := w.copy.usage.Plus(delta)))
       case Err(_) => w)
  }

  function AfterReports(w: Worked, reports: seq<Report>): Worked {
    if reports == [] then w
    else AfterReport(AfterReports(w, reports[..|reports| - 1]), reports[|reports| - 1])
  }

  function Concluded(c: Copy, settlement: Settlement): Copy {
    match settlement
    case Complete => c.(state := Succeeded, progress := 1.0)
    case Fail(cause) => c.(state := Failed, lastError := cause)
    case Release => c.(state := Queued)
    case Retry(cause) => c.(state := Queued, lastError := cause)
  }

  function AfterOutcome(w: Worked, settlement: Settlement, now: int, delay: int): Worked {
    match SettleJob(w.table, w.copy.id, settlement, w.copy.note, now, delay)
    case Ok(t) => Announced(Worked(t, Concluded(w.copy, settlement), w.events))
    case Err(_) => w
  }

  /** Announce that the job runs, unless no handler exists; forward the handler's
      reports; settle by the switch over its result and the claim-time copy. */
  function AfterExecute(w: Worked, reports: seq<Report>, result: HandlerResult, now: int, delay: int): Worked {
    var begun := if result.NoHandler? then w else Announced(w);
    var settlement := Settle(result, w.copy.kind, w.copy.attempts, w.copy.maxAttempts);
    AfterOutcome(AfterReports(begun, reports), settlement, now, delay)
  }

  class Pool {
    const lease: int
    const queue: Jobs

    constructor (queue: Jobs, lease: int)
      ensures this.queue == queue && this.lease == lease
    {
      this.queue, this.lease := queue, lease;
    }

    ghost function Working(job: Job): Worked
      reads queue, job
    {
      Worked(queue.rows, job.Value(), queue.published)
    }

    /** Take the next runnable job, or null when nothing is due. */
    method Claim(worker: string, now: int) returns (job: Job?)
      requires TableOk(queue.rows) && worker != ""
      modifies queue`rows
      ensures TableOk(queue.rows)
      ensures job == null ==>
                queue.rows == old(queue.rows) && forall id | id in queue.rows :: !Runnable(queue.rows, id, Millis(now))
      ensures job != null ==>
                && fresh(job)
                && IsNext(old(queue.rows), job.id, Millis(now))
                && Ok(queue.rows) == ClaimJob(old(queue.rows), job.id, worker, Millis(now + lease), Millis(now))
                && job.Value() == FromRow(job.id, queue.rows[job.id])
    {
      var claimed := queue.ClaimNext(worker, Millis(now + lease), Millis(now));
      if claimed.None? {
        return null;
      }
      job := new Job.FromRow(claimed.value, queue.rows[claimed.value]);
    }

    /** The reporter's Progress and Usage. */
    method Reports(job: Job, report: Report) returns (ok: bool)
      modifies queue, job
      ensures Working(job) == AfterReport(old(Working(job)), report)
      ensures ok && report.ProgressReport? ==>
                queue.published == old(queue.published) + [Event(job.id, job.kind, job.state, Clamp(report.fraction),
                                                                 report.note, job.lastError, Millis(report.now))]
      ensures ok <==> match report
                      case ProgressReport(fraction, note, now) =>
                        UpdateJobProgress(old(queue.rows), job.id, Clamp(fraction), note, Millis(now)).Ok?
                      case UsageReport(delta, now) => RecordJobUsage(old(queue.rows), job.id, delta, Millis(now)).Ok?
    {
      match report
      case ProgressReport(fraction, note, now) =>
        ok := queue.Exec(UpdateJobProgress(queue.rows, job.id, Clamp(fraction), note, Millis(now)));
        if ok {
          job.progress, job.note, job.updatedAt := Clamp(fraction), note, Millis(now);
          queue.Publish(EventFor(job.Value()));
        }
      case UsageReport(delta, now) =>
        ok := queue.Exec(RecordJobUsage(queue.rows, job.id, delta, Millis(now)));
        if ok {
          job.usage := job.usage.Plus(delta);
        }
    }

    /** Record an outcome; memory follows the row, and nothing is published unless
        the write went through. */
    method Record(job: Job, settlement: Settlement, now: int, delay: int)
      modifies queue, job
      ensures Working(job) == AfterOutcome(old(Working(job)), settlement, now, delay)
    {
      var ok := queue.Exec(SettleJob(queue.rows, job.id, settlement, job.note, now, delay));
      if ok {
        match settlement {
          case Complete => job.state, job.progress := Succeeded, 1.0;
          case Fail(cause) => job.state, job.lastError := Failed, cause;
          case Release => job.state := Queued;
          case Retry(cause) => job.state, job.lastError := Queued, cause;
        }
        queue.Publish(EventFor(job.Value()));
      }
    }

    /** Run a claimed job to its end. */
    method Execute(job: Job, reports: seq<Report>, result: HandlerResult, now: int, delay: int)
      requires result.NoHandler? ==> reports == []
      modifies queue, job
      ensures Working(job) == AfterExecute(old(Working(job)), reports, result, now, delay)
    {
      if !result.NoHandler? {
        queue.Publish(EventFor(job.Value()));
      }
      ghost var begun := Working(job);
      for i := 0 to |reports|
        invariant Working(job) == AfterReports(begun, reports[..i])
      {
        assert reports[..i + 1][..i] == reports[..i];
        var _ := Reports(job, reports[i]);
      }
      assert reports[..|reports|] == reports;
      Record(job, Settle(result, job.kind, job.attempts, job.maxAttempts), now, delay);
    }
  }

  // ----- the methods refine the protocol -----

  /** The protocol's actions for one execution: its reports, then its outcome. */
  function ExecutionRun(r: Run, e: ExecId, reports: seq<Report>): Run {
    if reports == [] then r
    else Then(ExecutionRun(r, e, reports[..|reports| - 1]), ReportAction(e, reports[|reports| - 1]))
  }

  ghost predicate ReadInThePast(s: System, reports: seq<Report>) {
    forall i | 0 <= i < |reports| :: reports[i].now <= s.clock
  }

  lemma {:induction false} ReportsRefineTheProtocol(r: Run, e: ExecId, w: Worked, reports: seq<Report>)
    requires IsRun(r) && e in End(r).live && ReadInThePast(End(r), reports)
    requires w.table == End(r).table && Snapshot(w.copy, End(r).live[e].renewed) == End(r).live[e]
    ensures var r', w' := ExecutionRun(r, e, reports), AfterReports(w, reports);
            && IsRun(r') && End(r').clock == End(r).clock && e in End(r').live
            && End(r').table == w'.table
            && End(r').live[e] == Snapshot(w'.copy, End(r).live[e].renewed)
            && w'.copy.id == w.copy.id && w'.copy.kind == w.copy.kind
            && w'.copy.attempts == w.copy.attempts && w'.copy.maxAttempts == w.copy.maxAttempts
  {
    if reports != [] {
      var before := reports[..|reports| - 1];
      ReportsRefineTheProtocol(r, e, w, before);
      ReportRefines(End(ExecutionRun(r, e, before)), e, AfterReports(w, before), reports[|reports| - 1]);
    }
  }

  lemma ReportRefines(s: System, e: ExecId, w: Worked, report: Report)
    requires e in s.live && report.now <= s.clock
    requires w.table == s.table && s.live[e] == Snapshot(w.copy, s.live[e].renewed)
    ensures Enabled(s, ReportAction(e, report))
    ensures var s', w' := Apply(s, ReportAction(e, report)), AfterReport(w, report);
            && s'.clock == s.clock && e in s'.live && s'.table == w'.table
            && s'.live[e] == Snapshot(w'.copy, s.live[e].renewed)
            && w'.copy.(progress := w.copy.progress, note := w.copy.note, usage := w.copy.usage,
                        updatedAt := w.copy.updatedAt) == w.copy
  {
  }

  /** Whatever a handler reports and returns, Execute leaves the table where the
      protocol's run of those actions does. */
  lemma {:induction false} ExecuteRefinesTheProtocol(
      r: Run, e: ExecId, w: Worked, reports: seq<Report>, result: HandlerResult, now: int, delay: int)
    requires IsRun(r) && e in End(r).live && ReadInThePast(End(r), reports) && now <= End(r).clock
    requires w.table == End(r).table && Snapshot(w.copy, End(r).live[e].renewed) == End(r).live[e]
    ensures var r' := Then(ExecutionRun(r, e, reports), Finish(e, result, now, delay));
            && IsRun(r') && e !in End(r').live
            && End(r').table == AfterExecute(w, reports, result, now, delay).table
  {
    ReportsRefineTheProtocol(r, e, if result.NoHandler? then w else Announced(w), reports);
  }

  /** A claim made through the pool is a Claim action, row for row and copy for copy. */
  lemma ClaimRefinesTheProtocol(r: Run, e: ExecId, id: JobId, worker: string, now: int, t: Table)
    requires IsRun(r) && now <= End(r).clock && e !in End(r).live && worker != ""
    requires IsNext(End(r).table, id, Millis(now))
    requires Ok(t) == ClaimJob(End(r).table, id, worker, Millis(now + End(r).lease), Millis(now))
    ensures var r' := Then(r, Claim(e, id, worker, now));
            && IsRun(r') && End(r').table == t && e in End(r').live
            && End(r').live[e] == Snapshot(FromRow(id, t[id]), now)
  {
    var s := End(r);
    assert AfterClaim(s, e, id, worker, now).table == t;
    assert Enabled(s, Claim(e, id, worker, now));
    assert Apply(s, Claim(e, id, worker, now)) == AfterClaim(s, e, id, worker, now);
  }

  // ----- what subscribers are told -----

  /** Memory agrees with the row in all that an event mentions. */
  ghost predicate Mirrors(c: Copy, row: Row) {
    && c.kind == row.kind && c.state == row.state && c.progress == row.progress
    && c.note == row.note && c.lastError == row.lastError
  }

  /** The event tells of that job, and its every field is what the row says. */
  predicate Tells(ev: Event, id: JobId, row: Row) {
    && ev.job == id && ev.kind == row.kind && ev.state == row.state && ev.progress == row.progress
    && ev.note == row.note && ev.error == row.lastError
  }

  /** An accepted progress report publishes one event, of the job as it was but for
      what is reported; a usage report, and one that is refused, publish nothing. */
  lemma ReportsAreAnnounced(w: Worked, report: Report)
    ensures var w' := AfterReport(w, report);
            match report
            case UsageReport(_, _) => w'.events == w.events
            case ProgressReport(fraction, note, now) =>
              if UpdateJobProgress(w.table, w.copy.id, Clamp(fraction), note, Millis(now)).Err? then w' == w
              else
                && |w'.events| == |w.events| + 1 && w'.events[..|w.events|] == w.events
                && var ev := w'.events[|w.events|];
                   && ev.job == w.copy.id && ev.kind == w.copy.kind && ev.state == w.copy.state
                   && ev.progress == Clamp(fraction) && ev.note == note && ev.error == w.copy.lastError
                   && ev.at == Millis(now)
  {
  }

  /** A recorded outcome publishes one event: success complete, failure and retry with
      their cause, a release as the job was; one that is refused publishes nothing. */
  lemma OutcomesAreAnnounced(w: Worked, settlement: Settlement, now: int, delay: int)
    ensures var w' := AfterOutcome(w, settlement, now, delay);
            if SettleJob(w.table, w.copy.id, settlement, w.copy.note, now, delay).Err? then w' == w
            else
              && |w'.events| == |w.events| + 1 && w'.events[..|w.events|] == w.events
              && var ev := w'.events[|w.events|];
                 && ev.job == w.copy.id && ev.kind == w.copy.kind && ev.note == w.copy.note && ev.at == w.copy.updatedAt
                 && ev.progress == (if settlement.Complete? then 1.0 else w.copy.progress)
                 && ev.state == (match settlement
                                 case Complete => Succeeded
                                 case Fail(_) => Failed
                                 case Release => Queued
                                 case Retry(_) => Queued)
                 && ev.error == (match settlement
                                 case Fail(cause) => cause
                                 case Retry(cause) => cause
                                 case _ => w.copy.lastError)
  {
  }

  lemma {:induction false} ReportsOnlyAnnounce(w: Worked, reports: seq<Report>)
    ensures |w.events| <= |AfterReports(w, reports).events|
    ensures AfterReports(w, reports).events[..|w.events|] == w.events
  {
    if reports != [] {
      ReportsOnlyAnnounce(w, reports[..|reports| - 1]);
      ReportsAreAnnounced(AfterReports(w, reports[..|reports| - 1]), reports[|reports| - 1]);
    }
  }

  /** An execution with a handler announces first that its job runs. */
  lemma ExecutionsAnnounceTheirStart(w: Worked, reports: seq<Report>, result: HandlerResult, now: int, delay: int)
    requires !result.NoHandler? && w.copy.id in w.table && w.copy == FromRow(w.copy.id, w.table[w.copy.id])
    ensures var events := AfterExecute(w, reports, result, now, delay).events;
            |w.events| < |events| && Tells(events[|w.events|], w.copy.id, w.table[w.copy.id])
  {
    ReportsOnlyAnnounce(Announced(w), reports);
    var told := AfterReports(Announced(w), reports);
    assert told.events[..|w.events| + 1][|w.events|] == EventFor(w.copy);
    OutcomesAreAnnounced(told, Settle(result, w.copy.kind, w.copy.attempts, w.copy.maxAttempts), now, delay);
  }

  /** A worker whose row runs: what it reports lands, in the row and in memory
      alike, and changes nothing of the job but its dress. */
  lemma {:induction false} ReportsMirror(w: Worked, reports: seq<Report>)
    requires TableOk(w.table) && w.copy.id in w.table && w.table[w.copy.id].state.Running?
    requires Mirrors(w.copy, w.table[w.copy.id])
    ensures var w' := AfterReports(w, reports);
            && TableOk(w'.table) && w'.table.Keys == w.table.Keys
            && (forall id | id in w.table && id != w.copy.id :: w'.table[id] == w.table[id])
            && w'.copy.id == w.copy.id && w'.copy.kind == w.copy.kind
            && w'.copy.attempts == w.copy.attempts && w'.copy.maxAttempts == w.copy.maxAttempts
            && Mirrors(w'.copy, w'.table[w.copy.id])
            && Redressed(w.table[w.copy.id], w'.table[w.copy.id])
  {
    if reports != [] {
      ReportsMirror(w, reports[..|reports| - 1]);
      ReportMirrors(AfterReports(w, reports[..|reports| - 1]), reports[|reports| - 1]);
    }
  }

  /** Rows that differ only in progress, note, usage and update time. */
  predicate Redressed(row: Row, row': Row) {
    row' == row.(progress := row'.progress, note := row'.note, usage := row'.usage, updatedAt := row'.updatedAt)
  }

  lemma ReportMirrors(w: Worked, report: Report)
    requires TableOk(w.table) && w.copy.id in w.table && w.table[w.copy.id].state.Running?
    requires Mirrors(w.copy, w.table[w.copy.id])
    ensures var w' := AfterReport(w, report);
            && TableOk(w'.table) && w'.table.Keys == w.table.Keys
            && (forall id | id in w.table && id != w.copy.id :: w'.table[id] == w.table[id])
            && w'.copy.(progress := w.copy.progress, note := w.copy.note, usage := w.copy.usage,
                        updatedAt := w.copy.updatedAt) == w.copy
            && Mirrors(w'.copy, w'.table[w.copy.id])
            && Redressed(w.table[w.copy.id], w'.table[w.copy.id])
  {
    var id := w.copy.id;
    var row := AfterReport(w, report).table[id];
    match report
    case ProgressReport(fraction, note, now) =>
      var next := w.table[id].(progress := Clamp(fraction), note := note, updatedAt := Millis(now));
      P.PendingRowsRewriteFreely(w.table, id, next);
      P.WriteKeepsTable(w.table, id, next);
    case UsageReport(delta, now) =>
      var next := w.table[id].(usage := w.table[id].usage.Plus(delta), updatedAt := Millis(now));
      P.PendingRowsRewriteFreely(w.table, id, next);
      P.WriteKeepsTable(w.table, id, next);
  }

  /** An execution whose row is its own when it begins and that nobody disturbs tells
      subscribers the truth: its last event is what the row then says. */
  lemma ExecutionsAnnounceTheirEnd(w: Worked, reports: seq<Report>, result: HandlerResult, now: int, delay: int)
    requires TableOk(w.table) && w.copy.id in w.table && w.table[w.copy.id].state.Running?
    requires w.copy == FromRow(w.copy.id, w.table[w.copy.id])
    ensures var w', id := AfterExecute(w, reports, result, now, delay), w.copy.id;
            && id in w'.table && !w'.table[id].state.Running?
            && w'.events != [] && Tells(w'.events[|w'.events| - 1], id, w'.table[id])
            && Mirrors(w'.copy, w'.table[id])
  {
    var begun := if result.NoHandler? then w else Announced(w);
    ReportsMirror(begun, reports);
    var told := AfterReports(begun, reports);
    var row := told.table[w.copy.id];
    match Settle(result, w.copy.kind, w.copy.attempts, w.copy.maxAttempts)
    case Complete =>
    case Fail(_) =>
    case Release => P.PendingRowsRewriteFreely(told.table, w.copy.id, Released(row, Millis(now)));
    case Retry(cause) =>
      P.PendingRowsRewriteFreely(told.table, w.copy.id, Retried(row, cause, Millis(now + delay), Millis(now)));
  }

  /** The last event announces the state the job's row then has. */
  predicate AnnouncesTruly(w: Worked) {
    w.events != [] && w.copy.id in w.table && w.events[|w.events| - 1].state == w.table[w.copy.id].state
  }

  /** A stale worker may announce what is not so, and its writes succeed even when
      its row has been purged. What is announced is true exactly when a progress
      report finds its row running, a release finds it running or back in the
      queue, and any other outcome finds it at all. */
  lemma AnnouncedStateIsTrueIff(w: Worked, report: Report, settlement: Settlement, now: int, delay: int)
    requires w.copy.state.Running?
    ensures AfterReport(w, report).events != w.events ==>
              (AnnouncesTruly(AfterReport(w, report))
               <==> w.copy.id in w.table && w.table[w.copy.id].state.Running?)
    ensures AfterOutcome(w, settlement, now, delay).events != w.events ==>
              (AnnouncesTruly(AfterOutcome(w, settlement, now, delay))
               <==> w.copy.id in w.table && (settlement.Release? ==> w.table[w.copy.id].state.Pending()))
  {
  }
}
