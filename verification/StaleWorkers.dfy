/** Concrete runs in which a worker outlives its job: a retry refused, an enqueue
    left without an answer, events that are not so. */
module StaleWorkers {
  import opened Wrappers
  import opened JobRows
  import opened Protocol
  import opened Dedupe
  import opened Worker
  import opened Witnesses

  /** A job is cancelled under its worker, and its key goes to a new one. */
  function Superseded(): Run {
    Then(Then(ClaimedOnce(3, KEY), Cancel(JOB, 0)), Enqueue(JOB + 1, Ask(3, KEY), 0))
  }

  lemma SupersededIsARun()
    ensures IsRun(Superseded())
    ensures var s := End(Superseded());
            && s.clock == 0 && s.live == End(ClaimedOnce(3, KEY)).live && 0 in s.live && s.live[0].job == JOB
            && s.live[0].attempts == 1 && s.live[0].maxAttempts == 3
            && JOB in s.table && s.table[JOB].state.Cancelled? && s.table[JOB].dedupeKey == Some(KEY)
            && s.table[JOB].progress == 0.0 && Holds(s.table, JOB + 1, KEY)
  {
    ClaimedOnceIsARun(3, KEY);
    var cancelled := Then(ClaimedOnce(3, KEY), Cancel(JOB, 0));
    assert IsRun(cancelled) && End(cancelled).table[JOB].state.Cancelled?;
  }

  /** The first can then not be put back: the retry is refused and the cancellation
      stands. */
  lemma RetriesCanBeRefused()
    ensures var finished := Then(Superseded(), Finish(0, ReturnedError("unreadable page"), 0, 0));
            && IsRun(finished) && RetryJob(End(Superseded()).table, JOB, "unreadable page", 0, 0).Err?
            && JOB in End(finished).table && End(finished).table[JOB].state.Cancelled?
            && End(finished).table == End(Superseded()).table
  {
    SupersededIsARun();
  }

  /** A job that finishes between another's insert and its lookup leaves that one
      with nothing to report. */
  lemma EnqueueCanFail()
    ensures var r := ClaimedOnce(3, KEY);
            var later := Then(r, Finish(0, ReturnedNil, 0, 0));
            && IsRun(later) && FindsPending(End(later).table, KEY, None)
            && EnqueueOutcome(End(r).table, JOB + 1, Ask(3, KEY), 0, None) == Refused
  {
    ClaimedOnceIsARun(3, KEY);
    assert Holds(End(ClaimedOnce(3, KEY)).table, JOB, KEY);
  }

  /** A progress report and a release that announce what is not so. */
  predicate Misreports(w: Worked, report: Report) {
    && AfterReport(w, report).events != w.events && !AnnouncesTruly(AfterReport(w, report))
    && AfterOutcome(w, Release, 0, 0).events != w.events && !AnnouncesTruly(AfterOutcome(w, Release, 0, 0))
  }

  lemma StoppedJobsAreMisreported(w: Worked, report: Report)
    requires report.ProgressReport? && w.copy.state.Running?
    requires w.copy.id in w.table ==> w.table[w.copy.id].state.Cancelled?
    ensures Misreports(w, report)
  {
  }

  /** The worker of a job cancelled under it announces progress of a running job, or
      its release, and goes on doing so when the job has been purged. */
  lemma StaleWorkersMisreport(report: Report)
    requires report.ProgressReport?
    ensures var claimed := ClaimedOnce(3, "");
            var cancelled := Then(claimed, Cancel(JOB, 0));
            var purged := Then(cancelled, Purge(1));
            && IsRun(purged) && JOB in End(claimed).table && JOB in End(cancelled).table && JOB !in End(purged).table
            && Misreports(Worked(End(cancelled).table, FromRow(JOB, End(claimed).table[JOB]), []), report)
            && Misreports(Worked(End(purged).table, FromRow(JOB, End(claimed).table[JOB]), []), report)
  {
    ClaimedOnceIsARun(3, "");
    var claimed := ClaimedOnce(3, "");
    var cancelled := Then(claimed, Cancel(JOB, 0));
    assert IsRun(cancelled) && End(cancelled).table[JOB].state.Cancelled?;
    assert End(cancelled).table[JOB].finishedAt == Some(0);
    StoppedJobsAreMisreported(Worked(End(cancelled).table, FromRow(JOB, End(claimed).table[JOB]), []), report);
    StoppedJobsAreMisreported(Worked(End(Then(cancelled, Purge(1))).table, FromRow(JOB, End(claimed).table[JOB]), []),
                              report);
  }
}
