/** Every reachable state satisfies Inv: the table invariant, exact attempt and
    usage accounting, honest snapshots, and the attempt budget. */
module ProtocolInvariant {
  import opened Wrappers
  import opened Clock
  import opened JobRows
  import opened Protocol

  // ----- the table -----

  lemma WriteKeepsTable(t: Table, id: JobId, row: Row)
    requires TableOk(t) && RowOk(row)
    ensures TableOk(Commit(t, Write(t, id, row)))
  {
    var t' := Commit(t, Write(t, id, row));
    forall a, b, key | Holds(t', a, key) && Holds(t', b, key)
      ensures a == b
    {
      if a == id && b != id {
        assert Write(t, id, row).Ok? ==> !Holds(t, b, key);
        assert Holds(t, b, key);
      } else if b == id && a != id {
        assert Write(t, id, row).Ok? ==> !Holds(t, a, key);
        assert Holds(t, a, key);
      } else if a != id {
        assert Holds(t, a, key) && Holds(t, b, key);
      }
    }
  }

  /** Rewriting a row that was pending, keeping its key, is never refused. */
  lemma PendingRowsRewriteFreely(t: Table, id: JobId, row: Row)
    requires TableOk(t) && id in t && t[id].state.Pending()
    requires row.dedupeKey == t[id].dedupeKey && 0.0 <= row.progress <= 1.0
    ensures Write(t, id, row) == Ok(t[id := row])
  {
    if row.state.Pending() && row.dedupeKey.Some? {
      assert Holds(t, id, row.dedupeKey.value);
    }
  }

  lemma ReclaimKeepsTable(t: Table, now: int)
    requires TableOk(t)
    ensures TableOk(ReclaimExpired(t, now))
  {
    var t' := ReclaimExpired(t, now);
    forall a, b, key | Holds(t', a, key) && Holds(t', b, key)
      ensures a == b
    {
      assert Holds(t, a, key) && Holds(t, b, key);
    }
  }

  lemma PurgeKeepsTable(t: Table, cutoff: int)
    requires TableOk(t)
    ensures TableOk(PurgeBefore(t, cutoff))
  {
    var t' := PurgeBefore(t, cutoff);
    forall a, b, key | Holds(t', a, key) && Holds(t', b, key)
      ensures a == b
    {
      assert Holds(t, a, key) && Holds(t, b, key);
    }
  }

  lemma StepKeepsTable(s: System, a: Action)
    requires TableOk(s.table) && Enabled(s, a)
    ensures TableOk(Apply(s, a).table)
  {
    var t := s.table;
    match a
    case Enqueue(id, request, now) =>
      WriteKeepsTable(t, id, FreshRow(request, Millis(now)));
    case Claim(_, id, worker, now) =>
      WriteKeepsTable(t, id, Claimed(t[id], worker, Millis(now + s.lease), Millis(now)));
    case Renew(_, _) => ReportKeepsTable(s, a);
    case Progress(_, _, _, _) => ReportKeepsTable(s, a);
    case Charge(_, _, _) => ReportKeepsTable(s, a);
    case Finish(e, result, now, delay) =>
      var x := s.live[e];
      FinishKeepsTable(t, x.job, Settle(result, x.kind, x.attempts, x.maxAttempts), x.note, now, delay);
    case Cancel(id, now) =>
      if id in t {
        WriteKeepsTable(t, id, t[id].(state := Cancelled, leaseUntil := None, worker := "",
                                      finishedAt := Some(Millis(now)), updatedAt := Millis(now)));
      }
    case Reclaim(now) => ReclaimKeepsTable(t, Millis(now));
    case Purge(cutoff) => PurgeKeepsTable(t, cutoff);
    case Crash(_) =>
    case Tick(_) =>
  }

  lemma ReportKeepsTable(s: System, a: Action)
    requires TableOk(s.table) && Enabled(s, a) && (a.Renew? || a.Progress? || a.Charge?)
    ensures TableOk(Apply(s, a).table)
  {
    var t, id := s.table, s.live[a.exec].job;
    if id in t {
      if a.Charge? {
        WriteKeepsTable(t, id, t[id].(usage := t[id].usage.Plus(a.delta), updatedAt := Millis(a.now)));
      } else if a.Renew? && t[id].state.Running? {
        WriteKeepsTable(t, id, t[id].(leaseUntil := Some(Millis(a.now + s.lease)), updatedAt := Millis(a.now)));
      } else if a.Progress? && t[id].state.Running? {
        WriteKeepsTable(t, id, t[id].(progress := Clamp(a.fraction), note := a.note, updatedAt := Millis(a.now)));
      }
    }
  }

  lemma FinishKeepsTable(t: Table, id: JobId, settlement: Settlement, note: string, now: int, delay: int)
    requires TableOk(t)
    ensures TableOk(Commit(t, SettleJob(t, id, settlement, note, now, delay)))
  {
    if id in t {
      var row, ms := t[id], Millis(now);
      match settlement
      case Complete =>
        WriteKeepsTable(t, id, row.(state := Succeeded, progress := 1.0, note := note, leaseUntil := None,
                                    worker := "", finishedAt := Some(ms), updatedAt := ms));
      case Release => WriteKeepsTable(t, id, Released(row, ms));
      case Fail(cause) =>
        WriteKeepsTable(t, id, row.(state := Failed, lastError := cause, leaseUntil := None,
                                    worker := "", finishedAt := Some(ms), updatedAt := ms));
      case Retry(cause) => WriteKeepsTable(t, id, Retried(row, cause, Millis(now + delay), ms));
    }
  }

  // ----- accounting and snapshots -----

  lemma FinishKeepsAccounts(s: System, e: ExecId, result: HandlerResult, now: int, delay: int)
    requires Inv(s) && e in s.live
    ensures Accounted(AfterFinish(s, e, result, now, delay))
  {
    var x := s.live[e];
    var s' := AfterFinish(s, e, result, now, delay);
    forall id | id in s'.table
      ensures id in s'.history && HistoryOk(s'.table[id], s'.history[id])
    {
      assert id in s.table && HistoryOk(s.table[id], s.history[id]);
      if id == x.job {
        var settlement := Settle(result, x.kind, x.attempts, x.maxAttempts);
        if settlement.Release? && s.table[id].state.Running? {
          PendingRowsRewriteFreely(s.table, id, Released(s.table[id], Millis(now)));
        }
      }
    }
  }

  lemma StepKeepsAccounts(s: System, a: Action)
    requires Inv(s) && Enabled(s, a)
    ensures Accounted(Apply(s, a))
  {
    match a
    case Finish(e, result, now, delay) => FinishKeepsAccounts(s, e, result, now, delay);
    case Charge(e, delta, now) =>
      assert forall id | id in Apply(s, a).table :: id in s.table && HistoryOk(s.table[id], s.history[id]);
    case _ =>
  }

  lemma ClaimKeepsSnapshots(s: System, e: ExecId, id: JobId, worker: string, now: int)
    requires Inv(s) && Enabled(s, Claim(e, id, worker, now))
    ensures Snapshots(AfterClaim(s, e, id, worker, now))
  {
    PendingRowsRewriteFreely(s.table, id, Claimed(s.table[id], worker, Millis(now + s.lease), Millis(now)));
  }

  lemma FinishKeepsSnapshots(s: System, e: ExecId, result: HandlerResult, now: int, delay: int)
    requires Inv(s) && e in s.live
    ensures Snapshots(AfterFinish(s, e, result, now, delay))
  {
    var s' := AfterFinish(s, e, result, now, delay);
    var id := s.live[e].job;
    assert forall other | other in s'.table && other != id :: other in s.table && s'.table[other] == s.table[other];
    if id in s.table && s'.table[id] != s.table[id] {
      assert !s'.table[id].state.Running?;
      assert s'.table[id].attempts >= s.table[id].attempts - (if s.table[id].state.Running? then 1 else 0);
    }
  }

  /** Rows may stop running, but keep their attempt counts. */
  ghost predicate KeepsAttempts(t: Table, t': Table) {
    forall id | id in t' ::
      && id in t
      && t'[id].attempts == t[id].attempts && t'[id].maxAttempts == t[id].maxAttempts && t'[id].kind == t[id].kind
      && (t'[id].state.Running? ==> t[id].state.Running?)
  }

  lemma StepKeepsSnapshots(s: System, a: Action)
    requires Inv(s) && Enabled(s, a)
    ensures Snapshots(Apply(s, a))
  {
    match a
    case Enqueue(_, _, _) =>
    case Claim(e, id, worker, now) => ClaimKeepsSnapshots(s, e, id, worker, now);
    case Finish(e, result, now, delay) => FinishKeepsSnapshots(s, e, result, now, delay);
    case _ => OthersKeepSnapshots(s, a);
  }

  lemma OthersKeepSnapshots(s: System, a: Action)
    requires Inv(s) && Enabled(s, a) && !a.Enqueue? && !a.Claim? && !a.Finish?
    ensures Snapshots(Apply(s, a))
  {
    if a.Renew? || a.Progress? || a.Charge? {
      ReportsKeepCounts(s, a);
    }
    CountsKeepSnapshots(s, Apply(s, a));
  }

  /** Executions may end and rows may stop running, but counts stay as they were. */
  ghost predicate KeepsCounts(s: System, s': System) {
    && KeepsAttempts(s.table, s'.table) && (forall id | id in s.history :: id in s'.history)
    && (forall e | e in s'.live ::
          e in s.live && SnapshotCounts(s'.live[e]) == SnapshotCounts(s.live[e]))
  }

  function SnapshotCounts(x: Exec): Exec {
    x.(note := "", usage := NO_USAGE, renewed := 0)
  }

  lemma ReportsKeepCounts(s: System, a: Action)
    requires Enabled(s, a) && (a.Renew? || a.Progress? || a.Charge?)
    ensures KeepsCounts(s, Apply(s, a))
  {
  }

  lemma CountsKeepSnapshots(s: System, s': System)
    requires Inv(s) && KeepsCounts(s, s')
    ensures Snapshots(s')
  {
    forall e | e in s'.live
      ensures 1 <= s'.live[e].attempts && s'.live[e].job in s'.history
      ensures s'.live[e].job in s'.table ==> SnapshotOk(s'.live[e], s'.table[s'.live[e].job])
    {
      assert e in s.live && SnapshotCounts(s'.live[e]) == SnapshotCounts(s.live[e]);
      assert s.live[e].job in s.table ==> SnapshotOk(s.live[e], s.table[s.live[e].job]);
    }
  }

  // ----- the attempt budget -----

  lemma EagerGrows(live: map<ExecId, Exec>, e: ExecId, x: Exec, id: JobId, max: int)
    requires e !in live
    ensures |Eager(live[e := x], id, max)|
         == |Eager(live, id, max)| + (if x.job == id && x.attempts < max then 1 else 0)
  {
    var now := if x.job == id && x.attempts < max then {e} else {};
    assert Eager(live[e := x], id, max) == Eager(live, id, max) + now;
  }

  lemma EagerShrinks(live: map<ExecId, Exec>, e: ExecId, id: JobId, max: int)
    requires e in live
    ensures |Eager(live, id, max)|
         == |Eager(live - {e}, id, max)| + (if live[e].job == id && live[e].attempts < max then 1 else 0)
  {
    var rest := live - {e};
    assert live == rest[e := live[e]];
    EagerGrows(rest, e, live[e], id, max);
  }

  lemma {:induction false} SubsetCardinality<T>(a: set<T>, b: set<T>)
    requires a <= b
    ensures |a| <= |b|
  {
    assert b == a + (b - a);
  }

  lemma ClaimKeepsBudget(s: System, e: ExecId, id: JobId, worker: string, now: int)
    requires Inv(s) && Enabled(s, Claim(e, id, worker, now))
    ensures Budgeted(AfterClaim(s, e, id, worker, now))
  {
    var s' := AfterClaim(s, e, id, worker, now);
    PendingRowsRewriteFreely(s.table, id, Claimed(s.table[id], worker, Millis(now + s.lease), Millis(now)));
    forall other | other in s'.table
      ensures JobBudgeted(s', other)
    {
      EagerGrows(s.live, e, s'.live[e], other, s.table[other].maxAttempts);
    }
  }

  /** Ending an execution: a retry spends its own eagerness on the queued bit, and
      a release lowers a count that was still at least the releaser's snapshot. */
  lemma FinishKeepsBudget(s: System, e: ExecId, result: HandlerResult, now: int, delay: int)
    requires Inv(s) && e in s.live
    ensures Budgeted(AfterFinish(s, e, result, now, delay))
  {
    var s' := AfterFinish(s, e, result, now, delay);
    var x := s.live[e];
    forall id | id in s'.table
      ensures JobBudgeted(s', id)
    {
      EagerShrinks(s.live, e, id, s.table[id].maxAttempts);
      assert JobBudgeted(s, id);
      if id == x.job {
        assert SnapshotOk(x, s.table[id]);
      }
    }
  }

  lemma EnqueueKeepsBudget(s: System, id: JobId, request: Request, now: int)
    requires Inv(s) && Enabled(s, Enqueue(id, request, now))
    ensures Budgeted(Apply(s, Enqueue(id, request, now)))
  {
    var s' := Apply(s, Enqueue(id, request, now));
    forall other | other in s'.table
      ensures JobBudgeted(s', other)
    {
      if other == id {
        assert Eager(s.live, id, s'.table[id].maxAttempts) == {};
      }
    }
  }

  /** A step that neither starts nor ends executions, and pays a reclaim for each
      row it puts back in the queue. */
  ghost predicate Neutral(s: System, s': System) {
    && (forall e | e in s'.live ::
          e in s.live && s'.live[e].job == s.live[e].job && s'.live[e].attempts == s.live[e].attempts)
    && (forall id | id in s'.table ::
          && id in s.table && id in s.history && id in s'.history
          && s'.table[id].attempts == s.table[id].attempts && s'.table[id].maxAttempts == s.table[id].maxAttempts
          && s'.history[id].reclaims >= s.history[id].reclaims
               + (if s'.table[id].state.Queued? && !s.table[id].state.Queued? then 1 else 0))
  }

  lemma NeutralKeepsBudget(s: System, s': System)
    requires Budgeted(s) && Neutral(s, s')
    ensures Budgeted(s')
  {
    forall id | id in s'.table
      ensures JobBudgeted(s', id)
    {
      SubsetCardinality(Eager(s'.live, id, s.table[id].maxAttempts), Eager(s.live, id, s.table[id].maxAttempts));
    }
  }

  lemma OthersAreNeutral(s: System, a: Action)
    requires Inv(s) && Enabled(s, a) && !a.Enqueue? && !a.Claim? && !a.Finish?
    ensures Neutral(s, Apply(s, a))
  {
    if a.Charge? {
      ChargesAreNeutral(s, a);
    } else if a.Renew? || a.Progress? {
      ReportsAreNeutral(s, a);
    }
  }

  lemma ChargesAreNeutral(s: System, a: Action)
    requires Inv(s) && Enabled(s, a) && a.Charge?
    ensures Neutral(s, Apply(s, a))
  {
  }

  lemma ReportsAreNeutral(s: System, a: Action)
    requires Inv(s) && Enabled(s, a) && (a.Renew? || a.Progress?)
    ensures Neutral(s, Apply(s, a))
  {
  }

  lemma StepKeepsBudget(s: System, a: Action)
    requires Inv(s) && Enabled(s, a)
    ensures Budgeted(Apply(s, a))
  {
    if a.Enqueue? {
      EnqueueKeepsBudget(s, a.id, a.request, a.now);
    } else if a.Claim? {
      ClaimKeepsBudget(s, a.exec, a.id, a.worker, a.now);
    } else if a.Finish? {
      FinishKeepsBudget(s, a.exec, a.result, a.now, a.delay);
    } else {
      OthersAreNeutral(s, a);
      NeutralKeepsBudget(s, Apply(s, a));
    }
  }

  // ----- every run -----

  lemma StepKeepsInv(s: System, a: Action)
    requires Inv(s) && Enabled(s, a)
    ensures Inv(Apply(s, a))
  {
    StepKeepsTable(s, a);
    StepKeepsAccounts(s, a);
    StepKeepsSnapshots(s, a);
    StepKeepsBudget(s, a);
  }

  lemma {:induction false} RunsKeepInv(r: Run)
    requires IsRun(r)
    ensures Inv(End(r))
  {
    match r
    case Start(_) =>
    case Then(before, a) =>
      RunsKeepInv(before);
      StepKeepsInv(End(before), a);
  }

  // ----- the history is what the run did -----

  /** Add to a tally what one action does to a job, read off the state it acts on. */
  ghost function Tally(h: History, s: System, a: Action, id: JobId): History {
    match a
    case Claim(_, claimed, _, _) => if claimed == id then h.(claims := h.claims + 1) else h
    case Finish(e, result, _, _) =>
      if e in s.live && s.live[e].job == id then
        var released := result.Interrupted? && id in s.table && s.table[id].state.Running?;
        h.(releases := h.releases + (if released then 1 else 0),
           nils := h.nils + (if result.ReturnedNil? then 1 else 0))
      else h
    case Reclaim(now) =>
      if id in LapsedIds(s.table, Millis(now)) then h.(reclaims := h.reclaims + 1) else h
    case Charge(e, delta, _) =>
      if e in s.live && s.live[e].job == id && id in s.table then h.(spent := h.spent.Plus(delta)) else h
    case _ => h
  }

  /** Everything that happened to a job in a run. */
  ghost function Events(r: Run, id: JobId): History {
    match r
    case Start(_) => NO_HISTORY
    case Then(before, a) => Tally(Events(before, id), End(before), a, id)
  }

  /** The state's history of a job is `h`; an unknown job has none. */
  ghost predicate Tracks(s: System, id: JobId, h: History) {
    h == if id in s.history then s.history[id] else NO_HISTORY
  }

  lemma StepRecordsEvent(s: System, a: Action, id: JobId, h: History)
    requires Inv(s) && Enabled(s, a) && Tracks(s, id, h)
    ensures Tracks(Apply(s, a), id, Tally(h, s, a, id))
  {
    match a
    case Claim(_, claimed, worker, now) =>
      PendingRowsRewriteFreely(s.table, claimed,
                               Claimed(s.table[claimed], worker, Millis(now + s.lease), Millis(now)));
    case Charge(e, delta, now) =>
      if s.live[e].job in s.table {
        ChargeIsAccepted(s.table, s.live[e].job, delta, Millis(now));
      }
    case _ =>
  }

  /** A usage write keeps state and key, so no constraint can refuse it. */
  lemma ChargeIsAccepted(t: Table, id: JobId, delta: Usage, now: int)
    requires TableOk(t) && id in t
    ensures RecordJobUsage(t, id, delta, now).Ok?
  {
    if t[id].state.Pending() && t[id].dedupeKey.Some? {
      assert Holds(t, id, t[id].dedupeKey.value);
    }
  }

  lemma {:induction false} HistoryIsWhatHappened(r: Run, id: JobId)
    requires IsRun(r)
    ensures Tracks(End(r), id, Events(r, id))
  {
    match r
    case Start(_) =>
    case Then(before, a) =>
      HistoryIsWhatHappened(before, id);
      RunsKeepInv(before);
      StepRecordsEvent(End(before), a, id, Events(before, id));
  }

  /** However workers crash, stall, retry, release or are cancelled, a job is
      never attempted more than its limit plus one attempt per reclaim; attempts
      are exactly claims less effective releases, so claims are bounded too. */
  lemma AttemptsAreBounded(r: Run, id: JobId)
    requires IsRun(r) && id in End(r).table
    ensures var row, h := End(r).table[id], Events(r, id);
            && row.attempts <= row.maxAttempts + h.reclaims
            && row.attempts == h.claims - h.releases
            && h.claims <= row.maxAttempts + h.reclaims + h.releases
  {
    RunsKeepInv(r);
    HistoryIsWhatHappened(r, id);
  }

  /** The sum of one figure over every usage report a run makes for a job. */
  ghost function Charged(r: Run, id: JobId, figure: Usage -> int): int {
    match r
    case Start(_) => 0
    case Then(before, a) =>
      var s := End(before);
      Charged(before, id, figure)
        + (if a.Charge? && a.exec in s.live && s.live[a.exec].job == id && id in s.table then figure(a.delta) else 0)
  }

  lemma {:induction false} SpentIsCharged(r: Run, id: JobId)
    ensures Events(r, id).spent.tokensIn == Charged(r, id, (u: Usage) => u.tokensIn)
    ensures Events(r, id).spent.tokensOut == Charged(r, id, (u: Usage) => u.tokensOut)
    ensures Events(r, id).spent.costMicros == Charged(r, id, (u: Usage) => u.costMicros)
  {
    if r.Then? {
      SpentIsCharged(r.before, id);
    }
  }

  /** Until its row is purged, each of a job's totals is the sum of that figure over
      every usage report made for it, across attempts, retries, reclaims and
      cancellation. */
  lemma {:induction false} UsageIsConserved(r: Run, id: JobId)
    requires IsRun(r) && id in End(r).table
    ensures End(r).table[id].usage.tokensIn == Charged(r, id, (u: Usage) => u.tokensIn)
    ensures End(r).table[id].usage.tokensOut == Charged(r, id, (u: Usage) => u.tokensOut)
    ensures End(r).table[id].usage.costMicros == Charged(r, id, (u: Usage) => u.costMicros)
  {
    RunsKeepInv(r);
    HistoryIsWhatHappened(r, id);
    SpentIsCharged(r, id);
  }

  /** Releasing gives back an attempt that was really taken: the clamp at zero in
      ReleaseJob never bites. */
  lemma {:induction false} ReleaseNeverClamps(r: Run, id: JobId, now: int)
    requires IsRun(r) && id in End(r).table && End(r).table[id].state.Running?
    ensures Released(End(r).table[id], now).attempts == End(r).table[id].attempts - 1
  {
    RunsKeepInv(r);
  }

  /** Every row of every reachable table: it runs exactly while it has a lease and a
      worker, a running row has been attempted and has a start time, a terminal one is dated, a success is
      complete, progress is a fraction; and what a live worker copied is no later
      than the row, but for one attempt given back since. */
  lemma {:induction false} RowsAreConsistent(r: Run, id: JobId)
    requires IsRun(r) && id in End(r).table
    ensures var row := End(r).table[id];
            && (row.state.Running? <==> row.leaseUntil.Some?) && (row.state.Running? <==> row.worker != "")
            && (row.state.Running? ==> 1 <= row.attempts && row.startedAt.Some?)
            && (row.state.Terminal() ==> row.finishedAt.Some?)
            && (row.state.Succeeded? ==> row.progress == 1.0) && 0.0 <= row.progress <= 1.0
            && (forall e | e in End(r).live && End(r).live[e].job == id ::
                  1 <= End(r).live[e].attempts <= row.attempts + (if row.state.Running? then 0 else 1))
  {
    RunsKeepInv(r);
    forall e | e in End(r).live && End(r).live[e].job == id
      ensures SnapshotOk(End(r).live[e], End(r).table[id])
    {
    }
  }
}
