/** What a pool does to a finite batch of fresh jobs when no worker dies, no lease
    lapses and nobody cancels: it finishes them all, in bounded work. */
module Drain {
  import opened Wrappers
  import opened Clock
  import opened JobRows
  import opened Protocol
  import opened ProtocolInvariant
  import opened Leases

  // ----- sums over a batch -----

  ghost predicate Enumerates(ids: seq<JobId>, t: Table) {
    && (forall i, j | 0 <= i < j < |ids| :: ids[i] != ids[j])
    && (forall i | 0 <= i < |ids| :: ids[i] in t)
    && (forall id | id in t :: id in ids)
  }

  /** Attempts the batch is still allowed. */
  ghost function Remaining(ids: seq<JobId>, t: Table): int
    requires forall i | 0 <= i < |ids| :: ids[i] in t
  {
    if ids == [] then 0 else t[ids[0]].maxAttempts - t[ids[0]].attempts + Remaining(ids[1..], t)
  }

  /** Changing one row's attempts changes the sum by as much. */
  lemma {:induction false} RemainingChanges(ids: seq<JobId>, t: Table, t': Table, id: JobId)
    requires forall i | 0 <= i < |ids| :: ids[i] in t && ids[i] in t'
    requires forall i, j | 0 <= i < j < |ids| :: ids[i] != ids[j]
    requires id in t && id in t' && t'[id].maxAttempts == t[id].maxAttempts
    requires forall other | other in t && other in t' && other != id ::
               t'[other].maxAttempts == t[other].maxAttempts && t'[other].attempts == t[other].attempts
    ensures Remaining(ids, t') == Remaining(ids, t) - (if id in ids then t'[id].attempts - t[id].attempts else 0)
  {
    if ids != [] {
      assert forall i | 0 <= i < |ids[1..]| :: ids[1..][i] == ids[i + 1];
      RemainingChanges(ids[1..], t, t', id);
      assert ids == [ids[0]] + ids[1..];
    }
  }

  lemma {:induction false} RemainingIsNonNegative(ids: seq<JobId>, t: Table)
    requires forall i | 0 <= i < |ids| :: ids[i] in t && t[ids[i]].attempts <= t[ids[i]].maxAttempts
    ensures 0 <= Remaining(ids, t)
  {
    if ids != [] {
      RemainingIsNonNegative(ids[1..], t);
    }
  }

  // ----- every interleaving of workers -----

  ghost predicate Fresh(s: System) {
    && TableOk(s.table) && s.live == map[]
    && forall id | id in s.table ::
         && s.table[id].state.Queued? && s.table[id].attempts == 0 && s.table[id].usage == NO_USAGE
         && id in s.history && s.history[id] == NO_HISTORY
  }

  /** Workers claim, renew, report and settle; nothing is interrupted. */
  predicate Quiet(a: Action) {
    match a
    case Claim(_, _, _, _) => true
    case Renew(_, _) => true
    case Progress(_, _, _, _) => true
    case Charge(_, _, _) => true
    case Finish(_, result, _, _) => !result.Interrupted?
    case Tick(_) => true
    case _ => false
  }

  ghost predicate IsQuietRun(r: Run) {
    match r
    case Start(s) => Fresh(s)
    case Then(before, a) => IsQuietRun(before) && Quiet(a) && Enabled(End(before), a)
  }

  function Origin(r: Run): System {
    match r
    case Start(s) => s
    case Then(before, _) => Origin(before)
  }

  function Claims(r: Run): nat {
    match r
    case Start(_) => 0
    case Then(before, a) => Claims(before) + (if a.Claim? then 1 else 0)
  }

  function Finishes(r: Run): nat {
    match r
    case Start(_) => 0
    case Then(before, a) => Finishes(before) + (if a.Finish? then 1 else 0)
  }

  ghost predicate RowDrains(row: Row, h: History) {
    && row.attempts <= row.maxAttempts
    && (row.state.Queued? ==> row.attempts < row.maxAttempts)
    && !row.state.Cancelled?
    && h.nils == (if row.state.Succeeded? then 1 else 0)
  }

  ghost predicate Draining(s: System) {
    && (forall e | e in s.live :: s.live[e].job in s.table && s.table[s.live[e].job].state.Running?)
    && (forall id | id in s.table && s.table[id].state.Running? :: exists e :: e in s.live && s.live[e].job == id)
    && (forall id | id in s.table :: id in s.history && RowDrains(s.table[id], s.history[id]))
  }

  lemma FreshIsDraining(s: System)
    requires Fresh(s)
    ensures Inv(s) && Exclusive(s) && Draining(s)
  {
    forall id | id in s.table
      ensures JobBudgeted(s, id)
    {
      assert Eager(s.live, id, s.table[id].maxAttempts) == {};
    }
  }

  lemma ClaimKeepsDraining(s: System, e: ExecId, id: JobId, worker: string, now: int)
    requires Inv(s) && Draining(s) && Enabled(s, Claim(e, id, worker, now))
    ensures Draining(AfterClaim(s, e, id, worker, now))
  {
    var s' := AfterClaim(s, e, id, worker, now);
    PendingRowsRewriteFreely(s.table, id, Claimed(s.table[id], worker, Millis(now + s.lease), Millis(now)));
    forall other | other in s'.table && s'.table[other].state.Running?
      ensures exists f :: f in s'.live && s'.live[f].job == other
    {
      if other == id {
        assert e in s'.live && s'.live[e].job == id;
      } else {
        var f :| f in s.live && s.live[f].job == other;
        assert f in s'.live && s'.live[f].job == other;
      }
    }
  }

  /** A sole executor's outcome, whichever it is, leaves its row drained. */
  lemma SettledRowDrains(s: System, e: ExecId, result: HandlerResult, now: int, delay: int)
    requires Inv(s) && Exclusive(s) && Draining(s) && e in s.live && !result.Interrupted?
    ensures var id, s' := s.live[e].job, AfterFinish(s, e, result, now, delay);
            && id in s'.table && id in s'.history && RowDrains(s'.table[id], s'.history[id])
            && !s'.table[id].state.Running?
  {
    var x := s.live[e];
    var row := s.table[x.job];
    assert Owns(x, row, s.lease) && SnapshotOk(x, row) && RowDrains(row, s.history[x.job]);
    if result.ReturnedError? && x.attempts < x.maxAttempts {
      PendingRowsRewriteFreely(s.table, x.job, Retried(row, result.cause, Millis(now + delay), Millis(now)));
    }
  }

  /** One execution gone, its job's row drained and stopped, all else untouched. */
  ghost predicate Settled(s: System, s': System, e: ExecId)
    requires e in s.live
  {
    var job := s.live[e].job;
    && s'.live == s.live - {e} && s'.table.Keys == s.table.Keys && s'.history.Keys == s.history.Keys + {job}
    && (forall id | id in s.table && id != job :: s'.table[id] == s.table[id])
    && (forall id | id in s.history && id != job :: s'.history[id] == s.history[id])
    && job in s.table && RowDrains(s'.table[job], s'.history[job]) && !s'.table[job].state.Running?
  }

  lemma SettledKeepsDraining(s: System, s': System, e: ExecId)
    requires Exclusive(s) && Draining(s) && e in s.live && Settled(s, s', e)
    ensures Draining(s')
  {
    forall id | id in s'.table && s'.table[id].state.Running?
      ensures exists f :: f in s'.live && s'.live[f].job == id
    {
      var f :| f in s.live && s.live[f].job == id;
      assert f in s'.live && s'.live[f].job == id;
    }
  }

  lemma FinishKeepsDraining(s: System, e: ExecId, result: HandlerResult, now: int, delay: int)
    requires Inv(s) && Exclusive(s) && Draining(s) && e in s.live && !result.Interrupted?
    ensures Draining(AfterFinish(s, e, result, now, delay))
  {
    SettledRowDrains(s, e, result, now, delay);
    assert Settled(s, AfterFinish(s, e, result, now, delay), e);
    SettledKeepsDraining(s, AfterFinish(s, e, result, now, delay), e);
  }

  /** Same executions of the same jobs; rows alike in all that draining looks at. */
  ghost predicate AlikeForDraining(s: System, s': System) {
    && s'.live.Keys == s.live.Keys && (forall e | e in s.live :: s'.live[e].job == s.live[e].job)
    && s'.table.Keys == s.table.Keys
    && (forall id | id in s.table ::
          && s'.table[id].(note := s.table[id].note, progress := s.table[id].progress, usage := s.table[id].usage,
                           leaseUntil := s.table[id].leaseUntil, updatedAt := s.table[id].updatedAt) == s.table[id]
          && id in s'.history && id in s.history && s'.history[id].nils == s.history[id].nils)
  }

  lemma AlikeKeepsDraining(s: System, s': System)
    requires Draining(s) && AlikeForDraining(s, s')
    ensures Draining(s')
  {
    forall id | id in s'.table && s'.table[id].state.Running?
      ensures exists f :: f in s'.live && s'.live[f].job == id
    {
      assert s.table[id].state.Running?;
      var f :| f in s.live && s.live[f].job == id;
      assert f in s'.live && s'.live[f].job == id;
    }
  }

  lemma ChargesAreAlike(s: System, a: Action)
    requires Draining(s) && Enabled(s, a) && a.Charge?
    ensures AlikeForDraining(s, Apply(s, a))
  {
  }

  lemma OthersAreAlike(s: System, a: Action)
    requires Draining(s) && Enabled(s, a) && Quiet(a) && !a.Claim? && !a.Finish?
    ensures AlikeForDraining(s, Apply(s, a))
  {
    if a.Charge? {
      ChargesAreAlike(s, a);
    } else if a.Renew? {
      RenewalsAreAlike(s, a);
    } else if a.Progress? {
      ProgressIsAlike(s, a);
    }
  }

  lemma RenewalsAreAlike(s: System, a: Action)
    requires Draining(s) && Enabled(s, a) && a.Renew?
    ensures AlikeForDraining(s, Apply(s, a))
  {
  }

  lemma ProgressIsAlike(s: System, a: Action)
    requires Draining(s) && Enabled(s, a) && a.Progress?
    ensures AlikeForDraining(s, Apply(s, a))
  {
  }

  lemma StepKeepsDraining(s: System, a: Action)
    requires Inv(s) && Exclusive(s) && Draining(s) && Enabled(s, a) && Quiet(a)
    ensures Draining(Apply(s, a))
  {
    if a.Claim? {
      ClaimKeepsDraining(s, a.exec, a.id, a.worker, a.now);
    } else if a.Finish? {
      FinishKeepsDraining(s, a.exec, a.result, a.now, a.delay);
    } else {
      OthersAreAlike(s, a);
      AlikeKeepsDraining(s, Apply(s, a));
    }
  }

  lemma QuietStepsKeepIds(s: System, a: Action)
    requires Enabled(s, a) && Quiet(a)
    ensures Apply(s, a).table.Keys == s.table.Keys
  {
  }

  lemma {:induction false} QuietRunsDrain(r: Run)
    requires IsQuietRun(r)
    ensures Inv(End(r)) && Exclusive(End(r)) && Draining(End(r))
    ensures End(r).table.Keys == Origin(r).table.Keys
  {
    match r
    case Start(s) => FreshIsDraining(s);
    case Then(before, a) =>
      QuietRunsDrain(before);
      StepKeepsInv(End(before), a);
      StepKeepsExclusive(End(before), a);
      StepKeepsDraining(End(before), a);
      QuietStepsKeepIds(End(before), a);
  }

  /** A claim spends one permitted attempt; nothing else touches the sum. */
  lemma StepSpends(s: System, a: Action, ids: seq<JobId>)
    requires Inv(s) && Enabled(s, a) && Quiet(a) && Enumerates(ids, s.table)
    ensures Enumerates(ids, Apply(s, a).table)
    ensures Remaining(ids, Apply(s, a).table) == Remaining(ids, s.table) - (if a.Claim? then 1 else 0)
  {
    var s' := Apply(s, a);
    QuietStepsKeepIds(s, a);
    if a.Claim? {
      ClaimRaisesAttempts(s, a);
      RemainingChanges(ids, s.table, s'.table, a.id);
    } else if ids != [] {
      OthersKeepAttempts(s, a);
      RemainingChanges(ids, s.table, s'.table, ids[0]);
    }
  }

  lemma ClaimRaisesAttempts(s: System, a: Action)
    requires Inv(s) && Enabled(s, a) && a.Claim?
    ensures var t, t' := s.table, Apply(s, a).table;
            && t'.Keys == t.Keys && t'[a.id].attempts == t[a.id].attempts + 1
            && (forall id | id in t :: t'[id].maxAttempts == t[id].maxAttempts
                                    && (id != a.id ==> t'[id].attempts == t[id].attempts))
  {
    PendingRowsRewriteFreely(s.table, a.id,
                             Claimed(s.table[a.id], a.worker, Millis(a.now + s.lease), Millis(a.now)));
  }

  lemma OthersKeepAttempts(s: System, a: Action)
    requires Enabled(s, a) && Quiet(a) && !a.Claim?
    ensures var t, t' := s.table, Apply(s, a).table;
            && t'.Keys == t.Keys
            && (forall id | id in t :: t'[id].maxAttempts == t[id].maxAttempts && t'[id].attempts == t[id].attempts)
  {
  }

  lemma StepCountsLive(s: System, a: Action)
    requires Inv(s) && Enabled(s, a) && Quiet(a)
    ensures |Apply(s, a).live| == |s.live| + (if a.Claim? then 1 else 0) - (if a.Finish? then 1 else 0)
  {
    var keys, keys' := s.live.Keys, Apply(s, a).live.Keys;
    StepMovesLive(s, a);
    if a.Claim? {
      assert |keys'| == |keys| + 1;
    } else if a.Finish? {
      assert |keys| == |keys'| + 1;
    }
    assert |s.live| == |keys| && |Apply(s, a).live| == |keys'|;
  }

  lemma StepMovesLive(s: System, a: Action)
    requires Inv(s) && Enabled(s, a) && Quiet(a)
    ensures var keys, keys' := s.live.Keys, Apply(s, a).live.Keys;
            if a.Claim? then a.exec !in keys && keys' == keys + {a.exec}
            else if a.Finish? then a.exec in keys && keys' == keys - {a.exec}
            else keys' == keys
  {
    if a.Claim? {
      PendingRowsRewriteFreely(s.table, a.id,
                               Claimed(s.table[a.id], a.worker, Millis(a.now + s.lease), Millis(a.now)));
    }
  }

  lemma {:induction false} WorkIsAccountedFor(r: Run, ids: seq<JobId>)
    requires IsQuietRun(r) && Enumerates(ids, Origin(r).table)
    ensures Enumerates(ids, End(r).table)
    ensures Claims(r) + Remaining(ids, End(r).table) == Remaining(ids, Origin(r).table)
    ensures Finishes(r) + |End(r).live| == Claims(r)
  {
    match r
    case Start(_) =>
    case Then(before, a) =>
      WorkIsAccountedFor(before, ids);
      QuietRunsDrain(before);
      StepSpends(End(before), a, ids);
      StepCountsLive(End(before), a);
  }

  lemma {:induction false} NextExists(t: Table, now: int, ids: seq<JobId>) returns (next: JobId)
    requires forall i | 0 <= i < |ids| :: ids[i] in t
    requires exists i :: 0 <= i < |ids| && Runnable(t, ids[i], now)
    ensures Runnable(t, next, now)
    ensures forall i | 0 <= i < |ids| && Runnable(t, ids[i], now) :: Before(t, next, ids[i])
  {
    var rest := ids[1..];
    assert forall i | 0 <= i < |rest| :: rest[i] == ids[i + 1];
    next := ids[0];
    if i :| 0 <= i < |rest| && Runnable(t, rest[i], now) {
      var best := NextExists(t, now, rest);
      if !Runnable(t, ids[0], now) || Before(t, best, ids[0]) {
        next := best;
      }
      forall i | 0 <= i < |ids| && Runnable(t, ids[i], now)
        ensures Before(t, next, ids[i])
      {
        if i > 0 {
          assert ids[i] == rest[i - 1] && Before(t, best, rest[i - 1]);
        }
      }
    } else {
      assert forall i | 1 <= i < |ids| :: ids[i] == rest[i - 1];
    }
  }

  ghost predicate AllTerminal(t: Table) {
    forall id | id in t :: t[id].state.Terminal()
  }

  /** Any number of workers, in any interleaving, do bounded work on a fresh batch:
      claims never exceed the attempts it was allowed, finishes never exceed claims,
      and as long as some job is not terminal a worker can finish one or, once the
      clock has moved, claim one. */
  lemma QuietPoolsFinish(r: Run, ids: seq<JobId>)
    requires IsQuietRun(r) && Enumerates(ids, Origin(r).table)
    ensures Claims(r) <= Remaining(ids, Origin(r).table)
    ensures Finishes(r) <= Claims(r)
    ensures End(r).table.Keys == Origin(r).table.Keys
    ensures AllTerminal(End(r).table)
         || (exists e :: Enabled(End(r), Finish(e, ReturnedNil, End(r).clock, 0)))
         || (exists until, e, id :: Enabled(End(r), Tick(until))
                                 && Enabled(Apply(End(r), Tick(until)), Claim(e, id, "worker", until)))
  {
    WorkIsAccountedFor(r, ids);
    QuietRunsDrain(r);
    var s := End(r);
    RemainingIsNonNegative(ids, s.table);
    if e :| e in s.live {
      assert Enabled(s, Finish(e, ReturnedNil, s.clock, 0));
    } else if id :| id in s.table && !s.table[id].state.Terminal() {
      var until, next := QueuedJobsComeDue(s, ids, id);
      assert Enabled(s, Tick(until));
    }
  }

  lemma QueuedJobsComeDue(s: System, ids: seq<JobId>, id: JobId) returns (until: int, next: JobId)
    requires Enumerates(ids, s.table) && id in s.table && s.table[id].state.Queued? && s.live == map[]
    ensures Enabled(s, Tick(until)) && Enabled(Apply(s, Tick(until)), Claim(0, next, "worker", until))
  {
    var due := s.table[id].runAfter * MILLISECOND;
    until := if s.clock <= due then due else s.clock;
    MillisMonotone(due, until);
    assert Runnable(s.table, id, Millis(until));
    next := NextExists(s.table, Millis(until), ids);
    assert IsNext(s.table, next, Millis(until));
  }

  // ----- how each job ends -----

  /** The result of the last execution of a job to end, once an action is added. */
  function ResultAfter(last: Option<HandlerResult>, s: System, a: Action, id: JobId): Option<HandlerResult> {
    if a.Finish? && a.exec in s.live && s.live[a.exec].job == id then Some(a.result) else last
  }

  /** How the last execution of a job to end did end. */
  ghost function LastResult(r: Run, id: JobId): Option<HandlerResult> {
    match r
    case Start(_) => None
    case Then(before, a) => ResultAfter(LastResult(before, id), End(before), a, id)
  }

  /** The state a job is left in by that result. */
  function Verdict(last: Option<HandlerResult>, attempts: int, maxAttempts: int): State {
    match last
    case None => Queued
    case Some(ReturnedNil) => Succeeded
    case Some(NoHandler) => Failed
    case Some(ReturnedError(_)) => if attempts >= maxAttempts then Failed else Queued
    case Some(Interrupted) => Queued
  }

  /** A row at rest is where its last result left it; a running one was queued by
      the last result before its present attempt. */
  predicate Follows(row: Row, last: Option<HandlerResult>) {
    if row.state.Running? then Verdict(last, row.attempts - 1, row.maxAttempts) == Queued
    else row.state == Verdict(last, row.attempts, row.maxAttempts)
  }

  lemma FinishFollows(s: System, e: ExecId, result: HandlerResult, now: int, delay: int)
    requires Inv(s) && Exclusive(s) && Draining(s) && e in s.live && !result.Interrupted?
    ensures s.live[e].job in AfterFinish(s, e, result, now, delay).table
    ensures Follows(AfterFinish(s, e, result, now, delay).table[s.live[e].job], Some(result))
  {
    var x := s.live[e];
    var row := s.table[x.job];
    assert Owns(x, row, s.lease) && SnapshotOk(x, row);
    if result.ReturnedError? && x.attempts < x.maxAttempts {
      PendingRowsRewriteFreely(s.table, x.job, Retried(row, result.cause, Millis(now + delay), Millis(now)));
    }
  }

  lemma ClaimFollows(s: System, a: Action, id: JobId, last: Option<HandlerResult>)
    requires Inv(s) && Enabled(s, a) && a.Claim? && id in s.table && Follows(s.table[id], last)
    ensures id in Apply(s, a).table && Follows(Apply(s, a).table[id], last)
  {
    var row := Claimed(s.table[a.id], a.worker, Millis(a.now + s.lease), Millis(a.now));
    PendingRowsRewriteFreely(s.table, a.id, row);
  }

  /** Ending one execution leaves the rows of all other jobs alone. */
  lemma FinishSparesOthers(s: System, e: ExecId, result: HandlerResult, now: int, delay: int, id: JobId)
    requires e in s.live && id in s.table && id != s.live[e].job
    ensures id in AfterFinish(s, e, result, now, delay).table
    ensures AfterFinish(s, e, result, now, delay).table[id] == s.table[id]
  {
  }

  lemma StepFollows(s: System, a: Action, id: JobId, last: Option<HandlerResult>)
    requires Inv(s) && Exclusive(s) && Draining(s) && Enabled(s, a) && Quiet(a)
    requires id in s.table && Follows(s.table[id], last)
    ensures id in Apply(s, a).table && Follows(Apply(s, a).table[id], ResultAfter(last, s, a, id))
  {
    if a.Claim? {
      ClaimFollows(s, a, id, last);
    } else if a.Finish? {
      if s.live[a.exec].job == id {
        FinishFollows(s, a.exec, a.result, a.now, a.delay);
      } else {
        FinishSparesOthers(s, a.exec, a.result, a.now, a.delay, id);
      }
    } else {
      OthersAreAlike(s, a);
      RestFollows(s, a, id, last);
    }
  }

  lemma RestFollows(s: System, a: Action, id: JobId, last: Option<HandlerResult>)
    requires Enabled(s, a) && AlikeForDraining(s, Apply(s, a)) && !a.Finish?
    requires id in s.table && Follows(s.table[id], last)
    ensures id in Apply(s, a).table && Follows(Apply(s, a).table[id], ResultAfter(last, s, a, id))
  {
    var row, row' := s.table[id], Apply(s, a).table[id];
    assert row'.state == row.state && row'.attempts == row.attempts && row'.maxAttempts == row.maxAttempts;
  }

  lemma {:induction false} QuietRunsFollow(r: Run, id: JobId)
    requires IsQuietRun(r) && id in Origin(r).table
    ensures id in End(r).table && Follows(End(r).table[id], LastResult(r, id))
  {
    if r.Then? {
      QuietRunsFollow(r.before, id);
      QuietRunsDrain(r.before);
      StepFollows(End(r.before), r.action, id, LastResult(r.before, id));
    }
  }

  lemma {:induction false} QuietHistory(r: Run, id: JobId)
    requires IsQuietRun(r) && id in Origin(r).table
    ensures Tracks(End(r), id, Events(r, id)) && Events(r, id).releases == 0
  {
    match r
    case Start(_) =>
    case Then(before, a) =>
      QuietHistory(before, id);
      QuietRunsDrain(before);
      StepRecordsEvent(End(before), a, id, Events(before, id));
  }

  /** How each job ends, in terms of what the run did: attempts are its claims, it
      succeeds exactly when one execution returned nil, it fails for good exactly
      when one found no handler or an error used up the last attempt, and at rest
      it is where its last execution's result puts it. */
  lemma {:induction false} QuietOutcomes(r: Run, id: JobId)
    requires IsQuietRun(r) && id in End(r).table
    ensures var row, h, last := End(r).table[id], Events(r, id), LastResult(r, id);
            && !row.state.Cancelled?
            && row.attempts == h.claims <= row.maxAttempts
            && (row.state.Succeeded? <==> h.nils >= 1) && h.nils <= 1
            && (row.state.Failed? <==>
                  && !row.state.Running? && last.Some?
                  && (last.value.NoHandler? || (last.value.ReturnedError? && row.attempts == row.maxAttempts)))
            && Follows(row, last)
  {
    QuietRunsDrain(r);
    QuietRunsFollow(r, id);
    QuietHistory(r, id);
  }

  /** The nil was the last execution: the job is never claimed again. */
  lemma {:induction false} NothingFollowsNil(r: Run, later: Run, id: JobId)
    requires IsQuietRun(later) && IsQuietRun(r) && Extends(later, r)
    requires id in End(r).table && Events(r, id).nils >= 1
    ensures id in End(later).table && End(later).table[id].state.Succeeded?
    ensures Events(later, id).claims == Events(r, id).claims && Events(later, id).nils == 1
  {
    if later == r {
      QuietOutcomes(r, id);
    } else {
      NothingFollowsNil(r, later.before, id);
      QuietRunsDrain(later.before);
      QuietStepsKeepIds(End(later.before), later.action);
      QuietOutcomes(later.before, id);
      QuietOutcomes(later, id);
    }
  }
}
