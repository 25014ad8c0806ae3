/** Crash recovery: killed workers lose nothing. */
module Recovery {
  import opened Clock
  import opened JobRows
  import opened Protocol
  import opened ProtocolInvariant
  import opened Lifecycle

  ghost predicate PastEveryLease(t: Table, now: int) {
    forall id | id in t && t[id].leaseUntil.Some? :: t[id].leaseUntil.value < now
  }

  /** Kill every worker, wait out every lease, reclaim once. */
  function Recover(s: System, until: int): System
    requires s.clock <= until
  {
    var killed := Apply(s, Crash(s.live.Keys));
    var waited := Apply(killed, Tick(until));
    Apply(waited, Reclaim(until))
  }

  /** Afterwards nothing runs; every job is still there with its payload, attempts
      and usage; only rows that were running differ, those are back in the queue
      and due at once; and there are exactly as many as the reclaim reports. */
  lemma {:induction false} CrashesLoseNothing(r: Run, until: int)
    requires IsRun(r) && End(r).clock <= until && PastEveryLease(End(r).table, Millis(until))
    ensures var t, t' := End(r).table, Recover(End(r), until).table;
            && t'.Keys == t.Keys
            && (forall id | id in t' ::
                  && !t'[id].state.Running?
                  && SameJob(t[id], t'[id]) && t'[id].attempts == t[id].attempts && t'[id].usage == t[id].usage
                  && (t'[id] != t[id] <==> t[id].state.Running?)
                  && (t[id].state.Running? ==>
                        Runnable(t', id, Millis(until)) && t'[id].lastError == RECLAIMED))
            && LapsedIds(t, Millis(until)) == (set id | id in t && t[id].state.Running?)
  {
    RunsKeepInv(r);
    RunningJobsAreDue(r);
    MillisMonotone(End(r).clock, until);
    RecoveryReclaims(End(r), until);
    forall id | id in End(r).table
      ensures Requeued(End(r).table[id], ReclaimExpired(End(r).table, Millis(until))[id], Millis(until))
      ensures id in LapsedIds(End(r).table, Millis(until)) <==> End(r).table[id].state.Running?
    {
      LapsedRowsRequeue(End(r).table, Millis(until), id);
    }
  }

  lemma RecoveryReclaims(s: System, until: int)
    requires s.clock <= until
    ensures Recover(s, until).table == ReclaimExpired(s.table, Millis(until))
  {
  }

  /** A row that ran is as it was but back in the queue and due; any other is as it
      was. */
  ghost predicate Requeued(row: Row, row': Row, now: int) {
    && SameJob(row, row') && row'.attempts == row.attempts && row'.usage == row.usage
    && !row'.state.Running? && (row' != row <==> row.state.Running?)
    && (row.state.Running? ==> row'.state.Queued? && row'.runAfter <= now && row'.lastError == RECLAIMED)
  }

  lemma LapsedRowsRequeue(t: Table, now: int, id: JobId)
    requires TableOk(t) && id in t && PastEveryLease(t, now)
    requires t[id].state.Running? ==> t[id].runAfter <= now
    ensures Requeued(t[id], ReclaimExpired(t, now)[id], now)
    ensures id in LapsedIds(t, now) <==> t[id].state.Running?
  {
  }

  /** At startup a reclaim takes a running row if and only if its lease has
      already lapsed; one still in force keeps its dead worker's job. */
  lemma ReclaimWaitsOutLeases(r: Run, now: int, id: JobId)
    requires IsRun(r) && id in End(r).table && End(r).table[id].state.Running? && now <= End(r).clock
    ensures var row, row' := End(r).table[id], Apply(End(r), Reclaim(now)).table[id];
            && row.leaseUntil.Some?
            && (row'.state.Queued? <==> row.leaseUntil.value < Millis(now))
            && (!row'.state.Queued? ==> row' == row)
  {
    RunsKeepInv(r);
    assert RowOk(End(r).table[id]);
    assert Apply(End(r), Reclaim(now)).table == ReclaimExpired(End(r).table, Millis(now));
  }
}
