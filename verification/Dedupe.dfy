/** The partial unique index on dedupe keys: what it keeps, and exactly which
    writes it can refuse. */
module Dedupe {
  import opened Wrappers
  import opened JobRows
  import opened Protocol
  import opened ProtocolInvariant

  /** In every reachable state a key has at most one pending job. */
  lemma {:induction false} PendingKeysAreUnique(r: Run, a: JobId, b: JobId, key: string)
    requires IsRun(r) && a in End(r).table && b in End(r).table
    requires End(r).table[a].state.Queued? || End(r).table[a].state.Running?
    requires End(r).table[b].state.Queued? || End(r).table[b].state.Running?
    requires End(r).table[a].dedupeKey == End(r).table[b].dedupeKey == Some(key)
    ensures a == b
  {
    RunsKeepInv(r);
    assert Holds(End(r).table, a, key) && Holds(End(r).table, b, key);
  }

  /** An insert is refused exactly when its id is taken or its key is held. */
  lemma EnqueueIsRefusedIff(t: Table, id: JobId, request: Request, now: int)
    ensures EnqueueJob(t, id, FreshRow(request, now)).Err?
       <==> id in t || (request.dedupeKey != "" && exists holder :: Holds(t, holder, request.dedupeKey))
  {
    if id !in t && request.dedupeKey != "" {
      if holder :| Holds(t, holder, request.dedupeKey) {
        assert holder in t && holder != id;
      }
    }
  }

  /** A retry is refused exactly when its job had already left the pending states
      and another pending job has taken the key since. */
  lemma RetryIsRefusedIff(t: Table, id: JobId, cause: string, runAfter: int, now: int)
    requires TableOk(t)
    ensures RetryJob(t, id, cause, runAfter, now).Err?
       <==> && id in t && !t[id].state.Pending() && t[id].dedupeKey.Some?
            && exists holder :: holder != id && Holds(t, holder, t[id].dedupeKey.value)
  {
    if id in t && t[id].dedupeKey.Some? {
      var key := t[id].dedupeKey.value;
      if t[id].state.Pending() {
        assert Holds(t, id, key);
      }
      if holder :| holder != id && Holds(t, holder, key) {
        assert holder in t;
      }
    }
  }

  /** No other write of any reachable state is ever refused. */
  lemma {:induction false} OtherWritesAreAccepted(r: Run, id: JobId, note: string, cause: string, fraction: real,
                               delta: Usage, worker: string, leaseUntil: int, now: int)
    requires IsRun(r) && id in End(r).table
    ensures var t := End(r).table;
            && (Runnable(t, id, now) ==> ClaimJob(t, id, worker, leaseUntil, now).Ok?)
            && UpdateJobProgress(t, id, Clamp(fraction), note, now).Ok?
            && ExtendLease(t, id, leaseUntil, now).Ok?
            && RecordJobUsage(t, id, delta, now).Ok?
            && CompleteJob(t, id, note, now).Ok?
            && ReleaseJob(t, id, now).Ok?
            && FailJob(t, id, cause, now).Ok?
            && CancelJob(t, id, now).Ok?
  {
    RunsKeepInv(r);
    var t := End(r).table;
    ChargeIsAccepted(t, id, delta, now);
    if t[id].state.Pending() && t[id].dedupeKey.Some? {
      assert Holds(t, id, t[id].dedupeKey.value);
    }
  }

  /** Nor does a reclaim trip the index, whatever order its rows are rewritten in:
      after any part of them has been, the next is still accepted. */
  lemma {:induction false} ReclaimIsAccepted(r: Run, done: Table, id: JobId, now: int)
    requires IsRun(r) && id in LapsedIds(End(r).table, now)
    requires done.Keys == End(r).table.Keys
    requires forall other | other in done ::
               done[other] == End(r).table[other] || done[other] == ReclaimExpired(End(r).table, now)[other]
    ensures Write(done, id, Reclaimed(End(r).table[id], now)).Ok?
  {
    RunsKeepInv(r);
    var t := End(r).table;
    if t[id].dedupeKey.Some? {
      var key := t[id].dedupeKey.value;
      assert Holds(t, id, key);
      forall other | other in done && other != id
        ensures !Holds(done, other, key)
      {
        assert Holds(done, other, key) ==> Holds(t, other, key);
      }
    }
  }

  // ----- Enqueue with its fallback lookup -----

  datatype Enqueued = Added(row: Row) | AlreadyQueued(existing: JobId) | Refused

  /** GetPendingJobByDedupeKey. */
  ghost predicate FindsPending(t: Table, key: string, found: Option<JobId>) {
    match found
    case Some(id) => Holds(t, id, key)
    case None => forall id | id in t :: !Holds(t, id, key)
  }

  /** The insert and the lookup are separate statements; `later` is the table the
      lookup reads. */
  function EnqueueOutcome(t: Table, id: JobId, request: Request, now: int, found: Option<JobId>): Enqueued {
    var row := FreshRow(request, now);
    match EnqueueJob(t, id, row)
    case Ok(_) => Added(row)
    case Err(e) =>
      if request.dedupeKey != "" && e.UniqueViolation? && found.Some? then AlreadyQueued(found.value) else Refused
  }
}
