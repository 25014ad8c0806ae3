/** The job queue: the jobs table as the database holds it, with one method per
    operation, each proved against the functions on the rows, and the events it
    has published. Where an operation is two statements, `others` is what everyone
    else makes of the table in between. */
module JobTable {
  import opened Wrappers
  import opened JobRows
  import opened Dedupe
  import P = ProtocolInvariant

  datatype CancelResult = CancelOk | NotFound | AlreadyFinished

  /** The table while a reclaim still has `rest` to look at. */
  ghost function Reclaiming(t: Table, now: int, rest: set<JobId>): Table {
    map id | id in t :: if id !in rest && Lapsed(t[id], now) then Reclaimed(t[id], now) else t[id]
  }

  lemma ReclaimingStarts(t: Table, now: int)
    ensures Reclaiming(t, now, t.Keys) == t
    ensures LapsedIds(t, now) - t.Keys == {}
  {
  }

  lemma ReclaimingStep(t: Table, now: int, rest: set<JobId>, id: JobId)
    requires id in rest && rest <= t.Keys
    ensures var part, next := Reclaiming(t, now, rest), Reclaiming(t, now, rest - {id});
            && part[id] == t[id]
            && next == (if Lapsed(t[id], now) then part[id := Reclaimed(t[id], now)] else part)
    ensures |LapsedIds(t, now) - (rest - {id})|
         == |LapsedIds(t, now) - rest| + (if Lapsed(t[id], now) then 1 else 0)
  {
    assert LapsedIds(t, now) - (rest - {id})
        == LapsedIds(t, now) - rest + (if Lapsed(t[id], now) then {id} else {});
  }

  lemma ReclaimingEnds(t: Table, now: int)
    requires TableOk(t)
    ensures Reclaiming(t, now, {}) == ReclaimExpired(t, now)
    ensures LapsedIds(t, now) - {} == LapsedIds(t, now)
    ensures TableOk(ReclaimExpired(t, now))
  {
    P.ReclaimKeepsTable(t, now);
  }

  /** The row is what was asked for: its limit 3 unless a positive one was given, due
      at once unless a time was given, its key held only if one was given; nothing
      has been attempted, spent or reported. */
  ghost predicate AsRequested(t: Table, id: JobId, request: Request, now: int) {
    && id in t
    && t[id].kind == request.kind && t[id].payload == request.payload && t[id].priority == request.priority
    && t[id].maxAttempts == (if request.maxAttempts > 0 then request.maxAttempts else 3)
    && t[id].attempts == 0 && t[id].usage == Usage(0, 0, 0) && t[id].progress == 0.0
    && t[id].note == "" && t[id].lastError == ""
    && (forall at :: Runnable(t, id, at) <==> (if request.runAfter.Some? then request.runAfter.value else now) <= at)
    && (forall key :: Holds(t, id, key) <==> key != "" && key == request.dedupeKey)
    && t[id].updatedAt == now && t[id].startedAt.None? && t[id].finishedAt.None?
  }

  class Jobs {
    var rows: Table
    var published: seq<Event>

    constructor ()
      ensures rows == map[] && published == []
    {
      rows, published := map[], [];
    }

    method Publish(ev: Event)
      modifies this`published
      ensures published == old(published) + [ev]
    {
      published := published + [ev];
    }

    /** Install the result of a statement, unless a constraint refused it. */
    method Exec(w: Written) returns (ok: bool)
      modifies this`rows
      ensures rows == Commit(old(rows), w)
      ensures ok == w.Ok?
    {
      ok := w.Ok?;
      if ok {
        rows := w.value;
      }
    }

    /** GetPendingJobByDedupeKey: scan for the pending row holding a key. */
    method FindPending(key: string) returns (found: Option<JobId>)
      ensures FindsPending(rows, key, found)
    {
      found := None;
      var rest := rows.Keys;
      while rest != {}
        invariant rest <= rows.Keys
        invariant found == None ==> forall id | id in rows && id !in rest :: !Holds(rows, id, key)
        invariant found.Some? ==> Holds(rows, found.value, key)
        decreases |rest|
      {
        var id := Pick(rest);
        if Holds(rows, id, key) {
          found := Some(id);
          return;
        }
        rest := rest - {id};
      }
    }

    /** Insert a job and announce it, or report the pending one that holds its key
        by the time of the lookup. */
    method Enqueue(id: JobId, request: Request, now: int, others: Table -> Table) returns (outcome: Enqueued)
      modifies this
      ensures var free := forall other | other in old(rows) :: !Holds(old(rows), other, request.dedupeKey);
              var accepted := id !in old(rows) && (request.dedupeKey == "" || free);
              if request.kind == "" || (!accepted && request.dedupeKey == "") then
                outcome == Refused && rows == old(rows) && published == old(published)
              else if accepted then
                && id in rows && rows == old(rows)[id := rows[id]] && outcome == Added(rows[id])
                && AsRequested(rows, id, request, now)
                && published == old(published) + [Event(id, request.kind, Queued, 0.0, "", "", now)]
              else
                && rows == others(old(rows)) && published == old(published)
                && (outcome.Refused? <==> forall other | other in rows :: !Holds(rows, other, request.dedupeKey))
                && (!outcome.Refused? ==> outcome.AlreadyQueued? && Holds(rows, outcome.existing, request.dedupeKey))
      ensures request.kind != "" ==>
                exists found :: outcome == EnqueueOutcome(old(rows), id, request, now, found)
    {
      if request.kind == "" {
        return Refused;
      }
      var row := FreshRow(request, now);
      var ok := Exec(EnqueueJob(rows, id, row));
      if ok {
        Publish(EventFor(FromRow(id, row)));
        outcome := Added(row);
        assert outcome == EnqueueOutcome(old(rows), id, request, now, None);
        return;
      }
      if request.dedupeKey == "" {
        outcome := Refused;
        assert outcome == EnqueueOutcome(old(rows), id, request, now, None);
        return;
      }
      rows := others(rows);
      var found := FindPending(request.dedupeKey);
      outcome := if found.Some? then AlreadyQueued(found.value) else Refused;
      assert outcome == EnqueueOutcome(old(rows), id, request, now, found);
    }

    /** The claim's subquery: the runnable row of highest priority, lowest id. */
    method SelectNext(now: int) returns (next: Option<JobId>)
      ensures next.None? <==> forall id | id in rows :: !Runnable(rows, id, now)
      ensures next.Some? ==> IsNext(rows, next.value, now)
    {
      next := None;
      var rest := rows.Keys;
      while rest != {}
        invariant rest <= rows.Keys
        invariant next.None? ==> forall id | id in rows && id !in rest :: !Runnable(rows, id, now)
        invariant next.Some? ==>
                    && Runnable(rows, next.value, now)
                    && forall id | id in rows && id !in rest && Runnable(rows, id, now) :: Before(rows, next.value, id)
        decreases |rest|
      {
        var id := Pick(rest);
        if Runnable(rows, id, now) && (next.None? || Before(rows, id, next.value)) {
          next := Some(id);
        }
        rest := rest - {id};
      }
    }

    method ClaimNext(worker: string, leaseUntil: int, now: int) returns (claimed: Option<JobId>)
      requires TableOk(rows) && worker != ""
      modifies this`rows
      ensures TableOk(rows)
      ensures claimed.None? ==> rows == old(rows) && forall id | id in rows :: !Runnable(rows, id, now)
      ensures claimed.Some? ==>
                && IsNext(old(rows), claimed.value, now)
                && Ok(rows) == ClaimJob(old(rows), claimed.value, worker, leaseUntil, now)
    {
      claimed := SelectNext(now);
      if claimed.Some? {
        var id := claimed.value;
        ghost var row := Claimed(rows[id], worker, leaseUntil, now);
        P.PendingRowsRewriteFreely(rows, id, row);
        P.WriteKeepsTable(rows, id, row);
        var _ := Exec(ClaimJob(rows, id, worker, leaseUntil, now));
      }
    }

    /** Cancel and announce what the row says then; or tell apart a job that is not
        there from one already finished. */
    method Cancel(id: JobId, now: int, others: Table -> Table) returns (result: CancelResult)
      requires TableOk(rows)
      modifies this
      ensures rows == others(Commit(old(rows), CancelJob(old(rows), id, now)))
      ensures result == CancelOk <==> id in old(rows) && old(rows)[id].state.Pending()
      ensures result == CancelOk ==>
                && CancelJob(old(rows), id, now).Ok?
                && id in CancelJob(old(rows), id, now).value
                && CancelJob(old(rows), id, now).value[id].state.Cancelled?
      ensures result == NotFound ==> id !in rows
      ensures result == AlreadyFinished ==> id in rows
      ensures published == if result == CancelOk && id in rows
                           then old(published) + [Event(id, rows[id].kind, rows[id].state, rows[id].progress,
                                                        rows[id].note, rows[id].lastError, rows[id].updatedAt)]
                           else old(published)
    {
      var pending := id in rows && rows[id].state.Pending();
      if pending {
        ghost var row := rows[id].(state := Cancelled, leaseUntil := None, worker := "",
                                   finishedAt := Some(now), updatedAt := now);
        P.PendingRowsRewriteFreely(rows, id, row);
        P.WriteKeepsTable(rows, id, row);
      }
      var _ := Exec(CancelJob(rows, id, now));
      rows := others(rows);
      if !pending {
        return if id in rows then AlreadyFinished else NotFound;
      }
      if id in rows {
        Publish(EventFor(FromRow(id, rows[id])));
      }
      result := CancelOk;
    }

    /** Requeue every lapsed row, counting them. */
    method Reclaim(now: int) returns (count: nat)
      requires TableOk(rows)
      modifies this`rows
      ensures TableOk(rows)
      ensures rows == ReclaimExpired(old(rows), now)
      ensures count == |LapsedIds(old(rows), now)|
    {
      ghost var before := rows;
      count := 0;
      var rest := rows.Keys;
      ReclaimingStarts(before, now);
      while rest != {}
        invariant rest <= before.Keys
        invariant rows == Reclaiming(before, now, rest)
        invariant count == |LapsedIds(before, now) - rest|
        decreases |rest|
      {
        var id := Pick(rest);
        ReclaimingStep(before, now, rest, id);
        if Lapsed(rows[id], now) {
          rows := rows[id := Reclaimed(rows[id], now)];
          count := count + 1;
        }
        rest := rest - {id};
      }
      ReclaimingEnds(before, now);
    }

    /** Delete terminal rows finished before the cutoff, counting them. */
    method Purge(cutoff: int) returns (count: nat)
      requires TableOk(rows)
      modifies this`rows
      ensures TableOk(rows)
      ensures rows == PurgeBefore(old(rows), cutoff)
      ensures forall id :: id in rows <==>
                && id in old(rows)
                && !(old(rows)[id].state.Terminal() && old(rows)[id].finishedAt.Some?
                     && old(rows)[id].finishedAt.value < cutoff)
      ensures forall id | id in rows :: rows[id] == old(rows)[id]
      ensures count == |old(rows)| - |rows|
    {
      count := 0;
      var rest := rows.Keys;
      ghost var before := rows;
      while rest != {}
        invariant rest <= rows.Keys <= before.Keys
        invariant rows == map id | id in before && (id in rest || !Purgeable(before[id], cutoff)) :: before[id]
        invariant count == |before| - |rows|
        decreases |rest|
      {
        var id := Pick(rest);
        if Purgeable(rows[id], cutoff) {
          assert rows.Keys == (rows - {id}).Keys + {id};
          rows := rows - {id};
          count := count + 1;
        }
        rest := rest - {id};
      }
      assert rows == PurgeBefore(before, cutoff);
      P.PurgeKeepsTable(before, cutoff);
    }
  }
}
