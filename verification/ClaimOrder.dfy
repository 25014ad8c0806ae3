/** The order in which an undisturbed queue hands out its work. */
module ClaimOrder {
  import opened Wrappers
  import opened JobRows
  import opened JobTable
  import P = ProtocolInvariant

  function RunnableIds(t: Table, now: int): set<JobId> {
    set id | id in t && Runnable(t, id, now)
  }

  /** Claiming at one fixed time, until nothing is due, hands out `order`. */
  ghost predicate HandsOut(t: Table, worker: string, leaseUntil: int, now: int, order: seq<JobId>)
    decreases |order|
  {
    if order == [] then RunnableIds(t, now) == {}
    else
      && IsNext(t, order[0], now)
      && ClaimJob(t, order[0], worker, leaseUntil, now).Ok?
      && HandsOut(ClaimJob(t, order[0], worker, leaseUntil, now).value, worker, leaseUntil, now, order[1..])
  }

  lemma ClaimTakesOne(t: Table, id: JobId, worker: string, leaseUntil: int, now: int)
    requires TableOk(t) && IsNext(t, id, now) && worker != ""
    ensures var w := ClaimJob(t, id, worker, leaseUntil, now);
            && w.Ok? && TableOk(w.value) && w.value.Keys == t.Keys
            && RunnableIds(w.value, now) == RunnableIds(t, now) - {id}
            && (forall other | other in t :: w.value[other].priority == t[other].priority)
            && (forall other | other in t && other != id :: w.value[other] == t[other])
  {
    var row := Claimed(t[id], worker, leaseUntil, now);
    P.PendingRowsRewriteFreely(t, id, row);
    P.WriteKeepsTable(t, id, row);
  }

  /** Every due job is handed out exactly once, by priority descending and then id
      ascending; jobs not due are left alone. */
  lemma {:induction false} DueJobsAreHandedOutInOrder(
      t: Table, worker: string, leaseUntil: int, now: int, order: seq<JobId>)
    requires TableOk(t) && worker != "" && HandsOut(t, worker, leaseUntil, now, order)
    ensures (set id | id in order) == RunnableIds(t, now)
    ensures forall i, j | 0 <= i < j < |order| :: order[i] != order[j]
    ensures forall i | 0 <= i < |order| :: order[i] in t
    ensures forall i, j | 0 <= i < j < |order| ::
              || t[order[i]].priority > t[order[j]].priority
              || (t[order[i]].priority == t[order[j]].priority && order[i] < order[j])
    decreases |order|
  {
    if order != [] {
      var first, rest := order[0], order[1..];
      ClaimTakesOne(t, first, worker, leaseUntil, now);
      var t' := ClaimJob(t, first, worker, leaseUntil, now).value;
      DueJobsAreHandedOutInOrder(t', worker, leaseUntil, now, rest);
      assert order == [first] + rest;
      assert (set id | id in order) == {first} + (set id | id in rest);
      forall i, j | 0 <= i < j < |order|
        ensures order[i] != order[j]
        ensures || t[order[i]].priority > t[order[j]].priority
                || (t[order[i]].priority == t[order[j]].priority && order[i] < order[j])
      {
        assert order[j] == rest[j - 1] && order[j] in rest;
        assert order[j] in RunnableIds(t', now);
        if i > 0 {
          assert order[i] == rest[i - 1];
        }
      }
    }
  }

  /** Claim until the table has nothing due; the order is what the lemma describes. */
  method ClaimAll(table: Jobs, worker: string, leaseUntil: int, now: int) returns (order: seq<JobId>)
    requires TableOk(table.rows) && worker != ""
    modifies table
    ensures HandsOut(old(table.rows), worker, leaseUntil, now, order)
    ensures TableOk(table.rows) && RunnableIds(table.rows, now) == {}
  {
    order := [];
    ghost var seen := [table.rows];
    while true
      invariant TableOk(table.rows) && |seen| == |order| + 1
      invariant seen[0] == old(table.rows) && seen[|order|] == table.rows
      invariant forall i | 0 <= i < |order| ::
                  && IsNext(seen[i], order[i], now)
                  && Ok(seen[i + 1]) == ClaimJob(seen[i], order[i], worker, leaseUntil, now)
      decreases |RunnableIds(table.rows, now)|
    {
      ghost var before := table.rows;
      var claimed := table.ClaimNext(worker, leaseUntil, now);
      if claimed.None? {
        break;
      }
      ClaimTakesOne(before, claimed.value, worker, leaseUntil, now);
      order := order + [claimed.value];
      seen := seen + [table.rows];
    }
    ChainHandsOut(seen, order, worker, leaseUntil, now);
  }

  lemma {:induction false} ChainHandsOut(seen: seq<Table>, order: seq<JobId>, worker: string, leaseUntil: int, now: int)
    requires |seen| == |order| + 1 && RunnableIds(seen[|order|], now) == {}
    requires forall i | 0 <= i < |order| ::
               IsNext(seen[i], order[i], now) && Ok(seen[i + 1]) == ClaimJob(seen[i], order[i], worker, leaseUntil, now)
    ensures HandsOut(seen[0], worker, leaseUntil, now, order)
    decreases |order|
  {
    if order != [] {
      assert forall i | 0 <= i < |order[1..]| :: seen[1..][i] == seen[i + 1] && order[1..][i] == order[i + 1];
      ChainHandsOut(seen[1..], order[1..], worker, leaseUntil, now);
    }
  }
}
