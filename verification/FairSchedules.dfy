/** Fair schedules exist: what the theorems about them ask for can be had. */
module FairSchedules {
  import opened Clock
  import opened JobRows
  import opened Protocol
  import opened Drain
  import opened Fairness
  import opened Liveness
  import opened Witnesses

  const START := Claim(0, JOB, "worker-0", 0)
  const SUCCEED := Finish(0, ReturnedNil, 0, 0)

  /** One job is claimed and succeeds; after that time passes, and reclaims come
      and find nothing if they are to come at all. */
  function OneJob(reclaims: bool, n: nat): Action {
    if n == 0 then START
    else if n == 1 then SUCCEED
    else if reclaims && n % 2 == 1 then Reclaim(n - 1)
    else Tick(n)
  }

  /** The job fresh, running and done. */
  datatype Stages = Stages(queued: System, running: System, done: System)

  ghost predicate StagesOk(g: Stages) {
    && Enabled(g.queued, START) && g.running == Apply(g.queued, START)
    && Enabled(g.running, SUCCEED) && g.done == Apply(g.running, SUCCEED)
    && g.done.live == map[] && g.done.clock == 0 && AllTerminal(g.done.table)
    && g.running.live.Keys == {0} && g.queued.live == map[]
    && (forall id | id in g.running.table :: g.running.table[id].state.Running?)
  }

  function OneJobAt(g: Stages, reclaims: bool, n: nat): System {
    if n == 0 then g.queued
    else if n == 1 then g.running
    else g.done.(clock := if n == 2 then 0 else if reclaims && n % 2 == 0 then n - 2 else n - 1)
  }

  lemma ReclaimFindsNothing(s: System, now: int)
    requires AllTerminal(s.table) && now <= s.clock
    ensures Enabled(s, Reclaim(now)) && Apply(s, Reclaim(now)) == s
  {
    forall id | id in s.table
      ensures !Lapsed(s.table[id], Millis(now))
    {
      assert s.table[id].state.Terminal();
    }
    assert ReclaimExpired(s.table, Millis(now)) == s.table;
    assert ReclaimHistory(s, Millis(now)) == s.history;
  }

  lemma OneJobUnfolds(g: Stages, reclaims: bool, n: nat)
    requires StagesOk(g)
    ensures Enabled(OneJobAt(g, reclaims, n), OneJob(reclaims, n))
    ensures OneJobAt(g, reclaims, n + 1) == Apply(OneJobAt(g, reclaims, n), OneJob(reclaims, n))
  {
    if n >= 2 && reclaims && n % 2 == 1 {
      ReclaimFindsNothing(OneJobAt(g, reclaims, n), n - 1);
    }
  }

  ghost predicate IsOneJob(g: Stages, reclaims: bool, st: States, sched: Schedule) {
    StagesOk(g) && forall n: nat :: st(n) == OneJobAt(g, reclaims, n) && sched(n) == OneJob(reclaims, n)
  }

  lemma OneJobUnfoldsForever(g: Stages, reclaims: bool, st: States, sched: Schedule)
    requires IsOneJob(g, reclaims, st, sched)
    ensures Unfolds(st, sched)
  {
    forall n: nat
      ensures StepsAt(st, sched, n)
    {
      OneJobUnfolds(g, reclaims, n);
    }
  }

  lemma TimeGoesOn(g: Stages, reclaims: bool, st: States, sched: Schedule)
    requires IsOneJob(g, reclaims, st, sched)
    ensures TimePasses(st) && (reclaims ==> ReclaimsCome(sched))
  {
    forall n: nat, t: int
      ensures ClockReaches(st, n, t) && (reclaims ==> ReclaimComes(sched, n, t))
    {
      var m := 2 * (n + (if t < 0 then 0 else t)) + 3;
      assert t <= st(m).clock && sched(m) == OneJob(reclaims, m);
    }
  }

  lemma OneJobIsFair(g: Stages, reclaims: bool, st: States, sched: Schedule)
    requires IsOneJob(g, reclaims, st, sched)
    ensures Fair(st, sched)
  {
    TimeGoesOn(g, reclaims, st, sched);
    forall n: nat, e | e in st(n).live
      ensures exists m: nat :: n <= m && sched(m).Finish? && sched(m).exec == e
    {
      assert n <= 1 && sched(1).Finish? && sched(1).exec == e;
    }
    forall n: nat, id | Runnable(st(n).table, id, Millis(st(n).clock))
      ensures exists m: nat :: n <= m && sched(m).Claim?
    {
      OnlyTheQueuedJobIsDue(g, reclaims, n, id);
      assert sched(n).Claim?;
    }
  }

  lemma OnlyTheQueuedJobIsDue(g: Stages, reclaims: bool, n: nat, id: JobId)
    requires StagesOk(g) && Runnable(OneJobAt(g, reclaims, n).table, id, Millis(OneJobAt(g, reclaims, n).clock))
    ensures n == 0
  {
  }

  /** The stages of the job of ClaimedOnce. */
  lemma OneJobRuns() returns (g: Stages, r: Run)
    ensures StagesOk(g) && IsRun(r) && End(r) == g.queued && Fresh(g.queued) && JOB in g.queued.table
  {
    ClaimedOnceIsARun(3, "");
    r := ClaimedOnce(3, "").before;
    var s := End(r);
    assert IsRun(r) && s.table == map[JOB := FreshRow(Ask(3, ""), 0)] && s.history == map[JOB := NO_HISTORY];
    var running := End(ClaimedOnce(3, ""));
    g := Stages(s, running, Apply(running, SUCCEED));
  }

  /** A schedule to which the theorem about fresh batches applies, or, with reclaims
      that keep coming, the one about any reachable state. */
  lemma FairSchedulesExist(reclaims: bool)
    ensures exists r: Run, st: States, sched: Schedule ::
              && IsRun(r) && st(0) == End(r) && JOB in st(0).table && Unfolds(st, sched) && Fair(st, sched)
              && (if reclaims then ReclaimsCome(sched) && forall n: nat :: Undisturbed(sched(n))
                  else QuietForever(st, sched))
  {
    var g, r := OneJobRuns();
    var st: States := (n: nat) => OneJobAt(g, reclaims, n);
    var sched: Schedule := (n: nat) => OneJob(reclaims, n);
    assert IsOneJob(g, reclaims, st, sched);
    OneJobUnfoldsForever(g, reclaims, st, sched);
    OneJobIsFair(g, reclaims, st, sched);
    TimeGoesOn(g, reclaims, st, sched);
    OneJobIsSuitable(g, reclaims, st, sched);
    assert st(0) == End(r);
  }

  lemma OneJobIsSuitable(g: Stages, reclaims: bool, st: States, sched: Schedule)
    requires IsOneJob(g, reclaims, st, sched)
    ensures forall n: nat :: Undisturbed(sched(n)) && (!reclaims ==> Quiet(sched(n)))
  {
  }
}
