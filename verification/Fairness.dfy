/** Every fair schedule of a pool over a fresh batch ends with every job terminal. */
module Fairness {
  import opened Clock
  import opened JobRows
  import opened Protocol
  import opened Drain

  /** The actions of everyone in the order they take effect, for ever, and the
      states they lead through. */
  type Schedule = nat -> Action
  type States = nat -> System

  ghost predicate StepsAt(st: States, sched: Schedule, n: nat) {
    Enabled(st(n), sched(n)) && st(n + 1) == Apply(st(n), sched(n))
  }

  ghost predicate Unfolds(st: States, sched: Schedule) {
    forall n: nat :: StepsAt(st, sched, n)
  }

  // ----- fairness -----

  /** Every execution ends some time. */
  ghost predicate HandlersReturn(st: States, sched: Schedule) {
    forall n: nat, e | e in st(n).live :: exists m: nat :: n <= m && sched(m).Finish? && sched(m).exec == e
  }

  /** A job that is due stops being due, or some worker claims one. */
  ghost predicate WorkersPoll(st: States, sched: Schedule) {
    forall n: nat, id | Runnable(st(n).table, id, Millis(st(n).clock)) ::
      exists m: nat :: n <= m && (sched(m).Claim? || !Runnable(st(m).table, id, Millis(st(m).clock)))
  }

  ghost predicate ClockReaches(st: States, n: nat, t: int) {
    exists m: nat :: n <= m && t <= st(m).clock
  }

  ghost predicate TimePasses(st: States) {
    forall n: nat, t: int :: ClockReaches(st, n, t)
  }

  ghost predicate Fair(st: States, sched: Schedule) {
    HandlersReturn(st, sched) && WorkersPoll(st, sched) && TimePasses(st)
  }

  lemma ClockSteps(s: System, a: Action)
    requires Enabled(s, a)
    ensures s.clock <= Apply(s, a).clock
  {
  }

  lemma {:induction false} ClockGoesOn(st: States, sched: Schedule, n: nat, m: nat)
    requires Unfolds(st, sched) && n <= m
    ensures st(n).clock <= st(m).clock
  {
    if n < m {
      ClockGoesOn(st, sched, n, m - 1);
      assert StepsAt(st, sched, m - 1);
      ClockSteps(st(m - 1), sched(m - 1));
    }
  }

  // ----- a fresh batch -----

  /** A pool at work on a fresh batch, undisturbed. */
  ghost predicate QuietForever(st: States, sched: Schedule) {
    Fresh(st(0)) && Unfolds(st, sched) && forall n: nat :: Quiet(sched(n))
  }

  function Prefix(s: System, sched: Schedule, n: nat): Run {
    if n == 0 then Start(s) else Then(Prefix(s, sched, n - 1), sched(n - 1))
  }

  lemma {:induction false} PrefixIsQuiet(st: States, sched: Schedule, n: nat)
    requires QuietForever(st, sched)
    ensures var r := Prefix(st(0), sched, n);
            IsQuietRun(r) && End(r) == st(n) && Origin(r) == st(0)
  {
    if n > 0 {
      PrefixIsQuiet(st, sched, n - 1);
      assert StepsAt(st, sched, n - 1);
    }
  }

  function Work(r: Run): nat {
    Claims(r) + Finishes(r)
  }

  lemma {:induction false} WorkGrows(s: System, sched: Schedule, n: nat, m: nat)
    requires n <= m
    ensures Work(Prefix(s, sched, n)) <= Work(Prefix(s, sched, m))
  {
    if n < m {
      WorkGrows(s, sched, n, m - 1);
    }
  }

  lemma IdleStep(s: System, a: Action)
    requires Enabled(s, a) && Quiet(a) && s.live == map[] && !a.Claim?
    ensures Apply(s, a).table == s.table && Apply(s, a).live == map[]
  {
  }

  /** While nothing executes and nothing is claimed, rows do not change. */
  lemma {:induction false} IdleUntil(st: States, sched: Schedule, n: nat, m: nat)
    requires QuietForever(st, sched) && n <= m && st(n).live == map[]
    requires forall k: nat | n <= k < m :: !sched(k).Claim?
    ensures st(m).table == st(n).table && st(m).live == map[]
  {
    if n < m {
      IdleUntil(st, sched, n, m - 1);
      assert StepsAt(st, sched, m - 1);
      IdleStep(st(m - 1), sched(m - 1));
    }
  }

  /** An unfinished batch always sees another claim or another finish. */
  lemma WorkComesAgain(st: States, sched: Schedule, n: nat) returns (m: nat)
    requires QuietForever(st, sched) && Fair(st, sched) && !AllTerminal(st(n).table)
    ensures n <= m && (sched(m).Claim? || sched(m).Finish?)
  {
    PrefixIsQuiet(st, sched, n);
    QuietRunsDrain(Prefix(st(0), sched, n));
    if e :| e in st(n).live {
      m :| n <= m && sched(m).Finish? && sched(m).exec == e;
    } else {
      var id :| id in st(n).table && !st(n).table[id].state.Terminal();
      var due := st(n).table[id].runAfter * MILLISECOND;
      assert ClockReaches(st, n, due);
      var ripe: nat :| n <= ripe && due <= st(ripe).clock;
      if k: nat :| n <= k < ripe && sched(k).Claim? {
        m := k;
      } else {
        IdleUntil(st, sched, n, ripe);
        MillisMonotone(due, st(ripe).clock);
        m := DueWorkIsClaimed(st, sched, ripe, id);
      }
    }
  }

  /** In a quiet pool at rest nothing but a claim makes a job not due. */
  lemma DueWorkIsClaimed(st: States, sched: Schedule, n: nat, id: JobId) returns (m: nat)
    requires QuietForever(st, sched) && WorkersPoll(st, sched) && st(n).live == map[]
    requires Runnable(st(n).table, id, Millis(st(n).clock))
    ensures n <= m && sched(m).Claim?
  {
    m :| n <= m && (sched(m).Claim? || !Runnable(st(m).table, id, Millis(st(m).clock)));
    if k: nat :| n <= k < m && sched(k).Claim? {
      m := k;
    } else {
      IdleUntil(st, sched, n, m);
      ClockGoesOn(st, sched, n, m);
      MillisMonotone(st(n).clock, st(m).clock);
    }
  }

  lemma {:induction false} WorkAddsUp(st: States, sched: Schedule, k: nat) returns (n: nat)
    requires QuietForever(st, sched) && Fair(st, sched)
    ensures AllTerminal(st(n).table) || k <= Work(Prefix(st(0), sched, n))
  {
    n := 0;
    if k > 0 {
      n := WorkAddsUp(st, sched, k - 1);
      if !AllTerminal(st(n).table) {
        n := OneMorePieceOfWork(st, sched, n);
      }
    }
  }

  lemma {:induction false} OneMorePieceOfWork(st: States, sched: Schedule, n: nat) returns (m: nat)
    requires QuietForever(st, sched) && Fair(st, sched) && !AllTerminal(st(n).table)
    ensures Work(Prefix(st(0), sched, n)) < Work(Prefix(st(0), sched, m))
  {
    m := WorkComesAgain(st, sched, n);
    WorkGrows(st(0), sched, n, m);
    m := m + 1;
  }

  lemma TerminalIsIdle(r: Run)
    requires IsQuietRun(r) && AllTerminal(End(r).table)
    ensures End(r).live == map[]
  {
    QuietRunsDrain(r);
    assert forall e :: e !in End(r).live;
  }

  lemma {:induction false} TerminalStays(st: States, sched: Schedule, n: nat, m: nat)
    requires QuietForever(st, sched) && n <= m && AllTerminal(st(n).table)
    ensures AllTerminal(st(m).table) && st(m).table == st(n).table
  {
    if n < m {
      TerminalStays(st, sched, n, m - 1);
      PrefixIsQuiet(st, sched, m - 1);
      TerminalIsIdle(Prefix(st(0), sched, m - 1));
      assert StepsAt(st, sched, m - 1);
      IdleStep(st(m - 1), sched(m - 1));
    }
  }

  /** If every handler returns, due work is polled for and time passes, any number
      of workers in any interleaving bring a fresh batch to an end: from some point
      on every job is terminal and no row changes, after no more claims than the
      attempts the batch was allowed. */
  lemma {:induction false} FairPoolsFinish(st: States, sched: Schedule, ids: seq<JobId>)
    requires QuietForever(st, sched) && Fair(st, sched) && Enumerates(ids, st(0).table)
    ensures exists n: nat :: forall m: nat | n <= m ::
              && AllTerminal(st(m).table) && st(m).table == st(n).table
              && Claims(Prefix(st(0), sched, m)) <= Remaining(ids, st(0).table)
  {
    PrefixIsQuiet(st, sched, 0);
    QuietPoolsFinish(Prefix(st(0), sched, 0), ids);
    var n := WorkAddsUp(st, sched, 2 * Remaining(ids, st(0).table) + 1);
    forall m: nat
      ensures Claims(Prefix(st(0), sched, m)) <= Remaining(ids, st(0).table)
      ensures Work(Prefix(st(0), sched, m)) <= 2 * Remaining(ids, st(0).table)
    {
      PrefixIsQuiet(st, sched, m);
      QuietPoolsFinish(Prefix(st(0), sched, m), ids);
    }
    forall m: nat | n <= m
      ensures AllTerminal(st(m).table) && st(m).table == st(n).table
    {
      TerminalStays(st, sched, n, m);
    }
  }
}
