/** The queue as a protocol: a table of rows, a clock, the executions still alive
    with what they copied at claim time, and a history per job.

    Every action is one SQL statement together with what its caller does to its
    own memory. An action reads the clock some time before its statement runs, so
    its `now` may lie in the past. */
module Protocol {
  import opened Clock
  import opened JobRows

  type ExecId = nat

  /** A claimed job in a worker's memory. A worker that lost its lease keeps one. */
  datatype Exec = Exec(
    job: JobId, kind: string, attempts: int, maxAttempts: int, note: string, usage: Usage, renewed: int)

  /** What has happened to a job so far. */
  datatype History = History(claims: nat, releases: nat, reclaims: nat, nils: nat, spent: Usage)

  const NO_HISTORY := History(0, 0, 0, 0, NO_USAGE)

  datatype System = System(
    lease: int,
    table: Table,
    clock: int,
    live: map<ExecId, Exec>,
    history: map<JobId, History>)

  // ----- how an execution ends -----

  datatype HandlerResult =
    | NoHandler                     // no handler is registered for the kind
    | ReturnedNil
    | Interrupted                   // shutting down, and the handler returned the context's error
    | ReturnedError(cause: string)

  datatype Settlement = Complete | Release | Fail(cause: string) | Retry(cause: string)

  const NO_HANDLER := "no handler registered for job kind"

  function NoHandlerError(kind: string): string {
    NO_HANDLER + ": " + kind
  }

  /** The switch in execute, over what was copied at claim time. */
  function Settle(result: HandlerResult, kind: string, attempts: int, maxAttempts: int): Settlement {
    match result
    case NoHandler => Fail(NoHandlerError(kind))
    case ReturnedNil => Complete
    case Interrupted => Release
    case ReturnedError(cause) => if attempts >= maxAttempts then Fail(cause) else Retry(cause)
  }

  function SettleJob(t: Table, id: JobId, settlement: Settlement, note: string, now: int, delay: int): Written {
    match settlement
    case Complete => CompleteJob(t, id, note, Millis(now))
    case Release => ReleaseJob(t, id, Millis(now))
    case Fail(cause) => FailJob(t, id, cause, Millis(now))
    case Retry(cause) => RetryJob(t, id, cause, Millis(now + delay), Millis(now))
  }

  // ----- actions -----

  datatype Action =
    | Enqueue(id: JobId, request: Request, now: int)
    | Claim(exec: ExecId, id: JobId, worker: string, now: int)
    | Renew(exec: ExecId, now: int)
    | Progress(exec: ExecId, fraction: real, note: string, now: int)
    | Charge(exec: ExecId, delta: Usage, now: int)
    | Finish(exec: ExecId, result: HandlerResult, now: int, delay: int)
    | Cancel(id: JobId, now: int)
    | Reclaim(now: int)
    | Purge(cutoff: int)
    | Crash(lost: set<ExecId>)
    | Tick(until: int)

  predicate Enabled(s: System, a: Action) {
    match a
    case Enqueue(id, request, now) => now <= s.clock && id !in s.history && request.kind != ""
    case Claim(e, id, worker, now) =>
      now <= s.clock && e !in s.live && worker != "" && IsNext(s.table, id, Millis(now))
    case Renew(e, now) => now <= s.clock && e in s.live
    case Progress(e, _, _, now) => now <= s.clock && e in s.live
    case Charge(e, _, now) => now <= s.clock && e in s.live
    case Finish(e, _, now, _) => now <= s.clock && e in s.live
    case Cancel(_, now) => now <= s.clock
    case Reclaim(now) => now <= s.clock
    case Purge(_) => true
    case Crash(_) => true
    case Tick(until) => s.clock <= until
  }

  /** The reporter clamps a fraction before the CHECK constraint sees it. */
  function Clamp(fraction: real): real {
    if fraction < 0.0 then 0.0 else if fraction > 1.0 then 1.0 else fraction
  }

  function ReclaimHistory(s: System, now: int): map<JobId, History> {
    map id | id in s.history ::
      if id in s.table && Lapsed(s.table[id], now)
      then s.history[id].(reclaims := s.history[id].reclaims + 1)
      else s.history[id]
  }

  function AfterClaim(s: System, e: ExecId, id: JobId, worker: string, now: int): System
    requires id in s.table
  {
    var w := ClaimJob(s.table, id, worker, Millis(now + s.lease), Millis(now));
    if w.Err? then s else
      var row := w.value[id];
      var h := if id in s.history then s.history[id] else NO_HISTORY;
      s.(table := w.value,
         live := s.live[e := Exec(id, row.kind, row.attempts, row.maxAttempts, row.note, row.usage, now)],
         history := s.history[id := h.(claims := h.claims + 1)])
  }

  function AfterFinish(s: System, e: ExecId, result: HandlerResult, now: int, delay: int): System
    requires e in s.live
  {
    var x := s.live[e];
    var settlement := Settle(result, x.kind, x.attempts, x.maxAttempts);
    var w := SettleJob(s.table, x.job, settlement, x.note, now, delay);
    var released := settlement.Release? && x.job in s.table && s.table[x.job].state.Running?;
    var h := if x.job in s.history then s.history[x.job] else NO_HISTORY;
    s.(table := Commit(s.table, w),
       live := s.live - {e},
       history := s.history[x.job := h.(releases := h.releases + (if released then 1 else 0),
                                        nils := h.nils + (if result.ReturnedNil? then 1 else 0))])
  }

  function AfterCharge(s: System, e: ExecId, delta: Usage, now: int): System
    requires e in s.live
  {
    var x := s.live[e];
    var w := RecordJobUsage(s.table, x.job, delta, Millis(now));
    if w.Err? then s else
      var charged := s.(table := w.value, live := s.live[e := x.(usage := x.usage.Plus(delta))]);
      if x.job in s.table && x.job in s.history
      then charged.(history := s.history[x.job := s.history[x.job].(spent := s.history[x.job].spent.Plus(delta))])
      else charged
  }

  function Apply(s: System, a: Action): System
    requires Enabled(s, a)
  {
    match a
    case Enqueue(id, request, now) =>
      var w := EnqueueJob(s.table, id, FreshRow(request, Millis(now)));
      if w.Ok? then s.(table := w.value, history := s.history[id := NO_HISTORY]) else s
    case Claim(e, id, worker, now) => AfterClaim(s, e, id, worker, now)
    case Renew(e, now) =>
      s.(table := Commit(s.table, ExtendLease(s.table, s.live[e].job, Millis(now + s.lease), Millis(now))),
         live := s.live[e := s.live[e].(renewed := now)])
    case Progress(e, fraction, note, now) =>
      var w := UpdateJobProgress(s.table, s.live[e].job, Clamp(fraction), note, Millis(now));
      if w.Ok? then s.(table := w.value, live := s.live[e := s.live[e].(note := note)]) else s
    case Charge(e, delta, now) => AfterCharge(s, e, delta, now)
    case Finish(e, result, now, delay) => AfterFinish(s, e, result, now, delay)
    case Cancel(id, now) => s.(table := Commit(s.table, CancelJob(s.table, id, Millis(now))))
    case Reclaim(now) =>
      s.(table := ReclaimExpired(s.table, Millis(now)), history := ReclaimHistory(s, Millis(now)))
    case Purge(cutoff) => s.(table := PurgeBefore(s.table, cutoff))
    case Crash(lost) => s.(live := s.live - lost)
    case Tick(until) => s.(clock := until)
  }

  predicate Init(s: System) {
    s.table == map[] && s.live == map[] && s.history == map[] && 0 < s.lease
  }

  // ----- runs -----

  /** A run is an initial state and the actions taken since. Every prefix of a run
      is a run, so a claim about where runs end is a claim about every state. */
  datatype Run = Start(state: System) | Then(before: Run, action: Action)

  function End(r: Run): System {
    match r
    case Start(s) => s
    case Then(before, a) => var s := End(before); if Enabled(s, a) then Apply(s, a) else s
  }

  predicate IsRun(r: Run) {
    match r
    case Start(s) => Init(s)
    case Then(before, a) => IsRun(before) && Enabled(End(before), a)
  }

  /** `later` continues `r`. */
  ghost predicate Extends(later: Run, r: Run) {
    later == r || (later.Then? && Extends(later.before, r))
  }

  // ----- the invariant -----

  /** Live executions of `id` that would retry rather than fail. */
  ghost function Eager(live: map<ExecId, Exec>, id: JobId, maxAttempts: int): set<ExecId> {
    set e | e in live && live[e].job == id && live[e].attempts < maxAttempts
  }

  /** Ways left to put the job back in the queue, plus claims already spent
      beyond the last permitted one, are paid for by reclaims. */
  ghost predicate WithinBudget(row: Row, eager: nat, reclaims: nat) {
    eager + (if row.state.Queued? then 1 else 0)
      + (if row.attempts >= row.maxAttempts then row.attempts - row.maxAttempts + 1 else 0)
      <= 1 + reclaims
  }

  ghost predicate HistoryOk(row: Row, h: History) {
    row.attempts == h.claims - h.releases && row.usage == h.spent
  }

  ghost predicate SnapshotOk(x: Exec, row: Row) {
    && x.maxAttempts == row.maxAttempts && x.kind == row.kind
    && x.attempts <= row.attempts + (if row.state.Running? then 0 else 1)
  }

  ghost predicate Accounted(s: System) {
    forall id | id in s.table :: id in s.history && HistoryOk(s.table[id], s.history[id])
  }

  ghost predicate Snapshots(s: System) {
    && (forall e | e in s.live :: 1 <= s.live[e].attempts && s.live[e].job in s.history)
    && (forall e | e in s.live && s.live[e].job in s.table :: SnapshotOk(s.live[e], s.table[s.live[e].job]))
  }

  ghost predicate JobBudgeted(s: System, id: JobId)
    requires id in s.table
  {
    && id in s.history
    && WithinBudget(s.table[id], |Eager(s.live, id, s.table[id].maxAttempts)|, s.history[id].reclaims)
  }

  ghost predicate Budgeted(s: System) {
    forall id | id in s.table :: JobBudgeted(s, id)
  }

  ghost predicate Inv(s: System) {
    TableOk(s.table) && Accounted(s) && Snapshots(s) && Budgeted(s)
  }
}
