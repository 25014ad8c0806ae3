/** The jobs table as a value: its rows, its constraints, and one pure function
    per SQL statement. Times in rows are milliseconds. */
module JobRows {
  import opened Wrappers

  /** Job identifiers are ULIDs: unique and totally ordered. */
  type JobId = int

  datatype State = Queued | Running | Succeeded | Failed | Cancelled {
    predicate Terminal() { Succeeded? || Failed? || Cancelled? }
    predicate Pending() { Queued? || Running? }
  }

  datatype Usage = Usage(tokensIn: int, tokensOut: int, costMicros: int) {
    function Plus(delta: Usage): Usage {
      Usage(tokensIn + delta.tokensIn, tokensOut + delta.tokensOut, costMicros + delta.costMicros)
    }
  }

  const NO_USAGE := Usage(0, 0, 0)

  datatype Row = Row(
    kind: string, payload: string, state: State, priority: int,
    progress: real, note: string,
    attempts: int, maxAttempts: int, lastError: string,
    usage: Usage,
    runAfter: int, leaseUntil: Option<int>, worker: string,
    dedupeKey: Option<string>,
    updatedAt: int, startedAt: Option<int>, finishedAt: Option<int>)

  type Table = map<JobId, Row>

  /** A statement refused by a constraint leaves the table as it was. */
  datatype SqlError = UniqueViolation | CheckViolation
  type Written = Result<Table, SqlError>

  function Commit(t: Table, w: Written): Table {
    if w.Ok? then w.value else t
  }

  // ----- a row in memory -----

  /** A job as the program holds it, read from its row. */
  datatype Copy = Copy(
    id: JobId, kind: string, attempts: int, maxAttempts: int,
    state: State, progress: real, note: string, lastError: string, usage: Usage, updatedAt: int)

  function FromRow(id: JobId, row: Row): Copy {
    Copy(id, row.kind, row.attempts, row.maxAttempts,
         row.state, row.progress, row.note, row.lastError, row.usage, row.updatedAt)
  }

  /** What subscribers are told about a job. */
  datatype Event = Event(job: JobId, kind: string, state: State, progress: real, note: string, error: string, at: int)

  function EventFor(c: Copy): Event {
    Event(c.id, c.kind, c.state, c.progress, c.note, c.lastError, c.updatedAt)
  }

  // ----- constraints -----

  /** Row `id` occupies `key` in the partial unique index on dedupe_key. */
  predicate Holds(t: Table, id: JobId, key: string) {
    id in t && t[id].state.Pending() && t[id].dedupeKey == Some(key)
  }

  predicate IndexAccepts(t: Table, id: JobId, row: Row) {
    row.state.Pending() && row.dedupeKey.Some? ==>
      forall other | other in t && other != id :: !Holds(t, other, row.dedupeKey.value)
  }

  /** Write one row, subject to the CHECK on progress and the unique index. */
  function Write(t: Table, id: JobId, row: Row): Written {
    if !(0.0 <= row.progress <= 1.0) then Err(CheckViolation)
    else if !IndexAccepts(t, id, row) then Err(UniqueViolation)
    else Ok(t[id := row])
  }

  // ----- inserting -----

  const DEFAULT_MAX_ATTEMPTS := 3

  /** What a caller asks of Enqueue; an empty dedupe key opts out. */
  datatype Request = Request(kind: string, payload: string, priority: int, maxAttempts: int,
                             dedupeKey: string, runAfter: Option<int>)

  function FreshRow(r: Request, now: int): Row {
    Row(r.kind, r.payload, Queued, r.priority, 0.0, "",
        0, if r.maxAttempts <= 0 then DEFAULT_MAX_ATTEMPTS else r.maxAttempts, "",
        NO_USAGE,
        if r.runAfter.Some? then r.runAfter.value else now, None, "",
        if r.dedupeKey != "" then Some(r.dedupeKey) else None,
        now, None, None)
  }

  function EnqueueJob(t: Table, id: JobId, row: Row): Written {
    if id in t then Err(UniqueViolation) else Write(t, id, row)
  }

  // ----- claiming -----

  predicate Runnable(t: Table, id: JobId, now: int) {
    id in t && t[id].state == Queued && t[id].runAfter <= now
  }

  /** ORDER BY priority DESC, id. */
  predicate Before(t: Table, a: JobId, b: JobId)
    requires a in t && b in t
  {
    t[a].priority > t[b].priority || (t[a].priority == t[b].priority && a <= b)
  }

  /** `id` is the row the claim's subquery selects. */
  predicate IsNext(t: Table, id: JobId, now: int) {
    && Runnable(t, id, now)
    && forall other | other in t && Runnable(t, other, now) :: Before(t, id, other)
  }

  function Claimed(row: Row, worker: string, leaseUntil: int, now: int): Row {
    row.(state := Running, worker := worker, leaseUntil := Some(leaseUntil),
         attempts := row.attempts + 1,
         startedAt := if row.startedAt.Some? then row.startedAt else Some(now),
         updatedAt := now)
  }

  function ClaimJob(t: Table, id: JobId, worker: string, leaseUntil: int, now: int): Written
    requires id in t
  {
    Write(t, id, Claimed(t[id], worker, leaseUntil, now))
  }

  // ----- statements guarded by state = 'running' -----

  function UpdateJobProgress(t: Table, id: JobId, fraction: real, note: string, now: int): Written {
    if id in t && t[id].state.Running?
    then Write(t, id, t[id].(progress := fraction, note := note, updatedAt := now))
    else Ok(t)
  }

  function ExtendLease(t: Table, id: JobId, leaseUntil: int, now: int): Written {
    if id in t && t[id].state.Running?
    then Write(t, id, t[id].(leaseUntil := Some(leaseUntil), updatedAt := now))
    else Ok(t)
  }

  function Released(row: Row, now: int): Row {
    row.(state := Queued, attempts := if row.attempts - 1 > 0 then row.attempts - 1 else 0,
         runAfter := now, leaseUntil := None, worker := "", updatedAt := now)
  }

  function ReleaseJob(t: Table, id: JobId, now: int): Written {
    if id in t && t[id].state.Running? then Write(t, id, Released(t[id], now)) else Ok(t)
  }

  // ----- statements with no guard on state -----

  function RecordJobUsage(t: Table, id: JobId, delta: Usage, now: int): Written {
    if id in t then Write(t, id, t[id].(usage := t[id].usage.Plus(delta), updatedAt := now)) else Ok(t)
  }

  function CompleteJob(t: Table, id: JobId, note: string, now: int): Written {
    if id in t
    then Write(t, id, t[id].(state := Succeeded, progress := 1.0, note := note,
                             leaseUntil := None, worker := "", finishedAt := Some(now), updatedAt := now))
    else Ok(t)
  }

  function Retried(row: Row, cause: string, runAfter: int, now: int): Row {
    row.(state := Queued, lastError := cause, runAfter := runAfter,
         leaseUntil := None, worker := "", updatedAt := now)
  }

  function RetryJob(t: Table, id: JobId, cause: string, runAfter: int, now: int): Written {
    if id in t then Write(t, id, Retried(t[id], cause, runAfter, now)) else Ok(t)
  }

  function FailJob(t: Table, id: JobId, cause: string, now: int): Written {
    if id in t
    then Write(t, id, t[id].(state := Failed, lastError := cause,
                             leaseUntil := None, worker := "", finishedAt := Some(now), updatedAt := now))
    else Ok(t)
  }

  // ----- cancelling, reclaiming, purging -----

  function CancelJob(t: Table, id: JobId, now: int): Written {
    if id in t && t[id].state.Pending()
    then Write(t, id, t[id].(state := Cancelled, leaseUntil := None, worker := "",
                             finishedAt := Some(now), updatedAt := now))
    else Ok(t)
  }

  predicate Lapsed(row: Row, now: int) {
    row.state.Running? && row.leaseUntil.Some? && row.leaseUntil.value < now
  }

  function LapsedIds(t: Table, now: int): set<JobId> {
    set id | id in t && Lapsed(t[id], now)
  }

  const RECLAIMED := "worker lease expired; job reclaimed"

  function Reclaimed(row: Row, now: int): Row {
    row.(state := Queued, leaseUntil := None, worker := "", lastError := RECLAIMED, updatedAt := now)
  }

  function ReclaimExpired(t: Table, now: int): Table {
    map id | id in t :: if Lapsed(t[id], now) then Reclaimed(t[id], now) else t[id]
  }

  predicate Purgeable(row: Row, cutoff: int) {
    row.state.Terminal() && row.finishedAt.Some? && row.finishedAt.value < cutoff
  }

  function PurgeBefore(t: Table, cutoff: int): Table {
    map id | id in t && !Purgeable(t[id], cutoff) :: t[id]
  }

  // ----- the invariant every statement keeps -----

  predicate RowOk(row: Row) {
    && (row.state.Running? <==> row.leaseUntil.Some?)
    && (row.state.Running? <==> row.worker != "")
    && (row.state.Running? ==> 1 <= row.attempts && row.startedAt.Some?)
    && 0 <= row.attempts
    && 1 <= row.maxAttempts
    && (row.state.Terminal() ==> row.finishedAt.Some?)
    && (row.state.Succeeded? ==> row.progress == 1.0)
    && 0.0 <= row.progress <= 1.0
  }

  /** At most one pending row per dedupe key. */
  ghost predicate PendingUnique(t: Table) {
    forall a, b, key | Holds(t, a, key) && Holds(t, b, key) :: a == b
  }

  ghost predicate TableOk(t: Table) {
    && (forall id | id in t :: RowOk(t[id]))
    && PendingUnique(t)
  }
}
