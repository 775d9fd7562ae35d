/**
 * The agent-job tables and the effect of every request on them, as functions on table values.
 * Row ids are table positions. A query's answer is an argument: `AnswersDue` and `AnswersOldest`
 * say what the database guarantees about it, so every tie order and row order is covered.
 */
module Jobs {
  import opened Base
  import JobPayload

  type Time = int

  datatype Status = Queued | Assigned | Running | Succeeded | Failed | Canceled | Expired {
    /** TERMINAL_JOB_STATUSES. */
    predicate Terminal() { Succeeded? || Failed? || Canceled? || Expired? }
  }

  datatype Job = Job(org: nat, device: nat, jobType: JobPayload.JobType, payload: JobPayload.Payload, status: Status,
                     agent: Option<nat>, createdAt: Time, expiresAt: Time,
                     startedAt: Option<Time>, completedAt: Option<Time>, summary: Option<string>)

  datatype Kind = CreatedEv | AssignedEv | StartedEv | CompletedEv | FailedEv | CanceledEv | ExpiredEv

  datatype Event = Event(job: nat, org: nat, kind: Kind)
  datatype Audit = Audit(org: nat, action: Kind, target: nat)
  datatype ResultRow = ResultRow(job: nat, org: nat, status: Status, output: string, error: Option<string>,
    exitCode: Option<int>)

  datatype Tables = Tables(jobs: seq<Job>, events: seq<Event>, audits: seq<Audit>, results: seq<ResultRow>)

  /** The authenticated agent row of a request: its id and the device it belongs to at that moment. */
  datatype Agent = Agent(id: nat, device: nat)

  /** What an agent reports when it completes a job. */
  datatype Report = Report(succeeded: bool, output: string, error: Option<string>, exitCode: Option<int>)

  datatype Reply = Ok | BadRequest | Forbidden | NotFound | Conflict | ServerError

  const EMPTY := Tables([], [], [], [])
  const POLL_LIMIT := 5

  function Take(s: string, n: nat): string { if |s| <= n then s else s[..n] }

  // ---- Events and audit rows ----

  /** The audit row written beside an event; its action is the event's name behind a `job.` prefix. */
  function AuditOf(e: Event): Audit { Audit(e.org, e.kind, e.job) }

  function AuditsOf(events: seq<Event>): (r: seq<Audit>)
    ensures |r| == |events|
  {
    seq(|events|, i requires 0 <= i < |events| => AuditOf(events[i]))
  }

  lemma AuditsConcat(a: seq<Event>, b: seq<Event>)
    ensures AuditsOf(a + b) == AuditsOf(a) + AuditsOf(b)
  {
  }

  /** One event of the given kind for each id, in order. */
  function Stamped(jobs: seq<Job>, ids: seq<nat>, kind: Kind): (r: seq<Event>)
    requires Within(ids, |jobs|)
    ensures |r| == |ids|
  {
    seq(|ids|, i requires 0 <= i < |ids| => Event(ids[i], jobs[ids[i]].org, kind))
  }

  // ---- Row changes ----

  function ExpireRow(j: Job, now: Time): Job { j.(status := Expired, completedAt := Some(now)) }

  function AssignRow(j: Job, agent: Agent): Job { j.(status := Assigned, agent := Some(agent.id)) }

  function StartRow(j: Job, agent: Agent, now: Time): Job {
    j.(status := Running, agent := Some(agent.id), startedAt := Some(now))
  }

  function CompleteRow(j: Job, r: Report, now: Time): Job {
    j.(status := if r.succeeded then Succeeded
      else Failed, completedAt := Some(now), summary := Some(Take(SummaryText(r), 512)))
  }

  /** `output or error or status`. */
  function SummaryText(r: Report): string {
    if r.output != "" then r.output
    else if r.error.Some? && r.error.value != "" then r.error.value
    else if r.succeeded then "succeeded" else "failed"
  }

  function ResultOf(id: nat, j: Job, r: Report): ResultRow {
    ResultRow(id, j.org, if r.succeeded then Succeeded else Failed, Take(r.output, 20000),
              if r.error.Some? && r.error.value != "" then Some(Take(r.error.value, 20000)) else None, r.exitCode)
  }

  function CancelRow(j: Job, now: Time): Job { j.(status := Canceled, completedAt := Some(now)) }

  /** Every row in `ids` expired at `now`, all others as they were. */
  function ExpireRows(jobs: seq<Job>, ids: seq<nat>, now: Time): (r: seq<Job>)
    requires Within(ids, |jobs|)
    ensures |r| == |jobs|
  {
    seq(|jobs|, i requires 0 <= i < |jobs| => if i in ids then ExpireRow(jobs[i], now) else jobs[i])
  }

  /** Every row in `ids` handed to the agent, all others as they were. */
  function AssignRows(jobs: seq<Job>, ids: seq<nat>, agent: Agent): (r: seq<Job>)
    requires Within(ids, |jobs|)
    ensures |r| == |jobs|
  {
    seq(|jobs|, i requires 0 <= i < |jobs| => if i in ids then AssignRow(jobs[i], agent) else jobs[i])
  }

  // ---- What the two queries guarantee ----

  predicate Due(j: Job, device: Option<nat>, now: Time) {
    j.status in {Queued, Assigned, Running} && j.expiresAt <= now && (device.Some? ==> j.device == device.value)
  }

  /** `ids` lists exactly the due rows, in some order. */
  predicate AnswersDue(jobs: seq<Job>, device: Option<nat>, now: Time, ids: seq<nat>) {
    && Distinct(ids)
    && Within(ids, |jobs|)
    && forall i | 0 <= i < |jobs| :: i in ids <==> Due(jobs[i], device, now)
  }

  predicate Waiting(j: Job, device: nat) { j.device == device && j.status == Queued }

  /** `ids` is a prefix of length at most five of the device's queued rows in creation order. */
  predicate AnswersOldest(jobs: seq<Job>, device: nat, ids: seq<nat>) {
    && Distinct(ids)
    && Within(ids, |jobs|)
    && |ids| <= POLL_LIMIT
    && (forall i | 0 <= i < |ids| :: Waiting(jobs[ids[i]], device))
    && (forall i, k | 0 <= i < k < |ids| :: jobs[ids[i]].createdAt <= jobs[ids[k]].createdAt)
    && (forall w | 0 <= w < |jobs| && Waiting(jobs[w], device) && w !in ids ::
          |ids| == POLL_LIMIT && forall i | 0 <= i < |ids| :: jobs[ids[i]].createdAt <= jobs[w].createdAt)
  }

  // ---- The requests ----

  datatype Request =
    | Create(org: nat, device: nat, jobType: JobPayload.JobType, payload: JobPayload.Payload, createdAt: Time,
      now: Time, timeout: int)
    | Sweep(scope: Option<nat>, now: Time, due: seq<nat>)
    | Poll(agent: Agent, now: Time, due: seq<nat>, oldest: seq<nat>)
    | Start(job: nat, agent: Agent, now: Time)
    | Complete(job: nat, agent: Agent, report: Report, now: Time)
    | Cancel(job: nat, now: Time)

  /**
   * The database answers a request truthfully. With `flush` the poll's second query sees the
   * expirations of its own request; as shipped (autoflush off, no flush) it sees the rows from before.
   */
  predicate Truthful(flush: bool, t: Tables, r: Request) {
    match r
    case Sweep(scope, now, due) => AnswersDue(t.jobs, scope, now, due)
    case Poll(agent, now, due, oldest) =>
      && AnswersDue(t.jobs, Some(agent.device), now, due)
      && AnswersOldest(Seen(flush, t, now, due), agent.device, oldest)
    case _ => true
  }

  /** The rows the poll's second query runs against. */
  function Seen(flush: bool, t: Tables, now: Time, due: seq<nat>): (r: seq<Job>)
    requires Within(due, |t.jobs|)
    ensures |r| == |t.jobs|
  {
    if flush then ExpireRows(t.jobs, due, now) else t.jobs
  }

  /** The ids a request carries from a query are positions of rows. */
  predicate Shaped(t: Tables, r: Request) {
    match r
    case Sweep(_, _, due) => Within(due, |t.jobs|)
    case Poll(_, _, due, oldest) => Within(due, |t.jobs|) && Within(oldest, |t.jobs|)
    case _ => true
  }

  /** require_agent_job. */
  predicate MayHandle(j: Job, agent: Agent) {
    j.device == agent.device && (j.agent.Some? ==> j.agent.value == agent.id)
  }

  function ReplyTo(t: Tables, r: Request): Reply {
    match r
    case Create(_, _, jobType, payload, _, _, _) =>
      (match JobPayload.Validate(jobType, payload)
       case Accepted(_) => Ok
       case BadRequest => BadRequest
       case ServerError => ServerError)
    case Sweep(_, _, _) => Ok
    case Poll(_, _, _, _) => Ok
    case Start(id, agent, _) =>
      if id >= |t.jobs| then NotFound
      else if !MayHandle(t.jobs[id], agent) then Forbidden
      else if t.jobs[id].status !in {Assigned, Queued} then Conflict
      else Ok
    case Complete(id, agent, _, _) =>
      if id >= |t.jobs| then NotFound
      else if !MayHandle(t.jobs[id], agent) then Forbidden
      else if t.jobs[id].status != Running then Conflict
      else Ok
    case Cancel(id, _) => if id >= |t.jobs| then NotFound else Ok
  }

  function NewJob(r: Request, payload: JobPayload.Payload): Job
    requires r.Create?
  {
    Job(r.org, r.device, r.jobType, payload, Queued, None, r.createdAt, r.now + r.timeout, None, None, None)
  }

  /** The job rows after an accepted request. */
  function RowsAfter(t: Tables, r: Request): (rows: seq<Job>)
    requires Shaped(t, r) && ReplyTo(t, r) == Ok
    ensures |t.jobs| <= |rows|
  {
    match r
    case Create(_, _, jobType, payload, _, _, _) => t.jobs + [NewJob(r, JobPayload.Validate(jobType, payload).payload)]
    case Sweep(_, now, due) => ExpireRows(t.jobs, due, now)
    case Poll(agent, now, due, oldest) => AssignRows(ExpireRows(t.jobs, due, now), oldest, agent)
    case Start(id, agent, now) => t.jobs[id := StartRow(t.jobs[id], agent, now)]
    case Complete(id, _, report, now) => t.jobs[id := CompleteRow(t.jobs[id], report, now)]
    case Cancel(id, now) => if t.jobs[id].status.Terminal() then t.jobs else t.jobs[id := CancelRow(t.jobs[id], now)]
  }

  /** The events an accepted request appends, in order. */
  function Written(t: Tables, r: Request): seq<Event>
    requires Shaped(t, r) && ReplyTo(t, r) == Ok
  {
    match r
    case Create(org, _, _, _, _, _, _) => [Event(|t.jobs|, org, CreatedEv)]
    case Sweep(_, _, due) => Stamped(t.jobs, due, ExpiredEv)
    case Poll(_, _, due, oldest) => Stamped(t.jobs, due, ExpiredEv) + Stamped(t.jobs, oldest, AssignedEv)
    case Start(id, _, _) => [Event(id, t.jobs[id].org, StartedEv)]
    case Complete(id, _, report, _) => [Event(id, t.jobs[id].org, if report.succeeded then CompletedEv else FailedEv)]
    case Cancel(id, _) => if t.jobs[id].status.Terminal() then [] else [Event(id, t.jobs[id].org, CanceledEv)]
  }

  /** The committed tables after a request. A refused request changes nothing. */
  function Apply(t: Tables, r: Request): (t': Tables)
    requires Shaped(t, r)
    ensures |t.jobs| <= |t'.jobs|
  {
    if ReplyTo(t, r) != Ok then t
    else
      Tables(RowsAfter(t, r), t.events + Written(t, r), t.audits + AuditsOf(Written(t, r)),
             if r.Complete? then t.results + [ResultOf(r.job, t.jobs[r.job], r.report)] else t.results)
  }
}
