/**
 * The server half of the job protocol as it runs: an ORM session over the job tables. `rows` is what
 * a query of the transaction sees, `objects` the identity map of rows loaded by the session, whose
 * changes reach `rows` only at a flush. Each request is one transaction.
 */
module JobStore {
  import opened Base
  import opened Jobs
  import JobPayload

  /** The table once the session's objects are written over it. */
  function Overlay(rows: seq<Job>, objects: map<nat, Job>): (r: seq<Job>)
    ensures |r| == |rows|
  {
    seq(|rows|, i requires 0 <= i < |rows| => if i in objects then objects[i] else rows[i])
  }

  lemma PrefixMember(ids: seq<nat>, i: nat, size: nat)
    requires Within(ids, size) && i < |ids|
    ensures Within(ids[..i], size) && Within(ids[..i + 1], size)
    ensures forall x :: x in ids[..i + 1] <==> x in ids[..i] || x == ids[i]
  {
    assert ids[..i + 1] == ids[..i] + [ids[i]];
  }

  lemma ExpireStep(jobs: seq<Job>, ids: seq<nat>, i: nat, now: Time)
    requires Within(ids, |jobs|) && i < |ids|
    ensures Within(ids[..i], |jobs|) && Within(ids[..i + 1], |jobs|)
    ensures var done := ExpireRows(jobs, ids[..i], now);
            ExpireRows(jobs, ids[..i + 1], now) == done[ids[i] := ExpireRow(done[ids[i]], now)]
  {
    PrefixMember(ids, i, |jobs|);
  }

  lemma AssignStep(jobs: seq<Job>, ids: seq<nat>, i: nat, agent: Agent)
    requires Within(ids, |jobs|) && i < |ids|
    ensures Within(ids[..i], |jobs|) && Within(ids[..i + 1], |jobs|)
    ensures var done := AssignRows(jobs, ids[..i], agent);
            AssignRows(jobs, ids[..i + 1], agent) == done[ids[i] := AssignRow(done[ids[i]], agent)]
  {
    PrefixMember(ids, i, |jobs|);
  }

  /** Logging one more id appends one event, and organizations are all that logging reads. */
  lemma StampedStep(jobs: seq<Job>, ids: seq<nat>, i: nat, kind: Kind)
    requires Within(ids, |jobs|) && i < |ids|
    ensures Within(ids[..i], |jobs|) && Within(ids[..i + 1], |jobs|)
    ensures Stamped(jobs, ids[..i + 1], kind) == Stamped(jobs, ids[..i], kind) + [Event(ids[i], jobs[ids[i]].org, kind)]
    ensures AuditsOf(Stamped(jobs, ids[..i + 1], kind))
         == AuditsOf(Stamped(jobs, ids[..i], kind)) + [AuditOf(Event(ids[i], jobs[ids[i]].org, kind))]
  {
  }

  lemma AuditOne(e: Event)
    ensures AuditsOf([e]) == [AuditOf(e)]
  {
  }

  lemma OverlayNothing(rows: seq<Job>)
    ensures Overlay(rows, map[]) == rows
  {
  }

  lemma StampedAfterExpiry(jobs: seq<Job>, due: seq<nat>, now: Time, ids: seq<nat>, kind: Kind)
    requires Within(due, |jobs|) && Within(ids, |jobs|)
    ensures Stamped(ExpireRows(jobs, due, now), ids, kind) == Stamped(jobs, ids, kind)
  {
  }

  /** A poll, table by table, and what its answers amount to. */
  lemma PollTables(flush: bool, t: Tables, agent: Agent, now: Time, due: seq<nat>, oldest: seq<nat>)
    requires Truthful(flush, t, Poll(agent, now, due, oldest))
    ensures Within(due, |t.jobs|) && Within(oldest, |t.jobs|)
    ensures AnswersDue(t.jobs, Some(agent.device), now, due)
            && AnswersOldest(Seen(flush, t, now, due), agent.device, oldest)
    ensures var t' := Apply(t, Poll(agent, now, due, oldest));
            var expired := ExpireRows(t.jobs, due, now);
            && t'.jobs == AssignRows(expired, oldest, agent)
            && t'.events == t.events + Stamped(t.jobs, due, ExpiredEv) + Stamped(t.jobs, oldest, AssignedEv)
            && t'.audits
                 == t.audits + AuditsOf(Stamped(t.jobs, due, ExpiredEv)) + AuditsOf(Stamped(t.jobs, oldest, AssignedEv))
            && t'.results == t.results
  {
    hide ExpireRows, AssignRows, Stamped, AuditsOf, Due, Waiting;
    AuditsConcat(Stamped(t.jobs, due, ExpiredEv), Stamped(t.jobs, oldest, AssignedEv));
  }

  /** Only rows of the table can be loaded. */
  predicate Fits(objects: map<nat, Job>, size: nat) { forall id | id in objects :: id < size }

  class JobSession {
    const flushBeforeSelect: bool
    var rows: seq<Job>
    var objects: map<nat, Job>
    var events: seq<Event>
    var audits: seq<Audit>
    var results: seq<ResultRow>

    constructor (flush: bool)
      ensures objects == map[] && Committed() == EMPTY && flushBeforeSelect == flush
    {
      flushBeforeSelect := flush;
      rows, objects, events, audits, results := [], map[], [], [], [];
    }

    ghost function Committed(): Tables
      reads this
    {
      Tables(rows, events, audits, results)
    }

    // ---- Session plumbing ----

    method Load(id: nat) returns (job: Job)
      requires Fits(objects, |rows|) && id < |rows|
      modifies this`objects
      ensures Fits(objects, |rows|) && id in objects && job == objects[id] == Overlay(rows, objects)[id]
      ensures Overlay(rows, objects) == Overlay(old(rows), old(objects))
    {
      if id !in objects {
        objects := objects[id := rows[id]];
      }
      job := objects[id];
    }

    /** An attribute assignment on a loaded object. */
    method Store(id: nat, job: Job)
      requires Fits(objects, |rows|) && id < |rows|
      modifies this`objects
      ensures Fits(objects, |rows|) && Overlay(rows, objects) == Overlay(old(rows), old(objects))[id := job]
    {
      objects := objects[id := job];
    }

    method Flush()
      requires Fits(objects, |rows|)
      modifies this`rows
      ensures rows == Overlay(rows, objects) == Overlay(old(rows), old(objects)) && Fits(objects, |rows|)
    {
      rows := Overlay(rows, objects);
    }

    method Commit()
      requires Fits(objects, |rows|)
      modifies this`rows, this`objects
      ensures objects == map[] && rows == Overlay(old(rows), old(objects))
    {
      Flush();
      objects := map[];
    }

    method Rollback()
      modifies this`objects
      ensures objects == map[]
    {
      objects := map[];
    }

    method AddJobEvent(id: nat, org: nat, kind: Kind)
      modifies this`events
      ensures events == old(events) + [Event(id, org, kind)]
    {
      events := events + [Event(id, org, kind)];
    }

    method WriteAudit(org: nat, action: Kind, target: nat)
      modifies this`audits
      ensures audits == old(audits) + [Audit(org, action, target)]
    {
      audits := audits + [Audit(org, action, target)];
    }

    // ---- core/jobs.py ----

    method CreateJob(org: nat, device: nat, jobType: JobPayload.JobType, payload: JobPayload.Payload, createdAt: Time,
        now: Time, timeout: int)
      returns (reply: Reply)
      requires objects == map[]
      modifies this
      ensures objects == map[]
              && reply == ReplyTo(old(Committed()), Create(org, device, jobType, payload, createdAt, now, timeout))
      ensures Committed() == Apply(old(Committed()), Create(org, device, jobType, payload, createdAt, now, timeout))
    {
      var checked := JobPayload.Validate(jobType, payload);
      if checked == JobPayload.BadRequest {
        return BadRequest;
      }
      if checked == JobPayload.ServerError {
        return ServerError;
      }
      var id := |rows|;
      rows := rows
        + [Job(org, device, jobType, checked.payload, Queued, None, createdAt, now + timeout, None, None, None)];
      AddJobEvent(id, org, CreatedEv);
      WriteAudit(org, CreatedEv, id);
      AuditOne(Event(id, org, CreatedEv));
      reply := Ok;
    }

    method ExpireJobs(scope: Option<nat>, now: Time, due: seq<nat>)
      requires Fits(objects, |rows|) && AnswersDue(rows, scope, now, due)
      modifies this`objects, this`events, this`audits
      ensures Fits(objects, |rows|) && Overlay(rows, objects) == ExpireRows(Overlay(old(rows), old(objects)), due, now)
      ensures events == old(events) + Stamped(Overlay(old(rows), old(objects)), due, ExpiredEv)
      ensures audits == old(audits) + AuditsOf(Stamped(Overlay(old(rows), old(objects)), due, ExpiredEv))
    {
      ghost var before := Overlay(rows, objects);
      assert Within(due, |rows|);
      hide AnswersDue;
      for i := 0 to |due|
        invariant Fits(objects, |rows|) && Within(due[..i], |rows|)
        invariant Overlay(rows, objects) == ExpireRows(before, due[..i], now)
        invariant events == old(events) + Stamped(before, due[..i], ExpiredEv)
        invariant audits == old(audits) + AuditsOf(Stamped(before, due[..i], ExpiredEv))
      {
        ExpireStep(before, due, i, now);
        StampedStep(before, due, i, ExpiredEv);
        var job := Load(due[i]);
        Store(due[i], job.(status := Expired, completedAt := Some(now)));
        AddJobEvent(due[i], job.org, ExpiredEv);
        WriteAudit(job.org, ExpiredEv, due[i]);
      }
      assert due[..|due|] == due;
    }

    method AssignJobsForAgent(agent: Agent, now: Time, due: seq<nat>, oldest: seq<nat>)
      requires objects == map[] && Truthful(flushBeforeSelect, Committed(), Poll(agent, now, due, oldest))
      modifies this
      ensures Fits(objects, |rows|) && results == old(results)
      ensures Committed() == Apply(old(Committed()), Poll(agent, now, due, oldest))
      ensures rows == Overlay(rows, objects)
    {
      OverlayNothing(rows);
      PollTables(flushBeforeSelect, Committed(), agent, now, due, oldest);
      StampedAfterExpiry(rows, due, now, oldest, AssignedEv);
      hide Truthful, Apply, AnswersDue, AnswersOldest, ExpireRows, AssignRows, Stamped, AuditsOf, Overlay, Distinct,
        Within;
      ExpireJobs(Some(agent.device), now, due);
      if flushBeforeSelect {
        Flush();
      }
      // the answer to the second query
      assert AnswersOldest(rows, agent.device, oldest);
      MarkAssigned(agent, oldest);
      Flush();
    }

    /** The loop over the selected rows. */
    method MarkAssigned(agent: Agent, oldest: seq<nat>)
      requires Fits(objects, |rows|) && Within(oldest, |rows|)
      modifies this`objects, this`events, this`audits
      ensures Fits(objects, |rows|)
              && Overlay(rows, objects) == AssignRows(Overlay(old(rows), old(objects)), oldest, agent)
      ensures events == old(events) + Stamped(Overlay(old(rows), old(objects)), oldest, AssignedEv)
      ensures audits == old(audits) + AuditsOf(Stamped(Overlay(old(rows), old(objects)), oldest, AssignedEv))
    {
      ghost var before := Overlay(rows, objects);
      for i := 0 to |oldest|
        invariant Fits(objects, |rows|) && Within(oldest[..i], |rows|)
        invariant Overlay(rows, objects) == AssignRows(before, oldest[..i], agent)
        invariant events == old(events) + Stamped(before, oldest[..i], AssignedEv)
        invariant audits == old(audits) + AuditsOf(Stamped(before, oldest[..i], AssignedEv))
      {
        AssignStep(before, oldest, i, agent);
        StampedStep(before, oldest, i, AssignedEv);
        var job := Load(oldest[i]);
        Store(oldest[i], job.(status := Assigned, agent := Some(agent.id)));
        AddJobEvent(oldest[i], job.org, AssignedEv);
        WriteAudit(job.org, AssignedEv, oldest[i]);
      }
      assert oldest[..|oldest|] == oldest;
    }

    method StartJob(id: nat, agent: Agent, now: Time) returns (reply: Reply)
      requires objects == map[]
      modifies this
      ensures objects == map[] && reply == ReplyTo(old(Committed()), Start(id, agent, now))
      ensures Committed() == Apply(old(Committed()), Start(id, agent, now))
    {
      if id >= |rows| {
        return NotFound;
      }
      assert Overlay(rows, objects) == rows;
      var job := Load(id);
      if job.device != agent.device || (job.agent.Some? && job.agent.value != agent.id) {
        Rollback();
        return Forbidden;
      }
      if job.status != Assigned && job.status != Queued {
        Rollback();
        return Conflict;
      }
      Store(id, job.(status := Running, agent := Some(agent.id), startedAt := Some(now)));
      AddJobEvent(id, job.org, StartedEv);
      WriteAudit(job.org, StartedEv, id);
      AuditOne(Event(id, job.org, StartedEv));
      Commit();
      reply := Ok;
    }

    method CompleteJob(id: nat, agent: Agent, report: Report, now: Time) returns (reply: Reply)
      requires objects == map[]
      modifies this
      ensures objects == map[] && reply == ReplyTo(old(Committed()), Complete(id, agent, report, now))
      ensures Committed() == Apply(old(Committed()), Complete(id, agent, report, now))
    {
      if id >= |rows| {
        return NotFound;
      }
      assert Overlay(rows, objects) == rows;
      var job := Load(id);
      if job.device != agent.device || (job.agent.Some? && job.agent.value != agent.id) {
        Rollback();
        return Forbidden;
      }
      if job.status != Running {
        Rollback();
        return Conflict;
      }
      var status := if report.succeeded then Succeeded else Failed;
      var error := if report.error.Some? && report.error.value != "" then report.error else None;
      var text := if report.output != "" then report.output
                  else if error.Some? then error.value
                  else if report.succeeded then "succeeded" else "failed";
      Store(id, job.(status := status, completedAt := Some(now), summary := Some(Take(text, 512))));
      results := results + [ResultRow(id, job.org, status, Take(report.output, 20000),
                                      if error.Some? then Some(Take(error.value, 20000)) else None, report.exitCode)];
      AddJobEvent(id, job.org, if report.succeeded then CompletedEv else FailedEv);
      WriteAudit(job.org, if report.succeeded then CompletedEv else FailedEv, id);
      AuditOne(Event(id, job.org, if report.succeeded then CompletedEv else FailedEv));
      Commit();
      reply := Ok;
    }

    method CancelJob(id: nat, now: Time) returns (reply: Reply)
      requires objects == map[]
      modifies this
      ensures objects == map[] && reply == ReplyTo(old(Committed()), Cancel(id, now))
      ensures Committed() == Apply(old(Committed()), Cancel(id, now))
    {
      if id >= |rows| {
        return NotFound;
      }
      assert Overlay(rows, objects) == rows;
      var job := Load(id);
      if !job.status.Terminal() {
        Store(id, job.(status := Canceled, completedAt := Some(now)));
        AddJobEvent(id, job.org, CanceledEv);
        WriteAudit(job.org, CanceledEv, id);
        AuditOne(Event(id, job.org, CanceledEv));
      }
      Commit();
      reply := Ok;
    }

    // ---- Handlers that wrap a whole transaction around the above ----

    /** GET /agent/jobs: the response carries the selected rows as committed, oldest first. */
    method PollJobs(agent: Agent, now: Time, due: seq<nat>, oldest: seq<nat>) returns (response: seq<(nat, Job)>)
      requires objects == map[] && Truthful(flushBeforeSelect, Committed(), Poll(agent, now, due, oldest))
      modifies this
      ensures objects == map[] && Committed() == Apply(old(Committed()), Poll(agent, now, due, oldest))
      ensures |response| == |oldest|
      ensures forall i | 0 <= i < |oldest| ::
                oldest[i] < |rows| && response[i] == (oldest[i], rows[oldest[i]]) && rows[oldest[i]].status == Assigned
    {
      AssignJobsForAgent(agent, now, due, oldest);
      Commit();
      response := seq(|oldest|,
        i requires 0 <= i < |oldest| reads this requires oldest[i] < |rows| => (oldest[i], rows[oldest[i]]));
    }

    /** The read handlers: listing or showing a device's jobs first expires the due ones. */
    method SweepDevice(scope: Option<nat>, now: Time, due: seq<nat>)
      requires objects == map[] && AnswersDue(rows, scope, now, due)
      modifies this
      ensures objects == map[] && Committed() == Apply(old(Committed()), Sweep(scope, now, due))
    {
      assert Overlay(rows, objects) == rows;
      ExpireJobs(scope, now, due);
      Commit();
    }
  }
}
