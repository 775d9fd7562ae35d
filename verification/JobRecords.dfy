/**
 * What every field of a job and of its result says, in terms of the requests that were made: who created the job
 * and with what, who it was handed to, when it started and ended, and which report its result stores.
 */
module JobRecords {
  import opened Base
  import opened Jobs
  import opened JobLifecycle
  import opened JobRuns
  import JobPayload

  // ---- Which requests take effect on a job, in the job's and the request's own fields ----

  /** The agent is the device's, and the job is nobody else's. */
  predicate Fits(j: Job, agent: Agent) { j.device == agent.device && (j.agent == None || j.agent == Some(agent.id)) }

  predicate StartTaken(t: Tables, r: Request, id: nat) {
    && r.Start? && r.job == id && id < |t.jobs| && Fits(t.jobs[id], r.agent)
    && (t.jobs[id].status == Queued || t.jobs[id].status == Assigned)
  }

  predicate CompletionTaken(t: Tables, r: Request, id: nat) {
    r.Complete? && r.job == id && id < |t.jobs| && Fits(t.jobs[id], r.agent) && t.jobs[id].status == Running
  }

  predicate Unfinished(j: Job) { j.status == Queued || j.status == Assigned || j.status == Running }

  predicate CancelTaken(t: Tables, r: Request, id: nat) {
    r.Cancel? && r.job == id && id < |t.jobs| && Unfinished(t.jobs[id])
  }

  predicate ExpiryTaken(t: Tables, r: Request, id: nat) {
    && id < |t.jobs| && Unfinished(t.jobs[id]) && (r.Sweep? || r.Poll?) && t.jobs[id].expiresAt <= r.now
    && (r.Sweep? ==> r.scope == None || r.scope == Some(t.jobs[id].device))
    && (r.Poll? ==> r.agent.device == t.jobs[id].device)
  }

  predicate HandOutTaken(r: Request, id: nat) { r.Poll? && id in r.oldest }

  /** The first n characters of a text. */
  predicate FirstChars(part: string, whole: string, n: nat) { part <= whole && |part| == Min(|whole|, n) }

  /** What the summary of a completed job is cut from. */
  function SummarySource(r: Report): string {
    if r.output != [] then r.output
    else if r.error.Some? && r.error.value != [] then r.error.value
    else if r.succeeded then "succeeded" else "failed"
  }

  /** The result row stores the report. */
  predicate Stores(x: ResultRow, r: Report) {
    && x.status == (if r.succeeded then Succeeded else Failed)
    && FirstChars(x.output, r.output, 20000)
    && (x.error.Some? <==> r.error.Some? && r.error.value != [])
    && (x.error.Some? ==> FirstChars(x.error.value, r.error.value, 20000))
    && x.exitCode == r.exitCode
  }

  // ---- One request ----

  /** The identity of a job never changes. */
  predicate SameJob(j: Job, j': Job) {
    && j'.org == j.org && j'.device == j.device && j'.jobType == j.jobType && j'.payload == j.payload
    && j'.createdAt == j.createdAt && j'.expiresAt == j.expiresAt
  }

  /** One request, field by field, on a job that exists. */
  lemma RequestWrites(flush: bool, t: Tables, r: Request, t': Tables, id: nat)
    requires Happens(flush, t, r, t') && id < |t.jobs|
    ensures id < |t'.jobs| && SameJob(t.jobs[id], t'.jobs[id])
    ensures t'.jobs[id].startedAt == if StartTaken(t, r, id) then Some(r.now) else t.jobs[id].startedAt
    ensures t'.jobs[id].completedAt
         == if CompletionTaken(t, r, id) || CancelTaken(t, r, id) || ExpiryTaken(t, r, id) then Some(r.now)
            else t.jobs[id].completedAt
    ensures t'.jobs[id].agent
         == if StartTaken(t, r, id) || HandOutTaken(r, id) then Some(r.agent.id) else t.jobs[id].agent
    ensures CompletionTaken(t, r, id) ==>
              t'.jobs[id].summary.Some? && FirstChars(t'.jobs[id].summary.value, SummarySource(r.report), 512)
    ensures !CompletionTaken(t, r, id) ==> t'.jobs[id].summary == t.jobs[id].summary
    ensures t'.jobs[id].status
         == if HandOutTaken(r, id) then Assigned
            else if ExpiryTaken(t, r, id) then Expired
            else if StartTaken(t, r, id) then Running
            else if CompletionTaken(t, r, id) then (if r.report.succeeded then Succeeded else Failed)
            else if CancelTaken(t, r, id) then Canceled
            else t.jobs[id].status
  {
    hide JobPayload.Validate, AnswersOldest, Seen;
    if r.Sweep? {
      assert id in r.due <==> Due(t.jobs[id], r.scope, r.now);
    } else if r.Poll? {
      assert id in r.due <==> Due(t.jobs[id], Some(r.agent.device), r.now);
    }
  }

  /** A completion that is taken stores one result; nothing else stores or changes any. */
  lemma RequestStores(flush: bool, t: Tables, r: Request, t': Tables)
    requires Happens(flush, t, r, t')
    ensures r.Complete? && CompletionTaken(t, r, r.job) ==>
              && |t'.results| == |t.results| + 1 && t'.results[..|t.results|] == t.results
              && t'.results[|t.results|].job == r.job && t'.results[|t.results|].org == t.jobs[r.job].org
              && Stores(t'.results[|t.results|], r.report)
    ensures !(r.Complete? && CompletionTaken(t, r, r.job)) ==> t'.results == t.results
  {
    hide JobPayload.Validate, AnswersOldest, AnswersDue, Seen;
  }

  /** A job appears only as the row of an accepted creation. */
  lemma RequestCreates(flush: bool, t: Tables, r: Request, t': Tables)
    requires Happens(flush, t, r, t')
    ensures r.Create? && JobPayload.Validate(r.jobType, r.payload).Accepted? ==>
              && |t'.jobs| == |t.jobs| + 1
              && var j := t'.jobs[|t.jobs|];
                 && j.org == r.org && j.device == r.device && j.jobType == r.jobType
                 && j.payload == JobPayload.Validate(r.jobType, r.payload).payload
                 && j.createdAt == r.createdAt && j.expiresAt == r.now + r.timeout
                 && j.status == Queued && j.agent == None && j.startedAt == None && j.completedAt == None
                      && j.summary == None
    ensures !(r.Create? && JobPayload.Validate(r.jobType, r.payload).Accepted?) ==> |t'.jobs| == |t.jobs|
  {
    hide JobPayload.Validate, AnswersOldest, AnswersDue, Seen;
  }

  /** How each request on a job is answered, by its guards in order; what is not accepted changes nothing. */
  lemma RequestAnswers(t: Tables, r: Request)
    requires Shaped(t, r)
    ensures r.Start? || r.Complete? ==>
              && (ReplyTo(t, r) == NotFound <==> r.job >= |t.jobs|)
              && (ReplyTo(t, r) == Forbidden <==> r.job < |t.jobs| && !Fits(t.jobs[r.job], r.agent))
              && (ReplyTo(t, r) == Conflict <==>
                   r.job < |t.jobs| && Fits(t.jobs[r.job], r.agent)
                   && !StartTaken(t, r, r.job) && !CompletionTaken(t, r, r.job))
              && (ReplyTo(t, r) == Ok <==> StartTaken(t, r, r.job) || CompletionTaken(t, r, r.job))
    ensures r.Cancel? ==> ReplyTo(t, r) == if r.job < |t.jobs| then Ok else NotFound
    ensures r.Sweep? || r.Poll? ==> ReplyTo(t, r) == Ok
    ensures r.Create? ==>
              match JobPayload.Validate(r.jobType, r.payload)
              case Accepted(_) => ReplyTo(t, r) == Ok
              case BadRequest => ReplyTo(t, r) == BadRequest
              case ServerError => ReplyTo(t, r) == ServerError
    ensures ReplyTo(t, r) != Ok ==> Apply(t, r) == t
  {
    hide JobPayload.Validate;
  }

  // ---- Whole runs ----

  /** The row a creation puts into the table. */
  lemma {:induction false} JobIsItsCreation(flush: bool, states: seq<Tables>, requests: seq<Request>, i: nat, id: nat)
    returns (c: nat)
    requires Run(flush, states, requests) && i < |states| && id < |states[i].jobs|
    ensures c < i && requests[c].Create? && |states[c].jobs| == id
    ensures var r, j := requests[c], states[i].jobs[id];
            && JobPayload.Validate(r.jobType, r.payload) == JobPayload.Accepted(j.payload)
            && j.org == r.org && j.device == r.device && j.jobType == r.jobType
            && j.createdAt == r.createdAt && j.expiresAt == r.now + r.timeout
  {
    hide Happens, JobPayload.Validate;
    if i > 0 {
      RequestCreates(flush, states[i - 1], requests[i - 1], states[i]);
      if id < |states[i - 1].jobs| {
        c := JobIsItsCreation(flush, states, requests, i - 1, id);
        RequestWrites(flush, states[i - 1], requests[i - 1], states[i], id);
      } else {
        c := i - 1;
      }
    }
  }

  /** What a request can do to a job that its row remembers. */
  datatype Effect = Starting | Holding | Ending | Completing

  predicate Takes(e: Effect, t: Tables, r: Request, id: nat) {
    match e
    case Starting => StartTaken(t, r, id)
    case Holding => StartTaken(t, r, id) || HandOutTaken(r, id)
    case Ending => CompletionTaken(t, r, id) || CancelTaken(t, r, id) || ExpiryTaken(t, r, id)
    case Completing => CompletionTaken(t, r, id)
  }

  /** The last request before state i with this effect on the job, if there was one. */
  ghost predicate LastOf(states: seq<Tables>, requests: seq<Request>, i: nat, id: nat, e: Effect, k: Option<nat>)
    requires i < |states| == |requests| + 1
  {
    match k
    case None => forall x | 0 <= x < i :: !Takes(e, states[x], requests[x], id)
    case Some(at) =>
      && at < i && Takes(e, states[at], requests[at], id)
      && forall x | at < x < i :: !Takes(e, states[x], requests[x], id)
  }

  lemma {:induction false} FindLast(states: seq<Tables>, requests: seq<Request>, i: nat, id: nat, e: Effect)
    returns (k: Option<nat>)
    requires i < |states| == |requests| + 1
    ensures LastOf(states, requests, i, id, e, k)
  {
    hide Takes;
    if i == 0 {
      k := None;
    } else if Takes(e, states[i - 1], requests[i - 1], id) {
      k := Some(i - 1);
    } else {
      k := FindLast(states, requests, i - 1, id, e);
    }
  }

  lemma LastStep(states: seq<Tables>, requests: seq<Request>, i: nat, id: nat, e: Effect, k: Option<nat>)
    requires 0 < i < |states| == |requests| + 1 && LastOf(states, requests, i, id, e, k)
    ensures Takes(e, states[i - 1], requests[i - 1], id) ==> k == Some(i - 1)
    ensures !Takes(e, states[i - 1], requests[i - 1], id) ==>
              LastOf(states, requests, i - 1, id, e, k) && k != Some(i - 1)
  {
    hide Takes;
  }

  /** Nothing takes effect on a job before it exists, but a poll cannot name it either. */
  lemma NothingTaken(flush: bool, states: seq<Tables>, requests: seq<Request>, i: nat, id: nat, e: Effect)
    requires Run(flush, states, requests) && i < |requests| && id >= |states[i].jobs|
    ensures forall x | 0 <= x <= i :: !Takes(e, states[x], requests[x], id)
  {
    hide Happens;
    forall x | 0 <= x <= i ensures !Takes(e, states[x], requests[x], id) {
      if id < |states[x].jobs| {
        Progress(flush, states, requests, x, i, id);
      }
      assert Happens(flush, states[x], requests[x], states[x + 1]);
      if HandOutTaken(requests[x], id) {
        NamesExisting(flush, states[x], requests[x], states[x + 1], id);
      }
    }
  }

  lemma NamesExisting(flush: bool, t: Tables, r: Request, t': Tables, id: nat)
    requires Happens(flush, t, r, t') && HandOutTaken(r, id)
    ensures id < |t.jobs|
  {
    hide AnswersDue, Apply;
  }

  /** The times, the agent and the summary of a row, as the last requests with these effects left them. */
  ghost predicate Remembers(j: Job, requests: seq<Request>, e: Effect, k: Option<nat>)
    requires k.Some? ==> k.value < |requests| && (e == Holding ==> requests[k.value].Start? || requests[k.value].Poll?)
    requires k.Some? && e == Completing ==> requests[k.value].Complete?
  {
    match e
    case Starting => j.startedAt == if k.Some? then Some(requests[k.value].now) else None
    case Holding => j.agent == if k.Some? then Some(requests[k.value].agent.id) else None
    case Ending => j.completedAt == if k.Some? then Some(requests[k.value].now) else None
    case Completing =>
      if k.None? then j.summary == None
      else j.summary.Some? && FirstChars(j.summary.value, SummarySource(requests[k.value].report), 512)
  }

  /**
   * In every reachable state, under either reading: a job's start time is that of the last accepted start, its
   * agent that of the last start or poll that took it, its completion time that of the last completion,
   * cancellation or expiration, and its summary that of its completion; each is missing if there was none.
   */
  lemma {:induction false} RowsRememberRequests(
    flush: bool, states: seq<Tables>, requests: seq<Request>, i: nat, id: nat, e: Effect)
    returns (k: Option<nat>)
    requires Run(flush, states, requests) && i < |states| && id < |states[i].jobs|
    ensures LastOf(states, requests, i, id, e, k) && Remembers(states[i].jobs[id], requests, e, k)
  {
    hide Happens, LastOf, FirstChars, SummarySource;
    k := FindLast(states, requests, i, id, e);
    if i > 0 {
      var t, r := states[i - 1], requests[i - 1];
      LastStep(states, requests, i, id, e, k);
      LastKind(states, requests, i, id, e, k);
      RequestCreates(flush, t, r, states[i]);
      if id < |t.jobs| {
        RequestWrites(flush, t, r, states[i], id);
        var before := RowsRememberRequests(flush, states, requests, i - 1, id, e);
        if !Takes(e, t, r, id) {
          LastIsOne(states, requests, i - 1, id, e, before, k);
        }
      } else {
        NothingTaken(flush, states, requests, i - 1, id, e);
        NoneTaken(states, requests, i, id, e, k);
      }
    }
  }

  lemma LastKind(states: seq<Tables>, requests: seq<Request>, i: nat, id: nat, e: Effect, k: Option<nat>)
    requires i < |states| == |requests| + 1 && LastOf(states, requests, i, id, e, k)
    ensures k.Some? ==> k.value < |requests| && (e == Holding ==> requests[k.value].Start? || requests[k.value].Poll?)
    ensures k.Some? && e == Completing ==> requests[k.value].Complete?
  {
  }

  lemma LastIsOne(states: seq<Tables>, requests: seq<Request>, i: nat, id: nat, e: Effect, a: Option<nat>,
      b: Option<nat>)
    requires i < |states| == |requests| + 1
    requires LastOf(states, requests, i, id, e, a) && LastOf(states, requests, i, id, e, b)
    ensures a == b
  {
    hide Takes;
  }

  lemma NoneTaken(states: seq<Tables>, requests: seq<Request>, i: nat, id: nat, e: Effect, k: Option<nat>)
    requires i < |states| == |requests| + 1 && LastOf(states, requests, i, id, e, k)
    requires forall x | 0 <= x < i :: !Takes(e, states[x], requests[x], id)
    ensures k == None
  {
    hide Takes;
  }

  // ---- Audits ----

  /** In every reachable state the audits are the events, one for one: same organization, same job, same action. */
  lemma EveryEventIsAudited(flush: bool, states: seq<Tables>, requests: seq<Request>, i: nat)
    requires Run(flush, states, requests) && i < |states|
    ensures |states[i].audits| == |states[i].events|
    ensures forall k | 0 <= k < |states[i].events| ::
              var a, e := states[i].audits[k], states[i].events[k];
              a.org == e.org && a.target == e.job && a.action == e.kind
  {
    hide Run, RowsAgree, ResultsAgree;
    Reachable(flush, states, requests, i);
  }

  // ---- Results ----

  /** A job is completed at most once: from then on it is terminal. */
  lemma CompletedOnce(flush: bool, states: seq<Tables>, requests: seq<Request>, k: nat, x: nat, id: nat)
    requires Run(flush, states, requests) && k < x < |requests| && CompletionTaken(states[k], requests[k], id)
    ensures !CompletionTaken(states[x], requests[x], id)
  {
    hide Happens;
    assert Happens(flush, states[k], requests[k], states[k + 1]);
    RequestWrites(flush, states[k], requests[k], states[k + 1], id);
    TerminalForever(flush, states, requests, k + 1, x, id);
  }

  lemma {:induction false} ResultFrom(flush: bool, states: seq<Tables>, requests: seq<Request>, i: nat, x: nat)
    returns (k: nat)
    requires Run(flush, states, requests) && i < |states| && x < |states[i].results|
    ensures k < i && CompletionTaken(states[k], requests[k], states[i].results[x].job)
    ensures Stores(states[i].results[x], requests[k].report)
    ensures states[i].results[x].org == states[k].jobs[states[i].results[x].job].org
  {
    hide Happens, Stores;
    if i > 0 {
      RequestStores(flush, states[i - 1], requests[i - 1], states[i]);
      if x < |states[i - 1].results| {
        k := ResultFrom(flush, states, requests, i - 1, x);
        assert states[i].results[x] == states[i - 1].results[x];
      } else {
        k := i - 1;
      }
    }
  }

  /**
   * Every result row is that of exactly one accepted completion: it stores the report's output and error, cut,
   * and its exit code and outcome; the job's summary and completion time come from the same request, and its
   * start time from an earlier accepted start.
   */
  lemma ResultIsItsReport(flush: bool, states: seq<Tables>, requests: seq<Request>, i: nat, x: nat)
    returns (k: nat, s: nat)
    requires Run(flush, states, requests) && i < |states| && x < |states[i].results|
    ensures var row := states[i].results[x];
            && s < k < i && row.job < |states[i].jobs|
            && CompletionTaken(states[k], requests[k], row.job) && StartTaken(states[s], requests[s], row.job)
            && (forall y | s < y < k :: !StartTaken(states[y], requests[y], row.job))
            && (forall y | 0 <= y < i && CompletionTaken(states[y], requests[y], row.job) :: y == k)
            && Stores(row, requests[k].report)
            && var j := states[i].jobs[row.job];
               && j.status == (if requests[k].report.succeeded then Succeeded else Failed)
               && j.summary.Some? && FirstChars(j.summary.value, SummarySource(requests[k].report), 512)
               && j.completedAt == Some(requests[k].now) && j.startedAt == Some(requests[s].now)
  {
    hide Happens, Stores, FirstChars, SummarySource;
    k := ResultFrom(flush, states, requests, i, x);
    var id := states[i].results[x].job;
    assert Happens(flush, states[k], requests[k], states[k + 1]);
    RequestWrites(flush, states[k], requests[k], states[k + 1], id);
    TerminalForever(flush, states, requests, k + 1, i, id);
    forall y | 0 <= y < i && CompletionTaken(states[y], requests[y], id) ensures y == k {
      if y < k {
        CompletedOnce(flush, states, requests, y, k, id);
      } else if y > k {
        CompletedOnce(flush, states, requests, k, y, id);
      }
    }
    var start := RowsRememberRequests(flush, states, requests, k, id, Starting);
    RunningWasStarted(flush, states, requests, k, id);
    s := start.value;
  }

  lemma RunningWasStarted(flush: bool, states: seq<Tables>, requests: seq<Request>, i: nat, id: nat)
    requires Run(flush, states, requests) && i < |states| && id < |states[i].jobs|
             && states[i].jobs[id].status == Running
    ensures states[i].jobs[id].startedAt.Some?
  {
    hide Run;
    Reachable(flush, states, requests, i);
    assert RowAgrees(flush, states[i].jobs[id], Word(states[i].events, id));
    LastInWord(Word(states[i].events, id));
  }

  lemma LastInWord(w: seq<Kind>)
    requires w != []
    ensures w[|w| - 1] in w
  {
  }

  /** And every accepted completion has its result row, from then on. */
  lemma {:induction false} ReportHasItsResult(flush: bool, states: seq<Tables>, requests: seq<Request>, k: nat, i: nat,
      id: nat)
    returns (x: nat)
    requires Run(flush, states, requests) && k < i < |states| && CompletionTaken(states[k], requests[k], id)
    ensures x < |states[i].results| && states[i].results[x].job == id
            && Stores(states[i].results[x], requests[k].report)
    decreases i
  {
    hide Happens, Stores;
    RequestStores(flush, states[i - 1], requests[i - 1], states[i]);
    if k == i - 1 {
      x := |states[k].results|;
    } else {
      x := ReportHasItsResult(flush, states, requests, k, i - 1, id);
      assert states[i].results[x] == states[i - 1].results[x];
    }
  }
}
