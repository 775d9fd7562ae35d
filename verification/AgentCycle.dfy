/** One run of the agent's ProcessJobs against the server, call by call, and how it drains the queue. */
module AgentCycle {
  import opened Base
  import opened Jobs
  import opened JobStore
  import JobPayload
  import F = Fleet

  /** What the network, the clocks and the host contribute while one polled job is processed. */
  datatype Turn = Turn(startFate: F.Fate, startNow: Time, host: JobPayload.Host, checkinError: Option<string>,
                       completeFate: F.Fate, completeNow: Time)

  /** The tables, the jobs executed so far, and whether ProcessJobs returned an error. */
  datatype Progress = Progress(tables: Tables, executed: seq<nat>, failed: bool)

  /** The request body of a completion; `render` is the text formatting of the handlers. */
  function ReportOf(o: JobPayload.Outcome, render: JobPayload.Output -> string): Report {
    Report(o.succeeded, if o.output.NoOutput? then [] else render(o.output), o.error, Some(o.exitCode))
  }

  /** The result sent for a job: a refreshed inventory whose check-in fails becomes a failure. */
  function ResultFor(job: Job, turn: Turn): JobPayload.Outcome {
    var o := JobPayload.Handled(job.jobType, job.payload, turn.host);
    if job.jobType.RefreshInventory? && o.succeeded && turn.checkinError.Some?
    then JobPayload.FailedJobResult(job.jobType, turn.checkinError.value)
    else o
  }

  /** The server's tables after a call with this fate, and whether the caller sees success. */
  function Call(t: Tables, r: Request, fate: F.Fate): (out: (Tables, bool))
    requires Shaped(t, r)
    ensures |t.jobs| <= |out.0.jobs|
  {
    if fate == F.RequestLost then (t, false)
    else (Apply(t, r), fate == F.Delivered && ReplyTo(t, r) == Ok)
  }

  function OneJob(t: Tables, agent: Agent, entry: (nat, Job), turn: Turn,
      render: JobPayload.Output -> string): Progress {
    var (t1, started) := Call(t, Start(entry.0, agent, turn.startNow), turn.startFate);
    if !started then Progress(t1, [], true)
    else
      var complete := Complete(entry.0, agent, ReportOf(ResultFor(entry.1, turn), render), turn.completeNow);
      var (t2, completed) := Call(t1, complete, turn.completeFate);
      Progress(t2, [entry.0], !completed)
  }

  /** The loop of ProcessJobs over the polled list, stopping at the first error. */
  function Process(t: Tables, agent: Agent, list: seq<(nat, Job)>, turns: seq<Turn>,
      render: JobPayload.Output -> string): (p: Progress)
    requires |turns| == |list|
    decreases |list|
  {
    if list == [] then Progress(t, [], false)
    else
      var p := OneJob(t, agent, list[0], turns[0], render);
      if p.failed then p
      else
        var q := Process(p.tables, agent, list[1..], turns[1..], render);
        q.(executed := p.executed + q.executed)
  }

  lemma ProcessEnd(t: Tables, agent: Agent, list: seq<(nat, Job)>, turns: seq<Turn>,
      render: JobPayload.Output -> string)
    requires list == [] && |turns| == 0
    ensures Process(t, agent, list, turns, render) == Progress(t, [], false)
  {
  }

  lemma ProcessStep(t: Tables, agent: Agent, list: seq<(nat, Job)>, turns: seq<Turn>,
      render: JobPayload.Output -> string, i: nat)
    requires i < |list| == |turns|
    ensures var p := OneJob(t, agent, list[i], turns[i], render);
            var q := Process(p.tables, agent, list[i + 1..], turns[i + 1..], render);
            Process(t, agent, list[i..], turns[i..], render)
              == if p.failed then p else q.(executed := p.executed + q.executed)
  {
    hide OneJob;
    assert list[i..][1..] == list[i + 1..] && turns[i..][1..] == turns[i + 1..];
  }

  function Listed(jobs: seq<Job>, ids: seq<nat>): (r: seq<(nat, Job)>)
    requires Within(ids, |jobs|)
    ensures |r| == |ids|
  {
    seq(|ids|, i requires 0 <= i < |ids| => (ids[i], jobs[ids[i]]))
  }

  /** A whole cycle, poll included. */
  function Cycle(t: Tables, agent: Agent, pollFate: F.Fate, poll: Request, turns: seq<Turn>,
      render: JobPayload.Output -> string): Progress
    requires poll.Poll? && poll.agent == agent && Shaped(t, poll) && |turns| == |poll.oldest|
  {
    var (t1, polled) := Call(t, poll, pollFate);
    if !polled then Progress(t1, [], true)
    else Process(t1, agent, Listed(t1.jobs, poll.oldest), turns, render)
  }

  lemma CycleShape(t: Tables, agent: Agent, fate: F.Fate, poll: Request, turns: seq<Turn>,
      render: JobPayload.Output -> string)
    requires poll.Poll? && poll.agent == agent && Shaped(t, poll) && |turns| == |poll.oldest|
    ensures var (t1, polled) := Call(t, poll, fate);
            && Within(poll.oldest, |t1.jobs|)
            && Cycle(t, agent, fate, poll, turns, render)
            == if polled then Process(t1, agent, Listed(t1.jobs, poll.oldest), turns, render)
              else Progress(t1, [], true)
  {
  }

  class Client {
    const agent: Agent
    const render: JobPayload.Output -> string

    constructor (agent: Agent, render: JobPayload.Output -> string)
      ensures this.agent == agent && this.render == render
    {
      this.agent := agent;
      this.render := render;
    }

    method StartJob(server: JobSession, id: nat, turn: Turn) returns (ok: bool)
      requires server.objects == map[]
      modifies server
      ensures server.objects == map[]
      ensures (server.Committed(), ok) == Call(old(server.Committed()), Start(id, agent, turn.startNow), turn.startFate)
    {
      if turn.startFate == F.RequestLost {
        return false;
      }
      var reply := server.StartJob(id, agent, turn.startNow);
      ok := turn.startFate == F.Delivered && reply == Ok;
    }

    method CompleteJob(server: JobSession, id: nat, report: Report, turn: Turn) returns (ok: bool)
      requires server.objects == map[]
      modifies server
      ensures server.objects == map[]
      ensures (server.Committed(), ok)
              == Call(old(server.Committed()), Complete(id, agent, report, turn.completeNow), turn.completeFate)
    {
      if turn.completeFate == F.RequestLost {
        return false;
      }
      var reply := server.CompleteJob(id, agent, report, turn.completeNow);
      ok := turn.completeFate == F.Delivered && reply == Ok;
    }

    /** PollJobs: the list of polled jobs, or an error. */
    method PollJobs(server: JobSession, fate: F.Fate, now: Time, due: seq<nat>, oldest: seq<nat>)
      returns (ok: bool, list: seq<(nat, Job)>)
      requires server.objects == map[]
      requires Truthful(server.flushBeforeSelect, server.Committed(), Poll(agent, now, due, oldest))
      requires Shaped(server.Committed(), Poll(agent, now, due, oldest))
      modifies server
      ensures server.objects == map[]
      ensures (server.Committed(), ok) == Call(old(server.Committed()), Poll(agent, now, due, oldest), fate)
      ensures ok ==> Within(oldest, |server.rows|) && list == Listed(server.rows, oldest)
    {
      list := [];
      if fate == F.RequestLost {
        return false, [];
      }
      var response := server.PollJobs(agent, now, due, oldest);
      if fate == F.ResponseLost {
        return false, [];
      }
      ok, list := true, response;
    }

    /** The loop body of ProcessJobs: start the job, execute it, report it; `ran` lists it once it was executed. */
    method RunJob(server: JobSession, entry: (nat, Job), turn: Turn) returns (ran: seq<nat>, ok: bool)
      requires server.objects == map[]
      modifies server
      ensures server.objects == map[]
      ensures Progress(server.Committed(), ran, !ok) == OneJob(old(server.Committed()), agent, entry, turn, render)
    {
      hide Apply, ReplyTo, Call, JobPayload.Handled;
      var (id, job) := entry;
      ran := [];
      ok := StartJob(server, id, turn);
      if !ok {
        return;
      }
      var result := JobPayload.ExecuteJob(job.jobType, job.payload, turn.host);
      ran := [id];
      if job.jobType.RefreshInventory? && result.succeeded {
        if turn.checkinError.Some? {
          result := JobPayload.FailedJobResult(job.jobType, turn.checkinError.value);
        }
      }
      ok := CompleteJob(server, id, ReportOf(result, render), turn);
    }

    /** ProcessJobs: poll, then start, execute and complete each job in turn; the first error ends it. */
    method ProcessJobs(server: JobSession, fate: F.Fate, now: Time, due: seq<nat>, oldest: seq<nat>, turns: seq<Turn>)
      returns (failed: bool, executed: seq<nat>)
      requires server.objects == map[] && |turns| == |oldest|
      requires Truthful(server.flushBeforeSelect, server.Committed(), Poll(agent, now, due, oldest))
      requires Shaped(server.Committed(), Poll(agent, now, due, oldest))
      modifies server
      ensures server.objects == map[]
      ensures Progress(server.Committed(), executed, failed)
           == Cycle(old(server.Committed()), agent, fate, Poll(agent, now, due, oldest), turns, render)
    {
      hide Apply, ReplyTo, Truthful, Shaped, Within, Listed, Call, OneJob, Process, Cycle;
      CycleShape(server.Committed(), agent, fate, Poll(agent, now, due, oldest), turns, render);
      executed := [];
      var ok, list := PollJobs(server, fate, now, due, oldest);
      if !ok {
        return true, [];
      }
      ghost var whole := Process(server.Committed(), agent, list, turns, render);
      var i := 0;
      while i < |list|
        invariant 0 <= i <= |list| == |turns| && server.objects == map[]
        invariant var rest := Process(server.Committed(), agent, list[i..], turns[i..], render);
                  whole == rest.(executed := executed + rest.executed)
      {
        ProcessStep(server.Committed(), agent, list, turns, render, i);
        var ran;
        ran, ok := RunJob(server, list[i], turns[i]);
        executed := executed + ran;
        if !ok {
          return true, executed;
        }
        i := i + 1;
      }
      ProcessEnd(server.Committed(), agent, list[i..], turns[i..], render);
      failed := false;
    }
  }
}
