/** What one turn of the agent's loop reports and leaves behind, field by field. */
module CycleReports {
  import opened Base
  import opened Jobs
  import opened AgentCycle
  import opened QueueDrain
  import JobPayload
  import JR = JobRecords

  /**
   * The report the agent sends: a success exactly if the handler succeeded and, for a refreshed inventory, its
   * check-in did; with the handler's rendered output, or the error that stopped it and exit code 1.
   */
  lemma ReportSent(job: Job, turn: Turn, render: JobPayload.Output -> string)
    ensures var h, r := JobPayload.Handled(job.jobType, job.payload, turn.host), ReportOf(ResultFor(job, turn), render);
            && (r.succeeded <==>
                 h.succeeded && (job.jobType == JobPayload.RefreshInventory ==> turn.checkinError == None))
            && r.exitCode == Some(if r.succeeded then 0 else 1)
            && (r.succeeded ==> r.error == None && r.output == render(h.output))
            && (!r.succeeded ==> r.output == [] && r.error == if h.succeeded then turn.checkinError else h.error)
  {
  }

  /**
   * What a faultless turn leaves of a job: started and completed at the turn's times by this agent, with the
   * outcome of its handler and the first characters of what it reported as summary.
   */
  lemma FinishedRow(j: Job, agent: Agent, entry: (nat, Job), turn: Turn, render: JobPayload.Output -> string)
    ensures var x, r := Finished(j, agent, entry, turn, render), ReportOf(ResultFor(entry.1, turn), render);
            && JR.SameJob(j, x) && x.agent == Some(agent.id)
            && x.startedAt == Some(turn.startNow) && x.completedAt == Some(turn.completeNow)
            && x.status == (if r.succeeded then Succeeded else Failed)
            && x.summary.Some? && JR.FirstChars(x.summary.value, JR.SummarySource(r), 512)
  {
  }
}
