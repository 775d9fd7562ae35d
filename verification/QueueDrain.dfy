/** FIFO selection and the drain bound: without faults, q waiting jobs are finished in ceil(q/5) cycles. */
module QueueDrain {
  import opened Base
  import opened Jobs
  import opened AgentCycle
  import JobPayload
  import F = Fleet

  /** The device's queued rows. */
  function WaitingIds(jobs: seq<Job>, device: nat): set<nat> {
    set i: nat | i < |jobs| && Waiting(jobs[i], device)
  }

  /** A selection has exactly min(5, q) rows, and every row left behind is at least as young. */
  lemma SelectionIsExact(jobs: seq<Job>, device: nat, ids: seq<nat>)
    requires AnswersOldest(jobs, device, ids)
    ensures Ids(ids) <= WaitingIds(jobs, device)
    ensures |ids| == Min(|WaitingIds(jobs, device)|, 5)
    ensures forall i, w | 0 <= i < |ids| && w in WaitingIds(jobs, device) - Ids(ids) ::
            jobs[ids[i]].createdAt <= jobs[w].createdAt
  {
    var q := WaitingIds(jobs, device);
    assert forall x | x in ids :: x in q;
    DistinctCount(ids);
    SubsetCount(Ids(ids), q);
    if |ids| < POLL_LIMIT {
      forall w | w in q ensures w in Ids(ids) {
      }
      assert Ids(ids) == q;
    }
  }

  // ---- One polled job without faults ----

  predicate Faultless(turn: Turn) { turn.startFate == F.Delivered && turn.completeFate == F.Delivered }

  /** The row a faultless turn leaves. */
  function Finished(j: Job, agent: Agent, entry: (nat, Job), turn: Turn, render: JobPayload.Output -> string): Job {
    CompleteRow(StartRow(j, agent, turn.startNow), ReportOf(ResultFor(entry.1, turn), render), turn.completeNow)
  }

  /** The jobs whose completion is logged, in log order. */
  function FinishOrder(events: seq<Event>): seq<nat> {
    if events == [] then []
    else
      var front, e := FinishOrder(events[..|events| - 1]), events[|events| - 1];
      if e.kind in {CompletedEv, FailedEv} then front + [e.job] else front
  }

  lemma FinishOrderSnoc(events: seq<Event>, e: Event)
    ensures FinishOrder(events + [e])
            == if e.kind in {CompletedEv, FailedEv} then FinishOrder(events) + [e.job] else FinishOrder(events)
  {
    assert (events + [e])[..|events|] == events;
  }

  /** A job assigned to the agent is started, executed and finished; nothing else changes. */
  lemma TurnFinishes(t: Tables, agent: Agent, entry: (nat, Job), turn: Turn, render: JobPayload.Output -> string)
    requires entry.0 < |t.jobs| && Faultless(turn)
    requires t.jobs[entry.0].status == Assigned && t.jobs[entry.0].device == agent.device
             && t.jobs[entry.0].agent == Some(agent.id)
    ensures var p := OneJob(t, agent, entry, turn, render);
            && !p.failed && p.executed == [entry.0]
            && p.tables.jobs == t.jobs[entry.0 := Finished(t.jobs[entry.0], agent, entry, turn, render)]
            && Done(p.tables.jobs[entry.0]) && p.tables.jobs[entry.0].createdAt == t.jobs[entry.0].createdAt
            && FinishOrder(p.tables.events) == FinishOrder(t.events) + [entry.0]
  {
    hide FinishOrder, AuditsOf, JobPayload.Handled, Take, SummaryText;
    var t1 := Apply(t, Start(entry.0, agent, turn.startNow));
    var report := ReportOf(ResultFor(entry.1, turn), render);
    FinishOrderSnoc(t.events, Event(entry.0, t.jobs[entry.0].org, StartedEv));
    FinishOrderSnoc(t1.events, Event(entry.0, t.jobs[entry.0].org, if report.succeeded then CompletedEv else FailedEv));
  }

  /** Assigned to the agent, ready to be started by it. */
  predicate Ready(j: Job, agent: Agent) {
    j.status == Assigned && j.device == agent.device && j.agent == Some(agent.id)
  }

  predicate Done(j: Job) { j.status in {Succeeded, Failed} }

  /** Exactly the listed jobs were executed and finished, in list order; every other row is as it was. */
  predicate ListDone(t: Tables, list: seq<(nat, Job)>, p: Progress) {
    && !p.failed && |p.executed| == |list| && |p.tables.jobs| == |t.jobs|
    && (forall i | 0 <= i < |list| :: p.executed[i] == list[i].0)
    && (forall i | 0 <= i < |list| ::
          && list[i].0 < |t.jobs| && Done(p.tables.jobs[list[i].0])
          && p.tables.jobs[list[i].0].createdAt == t.jobs[list[i].0].createdAt)
    && (forall k | 0 <= k < |t.jobs| && k !in p.executed :: p.tables.jobs[k] == t.jobs[k])
    && FinishOrder(p.tables.events) == FinishOrder(t.events) + p.executed
  }

  /** A finished head before a finished rest. */
  lemma ListJoin(t: Tables, mid: Tables, list: seq<(nat, Job)>, q: Progress)
    requires list != [] && ListDone(mid, list[1..], q)
    requires forall i | 0 < i < |list| :: list[0].0 != list[i].0
    requires |mid.jobs| == |t.jobs| && list[0].0 < |t.jobs|
    requires Done(mid.jobs[list[0].0]) && mid.jobs[list[0].0].createdAt == t.jobs[list[0].0].createdAt
    requires forall k | 0 <= k < |t.jobs| && k != list[0].0 :: mid.jobs[k] == t.jobs[k]
    requires FinishOrder(mid.events) == FinishOrder(t.events) + [list[0].0]
    ensures ListDone(t, list, q.(executed := [list[0].0] + q.executed))
  {
    hide FinishOrder, Done;
    var head, rest := list[0].0, list[1..];
    forall i | 0 < i < |list| ensures list[i] == rest[i - 1] && list[i].0 != head {
    }
    assert head !in q.executed;
    assert FinishOrder(t.events) + [head] + q.executed == FinishOrder(t.events) + ([head] + q.executed);
  }

  /** A faultless pass over the polled list finishes exactly its jobs, in list order. */
  lemma {:induction false} ListFinishes(t: Tables, agent: Agent, list: seq<(nat, Job)>, turns: seq<Turn>,
      render: JobPayload.Output -> string)
    requires |turns| == |list| && forall i | 0 <= i < |turns| :: Faultless(turns[i])
    requires forall i, k | 0 <= i < k < |list| :: list[i].0 != list[k].0
    requires forall i | 0 <= i < |list| :: list[i].0 < |t.jobs| && Ready(t.jobs[list[i].0], agent)
    ensures ListDone(t, list, Process(t, agent, list, turns, render))
    decreases |list|
  {
    hide OneJob, FinishOrder, Finished, Done, ListDone;
    if list == [] {
      NothingToFinish(t);
    } else {
      TurnFinishes(t, agent, list[0], turns[0], render);
      var p := OneJob(t, agent, list[0], turns[0], render);
      ListFinishes(p.tables, agent, list[1..], turns[1..], render);
      ListJoin(t, p.tables, list, Process(p.tables, agent, list[1..], turns[1..], render));
    }
  }

  lemma NothingToFinish(t: Tables)
    ensures ListDone(t, [], Progress(t, [], false))
  {
    assert FinishOrder(t.events) + [] == FinishOrder(t.events);
  }

  // ---- Whole cycles ----

  /** One agent cycle: the poll with its answers, and the turns of the polled jobs. */
  datatype Round = Round(poll: Request, turns: seq<Turn>)

  /** One turn for each job of the agent's own poll. */
  predicate RoundFits(t: Tables, agent: Agent, round: Round) {
    round.poll.Poll? && round.poll.agent == agent && Shaped(t, round.poll) && |round.turns| == |round.poll.oldest|
  }

  /** No fault, and nothing of the device expires. */
  predicate Quiet(flush: bool, t: Tables, agent: Agent, round: Round) {
    && RoundFits(t, agent, round) && round.poll.due == []
    && Truthful(flush, t, round.poll)
    && forall i | 0 <= i < |round.turns| :: Faultless(round.turns[i])
  }

  function CycleOf(t: Tables, agent: Agent, round: Round, render: JobPayload.Output -> string): Progress
    requires RoundFits(t, agent, round)
  {
    Cycle(t, agent, F.Delivered, round.poll, round.turns, render)
  }

  lemma QuietFits(flush: bool, t: Tables, agent: Agent, round: Round)
    requires Quiet(flush, t, agent, round)
    ensures RoundFits(t, agent, round) && round.poll.Poll?
  {
  }

  /** A quiet poll: the selection is an answer on the rows as they stand, and it only assigns. */
  lemma QuietPoll(flush: bool, t: Tables, agent: Agent, round: Round)
    requires Quiet(flush, t, agent, round)
    ensures AnswersOldest(t.jobs, agent.device, round.poll.oldest)
    ensures Apply(t, round.poll).jobs == AssignRows(t.jobs, round.poll.oldest, agent)
    ensures FinishOrder(Apply(t, round.poll).events) == FinishOrder(t.events)
  {
    assert ExpireRows(t.jobs, [], round.poll.now) == t.jobs;
    assert Stamped(t.jobs, [], ExpiredEv) == [];
    NoFinish(t.events, Stamped(t.jobs, round.poll.oldest, AssignedEv));
    assert [] + Stamped(t.jobs, round.poll.oldest, AssignedEv) == Stamped(t.jobs, round.poll.oldest, AssignedEv);
  }

  lemma {:induction false} NoFinish(events: seq<Event>, more: seq<Event>)
    requires forall i | 0 <= i < |more| :: more[i].kind == AssignedEv
    ensures FinishOrder(events + more) == FinishOrder(events)
  {
    if more == [] {
      assert events + more == events;
    } else {
      NoFinish(events, more[..|more| - 1]);
      FinishOrderSnoc(events + more[..|more| - 1], more[|more| - 1]);
      assert events + more == events + more[..|more| - 1] + [more[|more| - 1]];
    }
  }

  /** A quiet cycle finishes exactly the jobs it polls, in poll order, and touches no other row. */
  lemma CycleFinishes(flush: bool, t: Tables, agent: Agent, round: Round, render: JobPayload.Output -> string)
    requires Quiet(flush, t, agent, round)
    ensures var p := CycleOf(t, agent, round, render);
            && !p.failed && p.executed == round.poll.oldest && |p.tables.jobs| == |t.jobs|
            && (forall x | x in p.executed ::
                 x < |t.jobs| && Done(p.tables.jobs[x]) && p.tables.jobs[x].createdAt == t.jobs[x].createdAt)
            && (forall k | 0 <= k < |t.jobs| && k !in p.executed :: p.tables.jobs[k] == t.jobs[k])
            && FinishOrder(p.tables.events) == FinishOrder(t.events) + p.executed
  {
    hide Quiet, Truthful, Shaped, AnswersOldest, AnswersDue, Apply, FinishOrder, Process, Cycle, CycleOf, AssignRows,
      Ready, Done, Faultless;
    PolledList(flush, t, agent, round, render);
    var t1, oldest := Apply(t, round.poll), round.poll.oldest;
    ListFinishes(t1, agent, Listed(t1.jobs, oldest), round.turns, render);
    var p := CycleOf(t, agent, round, render);
    forall x | x in p.executed
      ensures x < |t.jobs| && Done(p.tables.jobs[x]) && p.tables.jobs[x].createdAt == t.jobs[x].createdAt
    {
      var i :| 0 <= i < |p.executed| && p.executed[i] == x;
      assert Listed(t1.jobs, oldest)[i].0 == x;
    }
  }

  /** What the faultless pass starts from: the list is the selection, each entry ready, all else as before. */
  lemma PolledList(flush: bool, t: Tables, agent: Agent, round: Round, render: JobPayload.Output -> string)
    requires Quiet(flush, t, agent, round)
    ensures Shaped(t, round.poll) && round.poll.Poll? && round.poll.agent == agent
            && |round.turns| == |round.poll.oldest|
    ensures forall i | 0 <= i < |round.turns| :: Faultless(round.turns[i])
    ensures var t1 := Apply(t, round.poll);
            && |t1.jobs| == |t.jobs| && Within(round.poll.oldest, |t1.jobs|)
            && (var list := Listed(t1.jobs, round.poll.oldest);
                && CycleOf(t, agent, round, render) == Process(t1, agent, list, round.turns, render)
                && |list| == |round.poll.oldest|
                && (forall i, k | 0 <= i < k < |list| :: list[i].0 != list[k].0)
                && (forall i | 0 <= i < |list| :: list[i].0 == round.poll.oldest[i] && list[i].0 < |t.jobs|
                                                  && Ready(t1.jobs[list[i].0], agent)
                                                  && t1.jobs[list[i].0].createdAt == t.jobs[list[i].0].createdAt))
            && (forall k | 0 <= k < |t.jobs| && k !in round.poll.oldest :: t1.jobs[k] == t.jobs[k])
            && FinishOrder(t1.events) == FinishOrder(t.events)
  {
    hide AnswersOldest, AnswersDue, Truthful, Apply, Process, FinishOrder, AssignRows, Ready, Cycle;
    QuietPoll(flush, t, agent, round);
    QuietShape(flush, t, agent, round, render);
    SelectionIsAssigned(t.jobs, agent, round.poll.oldest);
    OthersAsBefore(t.jobs, round.poll.oldest, agent);
  }

  lemma OthersAsBefore(jobs: seq<Job>, ids: seq<nat>, agent: Agent)
    requires Within(ids, |jobs|)
    ensures |AssignRows(jobs, ids, agent)| == |jobs|
    ensures forall k | 0 <= k < |jobs| && k !in ids :: AssignRows(jobs, ids, agent)[k] == jobs[k]
  {
  }

  lemma QuietShape(flush: bool, t: Tables, agent: Agent, round: Round, render: JobPayload.Output -> string)
    requires Quiet(flush, t, agent, round)
    ensures Distinct(round.poll.oldest) && Within(round.poll.oldest, |Apply(t, round.poll).jobs|)
    ensures CycleOf(t, agent, round, render)
         == Process(Apply(t, round.poll), agent, Listed(Apply(t, round.poll).jobs, round.poll.oldest), round.turns,
           render)
  {
    hide Process;
  }

  lemma SelectionIsAssigned(jobs: seq<Job>, agent: Agent, ids: seq<nat>)
    requires AnswersOldest(jobs, agent.device, ids)
    ensures forall i | 0 <= i < |ids| ::
              Ready(AssignRows(jobs, ids, agent)[ids[i]], agent)
                && AssignRows(jobs, ids, agent)[ids[i]].createdAt == jobs[ids[i]].createdAt
  {
    forall i | 0 <= i < |ids|
      ensures Ready(AssignRows(jobs, ids, agent)[ids[i]], agent)
              && AssignRows(jobs, ids, agent)[ids[i]].createdAt == jobs[ids[i]].createdAt
    {
      assert ids[i] in ids && Waiting(jobs[ids[i]], agent.device);
    }
  }

  // ---- The drain ----

  /** Consecutive quiet cycles. */
  predicate QuietRun(flush: bool, t: Tables, agent: Agent, rounds: seq<Round>, render: JobPayload.Output -> string)
    decreases |rounds|
  {
    rounds == [] ||
    (Quiet(flush, t, agent, rounds[0])
     && QuietRun(flush, CycleOf(t, agent, rounds[0], render).tables, agent, rounds[1..], render))
  }

  /** Their effect: the final tables and all executions in order. */
  function RunRounds(flush: bool, t: Tables, agent: Agent, rounds: seq<Round>,
      render: JobPayload.Output -> string): Progress
    requires QuietRun(flush, t, agent, rounds, render)
    decreases |rounds|
  {
    if rounds == [] then Progress(t, [], false)
    else
      var p := CycleOf(t, agent, rounds[0], render);
      var q := RunRounds(flush, p.tables, agent, rounds[1..], render);
      Progress(q.tables, p.executed + q.executed, p.failed || q.failed)
  }

  /** The cycle removes its selection from the queue, and the rest of the queue is no older. */
  lemma QueueShrinks(flush: bool, t: Tables, agent: Agent, round: Round, render: JobPayload.Output -> string)
    requires Quiet(flush, t, agent, round)
    ensures var q, oldest := WaitingIds(t.jobs, agent.device), round.poll.oldest;
            && WaitingIds(CycleOf(t, agent, round, render).tables.jobs, agent.device) == q - Ids(oldest)
            && Ids(oldest) <= q
            && Distinct(oldest)
            && (|q - Ids(oldest)| == if |q| <= 5 then 0 else |q| - 5)
            && (forall i, k | 0 <= i < k < |oldest| :: t.jobs[oldest[i]].createdAt <= t.jobs[oldest[k]].createdAt)
            && (forall i, w | 0 <= i < |oldest| && w in q - Ids(oldest) ::
                 t.jobs[oldest[i]].createdAt <= t.jobs[w].createdAt)
  {
    hide Quiet, Truthful, CycleOf, FinishOrder, Apply;
    QuietFits(flush, t, agent, round);
    QuietPoll(flush, t, agent, round);
    CycleFinishes(flush, t, agent, round, render);
    SelectionIsExact(t.jobs, agent.device, round.poll.oldest);
    DistinctCount(round.poll.oldest);
    SubsetCount(Ids(round.poll.oldest), WaitingIds(t.jobs, agent.device));
    var jobs' := CycleOf(t, agent, round, render).tables.jobs;
    forall x
      ensures x in WaitingIds(jobs', agent.device) <==> x in WaitingIds(t.jobs, agent.device) - Ids(round.poll.oldest)
    {
    }
  }

  /** All of `ids` were waiting, were executed in creation order, and are finished; no other row changed. */
  predicate DrainedInOrder(t: Tables, agent: Agent, p: Progress) {
    && !p.failed
    && |p.tables.jobs| == |t.jobs|
    && Distinct(p.executed)
    && (forall x | x in p.executed :: x < |t.jobs| && Waiting(t.jobs[x], agent.device) && Done(p.tables.jobs[x]))
    && Within(p.executed, |t.jobs|)
    && (forall i, k | 0 <= i < k < |p.executed| :: t.jobs[p.executed[i]].createdAt <= t.jobs[p.executed[k]].createdAt)
    && (forall k | 0 <= k < |t.jobs| && k !in p.executed :: p.tables.jobs[k] == t.jobs[k])
    && FinishOrder(p.tables.events) == FinishOrder(t.events) + p.executed
  }

  lemma NothingDrained(t: Tables, agent: Agent)
    ensures DrainedInOrder(t, agent, Progress(t, [], false))
  {
    assert FinishOrder(t.events) + [] == FinishOrder(t.events);
  }

  /** Jobs finished first, in order and older than the rest, before a drained rest. */
  lemma JoinInOrder(t: Tables, mid: Tables, agent: Agent, first: seq<nat>, q: Progress)
    requires DrainedInOrder(mid, agent, q) && |mid.jobs| == |t.jobs| && Within(first, |t.jobs|) && Distinct(first)
    requires forall i | 0 <= i < |first| :: Waiting(t.jobs[first[i]], agent.device) && Done(mid.jobs[first[i]])
    requires forall k | 0 <= k < |t.jobs| && k !in first :: mid.jobs[k] == t.jobs[k]
    requires forall i, k | 0 <= i < k < |first| :: t.jobs[first[i]].createdAt <= t.jobs[first[k]].createdAt
    requires forall i, w | 0 <= i < |first| && 0 <= w < |t.jobs| && Waiting(mid.jobs[w], agent.device) ::
               t.jobs[first[i]].createdAt <= t.jobs[w].createdAt
    requires FinishOrder(mid.events) == FinishOrder(t.events) + first
    ensures DrainedInOrder(t, agent, Progress(q.tables, first + q.executed, q.failed))
  {
    hide FinishOrder;
    var rest, all := q.executed, first + q.executed;
    forall i | 0 <= i < |rest|
      ensures Waiting(mid.jobs[rest[i]], agent.device) && rest[i] !in first && mid.jobs[rest[i]] == t.jobs[rest[i]]
    {
      assert rest[i] in rest;
    }
    forall i, k | 0 <= i < k < |all| ensures all[i] != all[k] && t.jobs[all[i]].createdAt <= t.jobs[all[k]].createdAt {
      if |first| <= k {
        assert all[k] == rest[k - |first|];
        if |first| <= i {
          assert all[i] == rest[i - |first|];
        } else {
          assert all[i] == first[i] && first[i] in first;
        }
      }
    }
    assert FinishOrder(t.events) + first + rest == FinishOrder(t.events) + all;
    forall x | x in all ensures x < |t.jobs| && Waiting(t.jobs[x], agent.device) && Done(q.tables.jobs[x]) {
      if x in rest {
        var i :| 0 <= i < |rest| && rest[i] == x;
      } else {
        var i :| 0 <= i < |first| && first[i] == x;
      }
    }
  }

  /** One cycle before a drained rest is drained. */
  lemma DrainJoins(flush: bool, t: Tables, agent: Agent, round: Round, q: Progress, render: JobPayload.Output -> string)
    requires Quiet(flush, t, agent, round)
    requires DrainedInOrder(CycleOf(t, agent, round, render).tables, agent, q)
    ensures var p := CycleOf(t, agent, round, render);
            DrainedInOrder(t, agent, Progress(q.tables, p.executed + q.executed, p.failed || q.failed))
  {
    hide Quiet, Truthful, Apply, CycleOf, FinishOrder, DrainedInOrder, Distinct;
    QuietFits(flush, t, agent, round);
    CycleFinishes(flush, t, agent, round, render);
    QueueShrinks(flush, t, agent, round, render);
    var p := CycleOf(t, agent, round, render);
    var first, mid, queue := p.executed, p.tables, WaitingIds(t.jobs, agent.device);
    forall i | 0 <= i < |first|
      ensures first[i] < |t.jobs| && Waiting(t.jobs[first[i]], agent.device) && Done(mid.jobs[first[i]])
    {
      assert first[i] in Ids(first) && first[i] in queue;
    }
    forall i, w | 0 <= i < |first| && 0 <= w < |t.jobs| && Waiting(mid.jobs[w], agent.device)
      ensures t.jobs[first[i]].createdAt <= t.jobs[w].createdAt
    {
      assert w in WaitingIds(mid.jobs, agent.device) && w in queue - Ids(first);
    }
    JoinInOrder(t, mid, agent, first, q);
  }

  /**
   * The drain: whatever the tie order of the database and the answers of the host, ceil(q/5) quiet cycles
   * (or any larger number) leave nothing of the device's q waiting jobs in the queue. Exactly those jobs
   * were executed, once each, in creation order, they are all finished, their completions are logged in
   * that order, and no other row of any device has changed.
   */
  lemma {:induction false} Drain(flush: bool, t: Tables, agent: Agent, rounds: seq<Round>,
      render: JobPayload.Output -> string)
    requires QuietRun(flush, t, agent, rounds, render)
    requires |WaitingIds(t.jobs, agent.device)| <= 5 * |rounds|
    ensures var p := RunRounds(flush, t, agent, rounds, render);
            && DrainedInOrder(t, agent, p)
            && Ids(p.executed) == WaitingIds(t.jobs, agent.device)
            && WaitingIds(p.tables.jobs, agent.device) == {}
    decreases |rounds|
  {
    hide Quiet, CycleOf, DrainedInOrder, WaitingIds, Distinct;
    if rounds == [] {
      NothingDrained(t, agent);
    } else {
      QuietFits(flush, t, agent, rounds[0]);
      var p := CycleOf(t, agent, rounds[0], render);
      QueueShrinks(flush, t, agent, rounds[0], render);
      CycleExecutes(flush, t, agent, rounds[0], render);
      Drain(flush, p.tables, agent, rounds[1..], render);
      var q := RunRounds(flush, p.tables, agent, rounds[1..], render);
      DrainJoins(flush, t, agent, rounds[0], q, render);
      assert Ids(p.executed + q.executed) == Ids(p.executed) + Ids(q.executed);
    }
  }

  lemma CycleExecutes(flush: bool, t: Tables, agent: Agent, round: Round, render: JobPayload.Output -> string)
    requires Quiet(flush, t, agent, round)
    ensures RoundFits(t, agent, round) && round.poll.Poll?
    ensures CycleOf(t, agent, round, render).executed == round.poll.oldest
  {
    CycleFinishes(flush, t, agent, round, render);
  }
}
