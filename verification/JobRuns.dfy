/** Theorems about whole runs of the job server: any number of requests, in any order, from anyone. */
module JobRuns {
  import opened Base
  import opened Jobs
  import opened JobLifecycle
  import JobPayload

  /** A run: from empty tables, each state is the effect of a truthfully answered request. */
  ghost predicate Run(flush: bool, states: seq<Tables>, requests: seq<Request>) {
    && |states| == |requests| + 1
    && states[0] == EMPTY
    && forall i | 0 <= i < |requests| :: Happens(flush, states[i], requests[i], states[i + 1])
  }

  ghost predicate Happens(flush: bool, t: Tables, r: Request, t': Tables) {
    Truthful(flush, t, r) && t' == Apply(t, r)
  }

  lemma RunGrows(flush: bool, states: seq<Tables>, requests: seq<Request>, r: Request, t': Tables)
    requires Run(flush, states, requests) && Happens(flush, states[|states| - 1], r, t')
    ensures Run(flush, states + [t'], requests + [r])
  {
    hide Happens;
  }

  lemma EmptyInv(flush: bool)
    ensures Inv(flush, EMPTY)
  {
  }

  lemma HappensKeepsInv(flush: bool, t: Tables, r: Request, t': Tables)
    requires Happens(flush, t, r, t') && Inv(flush, t)
    ensures Inv(flush, t')
  {
    hide Inv;
    InvStep(flush, t, r);
  }

  lemma HappensToRow(flush: bool, t: Tables, r: Request, t': Tables, id: nat)
    requires Happens(flush, t, r, t') && id < |t.jobs|
    ensures id < |t'.jobs| && Word(t'.events, id) == Word(t.events, id) + Letters(t, r, id)
    ensures Letters(t, r, id) == [] ==> t'.jobs[id] == t.jobs[id]
    ensures Letters(t, r, id) != [] ==>
            !t.jobs[id].status.Terminal() && Rank(t'.jobs[id].status) < Rank(t.jobs[id].status)
  {
    WordAfter(flush, t, r, id);
    RowChange(flush, t, r, id);
  }

  /** In every state of every run, each job's log determines its row, its audits and its result. */
  lemma {:induction false} Reachable(flush: bool, states: seq<Tables>, requests: seq<Request>, i: nat)
    requires Run(flush, states, requests) && i < |states|
    ensures Inv(flush, states[i])
  {
    hide Happens, Inv;
    if i == 0 {
      EmptyInv(flush);
    } else {
      Reachable(flush, states, requests, i - 1);
      HappensKeepsInv(flush, states[i - 1], requests[i - 1], states[i]);
    }
  }

  /** Rows are never deleted, words only grow, and rank never rises. */
  lemma {:induction false} Progress(flush: bool, states: seq<Tables>, requests: seq<Request>, i: nat, k: nat, id: nat)
    requires Run(flush, states, requests) && i <= k < |states| && id < |states[i].jobs|
    ensures id < |states[k].jobs|
    ensures Word(states[i].events, id) <= Word(states[k].events, id)
    ensures Rank(states[k].jobs[id].status) <= Rank(states[i].jobs[id].status)
    ensures Word(states[i].events, id) == Word(states[k].events, id) ==> states[k].jobs[id] == states[i].jobs[id]
    ensures Word(states[i].events, id) < Word(states[k].events, id) ==>
              Rank(states[k].jobs[id].status) < Rank(states[i].jobs[id].status)
    decreases k
  {
    hide Happens;
    if i < k {
      Progress(flush, states, requests, i, k - 1, id);
      HappensToRow(flush, states[k - 1], requests[k - 1], states[k], id);
    }
  }

  /** A committed terminal status is never left, under either reading: the row is frozen and its log closed. */
  lemma TerminalForever(flush: bool, states: seq<Tables>, requests: seq<Request>, i: nat, k: nat, id: nat)
    requires Run(flush, states, requests) && i <= k < |states| && id < |states[i].jobs|
    requires states[i].jobs[id].status.Terminal()
    ensures id < |states[k].jobs| && states[k].jobs[id] == states[i].jobs[id]
    ensures Word(states[k].events, id) == Word(states[i].events, id)
  {
    Progress(flush, states, requests, i, k, id);
  }

  lemma SelectedIsAssigned(flush: bool, t: Tables, r: Request, t': Tables, id: nat)
    requires Happens(flush, t, r, t') && r.Poll? && id in r.oldest
    ensures id < |t.jobs| <= |t'.jobs| && AssignedEv in Word(t'.events, id)
  {
    WordAfter(flush, t, r, id);
  }

  lemma SelectedIsQueued(flush: bool, t: Tables, r: Request, p: nat)
    requires Truthful(flush, t, r) && r.Poll? && p < |r.oldest|
    ensures r.oldest[p] < |t.jobs| && Waiting(t.jobs[r.oldest[p]], r.agent.device)
  {
    assert Waiting(Seen(flush, t, r.now, r.due)[r.oldest[p]], r.agent.device);
  }

  lemma QueuedRow(flush: bool, t: Tables, id: nat)
    requires Inv(flush, t) && id < |t.jobs| && t.jobs[id].status == Queued
    ensures Word(t.events, id) == [CreatedEv]
  {
    hide InLanguage;
    assert RowAgrees(flush, t.jobs[id], Word(t.events, id));
    QueuedWord(flush, Word(t.events, id));
  }

  /** A poll selects only rows whose whole log is their creation. */
  lemma SelectedIsFresh(flush: bool, t: Tables, r: Request, t': Tables, id: nat)
    requires Happens(flush, t, r, t') && r.Poll? && Inv(flush, t)
    requires id < |t.jobs| && AssignedEv in Word(t.events, id)
    ensures id !in r.oldest
  {
    if id in r.oldest {
      var p :| 0 <= p < |r.oldest| && r.oldest[p] == id;
      SelectedIsQueued(flush, t, r, p);
      hide *;
      QueuedRow(flush, t, id);
    }
  }

  /** Each job is handed out by at most one poll of a run. */
  lemma HandedOutOnce(flush: bool, states: seq<Tables>, requests: seq<Request>, i: nat, k: nat, id: nat)
    requires Run(flush, states, requests) && i < k < |requests|
    requires requests[i].Poll? && id in requests[i].oldest
    requires requests[k].Poll?
    ensures id !in requests[k].oldest
  {
    hide Happens, Inv;
    SelectedIsAssigned(flush, states[i], requests[i], states[i + 1], id);
    Progress(flush, states, requests, i + 1, k, id);
    Reachable(flush, states, requests, k);
    SelectedIsFresh(flush, states[k], requests[k], states[k + 1], id);
  }

  // ---- The two readings of the poll ----

  /** The guard of the shipped behaviour: no selected row is due at the poll's own clock reading. */
  predicate NoneDue(t: Tables, r: Request)
    requires Shaped(t, r)
  {
    r.Poll? ==> forall x | x in r.oldest :: r.now < t.jobs[x].expiresAt
  }

  /** On a given answer, the two readings agree exactly when no selected row is due. */
  lemma ReadingsAgree(t: Tables, r: Request)
    requires Truthful(false, t, r)
    ensures Truthful(true, t, r) <==> NoneDue(t, r)
  {
    if r.Poll? {
      var expired := ExpireRows(t.jobs, r.due, r.now);
      if Truthful(true, t, r) {
        forall x | x in r.oldest ensures r.now < t.jobs[x].expiresAt {
          var i :| 0 <= i < |r.oldest| && r.oldest[i] == x;
          assert Waiting(expired[r.oldest[i]], r.agent.device);
        }
      }
      if NoneDue(t, r) {
        forall i | 0 <= i < |r.oldest| ensures expired[r.oldest[i]] == t.jobs[r.oldest[i]] {
          assert r.oldest[i] in r.oldest;
        }
        forall w | 0 <= w < |expired| && Waiting(expired[w], r.agent.device) ensures expired[w] == t.jobs[w] {
        }
        assert AnswersOldest(expired, r.agent.device, r.oldest);
      }
    }
  }

  /** No event follows an expiration, and `completed_at` is set exactly on terminal rows. */
  ghost predicate CleanRow(j: Job, w: seq<Kind>) {
    && (forall i | 0 <= i < |w| - 1 :: w[i] != ExpiredEv)
    && (j.completedAt.Some? <==> j.status.Terminal())
  }

  ghost predicate Clean(t: Tables) {
    forall id | 0 <= id < |t.jobs| :: CleanRow(t.jobs[id], Word(t.events, id))
  }

  /** With the flush, every reachable state is clean. */
  lemma FlushedIsClean(states: seq<Tables>, requests: seq<Request>, i: nat)
    requires Run(true, states, requests) && i < |states|
    ensures Clean(states[i])
  {
    Reachable(true, states, requests, i);
    forall id | 0 <= id < |states[i].jobs| ensures CleanRow(states[i].jobs[id], Word(states[i].events, id)) {
      LanguageShape(true, Word(states[i].events, id));
    }
  }

  lemma SelectedDueLetters(t: Tables, r: Request, t': Tables, id: nat)
    requires Happens(false, t, r, t') && r.Poll? && id in r.oldest
    requires id < |t.jobs| && t.jobs[id].expiresAt <= r.now
    ensures id < |t'.jobs| && Word(t'.events, id) == Word(t.events, id) + [ExpiredEv, AssignedEv]
  {
    var p :| 0 <= p < |r.oldest| && r.oldest[p] == id;
    assert Waiting(t.jobs[r.oldest[p]], r.agent.device);
    assert Due(t.jobs[id], Some(r.agent.device), r.now);
    HappensToRow(false, t, r, t', id);
  }

  /** A poll that selects a due row writes `expired` and then `assigned`, and no later state is clean again. */
  lemma DirtyForever(states: seq<Tables>, requests: seq<Request>, i: nat, id: nat)
    requires Run(false, states, requests) && i < |requests| && requests[i].Poll? && id in requests[i].oldest
    requires id < |states[i].jobs| && states[i].jobs[id].expiresAt <= requests[i].now
    ensures !Clean(states[|states| - 1])
  {
    hide Happens;
    var last := states[|states| - 1];
    SelectedDueLetters(states[i], requests[i], states[i + 1], id);
    Progress(false, states, requests, i + 1, |states| - 1, id);
    assert Word(last.events, id)[|Word(states[i].events, id)|] == ExpiredEv;
    assert !CleanRow(last.jobs[id], Word(last.events, id));
  }

  /**
   * The shipped reading, exactly: a run ends clean if and only if none of its polls selected a row that
   * was due. `JobTies.HazardIsInTheTable` reads the same hazard off the table before a poll.
   */
  lemma ShippedIsCleanIff(states: seq<Tables>, requests: seq<Request>)
    requires Run(false, states, requests)
    ensures Clean(states[|states| - 1]) <==>
              forall i | 0 <= i < |requests| :: Shaped(states[i], requests[i]) && NoneDue(states[i], requests[i])
  {
    if forall i | 0 <= i < |requests| :: Shaped(states[i], requests[i]) && NoneDue(states[i], requests[i]) {
      forall i | 0 <= i < |requests| ensures Happens(true, states[i], requests[i], states[i + 1]) {
        assert Happens(false, states[i], requests[i], states[i + 1]);
        assert Shaped(states[i], requests[i]) && NoneDue(states[i], requests[i]);
        ReadingsAgree(states[i], requests[i]);
      }
      FlushedIsClean(states, requests, |states| - 1);
    } else {
      var i :| 0 <= i < |requests| && !(Shaped(states[i], requests[i]) && NoneDue(states[i], requests[i]));
      assert Happens(false, states[i], requests[i], states[i + 1]);
      var id :| id in requests[i].oldest && states[i].jobs[id].expiresAt <= requests[i].now;
      DirtyForever(states, requests, i, id);
    }
  }

  /** The run that shows the flush is needed: a job expires in the queue and the next poll hands it out. */
  lemma ShippedResurrects() returns (states: seq<Tables>, requests: seq<Request>)
    ensures Run(false, states, requests) && |requests| == 2 && |states[2].jobs| == 1
    ensures states[2].jobs[0] == Job(0, 7, JobPayload.Ping, map[], Assigned, Some(1), 0, 30, None, Some(40), None)
    ensures Word(states[2].events, 0) == [CreatedEv, ExpiredEv, AssignedEv]
  {
    hide *;
    var poll := Poll(Agent(1, 7), 40, [0], [0]);
    var create, one := FirstJob();
    var two := ResurrectingPoll(one, poll);
    StartingRun(false);
    RunGrows(false, [EMPTY], [], create, one);
    RunGrows(false, [EMPTY] + [one], [] + [create], poll, two);
    states, requests := [EMPTY] + [one] + [two], [] + [create] + [poll];
  }

  /** One queued row, past its deadline, polled by its device's agent. */
  lemma ResurrectingPoll(one: Tables, poll: Request) returns (two: Tables)
    requires one.jobs == [Job(0, 7, JobPayload.Ping, map[], Queued, None, 0, 30, None, None, None)]
             && Word(one.events, 0) == [CreatedEv]
    requires poll == Poll(Agent(1, 7), 40, [0], [0])
    ensures Happens(false, one, poll, two) && |two.jobs| == 1
    ensures two.jobs[0] == Job(0, 7, JobPayload.Ping, map[], Assigned, Some(1), 0, 30, None, Some(40), None)
    ensures Word(two.events, 0) == [CreatedEv, ExpiredEv, AssignedEv]
  {
    two := Apply(one, poll);
    RowMoves(false, one, poll, 0);
    SelectedDueLetters(one, poll, two, 0);
    assert [CreatedEv] + [ExpiredEv, AssignedEv] == [CreatedEv, ExpiredEv, AssignedEv];
  }

  /** A run's first request can be the creation of a ping job, due at 30. */
  lemma FirstJob() returns (create: Request, one: Tables)
    ensures forall flush :: Happens(flush, EMPTY, create, one)
    ensures one.jobs == [Job(0, 7, JobPayload.Ping, map[], Queued, None, 0, 30, None, None, None)]
    ensures Word(one.events, 0) == [CreatedEv]
  {
    create := Create(0, 7, JobPayload.Ping, map[], 0, 0, 30);
    one := Apply(EMPTY, create);
    NewRow(EMPTY, create);
  }

  lemma StartingRun(flush: bool)
    ensures Run(flush, [EMPTY], [])
  {
  }

  // ---- Potential ----

  function TotalRank(jobs: seq<Job>): nat {
    if jobs == [] then 0 else TotalRank(jobs[..|jobs| - 1]) + Rank(jobs[|jobs| - 1].status)
  }

  function TotalLetters(events: seq<Event>, n: nat): nat {
    if n == 0 then 0 else TotalLetters(events, n - 1) + |Word(events, n - 1)|
  }

  lemma {:induction false} LettersStep(events: seq<Event>, e: Event, n: nat)
    ensures TotalLetters(events + [e], n) == TotalLetters(events, n) + if e.job < n then 1 else 0
  {
    if n > 0 {
      LettersStep(events, e, n - 1);
      assert (events + [e])[..|events|] == events;
    }
  }

  /** Every event belongs to exactly one word. */
  lemma {:induction false} LettersCount(events: seq<Event>, n: nat)
    requires forall i | 0 <= i < |events| :: events[i].job < n
    ensures TotalLetters(events, n) == |events|
  {
    if events == [] {
      NoLetters(n);
    } else {
      var front := events[..|events| - 1];
      LettersCount(front, n);
      LettersStep(front, events[|events| - 1], n);
      assert events == front + [events[|events| - 1]];
    }
  }

  lemma {:induction false} NoLetters(n: nat)
    ensures TotalLetters([], n) == 0
  {
    if n > 0 {
      NoLetters(n - 1);
    }
  }

  function LetterBound(flush: bool): nat { if flush then 4 else 5 }

  lemma RowPotential(flush: bool, t: Tables, id: nat)
    requires RowsAgree(flush, t) && id < |t.jobs|
    ensures |Word(t.events, id)| + Rank(t.jobs[id].status) <= LetterBound(flush)
  {
    assert RowAgrees(flush, t.jobs[id], Word(t.events, id));
    LanguageShape(flush, Word(t.events, id));
  }

  lemma {:induction false} PotentialUpTo(flush: bool, t: Tables, n: nat)
    requires RowsAgree(flush, t) && n <= |t.jobs|
    ensures TotalLetters(t.events, n) + TotalRank(t.jobs[..n]) <= n * LetterBound(flush)
  {
    hide RowsAgree;
    if n == 0 {
    } else {
      PotentialUpTo(flush, t, n - 1);
      RowPotential(flush, t, n - 1);
      assert t.jobs[..n][..n - 1] == t.jobs[..n - 1];
      assert n * LetterBound(flush) == (n - 1) * LetterBound(flush) + LetterBound(flush);
    }
  }

  /** Events written plus rank left is at most four a job with the flush, five as shipped. */
  lemma Potential(flush: bool, states: seq<Tables>, requests: seq<Request>, i: nat)
    requires Run(flush, states, requests) && i < |states|
    ensures |states[i].events| + TotalRank(states[i].jobs) <= |states[i].jobs| * LetterBound(flush)
  {
    Reachable(flush, states, requests, i);
    LettersCount(states[i].events, |states[i].jobs|);
    PotentialUpTo(flush, states[i], |states[i].jobs|);
    assert states[i].jobs[..|states[i].jobs|] == states[i].jobs;
  }

  // ---- Time ----

  /** Nothing has happened later than `clock`, starts precede ends, and expirations are not premature. */
  predicate Timely(j: Job, clock: Time) {
    && (j.startedAt.Some? ==> j.startedAt.value <= clock)
    && (j.completedAt.Some? ==> j.completedAt.value <= clock)
    && (j.status.Terminal() && j.startedAt.Some? && j.completedAt.Some? ==> j.startedAt.value <= j.completedAt.value)
    && (j.status == Expired && j.completedAt.Some? ==> j.expiresAt <= j.completedAt.value)
  }

  lemma TimelyRow(flush: bool, j: Job, j': Job, r: Request, l: seq<Kind>, clock: Time)
    requires Rewrites(flush, j, j', r, l) && Timely(j, clock) && clock <= r.now
    requires ExpiredEv in l ==> j.expiresAt <= r.now
    ensures Timely(j', r.now)
  {
    hide Take, SummaryText;
  }

  lemma ExpiredWasDue(flush: bool, t: Tables, r: Request, id: nat)
    requires Truthful(flush, t, r) && id < |t.jobs| && ExpiredEv in Letters(t, r, id)
    ensures t.jobs[id].expiresAt <= r.now
  {
  }

  lemma TimelyStep(flush: bool, t: Tables, r: Request, clock: Time)
    requires Truthful(flush, t, r) && clock <= r.now
    requires forall id | 0 <= id < |t.jobs| :: Timely(t.jobs[id], clock)
    ensures forall id | 0 <= id < |Apply(t, r).jobs| :: Timely(Apply(t, r).jobs[id], r.now)
  {
    var t' := Apply(t, r);
    forall id | |t.jobs| <= id < |t'.jobs| ensures Timely(t'.jobs[id], r.now) {
    }
    forall id | 0 <= id < |t.jobs| ensures Timely(t'.jobs[id], r.now) {
      RowMoves(flush, t, r, id);
      if ExpiredEv in Letters(t, r, id) {
        ExpiredWasDue(flush, t, r, id);
      }
      TimelyRow(flush, t.jobs[id], t'.jobs[id], r, Letters(t, r, id), clock);
    }
  }

  lemma {:induction false} TimelyRun(flush: bool, states: seq<Tables>, requests: seq<Request>, i: nat)
    requires Run(flush, states, requests) && i < |states|
    requires forall a, b | 0 <= a <= b < |requests| :: requests[a].now <= requests[b].now
    ensures i > 0 ==> forall id | 0 <= id < |states[i].jobs| :: Timely(states[i].jobs[id], requests[i - 1].now)
  {
    if i > 0 {
      TimelyRun(flush, states, requests, i - 1);
      assert Happens(flush, states[i - 1], requests[i - 1], states[i]);
      TimelyStep(flush, states[i - 1], requests[i - 1], if i == 1 then requests[0].now else requests[i - 2].now);
    }
  }

  lemma TimelyEnd(flush: bool, t: Tables, id: nat, clock: Time)
    requires Inv(flush, t) && id < |t.jobs| && Timely(t.jobs[id], clock) && t.jobs[id].status.Terminal()
    ensures t.jobs[id].completedAt.Some?
    ensures t.jobs[id].startedAt.Some? ==> t.jobs[id].startedAt.value <= t.jobs[id].completedAt.value
    ensures t.jobs[id].status == Expired ==> t.jobs[id].expiresAt <= t.jobs[id].completedAt.value
  {
    assert RowAgrees(flush, t.jobs[id], Word(t.events, id));
  }

  /**
   * With a clock that never goes back, under either reading: a terminal job carries a completion time,
   * not before its start, and an expired job was completed at or after its deadline.
   */
  lemma TimesAreOrdered(flush: bool, states: seq<Tables>, requests: seq<Request>, i: nat, id: nat)
    requires Run(flush, states, requests) && i < |states| && id < |states[i].jobs|
    requires forall a, b | 0 <= a <= b < |requests| :: requests[a].now <= requests[b].now
    requires states[i].jobs[id].status.Terminal()
    ensures var j := states[i].jobs[id];
            && j.completedAt.Some?
            && (j.startedAt.Some? ==> j.startedAt.value <= j.completedAt.value)
            && (j.status == Expired ==> j.expiresAt <= j.completedAt.value)
  {
    hide Happens, Inv;
    TimelyRun(flush, states, requests, i);
    Reachable(flush, states, requests, i);
    if i > 0 {
      TimelyEnd(flush, states[i], id, requests[i - 1].now);
    }
  }

  /** The deadline is checked by expiry steps only: a run in which a job starts and succeeds after it. */
  lemma LateSuccess() returns (states: seq<Tables>, requests: seq<Request>)
    ensures Run(true, states, requests) && |requests| == 3 && |states[3].jobs| == 1
    ensures var j := states[3].jobs[0];
            j.status == Succeeded && j.startedAt.Some? && j.expiresAt < j.startedAt.value
  {
    var start := Start(0, Agent(1, 7), 50);
    var complete := Complete(0, Agent(1, 7), Report(true, "pong", None, Some(0)), 60);
    var create, one := FirstJob();
    var two := AcceptedOn(one, start);
    var three := AcceptedOn(two, complete);
    StartingRun(true);
    assert three.jobs[0].status == Succeeded && three.jobs[0].expiresAt == 30 && three.jobs[0].startedAt == Some(50);
    hide *;
    RunGrows(true, [EMPTY], [], create, one);
    RunGrows(true, [EMPTY] + [one], [] + [create], start, two);
    RunGrows(true, [EMPTY] + [one] + [two], [] + [create] + [start], complete, three);
    states, requests := [EMPTY] + [one] + [two] + [three], [] + [create] + [start] + [complete];
  }

  /** A start or completion of the only row. */
  lemma AcceptedOn(t: Tables, r: Request) returns (t': Tables)
    requires |t.jobs| == 1 && (r.Start? || r.Complete?) && ReplyTo(t, r) == Ok && r.job == 0
    ensures Happens(true, t, r, t') && |t'.jobs| == 1
    ensures t'.jobs[0]
            == if r.Start? then StartRow(t.jobs[0], r.agent, r.now) else CompleteRow(t.jobs[0], r.report, r.now)
  {
    t' := Apply(t, r);
  }
}
