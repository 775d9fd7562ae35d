/** When a job's deadline takes effect: only in a sweep or poll that meets the job past it, and then exactly. */
module JobDeadlines {
  import opened Base
  import opened Jobs
  import opened JobLifecycle
  import opened JobRuns

  /** The request looks for due jobs of this device. */
  predicate Looks(r: Request, device: nat) {
    match r
    case Sweep(scope, _, _) => scope.Some? ==> scope.value == device
    case Poll(agent, _, _, _) => agent.device == device
    case _ => false
  }

  /** The request meets the job unfinished and past its deadline, and does not hand it out itself. */
  predicate Caught(t: Tables, r: Request, id: nat) {
    && id < |t.jobs| && !t.jobs[id].status.Terminal()
    && Looks(r, t.jobs[id].device) && t.jobs[id].expiresAt <= r.now
    && !(r.Poll? && id in r.oldest)
  }

  /** A start, completion or cancellation of the job that the server carries out. */
  predicate Starts(t: Tables, r: Request, id: nat) { r.Start? && r.job == id && ReplyTo(t, r) == Ok }

  predicate Completes(t: Tables, r: Request, id: nat) { r.Complete? && r.job == id && ReplyTo(t, r) == Ok }

  predicate Cancels(t: Tables, r: Request, id: nat) {
    r.Cancel? && r.job == id && id < |t.jobs| && !t.jobs[id].status.Terminal()
  }

  // ---- One request ----

  /** Without a completion or a start, exactly a catching request makes the job expired. */
  lemma CatchStep(flush: bool, t: Tables, r: Request, t': Tables, id: nat)
    requires Happens(flush, t, r, t') && id < |t'.jobs|
    ensures t'.jobs[id].status == Expired <==> (id < |t.jobs| && t.jobs[id].status == Expired) || Caught(t, r, id)
  {
    if id < |t.jobs| {
      RowMoves(flush, t, r, id);
      DueLetters(flush, t, r, id);
      hide Truthful, Apply, Letters, AnswersDue, AnswersOldest;
    }
  }

  /** The letter of an expiration is written exactly for due jobs the request looks for. */
  lemma DueLetters(flush: bool, t: Tables, r: Request, id: nat)
    requires Truthful(flush, t, r) && id < |t.jobs|
    ensures Letters(t, r, id) == [ExpiredEv] <==> Caught(t, r, id)
  {
    hide Seen, AnswersOldest;
    if r.Sweep? {
      assert id in r.due <==> Due(t.jobs[id], r.scope, r.now);
    } else if r.Poll? {
      assert id in r.due <==> Due(t.jobs[id], Some(r.agent.device), r.now);
      var expired, handed: seq<Kind> := if id in r.due then [ExpiredEv] else [], if id in r.oldest then [AssignedEv]
        else [];
      assert Letters(t, r, id) == expired + handed;
      assert handed == [] ==> expired + handed == expired;
      assert handed != [] ==> (expired + handed)[|expired|] == AssignedEv;
    }
  }

  /** A job waits for its start until it is started, canceled or caught. */
  lemma WaitStep(flush: bool, t: Tables, r: Request, t': Tables, id: nat)
    requires Happens(flush, t, r, t') && id < |t.jobs|
    ensures id < |t'.jobs|
    ensures t'.jobs[id].status in {Queued, Assigned}
       <==> t.jobs[id].status in {Queued, Assigned} && !Starts(t, r, id) && !Cancels(t, r, id) && !Caught(t, r, id)
  {
    RowMoves(flush, t, r, id);
    DueLetters(flush, t, r, id);
    hide Truthful, Seen, AnswersDue, AnswersOldest;
  }

  /** A job runs from its start until it is completed, canceled or caught. */
  lemma RunStep(flush: bool, t: Tables, r: Request, t': Tables, id: nat)
    requires Happens(flush, t, r, t') && id < |t.jobs|
    ensures id < |t'.jobs|
    ensures t'.jobs[id].status == Running
       <==> Starts(t, r, id)
            || (t.jobs[id].status == Running && !Completes(t, r, id) && !Cancels(t, r, id) && !Caught(t, r, id))
  {
    RowMoves(flush, t, r, id);
    DueLetters(flush, t, r, id);
    hide Truthful, Seen, AnswersDue, AnswersOldest;
  }

  lemma NewJobWaits(flush: bool, t: Tables, r: Request, t': Tables, id: nat)
    requires Happens(flush, t, r, t') && |t.jobs| <= id < |t'.jobs|
    ensures t'.jobs[id].status == Queued
  {
  }

  // ---- Whole runs ----

  /**
   * The deadline, exactly, under either reading: a job is expired if and only if some earlier request looked
   * for its device's due jobs when it was unfinished and past its deadline, and did not hand it out itself.
   */
  lemma {:induction false} ExpiredIffCaught(flush: bool, states: seq<Tables>, requests: seq<Request>, i: nat, id: nat)
    requires Run(flush, states, requests) && i < |states| && id < |states[i].jobs|
    ensures states[i].jobs[id].status == Expired <==> exists k | 0 <= k < i :: Caught(states[k], requests[k], id)
  {
    hide Happens, Caught;
    if i > 0 {
      CatchStep(flush, states[i - 1], requests[i - 1], states[i], id);
      if id < |states[i - 1].jobs| {
        ExpiredIffCaught(flush, states, requests, i - 1, id);
      } else {
        NotYetCaught(flush, states, requests, i - 1, id);
      }
    }
  }

  /** Nothing happens to a job before it exists. */
  lemma NotYetCaught(flush: bool, states: seq<Tables>, requests: seq<Request>, i: nat, id: nat)
    requires Run(flush, states, requests) && i < |states| && id >= |states[i].jobs|
    ensures forall k | 0 <= k <= i :: id >= |states[k].jobs|
    ensures forall k | 0 <= k <= i && k < |requests| ::
            !Caught(states[k], requests[k], id) && !Ends(states[k], requests[k], id)
  {
    hide Happens;
    forall k | 0 <= k <= i ensures id >= |states[k].jobs| {
      if id < |states[k].jobs| {
        Progress(flush, states, requests, k, i, id);
      }
    }
  }

  /** The request takes the job out of waiting: it starts, cancels or catches it. */
  predicate Ends(t: Tables, r: Request, id: nat) { Starts(t, r, id) || Cancels(t, r, id) || Caught(t, r, id) }

  lemma {:induction false} WaitsIff(flush: bool, states: seq<Tables>, requests: seq<Request>, i: nat, id: nat)
    requires Run(flush, states, requests) && i < |states| && id < |states[i].jobs|
    ensures states[i].jobs[id].status in {Queued, Assigned} <==>
            forall k | 0 <= k < i :: !Ends(states[k], requests[k], id)
  {
    hide Happens;
    if i > 0 {
      if id < |states[i - 1].jobs| {
        WaitStep(flush, states[i - 1], requests[i - 1], states[i], id);
        hide Starts, Cancels, Caught;
        WaitsIff(flush, states, requests, i - 1, id);
      } else {
        NewJobWaits(flush, states[i - 1], requests[i - 1], states[i], id);
        NotYetCaught(flush, states, requests, i - 1, id);
      }
    }
  }

  /** The request stops a running job: it completes, cancels or catches it. */
  predicate Stops(t: Tables, r: Request, id: nat) { Completes(t, r, id) || Cancels(t, r, id) || Caught(t, r, id) }

  /** Request s starts the job, and no request between it and state i stops it. */
  ghost predicate StartedAt(states: seq<Tables>, requests: seq<Request>, i: nat, id: nat, s: nat)
    requires i < |states| == |requests| + 1
  {
    s < i && Starts(states[s], requests[s], id) && forall k | s < k < i :: !Stops(states[k], requests[k], id)
  }

  lemma {:induction false} RunsIff(flush: bool, states: seq<Tables>, requests: seq<Request>, i: nat, id: nat)
    requires Run(flush, states, requests) && i < |states| && id < |states[i].jobs|
    ensures states[i].jobs[id].status == Running <==> exists s :: StartedAt(states, requests, i, id, s)
  {
    hide Happens;
    if i > 0 {
      var t, r := states[i - 1], requests[i - 1];
      if id < |t.jobs| {
        RunStep(flush, t, r, states[i], id);
        StartDoesNotStop(t, r, id);
        hide Starts, Stops;
        RunsIff(flush, states, requests, i - 1, id);
        RunsStep(states, requests, i - 1, i, id, states[i - 1].jobs[id].status == Running, states[i].jobs[id].status
          == Running);
      } else {
        NewJobWaits(flush, t, r, states[i], id);
        NotYetCaught(flush, states, requests, i - 1, id);
        assert forall s :: !StartedAt(states, requests, i, id, s);
      }
    }
  }

  lemma StartDoesNotStop(t: Tables, r: Request, id: nat)
    ensures Starts(t, r, id) ==> !Stops(t, r, id)
  {
  }

  lemma RunsStep(states: seq<Tables>, requests: seq<Request>, last: nat, i: nat, id: nat, before: bool, after: bool)
    requires last + 1 == i < |states| == |requests| + 1
    requires before <==> exists s :: StartedAt(states, requests, last, id, s)
    requires after <==> Starts(states[last], requests[last], id) || (before && !Stops(states[last], requests[last], id))
    requires Starts(states[last], requests[last], id) ==> !Stops(states[last], requests[last], id)
    ensures after <==> exists s :: StartedAt(states, requests, i, id, s)
  {
    hide Starts, Stops;
    assert forall s: nat | StartedAt(states, requests, i, id, s) && s < last ::
        StartedAt(states, requests, last, id, s) && !Stops(states[last], requests[last], id);
    if after {
      if Starts(states[last], requests[last], id) {
        assert StartedAt(states, requests, i, id, last);
      } else {
        var s: nat :| StartedAt(states, requests, last, id, s);
        assert StartedAt(states, requests, i, id, s);
      }
    }
  }

  /**
   * A start by an agent the job admits is accepted if and only if no earlier request started, canceled or
   * caught the job. The time of the start itself plays no part: past the deadline it is accepted just the same.
   */
  lemma StartAcceptedIff(flush: bool, states: seq<Tables>, requests: seq<Request>, i: nat)
    requires Run(flush, states, requests) && i < |requests| && requests[i].Start?
    requires requests[i].job < |states[i].jobs| && MayHandle(states[i].jobs[requests[i].job], requests[i].agent)
    ensures ReplyTo(states[i], requests[i]) == Ok
       <==> forall k | 0 <= k < i :: !Ends(states[k], requests[k], requests[i].job)
  {
    hide Happens, Ends;
    WaitsIff(flush, states, requests, i, requests[i].job);
  }

  /**
   * A completion by an agent the job admits is accepted if and only if an earlier request started the job and
   * no request since completed, canceled or caught it. Its own time plays no part either.
   */
  lemma CompletionAcceptedIff(flush: bool, states: seq<Tables>, requests: seq<Request>, i: nat)
    requires Run(flush, states, requests) && i < |requests| && requests[i].Complete?
    requires requests[i].job < |states[i].jobs| && MayHandle(states[i].jobs[requests[i].job], requests[i].agent)
    ensures ReplyTo(states[i], requests[i]) == Ok <==> exists s :: StartedAt(states, requests, i, requests[i].job, s)
  {
    hide Happens, StartedAt;
    RunsIff(flush, states, requests, i, requests[i].job);
  }

  /** In particular a start or completion past the deadline is accepted only if nothing caught the job before. */
  lemma LateOnlyIfNotCaught(flush: bool, states: seq<Tables>, requests: seq<Request>, i: nat, k: nat)
    requires Run(flush, states, requests) && k < i < |requests| && (requests[i].Start? || requests[i].Complete?)
    requires ReplyTo(states[i], requests[i]) == Ok
    ensures !Caught(states[k], requests[k], requests[i].job)
  {
    hide Happens;
    var id := requests[i].job;
    ExpiredIffCaught(flush, states, requests, i, id);
    hide Caught;
  }
}
