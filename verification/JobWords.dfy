/** The language of job logs is exact: every word of it is the log of some job in some run. */
module JobWords {
  import opened Base
  import opened Jobs
  import opened JobLifecycle
  import opened JobRuns
  import JobPayload

  /** The states of the constructed runs: one ping job, due at 30, handled only by agent 1 of device 7. */
  ghost predicate OneJob(t: Tables) {
    && |t.jobs| == 1
    && t.jobs[0].device == 7
    && t.jobs[0].expiresAt == 30
    && (t.jobs[0].agent.Some? ==> t.jobs[0].agent.value == 1)
  }

  const HANDLER := Agent(1, 7)

  /** A request that appends the letter. */
  function RequestFor(k: Kind): Request {
    match k
    case CreatedEv => Create(0, 7, JobPayload.Ping, map[], 0, 0, 30)
    case AssignedEv => Poll(HANDLER, 10, [], [0])
    case StartedEv => Start(0, HANDLER, 10)
    case CompletedEv => Complete(0, HANDLER, Report(true, "", None, None), 10)
    case FailedEv => Complete(0, HANDLER, Report(false, "", None, None), 10)
    case CanceledEv => Cancel(0, 10)
    case ExpiredEv => Sweep(None, 40, [0])
  }

  /** In the status its predecessor letter leaves, the request is answered and accepted. */
  lemma LetterAccepted(flush: bool, t: Tables, k: Kind)
    requires OneJob(t) && !t.jobs[0].status.Terminal()
    requires k == AssignedEv ==> t.jobs[0].status == Queued
    requires k == StartedEv ==> t.jobs[0].status in {Queued, Assigned}
    requires k in {CompletedEv, FailedEv} ==> t.jobs[0].status == Running
    requires k != CreatedEv
    ensures Truthful(flush, t, RequestFor(k)) && Shaped(t, RequestFor(k)) && ReplyTo(t, RequestFor(k)) == Ok
    ensures Letters(t, RequestFor(k), 0) == [k]
  {
    if k == AssignedEv {
      assert Seen(flush, t, 10, []) == t.jobs;
    }
  }

  lemma OneJobKept(flush: bool, t: Tables, k: Kind)
    requires OneJob(t) && k != CreatedEv && Truthful(flush, t, RequestFor(k)) && Shaped(t, RequestFor(k))
    ensures OneJob(Apply(t, RequestFor(k)))
  {
    RowMoves(flush, t, RequestFor(k), 0);
    assert |Apply(t, RequestFor(k)).jobs| == 1;
    hide Apply, Truthful, ReplyTo, Letters;
  }

  lemma LetterFits(flush: bool, w: seq<Kind>, k: Kind)
    requires w != [] && MayFollow(flush, w, k) && w[|w| - 1] != ExpiredEv
    ensures var s := After(w[|w| - 1]);
            && !s.Terminal()
            && k != CreatedEv
            && (k == AssignedEv ==> s == Queued)
            && (k == StartedEv ==> s in {Queued, Assigned})
            && (k in {CompletedEv, FailedEv} ==> s == Running)
  {
  }

  lemma LetterHappens(flush: bool, t: Tables, k: Kind) returns (t': Tables)
    requires OneJob(t) && Inv(flush, t) && MayFollow(flush, Word(t.events, 0), k)
    requires t.jobs[0].status != Expired
    ensures Happens(flush, t, RequestFor(k), t') && OneJob(t')
    ensures Word(t'.events, 0) == Word(t.events, 0) + [k]
  {
    LastLetter(flush, t, 0);
    assert |t.jobs| == 1;
    LetterFits(flush, Word(t.events, 0), k);
    hide InLanguage, Inv, Word, OneJob, Apply, Truthful, ReplyTo, Letters, RequestFor, MayFollow;
    LetterAccepted(flush, t, k);
    t' := Apply(t, RequestFor(k));
    WordAfter(flush, t, RequestFor(k), 0);
    OneJobKept(flush, t, k);
  }

  lemma LastLetter(flush: bool, t: Tables, id: nat)
    requires Inv(flush, t) && id < |t.jobs|
    ensures InLanguage(flush, Word(t.events, id))
    ensures t.jobs[id].status == After(Word(t.events, id)[|Word(t.events, id)| - 1])
  {
    assert RowAgrees(flush, t.jobs[id], Word(t.events, id));
  }

  lemma SplitWord(flush: bool, w: seq<Kind>)
    requires InLanguage(flush, w)
    ensures |w| > 0 && (|w| == 1 ==> w == [CreatedEv])
    ensures |w| > 1 ==> InLanguage(flush, w[..|w| - 1]) && MayFollow(flush, w[..|w| - 1], w[|w| - 1])
    ensures |w| > 1 && w[|w| - 2] == ExpiredEv ==> !flush && w == [CreatedEv, ExpiredEv, AssignedEv]
  {
    if |w| > 1 {
      assert w == w[..|w| - 1] + [w[|w| - 1]];
    }
  }

  lemma RunShape(flush: bool, states: seq<Tables>, requests: seq<Request>)
    requires Run(flush, states, requests)
    ensures |states| == |requests| + 1
  {
  }

  lemma {:induction false} WordIsRealised(flush: bool, w: seq<Kind>)
    returns (states: seq<Tables>, requests: seq<Request>)
    requires InLanguage(flush, w)
    ensures Run(flush, states, requests) && states != []
    ensures OneJob(states[|states| - 1]) && Word(states[|states| - 1].events, 0) == w
  {
    hide InLanguage, Run, Inv, Happens, MayFollow, Word, RequestFor;
    SplitWord(flush, w);
    if |w| == 1 {
      var create, one := FirstJob();
      StartingRun(flush);
      RunGrows(flush, [EMPTY], [], create, one);
      states, requests := [EMPTY] + [one], [] + [create];
    } else if w[|w| - 2] == ExpiredEv {
      states, requests := ShippedResurrects();
      RunShape(flush, states, requests);
    } else {
      var front, k := w[..|w| - 1], w[|w| - 1];
      states, requests := WordIsRealised(flush, front);
      var t := states[|states| - 1];
      Reachable(flush, states, requests, |states| - 1);
      LastLetter(flush, t, 0);
      var t' := LetterHappens(flush, t, k);
      RunShape(flush, states, requests);
      RunGrows(flush, states, requests, RequestFor(k), t');
      states, requests := states + [t'], requests + [RequestFor(k)];
      assert front + [k] == w;
    }
  }

  /** The run ends with the job's log being this word. */
  ghost predicate EndsWithLog(flush: bool, states: seq<Tables>, requests: seq<Request>, id: nat, w: seq<Kind>) {
    Run(flush, states, requests) && id < |states[|states| - 1].jobs| && Word(states[|states| - 1].events, id) == w
  }

  /** A word is the log of some job at the end of some run if and only if it is in the language. */
  lemma LogsAreExactlyTheLanguage(flush: bool, w: seq<Kind>)
    ensures InLanguage(flush, w) <==>
              exists states: seq<Tables>, requests: seq<Request>, id: nat :: EndsWithLog(flush, states, requests, id, w)
  {
    hide InLanguage, Happens, Inv;
    if InLanguage(flush, w) {
      var states, requests := WordIsRealised(flush, w);
      assert EndsWithLog(flush, states, requests, 0, w);
    }
    forall states: seq<Tables>, requests: seq<Request>, id: nat | EndsWithLog(flush, states, requests, id, w)
      ensures InLanguage(flush, w)
    {
      Reachable(flush, states, requests, |states| - 1);
      LastLetter(flush, states[|states| - 1], id);
    }
  }
}
