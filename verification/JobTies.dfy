/**
 * The shipped poll's hazard, read off the table alone: which tables let the database answer a poll with a job
 * that is already past its deadline.
 */
module JobTies {
  import opened Base
  import opened Jobs
  import opened JobRuns

  /** The device's queued rows. */
  function Queue(jobs: seq<Job>, device: nat): set<nat> { set x: nat | x < |jobs| && Waiting(jobs[x], device) }

  /** The queued rows strictly older than row w. */
  function Older(jobs: seq<Job>, device: nat, w: nat): set<nat>
    requires w < |jobs|
  {
    set x: nat | x < |jobs| && Waiting(jobs[x], device) && jobs[x].createdAt < jobs[w].createdAt
  }

  /** A queued row past its deadline that fewer than five strictly older queued rows precede. */
  predicate Exposed(jobs: seq<Job>, device: nat, now: Time, w: nat) {
    w < |jobs| && Waiting(jobs[w], device) && jobs[w].expiresAt <= now && |Older(jobs, device, w)| < 5
  }

  /** A shipped poll of this device at this time may be answered with these rows. */
  ghost predicate MayAnswer(t: Tables, agent: Agent, now: Time, due: seq<nat>, oldest: seq<nat>) {
    Truthful(false, t, Poll(agent, now, due, oldest))
  }

  // ---- Listing rows in creation order ----

  /** The ids of `q`, oldest first, with w before every other row of its own age. */
  ghost predicate Lists(jobs: seq<Job>, q: set<nat>, w: nat, s: seq<nat>)
    requires forall x | x in q :: x < |jobs|
  {
    && Distinct(s) && (forall x :: x in s <==> x in q)
    && (forall i, k | 0 <= i < k < |s| :: s[i] in q && s[k] in q && jobs[s[i]].createdAt <= jobs[s[k]].createdAt)
    && (forall i, k | 0 <= i < k < |s| && s[k] == w :: s[i] in q && w in q && jobs[s[i]].createdAt < jobs[w].createdAt)
  }

  /** An oldest row of `q`, and w itself if it is one. */
  lemma {:induction false} OldestOf(jobs: seq<Job>, q: set<nat>, w: nat) returns (m: nat)
    requires q != {} && forall x | x in q :: x < |jobs|
    ensures m in q && forall x | x in q :: jobs[m].createdAt <= jobs[x].createdAt
    ensures m != w && w in q ==> jobs[m].createdAt < jobs[w].createdAt
    decreases |q|
  {
    var x :| x in q;
    if q == {x} {
      m := x;
    } else {
      m := OldestOf(jobs, q - {x}, w);
      if jobs[x].createdAt < jobs[m].createdAt || (x == w && jobs[x].createdAt <= jobs[m].createdAt) {
        m := x;
      }
    }
  }

  lemma {:induction false} Listing(jobs: seq<Job>, q: set<nat>, w: nat) returns (s: seq<nat>)
    requires forall x | x in q :: x < |jobs|
    ensures Lists(jobs, q, w, s)
    decreases |q|
  {
    if q == {} {
      s := [];
    } else {
      var m := OldestOf(jobs, q, w);
      var rest := Listing(jobs, q - {m}, w);
      s := [m] + rest;
    }
  }

  // ---- Answers ----

  /** The first five of a listing of the queue are an answer to the poll's second query. */
  lemma ListingAnswers(jobs: seq<Job>, device: nat, w: nat, s: seq<nat>)
    requires Lists(jobs, Queue(jobs, device), w, s)
    ensures AnswersOldest(jobs, device, if |s| <= POLL_LIMIT then s else s[..POLL_LIMIT])
  {
    var ids := if |s| <= POLL_LIMIT then s else s[..POLL_LIMIT];
    assert forall i | 0 <= i < |ids| :: ids[i] == s[i] && s[i] in s;
    forall x | 0 <= x < |jobs| && Waiting(jobs[x], device) && x !in ids
      ensures |ids| == POLL_LIMIT && forall i | 0 <= i < |ids| :: jobs[ids[i]].createdAt <= jobs[x].createdAt
    {
      assert x in Queue(jobs, device);
      var k :| 0 <= k < |s| && s[k] == x;
      assert k >= |ids|;
    }
  }

  /** Only strictly older rows come before w, so it is among the first five if fewer than five are older. */
  lemma ListedEarly(jobs: seq<Job>, device: nat, w: nat, s: seq<nat>) returns (p: nat)
    requires Lists(jobs, Queue(jobs, device), w, s) && w in Queue(jobs, device)
    ensures p < |s| && s[p] == w && p <= |Older(jobs, device, w)|
  {
    p :| 0 <= p < |s| && s[p] == w;
    var before := s[..p];
    DistinctCount(before);
    forall x | x in Ids(before) ensures x in Older(jobs, device, w) {
      var i :| 0 <= i < |before| && before[i] == x;
      assert s[i] == x && s[i] in Queue(jobs, device);
    }
    SubsetCount(Ids(before), Older(jobs, device, w));
  }

  /** The due rows in some order answer the first query. */
  lemma DueAnswers(jobs: seq<Job>, device: nat, now: Time) returns (due: seq<nat>)
    ensures AnswersDue(jobs, Some(device), now, due)
  {
    var q := set x: nat | x < |jobs| && Due(jobs[x], Some(device), now);
    due := Listing(jobs, q, 0);
    assert forall i | 0 <= i < |due| :: due[i] in due && due[i] in q;
  }

  lemma SelectedIsExposed(jobs: seq<Job>, device: nat, now: Time, oldest: seq<nat>, w: nat)
    requires AnswersOldest(jobs, device, oldest) && w in oldest && w < |jobs| && jobs[w].expiresAt <= now
    ensures Exposed(jobs, device, now, w)
  {
    var p :| 0 <= p < |oldest| && oldest[p] == w;
    assert Waiting(jobs[oldest[p]], device);
    assert forall x | 0 <= x < |jobs| && Waiting(jobs[x], device) && x !in oldest ::
      jobs[oldest[p]].createdAt <= jobs[x].createdAt;
    assert forall x | x in Older(jobs, device, w) :: x in Ids(oldest) - {w};
    DistinctCount(oldest);
    SubsetCount({w}, Ids(oldest));
    SubsetCount(Older(jobs, device, w), Ids(oldest) - {w});
  }

  /**
   * Some truthful answer makes the shipped poll hand out a job past its deadline if and only if the device has
   * a queued row past its deadline that fewer than five strictly older queued rows precede.
   */
  lemma HazardIsInTheTable(t: Tables, agent: Agent, now: Time)
    ensures (exists due, oldest :: MayAnswer(t, agent, now, due, oldest) && !NoneDue(t, Poll(agent, now, due, oldest)))
       <==> exists w :: Exposed(t.jobs, agent.device, now, w)
  {
    if due, oldest :| MayAnswer(t, agent, now, due, oldest) && !NoneDue(t, Poll(agent, now, due, oldest)) {
      var w :| w in oldest && t.jobs[w].expiresAt <= now;
      SelectedIsExposed(t.jobs, agent.device, now, oldest, w);
    }
    if w: nat :| Exposed(t.jobs, agent.device, now, w) {
      var due, oldest := ExposedIsSelected(t, agent, now, w);
    }
  }

  lemma ExposedIsSelected(t: Tables, agent: Agent, now: Time, w: nat) returns (due: seq<nat>, oldest: seq<nat>)
    requires Exposed(t.jobs, agent.device, now, w)
    ensures MayAnswer(t, agent, now, due, oldest) && !NoneDue(t, Poll(agent, now, due, oldest))
  {
    hide AnswersDue, AnswersOldest, Lists, Older, Waiting, Due;
    due := DueAnswers(t.jobs, agent.device, now);
    var s := Listing(t.jobs, Queue(t.jobs, agent.device), w);
    ListingAnswers(t.jobs, agent.device, w, s);
    var p := ListedEarly(t.jobs, agent.device, w, s);
    oldest := if |s| <= POLL_LIMIT then s else s[..POLL_LIMIT];
    assert oldest[p] == w;
  }
}
