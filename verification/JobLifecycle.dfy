/**
 * What every request keeps: the event log of a job is a word of a fixed regular language and decides
 * the job's row, the audit log is the event log in other words, and result rows mirror final statuses.
 * Everything is stated for both readings of the poll: with a flush between expiring and selecting, and
 * as shipped, without one.
 */
module JobLifecycle {
  import opened Base
  import opened Jobs
  import JobPayload

  /** The kinds of one job's events, in order. */
  function Word(events: seq<Event>, id: nat): seq<Kind> {
    if events == [] then []
    else
      var front := Word(events[..|events| - 1], id);
      var last := events[|events| - 1];
      if last.job == id then front + [last.kind] else front
  }

  /** The status an event leaves behind. */
  function After(k: Kind): Status {
    match k
    case CreatedEv => Queued
    case AssignedEv => Assigned
    case StartedEv => Running
    case CompletedEv => Succeeded
    case FailedEv => Failed
    case CanceledEv => Canceled
    case ExpiredEv => Expired
  }

  /**
   * The next-letter relation of the language. The one difference between the readings: as shipped, a
   * job that expired while queued can be assigned by the very same poll.
   */
  predicate MayFollow(flush: bool, w: seq<Kind>, k: Kind)
    requires w != []
  {
    match w[|w| - 1]
    case CreatedEv => k in {AssignedEv, StartedEv, CanceledEv, ExpiredEv}
    case AssignedEv => k in {StartedEv, CanceledEv, ExpiredEv}
    case StartedEv => k in {CompletedEv, FailedEv, CanceledEv, ExpiredEv}
    case ExpiredEv => !flush && w == [CreatedEv, ExpiredEv] && k == AssignedEv
    case _ => false
  }

  predicate InLanguage(flush: bool, w: seq<Kind>) {
    if |w| <= 1 then w == [CreatedEv]
    else InLanguage(flush, w[..|w| - 1]) && MayFollow(flush, w[..|w| - 1], w[|w| - 1])
  }

  function Rank(s: Status): nat {
    match s
    case Queued => 3
    case Assigned => 2
    case Running => 1
    case _ => 0
  }

  lemma Extend(flush: bool, w: seq<Kind>, k: Kind)
    requires InLanguage(flush, w) && MayFollow(flush, w, k)
    ensures InLanguage(flush, w + [k])
  {
    assert (w + [k])[..|w|] == w;
  }

  /** The letters that can stand at position `i` after the letter `k`. */
  function Successors(flush: bool, k: Kind, i: nat): set<Kind> {
    match k
    case CreatedEv => {AssignedEv, StartedEv, CanceledEv, ExpiredEv}
    case AssignedEv => {StartedEv, CanceledEv, ExpiredEv}
    case StartedEv => {CompletedEv, FailedEv, CanceledEv, ExpiredEv}
    case ExpiredEv => if !flush && i == 2 then {AssignedEv} else {}
    case _ => {}
  }

  /** The next-letter relation, letter by letter. */
  lemma {:induction false} Letter(flush: bool, w: seq<Kind>, i: nat)
    requires InLanguage(flush, w) && 0 < i < |w|
    ensures w[i] in Successors(flush, w[i - 1], i)
  {
    if i < |w| - 1 {
      Letter(flush, w[..|w| - 1], i);
      if i == 2 && w[1] == ExpiredEv {}
    }
  }

  /** Every letter lowers the rank, except that a resurrection restarts it at two, once. */
  lemma {:induction false} Descent(flush: bool, w: seq<Kind>, i: nat)
    requires InLanguage(flush, w) && i < |w|
    ensures i + Rank(After(w[i])) <= if flush then 3 else 4
  {
    hide InLanguage, MayFollow;
    if i == 0 {
      FirstLetter(flush, w);
    } else {
      Descent(flush, w, i - 1);
      Letter(flush, w, i);
    }
  }

  lemma {:induction false} FirstLetter(flush: bool, w: seq<Kind>)
    requires InLanguage(flush, w)
    ensures w != [] && w[0] == CreatedEv
  {
    if |w| > 1 {
      FirstLetter(flush, w[..|w| - 1]);
    }
  }

  /**
   * What membership in the language means: at most four letters with the flush and five without, no
   * kind twice (except, as shipped, a second expiration ending the word), an outcome only right after a
   * start, nothing after an outcome or a cancellation, and nothing after an expiration except, as
   * shipped, an assignment.
   */
  lemma LanguageShape(flush: bool, w: seq<Kind>)
    requires InLanguage(flush, w)
    ensures |w| + Rank(After(w[|w| - 1])) <= if flush then 4 else 5
    ensures forall i, k | 0 <= i < k < |w| && w[i] == w[k] :: !flush && i == 1 && w[1] == ExpiredEv && k == |w| - 1
    ensures forall i | 0 <= i < |w| && w[i] in {CompletedEv, FailedEv} :: i > 0 && w[i - 1] == StartedEv && i == |w| - 1
    ensures forall i | 0 <= i < |w| && w[i] == CanceledEv :: i == |w| - 1
    ensures StartedEv in w ==> w[|w| - 1] == StartedEv || After(w[|w| - 1]).Terminal()
    ensures forall i | 0 <= i < |w| - 1 && w[i] == ExpiredEv :: !flush && i == 1 && w[2] == AssignedEv
  {
    FirstLetter(flush, w);
    Descent(flush, w, |w| - 1);
    forall i | 0 < i < |w| ensures w[i] in Successors(flush, w[i - 1], i) {
      Letter(flush, w, i);
    }
    hide InLanguage;
    assert |w| > 1 ==> w[0] != w[1];
    assert |w| > 2 ==> w[2] !in {w[0], w[1]};
    assert |w| > 3 ==> w[3] !in {w[0], w[2]} && (w[3] != w[1] || w[3] == ExpiredEv);
    assert |w| > 4 ==> w[4] !in {w[0], w[2], w[3]} && (w[4] != w[1] || w[4] == ExpiredEv);
    forall i, k | 0 <= i < k < |w| && w[i] == w[k] ensures !flush && i == 1 && w[1] == ExpiredEv && k == |w| - 1 {
      assert k == 1 || k == 2 || k == 3 || k == 4;
    }
  }

  // ---- Words of growing logs ----

  lemma {:induction false} WordConcat(a: seq<Event>, b: seq<Event>, id: nat)
    ensures Word(a + b, id) == Word(a, id) + Word(b, id)
  {
    if b == [] {
      assert a + b == a;
    } else {
      var front := b[..|b| - 1];
      WordConcat(a, front, id);
      assert (a + b)[..|a + b| - 1] == a + front;
    }
  }

  lemma {:induction false} WordStamped(jobs: seq<Job>, ids: seq<nat>, kind: Kind, id: nat)
    requires Within(ids, |jobs|) && Distinct(ids)
    ensures Word(Stamped(jobs, ids, kind), id) == if id in ids then [kind] else []
  {
    if ids != [] {
      var front := ids[..|ids| - 1];
      WordStamped(jobs, front, kind, id);
      assert Stamped(jobs, ids, kind)[..|ids| - 1] == Stamped(jobs, front, kind);
      assert ids == front + [ids[|ids| - 1]];
    }
  }

  lemma {:induction false} WordOfUnknown(events: seq<Event>, id: nat)
    requires forall i | 0 <= i < |events| :: events[i].job != id
    ensures Word(events, id) == []
  {
    if events != [] {
      WordOfUnknown(events[..|events| - 1], id);
    }
  }

  // ---- The invariant ----

  /** A row is what its word says it is. */
  ghost predicate RowAgrees(flush: bool, j: Job, w: seq<Kind>) {
    && InLanguage(flush, w)
    && FieldsAgree(j, w[|w| - 1], ExpiredEv in w, AssignedEv in w, StartedEv in w)
  }

  /** The fields in terms of the last letter and of which letters occur. */
  predicate FieldsAgree(j: Job, last: Kind, wasExpired: bool, wasAssigned: bool, wasStarted: bool) {
    && j.status == After(last)
    && (j.completedAt.Some? <==> j.status.Terminal() || wasExpired)
    && (j.startedAt.Some? <==> wasStarted)
    && (j.agent.Some? <==> wasAssigned || wasStarted)
    && (j.summary.Some? <==> j.status in {Succeeded, Failed})
    && JobPayload.Normal(j.jobType, j.payload)
  }

  ghost predicate RowsAgree(flush: bool, t: Tables) {
    forall id | 0 <= id < |t.jobs| :: RowAgrees(flush, t.jobs[id], Word(t.events, id))
  }

  ghost predicate LogsAgree(t: Tables) {
    && t.audits == AuditsOf(t.events)
    && forall i | 0 <= i < |t.events| :: t.events[i].job < |t.jobs| && t.events[i].org == t.jobs[t.events[i].job].org
  }

  /** At most one result row a job, present exactly when the job ended by completion, with its status. */
  ghost predicate ResultsAgree(t: Tables) {
    && (forall i | 0 <= i < |t.results| ::
          var r := t.results[i];
          r.job < |t.jobs| && r.status == t.jobs[r.job].status && r.org == t.jobs[r.job].org
          && r.status in {Succeeded, Failed})
    && (forall i, k | 0 <= i < k < |t.results| :: t.results[i].job != t.results[k].job)
    && (forall id | 0 <= id < |t.jobs| && t.jobs[id].status in {Succeeded, Failed} ::
          exists i :: 0 <= i < |t.results| && t.results[i].job == id)
  }

  ghost predicate Inv(flush: bool, t: Tables) {
    RowsAgree(flush, t) && LogsAgree(t) && ResultsAgree(t)
  }

  // ---- Each request keeps it ----

  /** How a request changes one existing row: the letters it appends to the job's word. */
  function Letters(t: Tables, r: Request, id: nat): seq<Kind> {
    if ReplyTo(t, r) != Ok then []
    else match r
      case Create(_, _, _, _, _, _, _) => []
      case Sweep(_, _, due) => if id in due then [ExpiredEv] else []
      case Poll(_, _, due, oldest) =>
        (if id in due then [ExpiredEv] else []) + (if id in oldest then [AssignedEv] else [])
      case Start(k, _, _) => if id == k then [StartedEv] else []
      case Complete(k, _, report, _) => if id == k then [if report.succeeded then CompletedEv else FailedEv] else []
      case Cancel(k, _) => if id == k && k < |t.jobs| && !t.jobs[k].status.Terminal() then [CanceledEv] else []
  }

  lemma WordOfWritten(flush: bool, t: Tables, r: Request, id: nat)
    requires Truthful(flush, t, r) && id < |t.jobs| && ReplyTo(t, r) == Ok
    ensures Word(Written(t, r), id) == Letters(t, r, id)
  {
    if r.Sweep? {
      WordStamped(t.jobs, r.due, ExpiredEv, id);
    } else if r.Poll? {
      WordStamped(t.jobs, r.due, ExpiredEv, id);
      WordStamped(t.jobs, r.oldest, AssignedEv, id);
      WordConcat(Stamped(t.jobs, r.due, ExpiredEv), Stamped(t.jobs, r.oldest, AssignedEv), id);
    } else if Written(t, r) != [] {
      WordOne(Written(t, r)[0], id);
    }
  }

  lemma WordOne(e: Event, id: nat)
    ensures Word([e], id) == if e.job == id then [e.kind] else []
  {
    assert [e][..0] == [];
  }

  lemma WordAfter(flush: bool, t: Tables, r: Request, id: nat)
    requires Truthful(flush, t, r) && id < |t.jobs|
    ensures Word(Apply(t, r).events, id) == Word(t.events, id) + Letters(t, r, id)
  {
    if ReplyTo(t, r) == Ok {
      WordOfWritten(flush, t, r, id);
      WordConcat(t.events, Written(t, r), id);
    }
  }

  /** The row an event sequence of one request leaves behind, and the status it may start from. */
  predicate Rewrites(flush: bool, j: Job, j': Job, r: Request, l: seq<Kind>) {
    || (l == [] && j' == j)
    || (l == [ExpiredEv] && !j.status.Terminal() && j' == ExpireRow(j, r.now))
    || (l == [AssignedEv] && j.status == Queued && r.Poll? && j' == AssignRow(j, r.agent))
    || (l == [ExpiredEv, AssignedEv] && !flush && j.status == Queued && r.Poll?
         && j' == AssignRow(ExpireRow(j, r.now), r.agent))
    || (l == [StartedEv] && j.status in {Assigned, Queued} && r.Start? && j' == StartRow(j, r.agent, r.now))
    || (l == [CompletedEv] && j.status == Running && r.Complete? && r.report.succeeded
         && j' == CompleteRow(j, r.report, r.now))
    || (l == [FailedEv] && j.status == Running && r.Complete? && !r.report.succeeded
         && j' == CompleteRow(j, r.report, r.now))
    || (l == [CanceledEv] && !j.status.Terminal() && j' == CancelRow(j, r.now))
  }

  lemma RowMoves(flush: bool, t: Tables, r: Request, id: nat)
    requires Truthful(flush, t, r) && id < |t.jobs|
    ensures Rewrites(flush, t.jobs[id], Apply(t, r).jobs[id], r, Letters(t, r, id))
  {
  }

  /** Without a letter, the row is untouched; with one, the row is not terminal and its rank falls. */
  lemma RowChange(flush: bool, t: Tables, r: Request, id: nat)
    requires Truthful(flush, t, r) && id < |t.jobs|
    ensures var j, j' := t.jobs[id], Apply(t, r).jobs[id];
            if Letters(t, r, id) == [] then j' == j
            else !j.status.Terminal() && Rank(j'.status) < Rank(j.status)
  {
    RowMoves(flush, t, r, id);
  }

  lemma QueuedWord(flush: bool, w: seq<Kind>)
    requires InLanguage(flush, w) && w[|w| - 1] == CreatedEv
    ensures w == [CreatedEv]
  {
    LanguageShape(flush, w);
  }

  lemma LettersExtend(flush: bool, t: Tables, r: Request, id: nat, w: seq<Kind>)
    requires Truthful(flush, t, r) && id < |t.jobs| && RowAgrees(flush, t.jobs[id], w)
    ensures InLanguage(flush, w + Letters(t, r, id))
  {
    hide JobPayload.Normal;
    var l := Letters(t, r, id);
    if l == [] {
      assert w + l == w;
    } else if |l| == 1 {
      assert l == [l[0]];
      Extend(flush, w, l[0]);
    } else {
      QueuedWord(flush, w);
      Extend(flush, w, ExpiredEv);
      Extend(flush, w + [ExpiredEv], AssignedEv);
      assert w + [ExpiredEv] + [AssignedEv] == w + l;
    }
  }

  lemma FieldsFollow(flush: bool, j: Job, j': Job, r: Request, l: seq<Kind>, last: Kind, e: bool, a: bool, s: bool)
    requires Rewrites(flush, j, j', r, l) && FieldsAgree(j, last, e, a, s)
    ensures FieldsAgree(j', if l == [] then last else l[|l| - 1], e || ExpiredEv in l, a || AssignedEv in l, s
            || StartedEv in l)
  {
    hide JobPayload.Normal, Take, SummaryText;
  }

  lemma RowFollows(flush: bool, j: Job, j': Job, r: Request, w: seq<Kind>, l: seq<Kind>)
    requires RowAgrees(flush, j, w) && Rewrites(flush, j, j', r, l) && InLanguage(flush, w + l)
    ensures RowAgrees(flush, j', w + l)
  {
    FieldsFollow(flush, j, j', r, l, w[|w| - 1], ExpiredEv in w, AssignedEv in w, StartedEv in w);
    hide InLanguage, FieldsAgree, Rewrites;
    assert forall k :: k in w + l <==> k in w || k in l;
  }

  lemma RowStep(flush: bool, t: Tables, r: Request, id: nat)
    requires Truthful(flush, t, r) && id < |t.jobs| && RowAgrees(flush, t.jobs[id], Word(t.events, id))
    ensures RowAgrees(flush, Apply(t, r).jobs[id], Word(Apply(t, r).events, id))
  {
    assert Shaped(t, r);
    hide *;
    WordAfter(flush, t, r, id);
    RowMoves(flush, t, r, id);
    LettersExtend(flush, t, r, id, Word(t.events, id));
    RowFollows(flush, t.jobs[id], Apply(t, r).jobs[id], r, Word(t.events, id), Letters(t, r, id));
  }

  /** A created row starts with the one-letter word. */
  lemma NewRow(t: Tables, r: Request)
    requires r.Create? && ReplyTo(t, r) == Ok && LogsAgree(t)
    ensures var t', id := Apply(t, r), |t.jobs|;
            |t'.jobs| == id + 1 && Word(t'.events, id) == [CreatedEv]
            && FieldsAgree(t'.jobs[id], CreatedEv, false, false, false)
  {
    var t', id := Apply(t, r), |t.jobs|;
    WordOfUnknown(t.events, id);
    WordOne(Event(id, r.org, CreatedEv), id);
    WordConcat(t.events, [Event(id, r.org, CreatedEv)], id);
    JobPayload.ValidateRetracts(r.jobType, r.payload);
  }

  lemma RowsStep(flush: bool, t: Tables, r: Request)
    requires Truthful(flush, t, r) && RowsAgree(flush, t) && LogsAgree(t)
    ensures RowsAgree(flush, Apply(t, r))
  {
    var t' := Apply(t, r);
    forall id | 0 <= id < |t'.jobs| ensures RowAgrees(flush, t'.jobs[id], Word(t'.events, id)) {
      if id < |t.jobs| {
        RowStep(flush, t, r, id);
      } else {
        NewRow(t, r);
      }
    }
  }

  /** Rows keep their organization, and every event written carries it. */
  lemma OrgsKept(t: Tables, r: Request)
    requires Shaped(t, r) && ReplyTo(t, r) == Ok
    ensures forall i | 0 <= i < |t.jobs| :: RowsAfter(t, r)[i].org == t.jobs[i].org
    ensures forall i | 0 <= i < |Written(t, r)| ::
              var e := Written(t, r)[i]; e.job < |RowsAfter(t, r)| && e.org == RowsAfter(t, r)[e.job].org
  {
  }

  lemma LogsStep(flush: bool, t: Tables, r: Request)
    requires Truthful(flush, t, r) && LogsAgree(t)
    ensures LogsAgree(Apply(t, r))
  {
    if ReplyTo(t, r) == Ok {
      AuditsConcat(t.events, Written(t, r));
      OrgsKept(t, r);
      hide RowsAfter, Written, ReplyTo;
    }
  }

  /** Completion is the only way to a completed status, and a completed row stays as it is. */
  lemma CompletedRow(flush: bool, t: Tables, r: Request, id: nat)
    requires Truthful(flush, t, r) && id < |t.jobs|
    ensures var j, j' := t.jobs[id], Apply(t, r).jobs[id];
            && (j.status.Terminal() ==> j' == j)
            && j'.org == j.org
            && (j'.status in {Succeeded, Failed} && j' != j ==> r.Complete? && r.job == id && ReplyTo(t, r) == Ok)
    ensures r.Complete? && r.job == id && ReplyTo(t, r) == Ok ==>
              t.jobs[id].status == Running
                && Apply(t, r).jobs[id].status == if r.report.succeeded then Succeeded else Failed
  {
    RowMoves(flush, t, r, id);
  }

  lemma ResultsGrow(t: Tables, r: Request)
    requires Shaped(t, r)
    ensures Apply(t, r).results ==
              if r.Complete? && ReplyTo(t, r) == Ok then t.results + [ResultOf(r.job, t.jobs[r.job], r.report)]
                else t.results
  {
  }

  lemma ResultsStep(flush: bool, t: Tables, r: Request)
    requires Truthful(flush, t, r) && ResultsAgree(t)
    ensures ResultsAgree(Apply(t, r))
  {
    var t' := Apply(t, r);
    ResultsGrow(t, r);
    assert |t.jobs| <= |t'.jobs|;
    assert forall id | |t.jobs| <= id < |t'.jobs| :: t'.jobs[id].status == Queued;
    forall id | 0 <= id < |t.jobs|
      ensures t.jobs[id].status.Terminal() ==> t'.jobs[id] == t.jobs[id]
      ensures t'.jobs[id].org == t.jobs[id].org
      ensures t'.jobs[id].status in {Succeeded, Failed} && t'.jobs[id] != t.jobs[id] ==>
              r.Complete? && r.job == id && ReplyTo(t, r) == Ok
    {
      CompletedRow(flush, t, r, id);
    }
    if r.Complete? && ReplyTo(t, r) == Ok {
      CompletedRow(flush, t, r, r.job);
    }
    ResultsMirror(t, t', if r.Complete? && ReplyTo(t, r) == Ok then [ResultOf(r.job, t.jobs[r.job], r.report)] else []);
  }

  /** Adding the one result of the one completed row keeps results and statuses in step. */
  lemma ResultsMirror(t: Tables, t': Tables, added: seq<ResultRow>)
    requires ResultsAgree(t) && |added| <= 1 && t'.results == t.results + added && |t.jobs| <= |t'.jobs|
    requires forall id | 0 <= id < |t.jobs| ::
               && (t.jobs[id].status.Terminal() ==> t'.jobs[id] == t.jobs[id])
               && t'.jobs[id].org == t.jobs[id].org
               && (t'.jobs[id].status in {Succeeded, Failed} && t'.jobs[id] != t.jobs[id] ==>
                    added != [] && added[0].job == id)
    requires forall id | |t.jobs| <= id < |t'.jobs| :: t'.jobs[id].status == Queued
    requires added != [] ==>
               var a := added[0];
               a.job < |t.jobs| && t.jobs[a.job].status == Running && a.org == t.jobs[a.job].org
               && a.status in {Succeeded, Failed} && t'.jobs[a.job].status == a.status
    ensures ResultsAgree(t')
  {
    forall i | 0 <= i < |t'.results|
      ensures var x := t'.results[i];
              x.job < |t'.jobs| && x.status == t'.jobs[x.job].status && x.org == t'.jobs[x.job].org
                && x.status in {Succeeded, Failed}
    {
      if i < |t.results| {
        assert t'.results[i] == t.results[i];
      } else {
        assert t'.results[i] == added[0];
      }
    }
    forall i, k | 0 <= i < k < |t'.results| ensures t'.results[i].job != t'.results[k].job {
      assert t'.results[i] == t.results[i];
    }
    forall id | 0 <= id < |t'.jobs| && t'.jobs[id].status in {Succeeded, Failed}
      ensures exists i :: 0 <= i < |t'.results| && t'.results[i].job == id
    {
      if t.jobs[id].status in {Succeeded, Failed} {
        var i :| 0 <= i < |t.results| && t.results[i].job == id;
        assert t'.results[i].job == id;
      } else {
        assert t'.results[|t.results|].job == id;
      }
    }
  }

  /** Every request, under either reading, keeps the whole invariant. */
  lemma InvStep(flush: bool, t: Tables, r: Request)
    requires Inv(flush, t) && Truthful(flush, t, r)
    ensures Inv(flush, Apply(t, r))
  {
    RowsStep(flush, t, r);
    LogsStep(flush, t, r);
    ResultsStep(flush, t, r);
  }
}
