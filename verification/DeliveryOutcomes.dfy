/** What sending decides: one attempt on the row's own fields, and in whole runs the row as its last attempt left it. */
module DeliveryOutcomes {
  import opened Base
  import opened Notifications
  import opened Alerts
  import opened AlertFanOut
  import A = AlertRuns
  import Q = DeliveryQueue
  import D = DeliveryRuns

  // ---- One attempt ----

  /** The delivery can be tried: its alert exists, and its channel exists and is enabled. */
  predicate Tryable(x: Delivery, channels: seq<Channel>, alerts: nat) {
    x.alert < alerts && x.channel < |channels| && channels[x.channel].enabled
  }

  /** The attempt is a success: the channel is one that can be sent to, and the send reports no error. */
  predicate Succeeds(kind: ChannelType, o: Q.Outcome) { (kind == Email || kind == Webhook) && o.error == None }

  /** What an attempt made of a pending row. */
  predicate Left(x: Delivery, x': Delivery, channels: seq<Channel>, alerts: nat, setting: int, o: Q.Outcome) {
    if !Tryable(x, channels, alerts) then
      && x'.status == Skipped && x'.error == Some(Unavailable)
      && x'.attempts == x.attempts && x'.sentAt == x.sentAt
    else
      var kind := channels[x.channel].kind;
      && x'.attempts == x.attempts + 1
      && (x'.status == Sent <==> Succeeds(kind, o))
      && (Succeeds(kind, o) ==> x'.sentAt == Some(o.now) && x'.error == None)
      && (!Succeeds(kind, o) ==>
           && x'.status == (if x.attempts + 1 < setting then Pending else Failed) && x'.sentAt == x.sentAt
           && x'.error == Some(SendError(if kind == OtherType then "Unsupported notification channel type"
                                         else o.error.value)))
  }

  /** The audit row an attempt on a pending row writes. */
  predicate Noted(x: Delivery, a: Audit, id: nat, channels: seq<Channel>, alerts: nat, o: Q.Outcome) {
    && a.org == x.org
    && a.action == if !Tryable(x, channels, alerts) then SkippedAt(id)
                   else if Succeeds(channels[x.channel].kind, o) then SentAt(id, x.attempts + 1)
                   else FailedAt(id, x.attempts + 1)
  }

  /** Processing one row, on fields: a pending row is left as above and noted, and nothing else is written. */
  lemma AttemptLeaves(d: Desk, id: nat, channels: seq<Channel>, alerts: nat, setting: int, o: Q.Outcome)
    requires id < |d.deliveries|
    ensures var d', x := Q.ProcessOne(d, id, Q.Setup(channels, alerts, setting), o), d.deliveries[id];
            && d'.rules == d.rules && d'.channels == d.channels && |d'.deliveries| == |d.deliveries|
            && (forall k | 0 <= k < |d.deliveries| && k != id :: d'.deliveries[k] == d.deliveries[k])
            && SameRoute(x, d'.deliveries[id])
            && (x.status != Pending ==> d' == d)
            && (x.status == Pending ==>
                 && Left(x, d'.deliveries[id], channels, alerts, setting, o)
                 && |d'.audits| == |d.audits| + 1 && d'.audits[..|d.audits|] == d.audits
                 && Noted(x, d'.audits[|d.audits|], id, channels, alerts, o))
  {
  }

  /** Every row of a batch is left by its own outcome; rows outside the batch are not written. */
  lemma BatchLeaves(d: Desk, size: nat, batch: seq<nat>, outcomes: seq<Q.Outcome>, alerts: nat, setting: int)
    requires Q.AnswersPending(d.deliveries, size, batch) && Within(batch, |d.deliveries|) && |outcomes| == |batch|
    ensures var d' := Q.ProcessBatch(d, batch, outcomes, Q.Setup(d.channels, alerts, setting));
            && (forall p | 0 <= p < |batch| ::
                 Left(d.deliveries[batch[p]], d'.deliveries[batch[p]], d.channels, alerts, setting, outcomes[p]))
            && (forall k | 0 <= k < |d.deliveries| && k !in batch :: d'.deliveries[k] == d.deliveries[k])
  {
    hide Left, Q.Attempt;
    var s := Q.Setup(d.channels, alerts, setting);
    D.BatchRows(d, batch, outcomes, |batch|, s);
    assert batch[..|batch|] == batch;
    var d' := Q.ProcessBatch(d, batch, outcomes, s);
    forall p | 0 <= p < |batch|
      ensures Left(d.deliveries[batch[p]], d'.deliveries[batch[p]], d.channels, alerts, setting, outcomes[p])
    {
      assert d'.deliveries[batch[p]] == Q.Attempt(d.deliveries[batch[p]], s, outcomes[p]);
      OneLeaves(d.deliveries[batch[p]], s, outcomes[p]);
    }
  }

  lemma OneLeaves(x: Delivery, s: Q.Setup, o: Q.Outcome)
    requires x.status == Pending
    ensures Left(x, Q.Attempt(x, s, o), s.channels, s.alerts, s.setting, o)
  {
  }

  // ---- Whole runs ----

  /** The move processes the row, as entry p of its batch. */
  predicate Tried(m: Move, id: nat, p: nat) {
    m.OnDesk? && m.work.Batch? && p < |m.work.batch| && m.work.batch[p] == id
  }

  ghost predicate Untouched(moves: seq<Move>, from: nat, until: nat, id: nat) {
    forall x, p: nat | from <= x < until <= |moves| :: !Tried(moves[x], id, p)
  }

  /** A row nobody has processed yet: as fan-out wrote it. */
  predicate Untried(x: Delivery) {
    && x.attempts == 0 && x.sentAt == None
    && x.status == (if x.error == None then Pending else Skipped) && x.error in {None, Some(MissingOrDisabled)}
  }

  /** Move k processed the row as entry p of its batch, and left it as it still is. */
  ghost predicate LeftBy(setting: int, boards: seq<Board>, moves: seq<Move>, i: nat, id: nat, k: nat, p: nat)
    requires |boards| == |moves| + 1 && i < |boards| && id < |boards[i].desk.deliveries|
  {
    && k < i && Tried(moves[k], id, p) && Untouched(moves, k + 1, i, id)
    && id < |boards[k].desk.deliveries| && boards[k].desk.deliveries[id].status == Pending
    && p < |moves[k].work.outcomes|
    && Left(boards[k].desk.deliveries[id], boards[i].desk.deliveries[id], boards[k].desk.channels, |boards[k].alerts|,
            setting, moves[k].work.outcomes[p])
  }

  lemma {:induction false} KeysAddUntried(b: Board, v: Visit, n: nat)
    requires n <= |KEYS|
    ensures b.desk.deliveries <= EvaluateKeys(b, v, n).desk.deliveries
    ensures forall x | |b.desk.deliveries| <= x < |EvaluateKeys(b, v, n).desk.deliveries| ::
              Untried(EvaluateKeys(b, v, n).desk.deliveries[x])
  {
    hide FanOut, ResultRows, ResultEvents, ResultOf, Untried;
    if n > 0 {
      KeysAddUntried(b, v, n - 1);
      var before := EvaluateKeys(b, v, n - 1);
      var found := Find(before.rules, v.org, KEYS[n - 1]);
      if found.Some? {
        var rule := before.rules[found.value];
        FanOutUntried(before.desk, NewAlert(|before.alerts|, v.org, rule.severity, rule.key), v.now);
      }
    }
  }

  lemma FanOutUntried(d: Desk, a: NewAlert, now: Time)
    ensures forall p | 0 <= p < |FanOut(d, a, now)| :: Untried(FanOut(d, a, now)[p])
  {
    hide FanOut, Wants;
    var owners := FanOutIsOwned(d, a, now);
  }

  /** One move, on one row. */
  lemma MoveLeaves(setting: int, b: Board, m: Move, b': Board, id: nat)
    requires Happens(setting, b, m, b') && id < |b'.desk.deliveries|
    ensures id >= |b.desk.deliveries| ==> Untried(b'.desk.deliveries[id]) && forall p: nat :: !Tried(m, id, p)
    ensures id < |b.desk.deliveries| && (forall p: nat :: !Tried(m, id, p)) ==>
              b'.desk.deliveries[id] == b.desk.deliveries[id]
    ensures id < |b.desk.deliveries| ==> forall p: nat | Tried(m, id, p) ::
              && b.desk.deliveries[id].status == Pending && p < |m.work.outcomes|
              && Left(b.desk.deliveries[id], b'.desk.deliveries[id], b.desk.channels, |b.alerts|, setting,
                      m.work.outcomes[p])
  {
    hide EvaluateKeys, Q.ProcessBatch, Left, Untried, Ensured;
    match m
    case OnAlerts(step) =>
      if step.Evaluation? {
        KeysAddUntried(A.WithRules(b, step.visit), step.visit, |KEYS|);
      }
    case OnDesk(work) =>
      if work.Batch? {
        BatchLeaves(b.desk, work.size, work.batch, work.outcomes, work.alerts, setting);
        if id in work.batch {
          var p :| 0 <= p < |work.batch| && work.batch[p] == id;
          assert Tried(m, id, p);
        }
      }
  }

  /**
   * In every reachable state every delivery is as its last attempt left it: sent exactly when that attempt went to
   * a mail or webhook channel and reported no error, at the time of the attempt, and otherwise with that attempt's
   * error, skipped, failed or pending again; or, never attempted, it is as fan-out wrote it.
   */
  lemma {:induction false} RowIsItsLastAttempt(setting: int, boards: seq<Board>, moves: seq<Move>, i: nat, id: nat)
    returns (last: Option<(nat, nat)>)
    requires Run(setting, boards, moves) && i < |boards| && id < |boards[i].desk.deliveries|
    ensures match last
            case None => Untouched(moves, 0, i, id) && Untried(boards[i].desk.deliveries[id])
            case Some((k, p)) => LeftBy(setting, boards, moves, i, id, k, p)
  {
    hide Happens, Tried, Left, Untried;
    if i == 0 {
      assert false;
    } else {
      var b, m, b' := boards[i - 1], moves[i - 1], boards[i];
      assert Happens(setting, b, m, b');
      MoveLeaves(setting, b, m, b', id);
      if p: nat :| Tried(m, id, p) {
        last := Some((i - 1, p));
        TriedExists(setting, b, m, b', id, p);
      } else if id < |b.desk.deliveries| {
        last := RowIsItsLastAttempt(setting, boards, moves, i - 1, id);
      } else {
        last := None;
        NotBefore(setting, boards, moves, i - 1, id);
      }
    }
  }

  lemma TriedExists(setting: int, b: Board, m: Move, b': Board, id: nat, p: nat)
    requires Happens(setting, b, m, b') && Tried(m, id, p)
    ensures id < |b.desk.deliveries|
  {
    hide Q.AnswersPending, D.Apply;
  }

  /** A row is not processed before it exists. */
  lemma {:induction false} NotBefore(setting: int, boards: seq<Board>, moves: seq<Move>, i: nat, id: nat)
    requires Run(setting, boards, moves) && i < |boards| && id >= |boards[i].desk.deliveries|
    ensures Untouched(moves, 0, i, id)
  {
    hide Happens, Tried;
    if i > 0 {
      assert Happens(setting, boards[i - 1], moves[i - 1], boards[i]);
      RowsStay(setting, boards[i - 1], moves[i - 1], boards[i]);
      NotBefore(setting, boards, moves, i - 1, id);
      var m := moves[i - 1];
      if p: nat :| Tried(m, id, p) {
        TriedExists(setting, boards[i - 1], m, boards[i], id, p);
      }
    }
  }

  lemma RowsStay(setting: int, b: Board, m: Move, b': Board)
    requires Happens(setting, b, m, b')
    ensures |b.desk.deliveries| <= |b'.desk.deliveries|
  {
    hide EvaluateKeys, Ensured, Q.ProcessSome, Q.AnswersPending;
    if m.OnAlerts? && m.step.Evaluation? {
      KeysAppend(A.WithRules(b, m.step.visit), m.step.visit, |KEYS|);
    }
  }

  // ---- Notices ----

  /** The organizations and alerts of the enqueue audits, in order. */
  function Notices(audits: seq<Audit>): seq<(nat, nat)> {
    if audits == [] then []
    else
      var last, before := audits[|audits| - 1], Notices(audits[..|audits| - 1]);
      if last.action.EnqueuedFor? then before + [(last.org, last.action.alert)] else before
  }

  function Owed(rows: seq<Delivery>): (r: seq<(nat, nat)>)
    ensures |r| == |rows|
  {
    seq(|rows|, i requires 0 <= i < |rows| => (rows[i].org, rows[i].alert))
  }

  lemma NoticesSnoc(audits: seq<Audit>, a: Audit)
    ensures Notices(audits + [a])
         == Notices(audits) + if a.action.EnqueuedFor? then [(a.org, a.action.alert)] else []
  {
    assert (audits + [a])[..|audits|] == audits;
  }

  /** The pair, n times. */
  function Times(n: nat, x: (nat, nat)): (r: seq<(nat, nat)>)
    ensures |r| == n
  {
    seq(n, i requires 0 <= i < n => x)
  }

  lemma OneMore(audits: seq<Audit>, a: NewAlert, n: nat)
    requires n > 0
    ensures audits + EnqueueAudits(a, n) == audits + EnqueueAudits(a, n - 1) + [Audit(a.org, EnqueuedFor(a.id))]
    ensures Times(n, (a.org, a.id)) == Times(n - 1, (a.org, a.id)) + [(a.org, a.id)]
  {
  }

  lemma {:induction false} NoticesOf(audits: seq<Audit>, a: NewAlert, n: nat)
    ensures Notices(audits + EnqueueAudits(a, n)) == Notices(audits) + Times(n, (a.org, a.id))
  {
    hide Notices, Times, EnqueueAudits;
    if n == 0 {
      assert EnqueueAudits(a, 0) == [] && audits + [] == audits by {
        NoAudits(a);
      }
    } else {
      NoticesOf(audits, a, n - 1);
      OneMore(audits, a, n);
      NoticesSnoc(audits + EnqueueAudits(a, n - 1), Audit(a.org, EnqueuedFor(a.id)));
    }
  }

  lemma NoAudits(a: NewAlert)
    ensures EnqueueAudits(a, 0) == []
  {
  }

  lemma EnqueueNotices(d: Desk, a: NewAlert, now: Time)
    requires Notices(d.audits) == Owed(d.deliveries)
    ensures Notices(Enqueued(d, a, now).audits) == Owed(Enqueued(d, a, now).deliveries)
  {
    FanOutRows(d, a, now);
    var more := FanOut(d, a, now);
    NoticesOf(d.audits, a, |more|);
    assert Owed(d.deliveries + more) == Owed(d.deliveries) + Times(|more|, (a.org, a.id));
  }

  lemma {:induction false} KeysNotices(b: Board, v: Visit, n: nat)
    requires n <= |KEYS| && Notices(b.desk.audits) == Owed(b.desk.deliveries)
    ensures var d := EvaluateKeys(b, v, n).desk; Notices(d.audits) == Owed(d.deliveries)
  {
    hide Enqueued, ResultRows, ResultEvents, ResultOf, Notices, Owed;
    if n > 0 {
      KeysNotices(b, v, n - 1);
      var before := EvaluateKeys(b, v, n - 1);
      var found := Find(before.rules, v.org, KEYS[n - 1]);
      if found.Some? {
        var rule := before.rules[found.value];
        EnqueueNotices(before.desk, NewAlert(|before.alerts|, v.org, rule.severity, rule.key), v.now);
      }
    }
  }

  lemma {:induction false} BatchNotices(d: Desk, batch: seq<nat>, outcomes: seq<Q.Outcome>, n: nat, s: Q.Setup)
    requires Within(batch, |d.deliveries|) && n <= |batch| == |outcomes|
    requires Notices(d.audits) == Owed(d.deliveries)
    ensures var r := Q.ProcessSome(d, batch, outcomes, n, s); Notices(r.audits) == Owed(r.deliveries)
  {
    hide Notices, Q.AttemptAudit, Q.Attempt;
    if n > 0 {
      BatchNotices(d, batch, outcomes, n - 1, s);
      AttemptNotices(Q.ProcessSome(d, batch, outcomes, n - 1, s), batch[n - 1], s, outcomes[n - 1]);
    }
  }

  lemma AttemptNotices(d: Desk, id: nat, s: Q.Setup, o: Q.Outcome)
    requires id < |d.deliveries| && Notices(d.audits) == Owed(d.deliveries)
    ensures var r := Q.ProcessOne(d, id, s, o); Notices(r.audits) == Owed(r.deliveries)
  {
    hide Notices;
    var r := Q.ProcessOne(d, id, s, o);
    AttemptLeaves(d, id, s.channels, s.alerts, s.setting, o);
    if d.deliveries[id].status == Pending {
      NoticesSnoc(d.audits, r.audits[|d.audits|]);
      assert r.audits == d.audits + [r.audits[|d.audits|]];
    }
    assert Owed(r.deliveries) == Owed(d.deliveries);
  }

  /** In every reachable state the enqueue audits are the deliveries, one for one and in order. */
  lemma {:induction false} EveryDeliveryIsNoted(setting: int, boards: seq<Board>, moves: seq<Move>, i: nat)
    requires Run(setting, boards, moves) && i < |boards|
    ensures Notices(boards[i].desk.audits) == Owed(boards[i].desk.deliveries)
  {
    hide Happens;
    if i > 0 {
      hide Notices, Owed;
      EveryDeliveryIsNoted(setting, boards, moves, i - 1);
      NoticesKept(setting, boards[i - 1], moves[i - 1], boards[i]);
    }
  }

  lemma NoticesKept(setting: int, b: Board, m: Move, b': Board)
    requires Happens(setting, b, m, b') && Notices(b.desk.audits) == Owed(b.desk.deliveries)
    ensures Notices(b'.desk.audits) == Owed(b'.desk.deliveries)
  {
    hide Notices, Owed, EvaluateKeys, Ensured, Q.ProcessSome, Q.AnswersPending;
    match m
    case OnAlerts(step) =>
      if step.Evaluation? {
        KeysNotices(A.WithRules(b, step.visit), step.visit, |KEYS|);
      }
    case OnDesk(work) =>
      if work.Batch? {
        BatchNotices(b.desk, work.batch, work.outcomes, |work.batch|, Q.Setup(b.desk.channels, work.alerts, setting));
      }
  }
}
