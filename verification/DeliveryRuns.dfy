/** The delivery queue over whole runs: accounting of attempts, absorbing statuses, and drain bounds. */
module DeliveryRuns {
  import opened Base
  import opened Notifications
  import opened DeliveryQueue

  datatype Step =
    | Enqueue(alert: NewAlert, now: Time)
    | Batch(size: nat, batch: seq<nat>, outcomes: seq<Outcome>, alerts: nat)
    | Configure(rules: seq<Rule>, channels: seq<Channel>)

  predicate Allowed(d: Desk, s: Step) {
    s.Batch? ==>
      AnswersPending(d.deliveries, s.size, s.batch) && Within(s.batch, |d.deliveries|) && |s.outcomes| == |s.batch|
  }

  function Apply(d: Desk, s: Step, setting: int): (r: Desk)
    requires Allowed(d, s)
    ensures |d.deliveries| <= |r.deliveries|
  {
    match s
    case Enqueue(a, now) => Enqueued(d, a, now)
    case Batch(_, batch, outcomes, alerts) => ProcessBatch(d, batch, outcomes, Setup(d.channels, alerts, setting))
    case Configure(rules, channels) => d.(rules := rules, channels := channels)
  }

  ghost predicate Run(setting: int, desks: seq<Desk>, steps: seq<Step>) {
    && |desks| == |steps| + 1
    && desks[0].deliveries == [] && desks[0].audits == []
    && forall i | 0 <= i < |steps| :: Happens(setting, desks[i], steps[i], desks[i + 1])
  }

  ghost predicate Happens(setting: int, d: Desk, s: Step, d': Desk) { Allowed(d, s) && d' == Apply(d, s, setting) }

  // ---- Accounting ----

  /** Attempts the audit log records for a delivery, and how many of them succeeded. */
  function Tries(audits: seq<Audit>, id: nat): nat {
    if audits == [] then 0
    else Tries(audits[..|audits| - 1], id) + (if IsTry(audits[|audits| - 1], id) then 1 else 0)
  }

  function Sends(audits: seq<Audit>, id: nat): nat {
    if audits == [] then 0
    else
      var last := audits[|audits| - 1].action;
      Sends(audits[..|audits| - 1], id) + (if last.SentAt? && last.delivery == id then 1 else 0)
  }

  predicate IsTry(a: Audit, id: nat) { (a.action.SentAt? || a.action.FailedAt?) && a.action.delivery == id }

  /** The row says what the log says, and respects the retry limit. */
  predicate RowAccounts(x: Delivery, tries: nat, sends: nat, setting: int) {
    && x.attempts == tries
    && sends == (if x.status == Sent then 1 else 0)
    && (x.status in {Pending, Skipped} ==> x.attempts < Limit(setting))
    && (x.status == Failed ==> x.attempts == Limit(setting))
    && (x.status == Sent ==> 1 <= x.attempts <= Limit(setting))
    && (x.sentAt.Some? <==> x.status == Sent)
    && (x.error.None? <==> x.status == Sent || (x.status == Pending && x.attempts == 0))
  }

  ghost predicate Accounts(d: Desk, setting: int) {
    && (forall id | 0 <= id < |d.deliveries| ::
         RowAccounts(d.deliveries[id], Tries(d.audits, id), Sends(d.audits, id), setting))
    && (forall id: nat | id >= |d.deliveries| :: Tries(d.audits, id) == 0 && Sends(d.audits, id) == 0)
  }

  lemma CountSnoc(audits: seq<Audit>, a: Audit, id: nat)
    ensures Tries(audits + [a], id) == Tries(audits, id) + if IsTry(a, id) then 1 else 0
    ensures Sends(audits + [a], id) == Sends(audits, id) + if a.action.SentAt? && a.action.delivery == id then 1 else 0
  {
    assert (audits + [a])[..|audits|] == audits;
  }

  lemma {:induction false} CountEnqueue(audits: seq<Audit>, more: seq<Audit>, id: nat)
    requires forall i | 0 <= i < |more| :: more[i].action.EnqueuedFor?
    ensures Tries(audits + more, id) == Tries(audits, id) && Sends(audits + more, id) == Sends(audits, id)
  {
    if more == [] {
      assert audits + more == audits;
    } else {
      CountEnqueue(audits, more[..|more| - 1], id);
      CountSnoc(audits + more[..|more| - 1], more[|more| - 1], id);
      assert audits + more == audits + more[..|more| - 1] + [more[|more| - 1]];
    }
  }

  /** What an attempt adds to the counts of a row. */
  lemma AttemptCounted(d: Desk, id: nat, s: Setup, o: Outcome, k: nat)
    requires id < |d.deliveries|
    ensures var x, d' := d.deliveries[id], ProcessOne(d, id, s, o);
            var tried := k == id && x.status == Pending && Deliverable(x, s);
            && Tries(d'.audits, k) == Tries(d.audits, k) + (if tried then 1 else 0)
            && Sends(d'.audits, k) == Sends(d.audits, k) + (if tried && SendResult(x, s, o).None? then 1 else 0)
  {
    var more := AttemptAudit(id, d.deliveries[id], s, o);
    if more == [] {
      assert d.audits + more == d.audits;
    } else {
      assert more == [more[0]];
      CountSnoc(d.audits, more[0], k);
    }
  }

  lemma RowAttempted(x: Delivery, s: Setup, o: Outcome, tries: nat, sends: nat)
    requires RowAccounts(x, tries, sends, s.setting)
    ensures var tried := x.status == Pending && Deliverable(x, s);
            RowAccounts(Attempt(x, s, o), tries + (if tried then 1 else 0),
                        sends + (if tried && SendResult(x, s, o).None? then 1 else 0), s.setting)
  {
  }

  /** One processed row keeps the accounts of every row. */
  lemma OneAccounts(d: Desk, id: nat, s: Setup, o: Outcome)
    requires Accounts(d, s.setting) && id < |d.deliveries|
    ensures Accounts(ProcessOne(d, id, s, o), s.setting)
  {
    hide Tries, Sends, Attempt, AttemptAudit, RowAccounts, SendResult, Deliverable;
    var d' := ProcessOne(d, id, s, o);
    forall k: nat
      ensures k < |d'.deliveries| ==> RowAccounts(d'.deliveries[k], Tries(d'.audits, k), Sends(d'.audits, k), s.setting)
      ensures k >= |d'.deliveries| ==> Tries(d'.audits, k) == 0 && Sends(d'.audits, k) == 0
    {
      AttemptCounted(d, id, s, o, k);
      if k == id {
        RowAttempted(d.deliveries[id], s, o, Tries(d.audits, id), Sends(d.audits, id));
      }
    }
  }

  lemma {:induction false} SomeAccounts(d: Desk, batch: seq<nat>, outcomes: seq<Outcome>, n: nat, s: Setup)
    requires Accounts(d, s.setting) && Within(batch, |d.deliveries|) && n <= |batch| == |outcomes|
    ensures Accounts(ProcessSome(d, batch, outcomes, n, s), s.setting)
  {
    hide Accounts, ProcessOne;
    if n > 0 {
      SomeAccounts(d, batch, outcomes, n - 1, s);
      OneAccounts(ProcessSome(d, batch, outcomes, n - 1, s), batch[n - 1], s, outcomes[n - 1]);
    }
  }

  lemma EnqueueAccounts(d: Desk, a: NewAlert, now: Time, setting: int)
    requires Accounts(d, setting)
    ensures Accounts(Enqueued(d, a, now), setting)
  {
    FanOutRows(d, a, now);
    NewRowsHaveNotes(d, a, now);
    var more := FanOut(d, a, now);
    forall id: nat
      ensures Tries(d.audits + EnqueueAudits(a, |more|), id) == Tries(d.audits, id)
      ensures Sends(d.audits + EnqueueAudits(a, |more|), id) == Sends(d.audits, id)
    {
      CountEnqueue(d.audits, EnqueueAudits(a, |more|), id);
    }
    hide FanOut;
  }

  lemma NewRowsHaveNotes(d: Desk, a: NewAlert, now: Time)
    ensures forall p | 0 <= p < |FanOut(d, a, now)| ::
              FanOut(d, a, now)[p].error.None? <==> FanOut(d, a, now)[p].status == Pending
  {
    forall p | 0 <= p < |FanOut(d, a, now)|
      ensures FanOut(d, a, now)[p].error.None? <==> FanOut(d, a, now)[p].status == Pending
    {
      var i, k := DeliveryHasSlot(d, a, p, now);
    }
  }

  lemma StepAccounts(setting: int, d: Desk, s: Step, d': Desk)
    requires Happens(setting, d, s, d') && Accounts(d, setting)
    ensures Accounts(d', setting)
  {
    hide AnswersPending, ProcessSome;
    match s
    case Enqueue(a, now) => EnqueueAccounts(d, a, now, setting);
    case Batch(_, batch, outcomes, alerts) =>
      SomeAccounts(d, batch, outcomes, |batch|, Setup(d.channels, alerts, setting));
    case Configure(_, _) =>
  }

  /**
   * In every state of every run, with any retry setting, each delivery's attempts are the attempts the
   * audit log records, a pending delivery has attempts left, a failed one has used exactly the limit, and
   * a sent one carries one recorded success and a sending time.
   */
  lemma {:induction false} AttemptsAreAccounted(setting: int, desks: seq<Desk>, steps: seq<Step>, i: nat)
    requires Run(setting, desks, steps) && i < |desks|
    ensures Accounts(desks[i], setting)
  {
    hide Happens;
    if i == 0 {
      assert desks[0].deliveries == [];
    } else {
      AttemptsAreAccounted(setting, desks, steps, i - 1);
      StepAccounts(setting, desks[i - 1], steps[i - 1], desks[i]);
    }
  }

  // ---- What a batch does to rows ----

  lemma {:induction false} BatchRows(d: Desk, batch: seq<nat>, outcomes: seq<Outcome>, n: nat, s: Setup)
    requires Distinct(batch) && Within(batch, |d.deliveries|) && n <= |batch| == |outcomes|
    ensures var r := ProcessSome(d, batch, outcomes, n, s);
            && (forall i | 0 <= i < n :: r.deliveries[batch[i]] == Attempt(d.deliveries[batch[i]], s, outcomes[i]))
            && (forall k | 0 <= k < |d.deliveries| && k !in batch[..n] :: r.deliveries[k] == d.deliveries[k])
  {
    hide Attempt;
    if n > 0 {
      BatchRows(d, batch, outcomes, n - 1, s);
      assert batch[..n] == batch[..n - 1] + [batch[n - 1]];
      assert batch[n - 1] !in batch[..n - 1];
    }
  }

  /** A row the batch holds advances by one attempt or leaves the queue; every other row is untouched. */
  predicate Advances(x: Delivery, x': Delivery) {
    && x'.createdAt == x.createdAt
    && (x.status != Pending ==> x' == x)
    && (x.status == Pending && x'.status == Pending ==> x'.attempts == x.attempts + 1)
  }

  lemma BatchAdvances(d: Desk, batch: seq<nat>, outcomes: seq<Outcome>, s: Setup)
    requires Distinct(batch) && Within(batch, |d.deliveries|) && |batch| == |outcomes|
    ensures var r := ProcessBatch(d, batch, outcomes, s);
            && (forall k | 0 <= k < |d.deliveries| && k in batch :: Advances(d.deliveries[k], r.deliveries[k]))
            && (forall k | 0 <= k < |d.deliveries| && k !in batch :: r.deliveries[k] == d.deliveries[k])
  {
    BatchRows(d, batch, outcomes, |batch|, s);
    assert batch[..|batch|] == batch;
    var r := ProcessBatch(d, batch, outcomes, s);
    forall k | 0 <= k < |d.deliveries| && k in batch ensures Advances(d.deliveries[k], r.deliveries[k]) {
      var i :| 0 <= i < |batch| && batch[i] == k;
      assert r.deliveries[batch[i]] == Attempt(d.deliveries[batch[i]], s, outcomes[i]);
    }
  }

  lemma StepFreezes(setting: int, d: Desk, s: Step, d': Desk, id: nat)
    requires Happens(setting, d, s, d') && id < |d.deliveries| && d.deliveries[id].status != Pending
    ensures id < |d'.deliveries| && d'.deliveries[id] == d.deliveries[id]
  {
    if s.Batch? {
      BatchAdvances(d, s.batch, s.outcomes, Setup(d.channels, s.alerts, setting));
    }
  }

  /** Sent, failed and skipped are absorbing: such a row is never written again. */
  lemma {:induction false} SettledForever(setting: int, desks: seq<Desk>, steps: seq<Step>, i: nat, k: nat, id: nat)
    requires Run(setting, desks, steps) && i <= k < |desks|
    requires id < |desks[i].deliveries| && desks[i].deliveries[id].status != Pending
    ensures id < |desks[k].deliveries| && desks[k].deliveries[id] == desks[i].deliveries[id]
    decreases k
  {
    hide Happens;
    if i < k {
      SettledForever(setting, desks, steps, i, k - 1, id);
      StepFreezes(setting, desks[k - 1], steps[k - 1], desks[k], id);
    }
  }
}
