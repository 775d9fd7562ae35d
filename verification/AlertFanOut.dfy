/** Alerts and the delivery queue together: what is enqueued for an alert, and by whom it may be read. */
module AlertFanOut {
  import opened Base
  import opened Notifications
  import opened Alerts
  import AlertHistory
  import A = AlertRuns
  import Q = DeliveryQueue
  import D = DeliveryRuns

  // ---- Deliveries of one alert ----

  function DeliveriesFor(rows: seq<Delivery>, alert: nat): seq<Delivery> {
    if rows == [] then []
    else
      var last := |rows| - 1;
      var before := DeliveriesFor(rows[..last], alert);
      if rows[last].alert == alert then before + [rows[last]] else before
  }

  lemma {:induction false} DeliveriesConcat(rows: seq<Delivery>, more: seq<Delivery>, alert: nat)
    ensures DeliveriesFor(rows + more, alert) == DeliveriesFor(rows, alert) + DeliveriesFor(more, alert)
  {
    if more == [] {
      assert rows + more == rows;
    } else {
      var last := |more| - 1;
      DeliveriesConcat(rows, more[..last], alert);
      assert (rows + more)[..|rows + more| - 1] == rows + more[..last];
    }
  }

  lemma {:induction false} AllFor(rows: seq<Delivery>, alert: nat, other: nat)
    requires forall i | 0 <= i < |rows| :: rows[i].alert == alert
    ensures DeliveriesFor(rows, other) == if other == alert then rows else []
  {
    if rows != [] {
      AllFor(rows[..|rows| - 1], alert, other);
    }
  }

  lemma {:induction false} NoneFor(rows: seq<Delivery>, alert: nat)
    requires forall i | 0 <= i < |rows| :: rows[i].alert != alert
    ensures DeliveriesFor(rows, alert) == []
  {
    if rows != [] {
      NoneFor(rows[..|rows| - 1], alert);
    }
  }

  /** Every delivery is for an alert that exists. */
  predicate Known(rows: seq<Delivery>, alerts: nat) { forall i | 0 <= i < |rows| :: rows[i].alert < alerts }

  lemma EnqueuedFor(d: Desk, a: NewAlert, now: Time, alert: nat)
    requires Known(d.deliveries, a.id)
    ensures Known(Enqueued(d, a, now).deliveries, a.id + 1)
    ensures DeliveriesFor(Enqueued(d, a, now).deliveries, alert)
         == if alert == a.id then FanOut(d, a, now) else DeliveriesFor(d.deliveries, alert)
  {
    FanOutRows(d, a, now);
    hide FanOut;
    DeliveriesConcat(d.deliveries, FanOut(d, a, now), alert);
    AllFor(FanOut(d, a, now), a.id, alert);
    if alert == a.id {
      NoneFor(d.deliveries, alert);
    }
  }

  // ---- An evaluation enqueues each new alert's fan-out, and nothing else ----

  /** What fan-out reads of alert `id`. */
  function NoticeOf(b: Board, id: nat): NewAlert
    requires id < |b.alerts| && b.alerts[id].rule < |b.rules|
  {
    var rule := b.rules[b.alerts[id].rule];
    NewAlert(id, rule.org, rule.severity, rule.key)
  }

  ghost predicate OnlyNewFannedOut(b: Board, b': Board, now: Time) {
    && |b.alerts| <= |b'.alerts| && b'.desk.rules == b.desk.rules && b'.desk.channels == b.desk.channels
    && Known(b'.desk.deliveries, |b'.alerts|)
    && (forall id: nat | id < |b.alerts| ::
         DeliveriesFor(b'.desk.deliveries, id) == DeliveriesFor(b.desk.deliveries, id))
    && (forall id: nat | |b.alerts| <= id < |b'.alerts| ::
          && b'.alerts[id].rule < |b'.rules|
          && DeliveriesFor(b'.desk.deliveries, id) == FanOut(b.desk, NoticeOf(b', id), now))
  }

  lemma FanOutReads(d: Desk, d': Desk, a: NewAlert, now: Time)
    requires d'.rules == d.rules && d'.channels == d.channels
    ensures FanOut(d', a, now) == FanOut(d, a, now)
  {
  }

  lemma KeyFansOut(b0: Board, b: Board, v: Visit, key: Key)
    requires OnlyNewFannedOut(b0, b, v.now)
    ensures OnlyNewFannedOut(b0, EvaluateKey(b, v, key), v.now)
  {
    hide ResultEvents, ResultOf, FanOut, DeliveriesFor, Enqueued;
    var b', found := EvaluateKey(b, v, key), Find(b.rules, v.org, key);
    if found.Some? && b.rules[found.value].enabled {
      var rule, r := found.value, ResultOf(b.rules, v, found.value);
      RowsFrame(b, v, rule, r);
      if r.active && OpenAlert(b.alerts, v.device, rule).None? {
        var a := NewAlert(|b.alerts|, v.org, b.rules[rule].severity, b.rules[rule].key);
        forall id: nat ensures DeliveriesFor(b'.desk.deliveries, id)
                            == if id == a.id then FanOut(b.desk, a, v.now) else DeliveriesFor(b.desk.deliveries, id) {
          EnqueuedFor(b.desk, a, v.now, id);
        }
        EnqueuedFor(b.desk, a, v.now, 0);
        EnqueuedKeeps(b.desk, a, v.now);
        FanOutReads(b0.desk, b.desk, a, v.now);
      }
    }
  }

  lemma EnqueuedKeeps(d: Desk, a: NewAlert, now: Time)
    ensures Enqueued(d, a, now).rules == d.rules && Enqueued(d, a, now).channels == d.channels
  {
  }

  lemma RowsFrame(b: Board, v: Visit, rule: nat, r: RuleResult)
    requires rule < |b.rules|
    ensures var rows := ResultRows(b.alerts, v.org, v.device, rule, b.rules[rule].severity, r, v.now);
            && |b.alerts| <= |rows| && (forall i | 0 <= i < |b.alerts| :: rows[i].rule == b.alerts[i].rule)
            && |rows| == |b.alerts| + (if r.active && OpenAlert(b.alerts, v.device, rule).None? then 1 else 0)
            && forall i | |b.alerts| <= i < |rows| :: rows[i].rule == rule
  {
  }

  lemma {:induction false} KeysFanOut(b: Board, v: Visit, n: nat)
    requires Known(b.desk.deliveries, |b.alerts|) && n <= |KEYS|
    ensures OnlyNewFannedOut(b, EvaluateKeys(b, v, n), v.now)
  {
    hide EvaluateKey, FanOut, DeliveriesFor, OnlyNewFannedOut;
    if n > 0 {
      KeysFanOut(b, v, n - 1);
      KeyFansOut(b, EvaluateKeys(b, v, n - 1), v, KEYS[n - 1]);
    } else {
      NothingFannedOut(b, v.now);
    }
  }

  lemma NothingFannedOut(b: Board, now: Time)
    requires Known(b.desk.deliveries, |b.alerts|)
    ensures OnlyNewFannedOut(b, b, now)
  {
  }

  lemma EvaluationFansOut(b: Board, v: Visit)
    requires Known(b.desk.deliveries, |b.alerts|)
    ensures OnlyNewFannedOut(b, Evaluate(b, v), v.now)
  {
    hide EvaluateKey, FanOut, DeliveriesFor;
    KeysFanOut(A.WithRules(b, v), v, |KEYS|);
  }

  // ---- Processing keeps every delivery's route ----

  /** The same deliveries, attempt by attempt: processing never changes what a row is for. */
  predicate SameRoute(x: Delivery, x': Delivery) {
    x'.org == x.org && x'.alert == x.alert && x'.channel == x.channel && x'.createdAt == x.createdAt
  }

  predicate SameRoutes(rows: seq<Delivery>, rows': seq<Delivery>) {
    |rows| == |rows'| && forall i | 0 <= i < |rows| :: SameRoute(rows[i], rows'[i])
  }

  lemma {:induction false} BatchRoutes(d: Desk, batch: seq<nat>, outcomes: seq<Q.Outcome>, n: nat, s: Q.Setup)
    requires Within(batch, |d.deliveries|) && n <= |batch| == |outcomes|
    ensures SameRoutes(d.deliveries, Q.ProcessSome(d, batch, outcomes, n, s).deliveries)
  {
    if n > 0 {
      BatchRoutes(d, batch, outcomes, n - 1, s);
    }
  }

  lemma {:induction false} RoutesFor(rows: seq<Delivery>, rows': seq<Delivery>, alert: nat)
    requires SameRoutes(rows, rows')
    ensures SameRoutes(DeliveriesFor(rows, alert), DeliveriesFor(rows', alert))
  {
    if rows != [] {
      RoutesFor(rows[..|rows| - 1], rows'[..|rows| - 1], alert);
    }
  }

  // ---- Runs of both machines ----

  datatype Move = OnAlerts(step: A.Step) | OnDesk(work: D.Step)

  /** Administration never moves a channel to another organization, and channels are never deleted. */
  predicate KeepsChannels(channels: seq<Channel>, channels': seq<Channel>) {
    |channels| <= |channels'| && forall i | 0 <= i < |channels| :: channels'[i].org == channels[i].org
  }

  predicate Allowed(b: Board, m: Move) {
    match m
    case OnAlerts(step) => A.Allowed(b, step)
    case OnDesk(work) =>
      && !work.Enqueue? && D.Allowed(b.desk, work)
      && (work.Batch? ==> work.alerts == |b.alerts|)
      && (work.Configure? ==> KeepsChannels(b.desk.channels, work.channels))
  }

  function After(b: Board, m: Move, setting: int): Board
    requires Allowed(b, m)
  {
    match m
    case OnAlerts(step) => A.Apply(b, step)
    case OnDesk(work) => b.(desk := D.Apply(b.desk, work, setting))
  }

  ghost predicate Happens(setting: int, b: Board, m: Move, b': Board) { Allowed(b, m) && b' == After(b, m, setting) }

  ghost predicate Run(setting: int, boards: seq<Board>, moves: seq<Move>) {
    && |boards| == |moves| + 1
    && boards[0] == Board([], [], [], Desk(boards[0].desk.rules, boards[0].desk.channels, [], []), [])
    && forall i | 0 <= i < |moves| :: Happens(setting, boards[i], moves[i], boards[i + 1])
  }

  lemma MoveKeepsKnown(setting: int, b: Board, m: Move, b': Board)
    requires Happens(setting, b, m, b') && Known(b.desk.deliveries, |b.alerts|)
    ensures Known(b'.desk.deliveries, |b'.alerts|) && |b.alerts| <= |b'.alerts|
    ensures forall id: nat | id < |b.alerts| ::
              SameRoutes(DeliveriesFor(b.desk.deliveries, id), DeliveriesFor(b'.desk.deliveries, id))
  {
    hide Evaluate, DeliveriesFor, FanOut, Enqueued;
    match m
    case OnAlerts(step) =>
      if step.Evaluation? {
        EvaluationFansOut(b, step.visit);
      }
    case OnDesk(work) =>
      if work.Batch? {
        BatchRoutes(b.desk, work.batch, work.outcomes, |work.batch|, Q.Setup(b.desk.channels, work.alerts, setting));
      }
      forall id: nat | id < |b.alerts|
        ensures SameRoutes(DeliveriesFor(b.desk.deliveries, id), DeliveriesFor(b'.desk.deliveries, id))
      {
        RoutesFor(b.desk.deliveries, b'.desk.deliveries, id);
      }
  }

  lemma {:induction false} AlwaysKnown(setting: int, boards: seq<Board>, moves: seq<Move>, i: nat)
    requires Run(setting, boards, moves) && i < |boards|
    ensures Known(boards[i].desk.deliveries, |boards[i].alerts|)
  {
    hide Happens;
    if i > 0 {
      AlwaysKnown(setting, boards, moves, i - 1);
      MoveKeepsKnown(setting, boards[i - 1], moves[i - 1], boards[i]);
    }
  }

  /** Once an alert exists, no run ever adds, drops or redirects one of its deliveries. */
  lemma {:induction false} DeliveriesAreFixed(setting: int, boards: seq<Board>, moves: seq<Move>, i: nat, k: nat,
      id: nat)
    requires Run(setting, boards, moves) && i <= k < |boards| && id < |boards[i].alerts|
    ensures id < |boards[k].alerts|
    ensures SameRoutes(DeliveriesFor(boards[i].desk.deliveries, id), DeliveriesFor(boards[k].desk.deliveries, id))
    decreases k
  {
    hide Happens, DeliveriesFor;
    if i < k {
      DeliveriesAreFixed(setting, boards, moves, i, k - 1, id);
      AlwaysKnown(setting, boards, moves, k - 1);
      MoveKeepsKnown(setting, boards[k - 1], moves[k - 1], boards[k]);
    }
  }

  /**
   * Fan-out happens once: the deliveries an alert has at any later time are, row for row, the fan-out
   * of the evaluation that created it, computed from the rules and channels of that moment.
   */
  lemma FannedOutOnce(setting: int, boards: seq<Board>, moves: seq<Move>, i: nat, k: nat, id: nat)
    requires Run(setting, boards, moves) && i < k < |boards|
    requires |boards[i].alerts| <= id < |boards[i + 1].alerts|
    ensures moves[i].OnAlerts? && moves[i].step.Evaluation?
    ensures id < |boards[k].alerts| && boards[i + 1].alerts[id].rule < |boards[i + 1].rules|
    ensures SameRoutes(FanOut(boards[i].desk, NoticeOf(boards[i + 1], id), moves[i].step.visit.now),
            DeliveriesFor(boards[k].desk.deliveries, id))
  {
    assert Happens(setting, boards[i], moves[i], boards[i + 1]);
    hide Evaluate, FanOut, DeliveriesFor, Q.ProcessBatch;
    AlwaysKnown(setting, boards, moves, i);
    assert moves[i].OnAlerts? && moves[i].step.Evaluation?;
    EvaluationFansOut(boards[i], moves[i].step.visit);
    DeliveriesAreFixed(setting, boards, moves, i + 1, k, id);
  }

  // ---- The coupled runs keep what each machine keeps alone ----

  /** Every move is a step of the alert tables or leaves them alone. */
  function StepOf(m: Move): Option<A.Step> { if m.OnAlerts? then Some(m.step) else None }

  lemma ProjectsToAlerts(setting: int, boards: seq<Board>, moves: seq<Move>)
    requires Run(setting, boards, moves)
    ensures A.Run(boards, seq(|moves|, i requires 0 <= i < |moves| => StepOf(moves[i])))
  {
    hide Evaluate, D.Apply;
    var steps := seq(|moves|, i requires 0 <= i < |moves| => StepOf(moves[i]));
    forall i | 0 <= i < |steps| ensures A.Happens(boards[i], steps[i], boards[i + 1]) {
      assert Happens(setting, boards[i], moves[i], boards[i + 1]);
    }
  }

  lemma {:induction false} KeysAccount(b: Board, v: Visit, n: nat, setting: int)
    requires D.Accounts(b.desk, setting) && n <= |KEYS|
    ensures D.Accounts(EvaluateKeys(b, v, n).desk, setting)
  {
    hide D.Accounts, Enqueued, ResultRows, ResultEvents;
    if n > 0 {
      KeysAccount(b, v, n - 1, setting);
      var before := EvaluateKeys(b, v, n - 1);
      var found := Find(before.rules, v.org, KEYS[n - 1]);
      if found.Some? {
        var rule := before.rules[found.value];
        D.EnqueueAccounts(before.desk, NewAlert(|before.alerts|, v.org, rule.severity, rule.key), v.now, setting);
      }
    }
  }

  lemma MoveAccounts(setting: int, b: Board, m: Move, b': Board)
    requires Happens(setting, b, m, b') && D.Accounts(b.desk, setting)
    ensures D.Accounts(b'.desk, setting)
  {
    hide D.Accounts, EvaluateKeys;
    match m
    case OnAlerts(step) =>
      if step.Evaluation? {
        KeysAccount(A.WithRules(b, step.visit), step.visit, |KEYS|, setting);
      }
    case OnDesk(work) => D.StepAccounts(setting, b.desk, work, b'.desk);
  }

  /** Attempts stay accounted for when it is the alert tables that fill the queue. */
  lemma {:induction false} AttemptsAreAccounted(setting: int, boards: seq<Board>, moves: seq<Move>, i: nat)
    requires Run(setting, boards, moves) && i < |boards|
    ensures D.Accounts(boards[i].desk, setting)
  {
    hide Happens;
    if i == 0 {
      assert boards[0].desk.audits == [];
    } else {
      hide D.Accounts;
      AttemptsAreAccounted(setting, boards, moves, i - 1);
      MoveAccounts(setting, boards[i - 1], moves[i - 1], boards[i]);
    }
  }

  // ---- Settled deliveries ----

  /** An evaluation only appends deliveries. */
  lemma {:induction false} KeysAppend(b: Board, v: Visit, n: nat)
    requires n <= |KEYS|
    ensures b.desk.deliveries <= EvaluateKeys(b, v, n).desk.deliveries
  {
    hide FanOut, ResultRows, ResultEvents, ResultOf;
    if n > 0 {
      KeysAppend(b, v, n - 1);
    }
  }

  lemma MoveFreezes(setting: int, b: Board, m: Move, b': Board, id: nat)
    requires Happens(setting, b, m, b') && id < |b.desk.deliveries| && b.desk.deliveries[id].status != Pending
    ensures id < |b'.desk.deliveries| && b'.desk.deliveries[id] == b.desk.deliveries[id]
  {
    hide EvaluateKeys, Q.ProcessSome, D.Apply, Ensured;
    match m
    case OnAlerts(step) =>
      if step.Evaluation? {
        KeysAppend(A.WithRules(b, step.visit), step.visit, |KEYS|);
      }
    case OnDesk(work) => D.StepFreezes(setting, b.desk, work, b'.desk, id);
  }

  /** Sent, failed and skipped deliveries stay as they are, whatever the alert tables and the queue do later. */
  lemma {:induction false} SettledForever(setting: int, boards: seq<Board>, moves: seq<Move>, i: nat, k: nat, id: nat)
    requires Run(setting, boards, moves) && i <= k < |boards|
    requires id < |boards[i].desk.deliveries| && boards[i].desk.deliveries[id].status != Pending
    ensures id < |boards[k].desk.deliveries| && boards[k].desk.deliveries[id] == boards[i].desk.deliveries[id]
    decreases k
  {
    hide Happens;
    if i < k {
      SettledForever(setting, boards, moves, i, k - 1, id);
      MoveFreezes(setting, boards[k - 1], moves[k - 1], boards[k], id);
    }
  }

  // ---- Tenants ----

  /** A delivery belongs to its alert's organization, and while pending so does its channel. */
  predicate RowTenant(d: Delivery, alerts: seq<Alert>, channels: seq<Channel>) {
    && d.alert < |alerts| && d.org == alerts[d.alert].org
    && (d.status == Pending ==> d.channel < |channels| && channels[d.channel].org == d.org)
  }

  predicate Tenants(b: Board) {
    forall i | 0 <= i < |b.desk.deliveries| :: RowTenant(b.desk.deliveries[i], b.alerts, b.desk.channels)
  }

  /** Alerts are never dropped or moved to another organization. */
  predicate KeepsOrgs(alerts: seq<Alert>, alerts': seq<Alert>) {
    |alerts| <= |alerts'| && forall i | 0 <= i < |alerts| ::
      alerts'[i].org == alerts[i].org && alerts'[i].device == alerts[i].device
  }

  lemma KeyTenants(b: Board, v: Visit, key: Key)
    requires Tenants(b)
    ensures Tenants(EvaluateKey(b, v, key)) && KeepsOrgs(b.alerts, EvaluateKey(b, v, key).alerts)
    ensures EvaluateKey(b, v, key).desk.channels == b.desk.channels
  {
    hide ResultEvents, ResultOf, FanOut;
    var found := Find(b.rules, v.org, key);
    if found.Some? {
      var a := NewAlert(|b.alerts|, v.org, b.rules[found.value].severity, b.rules[found.value].key);
      FanOutRows(b.desk, a, v.now);
    }
  }

  lemma {:induction false} KeysTenants(b: Board, v: Visit, n: nat)
    requires Tenants(b) && n <= |KEYS|
    ensures Tenants(EvaluateKeys(b, v, n)) && KeepsOrgs(b.alerts, EvaluateKeys(b, v, n).alerts)
  {
    hide EvaluateKey, Tenants;
    if n > 0 {
      KeysTenants(b, v, n - 1);
      KeyTenants(EvaluateKeys(b, v, n - 1), v, KEYS[n - 1]);
    }
  }

  /** Processing never makes a settled row pending again. */
  lemma {:induction false} BatchPending(d: Desk, batch: seq<nat>, outcomes: seq<Q.Outcome>, n: nat, s: Q.Setup)
    requires Within(batch, |d.deliveries|) && n <= |batch| == |outcomes|
    ensures var r := Q.ProcessSome(d, batch, outcomes, n, s);
            r.channels == d.channels && forall i | 0 <= i < |d.deliveries| && r.deliveries[i].status == Pending ::
              d.deliveries[i].status == Pending
  {
    if n > 0 {
      BatchPending(d, batch, outcomes, n - 1, s);
    }
  }

  lemma MoveTenants(setting: int, b: Board, m: Move, b': Board)
    requires Happens(setting, b, m, b') && Tenants(b)
    ensures Tenants(b') && KeepsOrgs(b.alerts, b'.alerts)
  {
    hide EvaluateKeys, Q.ProcessSome;
    match m
    case OnAlerts(step) =>
      if step.Evaluation? {
        KeysTenants(A.WithRules(b, step.visit), step.visit, |KEYS|);
      }
    case OnDesk(work) =>
      if work.Batch? {
        var s := Q.Setup(b.desk.channels, work.alerts, setting);
        BatchRoutes(b.desk, work.batch, work.outcomes, |work.batch|, s);
        BatchPending(b.desk, work.batch, work.outcomes, |work.batch|, s);
      }
  }

  /** In every reachable state, deliveries and the channels of pending ones stay inside their alert's organization. */
  lemma {:induction false} DeliveriesStayInTenant(setting: int, boards: seq<Board>, moves: seq<Move>, i: nat)
    requires Run(setting, boards, moves) && i < |boards|
    ensures Tenants(boards[i])
  {
    hide Happens;
    if i > 0 {
      DeliveriesStayInTenant(setting, boards, moves, i - 1);
      hide Tenants;
      MoveTenants(setting, boards[i - 1], moves[i - 1], boards[i]);
    }
  }

  // ---- Fan-out on the rules' own fields ----

  /**
   * After an evaluation, a new alert's deliveries are exactly those its organization's enabled notification rules
   * ask for by their filters and channel lists, row for row, whatever was queued before.
   */
  lemma EvaluationNotifies(b: Board, v: Visit, id: nat) returns (owners: seq<(nat, nat)>)
    requires A.Sound(b) && Known(b.desk.deliveries, |b.alerts|)
    requires |b.alerts| <= id < |Evaluate(b, v).alerts|
    ensures var b' := Evaluate(b, v);
            && b'.alerts[id].rule < |b'.rules| && b'.alerts[id].org == b'.rules[b'.alerts[id].rule].org
            && b'.alerts[id].severity == b'.rules[b'.alerts[id].rule].severity
            && Owned(b.desk, NewAlert(id, b'.alerts[id].org, b'.alerts[id].severity, b'.rules[b'.alerts[id].rule].key),
                     v.now, DeliveriesFor(b'.desk.deliveries, id), owners)
  {
    hide A.Sound, Evaluate, DeliveriesFor, FanOut, Owned;
    A.EvaluationSound(b, v);
    EvaluationFansOut(b, v);
    AlertFits(Evaluate(b, v), id);
    owners := FanOutIsOwned(b.desk, NoticeOf(Evaluate(b, v), id), v.now);
  }

  lemma AlertFits(b: Board, id: nat)
    requires A.Sound(b) && id < |b.alerts|
    ensures b.alerts[id].rule < |b.rules| && b.alerts[id].org == b.rules[b.alerts[id].rule].org
    ensures b.alerts[id].severity == b.rules[b.alerts[id].rule].severity
  {
    hide AlertHistory.OpenIsNewest, AlertHistory.Refines, A.OneRulePerKey, A.DefaultSeverities;
  }

  /** The routes of the deliveries are those the entries name. */
  ghost predicate Routed(d: Desk, a: NewAlert, now: Time, rows: seq<Delivery>, owners: seq<(nat, nat)>) {
    && |owners| == |rows|
    && (forall p, q | 0 <= p < q < |owners| :: Before(owners[p], owners[q]))
    && (forall i: nat, k: nat :: Wants(d.rules, a, i, k) <==> (i, k) in owners)
    && (forall p | 0 <= p < |rows| ::
          && Wants(d.rules, a, owners[p].0, owners[p].1)
          && d.rules[owners[p].0].channels[owners[p].1] == Ref(rows[p].channel)
          && rows[p].org == a.org && rows[p].alert == a.id && rows[p].createdAt == now)
  }

  lemma OwnedIsRouted(d: Desk, a: NewAlert, now: Time, rows: seq<Delivery>, rows': seq<Delivery>,
      owners: seq<(nat, nat)>)
    requires Owned(d, a, now, rows, owners) && SameRoutes(rows, rows')
    ensures Routed(d, a, now, rows', owners)
  {
    forall p | 0 <= p < |rows'|
      ensures Wants(d.rules, a, owners[p].0, owners[p].1)
      ensures d.rules[owners[p].0].channels[owners[p].1] == Ref(rows'[p].channel)
      ensures rows'[p].org == a.org && rows'[p].alert == a.id && rows'[p].createdAt == now
    {
      assert RowOf(d, a, owners[p].0, owners[p].1, now, rows[p]) && SameRoute(rows[p], rows'[p]);
    }
    hide Wants;
  }

  /**
   * Whenever an alert appeared, and whatever happened since, its deliveries are one for each entry that wanted it
   * when it appeared: same order, same channels, none more and none less.
   */
  lemma DeliveriesAreWanted(setting: int, boards: seq<Board>, moves: seq<Move>, i: nat, k: nat, id: nat)
    returns (owners: seq<(nat, nat)>)
    requires Run(setting, boards, moves) && i < k < |boards|
    requires |boards[i].alerts| <= id < |boards[i + 1].alerts|
    ensures moves[i].OnAlerts? && moves[i].step.Evaluation? && boards[i + 1].alerts[id].rule < |boards[i + 1].rules|
    ensures var x := boards[i + 1].alerts[id];
            Routed(boards[i].desk, NewAlert(id, x.org, x.severity, boards[i + 1].rules[x.rule].key),
                   moves[i].step.visit.now, DeliveriesFor(boards[k].desk.deliveries, id), owners)
  {
    hide Run, FanOut, DeliveriesFor, Owned, Routed, SameRoutes, A.Sound;
    FannedOutOnce(setting, boards, moves, i, k, id);
    ProjectsToAlerts(setting, boards, moves);
    A.AlwaysSound(boards, seq(|moves|, i requires 0 <= i < |moves| => StepOf(moves[i])), i + 1);
    AlertFits(boards[i + 1], id);
    var a := NoticeOf(boards[i + 1], id);
    owners := FanOutIsOwned(boards[i].desk, a, moves[i].step.visit.now);
    OwnedIsRouted(boards[i].desk, a, moves[i].step.visit.now, FanOut(boards[i].desk, a, moves[i].step.visit.now),
      DeliveriesFor(boards[k].desk.deliveries, id), owners);
  }
}
