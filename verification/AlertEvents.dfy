/** The event log of an alert determines its state, in every reachable state. */
module AlertEvents {
  import opened Base
  import opened Notifications
  import opened Alerts
  import opened AlertHistory
  import opened AlertRuns

  /** The marks of one alert, oldest first. */
  function MarksOf(events: seq<AlertEvent>, id: nat): seq<Mark> {
    if events == [] then []
    else
      var last := |events| - 1;
      var before := MarksOf(events[..last], id);
      if events[last].alert == id then before + [events[last].mark] else before
  }

  /** What a sequence of marks amounts to: nothing yet, an alert's visible state, or no legal history. */
  datatype Shown = Nothing | Illegal | Shown(status: AlertStatus, message: Message, acknowledged: bool)

  /** Created first and only once; nothing after a resolution; acknowledged once, and only while active. */
  function Show(before: Shown, mark: Mark): Shown {
    match before
    case Nothing => if mark.Created? then Shown(Active, mark.message, false) else Illegal
    case Illegal => Illegal
    case Shown(status, message, acknowledged) =>
      if status == Resolved then Illegal
      else match mark
        case Created(_) => Illegal
        case Repeated(m) => Shown(status, m, acknowledged)
        case Cleared => Shown(Resolved, message, acknowledged)
        case ByOperator(true) => if status == Active then Shown(Acknowledged, message, true) else Illegal
        case ByOperator(false) => Shown(Resolved, message, acknowledged)
  }

  function Play(marks: seq<Mark>): Shown {
    if marks == [] then Nothing else Show(Play(marks[..|marks| - 1]), marks[|marks| - 1])
  }

  function ShownBy(alerts: seq<Alert>, id: nat): Shown {
    if id < |alerts| then Shown(alerts[id].status, alerts[id].message, alerts[id].acknowledgedAt.Some?) else Nothing
  }

  ghost predicate LogShows(alerts: seq<Alert>, events: seq<AlertEvent>) {
    forall id: nat :: Play(MarksOf(events, id)) == ShownBy(alerts, id)
  }

  lemma MarksSnoc(events: seq<AlertEvent>, e: AlertEvent, id: nat)
    ensures Play(MarksOf(events + [e], id))
            == if e.alert == id then Show(Play(MarksOf(events, id)), e.mark) else Play(MarksOf(events, id))
  {
    assert (events + [e])[..|events|] == events;
    var marks := MarksOf(events, id);
    assert (marks + [e.mark])[..|marks|] == marks;
  }

  /** Logging one event about one alert whose row changes accordingly. */
  lemma OneEvent(alerts: seq<Alert>, alerts': seq<Alert>, events: seq<AlertEvent>, e: AlertEvent)
    requires LogShows(alerts, events)
    requires ShownBy(alerts', e.alert) == Show(ShownBy(alerts, e.alert), e.mark)
    requires forall id: nat | id != e.alert :: ShownBy(alerts', id) == ShownBy(alerts, id)
    ensures LogShows(alerts', events + [e])
  {
    forall id: nat ensures Play(MarksOf(events + [e], id)) == ShownBy(alerts', id) {
      MarksSnoc(events, e, id);
    }
  }

  lemma ResultShows(alerts: seq<Alert>, events: seq<AlertEvent>, org: nat, device: nat, rule: nat, severity: Severity,
      r: RuleResult, now: Time)
    requires LogShows(alerts, events)
    ensures LogShows(ResultRows(alerts, org, device, rule, severity, r, now),
            events + ResultEvents(alerts, org, device, rule, r))
  {
    hide LogShows;
    var alerts', more := ResultRows(alerts, org, device, rule, severity, r, now),
      ResultEvents(alerts, org, device, rule, r);
    if more == [] {
      assert events + more == events;
    } else {
      OneEvent(alerts, alerts', events, more[0]);
      assert more == [more[0]];
    }
  }

  lemma KeyShows(b: Board, v: Visit, key: Key)
    requires LogShows(b.alerts, b.events)
    ensures LogShows(EvaluateKey(b, v, key).alerts, EvaluateKey(b, v, key).events)
  {
    hide LogShows, ResultRows, ResultEvents, ResultDesk, ResultOf;
    var found := Find(b.rules, v.org, key);
    if found.Some? {
      var r := ResultOf(b.rules, v, found.value);
      ResultShows(b.alerts, b.events, v.org, v.device, found.value, b.rules[found.value].severity, r, v.now);
    }
  }

  lemma {:induction false} KeysShow(b: Board, v: Visit, n: nat)
    requires LogShows(b.alerts, b.events) && n <= |KEYS|
    ensures LogShows(EvaluateKeys(b, v, n).alerts, EvaluateKeys(b, v, n).events)
  {
    hide LogShows, EvaluateKey;
    if n > 0 {
      KeysShow(b, v, n - 1);
      KeyShows(EvaluateKeys(b, v, n - 1), v, KEYS[n - 1]);
    }
  }

  lemma OperatorShows(b: Board, org: nat, id: nat, item: Item)
    requires LogShows(b.alerts, b.events) && !item.Seen?
    ensures var b' := if item.Acknowledge? then Acknowledges(b, org, id, item.now) else Resolves(b, org, id, item.now);
            LogShows(b'.alerts, b'.events)
  {
    hide LogShows;
    var b' := if item.Acknowledge? then Acknowledges(b, org, id, item.now) else Resolves(b, org, id, item.now);
    if b' != b {
      OneEvent(b.alerts, b'.alerts, b.events, AlertEvent(b.alerts[id].org, id, ByOperator(item.Acknowledge?)));
    }
  }

  lemma StepShows(b: Board, s: Option<Step>, b': Board)
    requires Happens(b, s, b') && LogShows(b.alerts, b.events)
    ensures LogShows(b'.alerts, b'.events)
  {
    hide LogShows, EvaluateKeys;
    match s
    case Some(Evaluation(v)) => KeysShow(WithRules(b, v), v, |KEYS|);
    case Some(Operator(org, id, item)) => OperatorShows(b, org, id, item);
    case Some(Tuning(_, _, _)) =>
    case None =>
  }

  /**
   * In every reachable state an alert's status, message and acknowledgement are what its events spell out, the
   * events of every alert form a legal history, and no event names an alert that does not exist.
   */
  lemma {:induction false} EventsDetermineAlerts(boards: seq<Board>, steps: seq<Option<Step>>, i: nat)
    requires Run(boards, steps) && i < |boards|
    ensures LogShows(boards[i].alerts, boards[i].events)
  {
    hide Happens;
    if i > 0 {
      hide LogShows;
      EventsDetermineAlerts(boards, steps, i - 1);
      StepShows(boards[i - 1], steps[i - 1], boards[i]);
    }
  }
}
