/** Every alert and alert event carries the organization of its device; `homes` lists the devices' organizations. */
module AlertTenancy {
  import opened Base
  import opened Notifications
  import opened Alerts
  import AlertRuns

  predicate AlertHome(homes: seq<nat>, a: Alert) { a.device < |homes| && a.org == homes[a.device] }

  predicate EventHome(e: AlertEvent, alerts: seq<Alert>) { e.alert < |alerts| && e.org == alerts[e.alert].org }

  ghost predicate AlertsHome(homes: seq<nat>, b: Board) {
    && (forall i | 0 <= i < |b.alerts| :: AlertHome(homes, b.alerts[i]))
    && (forall i | 0 <= i < |b.events| :: EventHome(b.events[i], b.alerts))
  }

  /** The evaluation is of a device under its own organization. */
  predicate AtHome(homes: seq<nat>, v: Visit) { v.device < |homes| && v.org == homes[v.device] }

  lemma KeyHome(homes: seq<nat>, b: Board, v: Visit, key: Key)
    requires AlertsHome(homes, b) && AtHome(homes, v)
    ensures AlertsHome(homes, EvaluateKey(b, v, key))
  {
    hide ResultDesk, ResultOf;
    var found := Find(b.rules, v.org, key);
    if found.Some? && b.rules[found.value].enabled {
      var rule, r := found.value, ResultOf(b.rules, v, found.value);
      RowsKeepHome(homes, b.alerts, v, rule, b.rules[rule].severity, r);
    }
  }

  lemma RowsKeepHome(homes: seq<nat>, alerts: seq<Alert>, v: Visit, rule: nat, severity: Severity, r: RuleResult)
    requires AtHome(homes, v) && forall i | 0 <= i < |alerts| :: AlertHome(homes, alerts[i])
    ensures var rows := ResultRows(alerts, v.org, v.device, rule, severity, r, v.now);
            && |alerts| <= |rows|
            && (forall i | 0 <= i < |rows| :: AlertHome(homes, rows[i]))
            && (forall i | 0 <= i < |alerts| :: rows[i].org == alerts[i].org)
            && (forall e | e in ResultEvents(alerts, v.org, v.device, rule, r) :: EventHome(e, rows))
  {
  }

  lemma {:induction false} KeysHome(homes: seq<nat>, b: Board, v: Visit, n: nat)
    requires AlertsHome(homes, b) && AtHome(homes, v) && n <= |KEYS|
    ensures AlertsHome(homes, EvaluateKeys(b, v, n))
  {
    hide EvaluateKey, AlertsHome;
    if n > 0 {
      KeysHome(homes, b, v, n - 1);
      KeyHome(homes, EvaluateKeys(b, v, n - 1), v, KEYS[n - 1]);
    }
  }

  lemma StepHome(homes: seq<nat>, b: Board, s: AlertRuns.Step)
    requires AlertsHome(homes, b) && AlertRuns.Allowed(b, s) && (s.Evaluation? ==> AtHome(homes, s.visit))
    ensures AlertsHome(homes, AlertRuns.Apply(b, s))
  {
    hide EvaluateKeys, Ensured;
    if s.Evaluation? {
      KeysHome(homes, AlertRuns.WithRules(b, s.visit), s.visit, |KEYS|);
    }
  }

  lemma MoreHomes(homes: seq<nat>, homes': seq<nat>, b: Board)
    requires AlertsHome(homes, b) && homes <= homes'
    ensures AlertsHome(homes', b)
  {
  }

  // ---- Operators ----

  /** The two steps an operator can take. */
  datatype Order = Acknowledging | Resolving

  function Carried(order: Order, b: Board, org: nat, id: nat, now: Time): Board {
    if order == Acknowledging then Acknowledges(b, org, id, now) else Resolves(b, org, id, now)
  }

  /** The alert is in the operator's organization and in a status the step applies to. */
  predicate Takes(order: Order, b: Board, org: nat, id: nat) {
    && id < |b.alerts| && b.alerts[id].org == org
    && (b.alerts[id].status == Active || (order == Resolving && b.alerts[id].status == Acknowledged))
  }

  /**
   * An operator's step writes one status and time of one alert of the operator's own organization, and one event
   * saying so; on any other alert it changes nothing.
   */
  lemma OperatorWrites(order: Order, b: Board, org: nat, id: nat, now: Time)
    ensures var b' := Carried(order, b, org, id, now);
            && (!Takes(order, b, org, id) ==> b' == b)
            && (Takes(order, b, org, id) ==>
                 && b'.rules == b.rules && b'.desk == b.desk && |b'.alerts| == |b.alerts|
                 && (forall k | 0 <= k < |b.alerts| && k != id :: b'.alerts[k] == b.alerts[k])
                 && b'.events == b.events + [AlertEvent(org, id, ByOperator(order == Acknowledging))]
                 && b'.alerts[id] == if order == Acknowledging
                      then b.alerts[id].(status := Acknowledged, acknowledgedAt := Some(now))
                      else b.alerts[id].(status := Resolved, resolvedAt := Some(now)))
  {
  }
}
