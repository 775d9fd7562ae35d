/** Alert evaluation and the operator steps as they run, over tables updated in place. */
module AlertStore {
  import opened Base
  import opened Notifications
  import opened Alerts
  import Q = DeliveryQueue

  /** The dictionary agrees with the last rule of the table for every key. */
  predicate Indexes(existing: map<Key, nat>, rules: seq<AlertRule>, org: nat) {
    forall key :: Find(rules, org, key) == if key in existing then Some(existing[key]) else None
  }

  lemma IndexesSnoc(existing: map<Key, nat>, rules: seq<AlertRule>, org: nat, rule: AlertRule)
    requires Indexes(existing, rules, org)
    ensures Indexes(if rule.org == org then existing[rule.key := |rules|] else existing, rules + [rule], org)
  {
    hide Latest;
    var existing' := if rule.org == org then existing[rule.key := |rules|] else existing;
    forall key ensures Find(rules + [rule], org, key) == if key in existing' then Some(existing'[key]) else None {
      LatestAppended(rules, rule, IsRule(org, key));
    }
  }

  class AlertTables {
    const desk: Q.DeskStore
    var rules: seq<AlertRule>
    var alerts: seq<Alert>
    var events: seq<AlertEvent>
    ghost var history: seq<Entry>

    constructor (desk: Q.DeskStore)
      ensures this.desk == desk && rules == [] && alerts == [] && events == [] && history == []
    {
      this.desk := desk;
      rules, alerts, events, history := [], [], [], [];
    }

    ghost function Contents(): Board
      reads this, desk
    {
      Board(rules, alerts, events, desk.Contents(), history)
    }

    /** ensure_default_alert_rules. */
    method EnsureDefaultAlertRules(org: nat, s: Settings) returns (existing: map<Key, nat>)
      modifies this`rules
      ensures rules == Ensured(old(rules), org, |KEYS|, s) && Contents() == old(Contents()).(rules := rules)
      ensures Indexes(existing, rules, org)
    {
      hide Find, DefaultParams, DefaultSeverity, Indexes;
      existing := map[];
      NothingIndexed(org);
      for i := 0 to |rules|
        invariant rules == old(rules) && Indexes(existing, rules[..i], org)
      {
        IndexesSnoc(existing, rules[..i], org, rules[i]);
        assert rules[..i + 1] == rules[..i] + [rules[i]];
        if rules[i].org == org {
          existing := existing[rules[i].key := i];
        }
      }
      assert rules[..|rules|] == rules;
      for n := 0 to |KEYS|
        invariant rules == Ensured(old(rules), org, n, s) && Indexes(existing, rules, org)
      {
        Indexed(existing, rules, org, KEYS[n]);
        if KEYS[n] in existing {
          continue;
        }
        var rule := AlertRule(org, KEYS[n], DefaultSeverity(KEYS[n]), true, DefaultParams(KEYS[n], s));
        IndexesSnoc(existing, rules, org, rule);
        existing := existing[KEYS[n] := |rules|];
        rules := rules + [rule];
      }
    }

    static lemma NothingIndexed(org: nat)
      ensures Indexes(map[], [], org)
    {
    }

    static lemma Indexed(existing: map<Key, nat>, rules: seq<AlertRule>, org: nat, key: Key)
      requires Indexes(existing, rules, org)
      ensures Find(rules, org, key) == if key in existing then Some(existing[key]) else None
    {
    }

    /** _eval_low_disk. */
    static method CheckDisks(disks: seq<Disk>, p: Params, s: Settings) returns (result: RuleResult)
      ensures forall f: Facts | f.disks == disks :: result == EvalLowDisk(f, p, s)
    {
      var threshold := if p.freePercent.Some? then p.freePercent.value else s.freePercent;
      var low := 0;
      for i := 0 to |disks|
        invariant low == LowDisks(disks, i, threshold)
      {
        var disk := disks[i];
        if disk.size.None? || disk.free.None? || disk.size.value <= 0 {
          continue;
        }
        var free := (disk.free.value as real / disk.size.value as real) * 100.0;
        if free < threshold {
          low := low + 1;
        }
      }
      result := RuleResult(low > 0, LowOnSpace(low, threshold));
    }

    method WriteEvent(org: nat, id: nat, mark: Mark)
      modifies this`events
      ensures events == old(events) + [AlertEvent(org, id, mark)]
    {
      events := events + [AlertEvent(org, id, mark)];
    }

    /** _apply_result. */
    method Apply(org: nat, device: nat, rule: nat, r: RuleResult, now: Time)
      requires rule < |rules|
      modifies this, desk
      ensures Contents() == ApplyResult(old(Contents()), org, device, rule, r, now)
    {
      hide Enqueued;
      history := history + [Entry(device, rule, Seen(now, r.active, r.message))];
      var found := OpenAlert(alerts, device, rule);
      if r.active {
        if found.None? {
          var id := |alerts|;
          alerts := alerts + [Alert(org, device, rule, rules[rule].severity, Active, r.message, now, now, None, None)];
          WriteEvent(org, id, Created(r.message));
          desk.EnqueueAlertNotifications(NewAlert(id, org, rules[rule].severity, rules[rule].key), now);
        } else {
          var id := found.value;
          alerts := alerts[id := alerts[id].(lastSeen := now, message := r.message)];
          WriteEvent(alerts[id].org, id, Repeated(r.message));
        }
      } else if found.Some? {
        var id := found.value;
        alerts := alerts[id := alerts[id].(status := Resolved, resolvedAt := Some(now), lastSeen := now)];
        WriteEvent(alerts[id].org, id, Cleared);
      }
    }

    /** evaluate_device_alerts: all nine results first, then each enabled rule's result is applied. */
    method EvaluateDeviceAlerts(v: Visit)
      modifies this, desk
      ensures Contents() == Evaluate(old(Contents()), v)
    {
      hide *;
      ContentsRules();
      ghost var start := old(Contents()).(rules := Ensured(old(rules), v.org, |KEYS|, v.settings));
      var existing := EnsureDefaultAlertRules(v.org, v.settings);
      AllIndexed(old(rules), v, existing, rules);
      var results := ResultsFor(existing, v);
      Started(start.rules, old(Contents()), v);
      for n := 0 to |KEYS|
        invariant rules == start.rules && Contents() == EvaluateKeys(start, v, n)
      {
        var rule := existing[KEYS[n]];
        KeyApplied(start, v, n, rule);
        if rules[rule].enabled {
          Apply(v.org, v.device, rule, results[n], v.now);
          ContentsRules();
        }
      }
    }

    lemma ContentsRules()
      ensures Contents().rules == rules
    {
    }

    /** The evaluation starts from the ensured rules. */
    static lemma Started(ensured: seq<AlertRule>, b: Board, v: Visit)
      requires ensured == Ensured(b.rules, v.org, |KEYS|, v.settings)
      ensures EvaluateKeys(b.(rules := ensured), v, 0) == b.(rules := ensured)
      ensures Evaluate(b, v) == EvaluateKeys(b.(rules := ensured), v, |KEYS|)
    {
      hide Ensured;
    }

    static lemma KeyApplied(start: Board, v: Visit, n: nat, rule: nat)
      requires n < |KEYS| && Find(start.rules, v.org, KEYS[n]) == Some(rule)
      ensures rule < |start.rules| && EvaluateKeys(start, v, n).rules == start.rules
      ensures var b := EvaluateKeys(start, v, n);
              EvaluateKeys(start, v, n + 1)
              == if start.rules[rule].enabled then ApplyResult(b, v.org, v.device, rule,
                ResultOf(start.rules, v, rule), v.now) else b
    {
      hide ApplyResult, ResultOf;
    }

    /** The results of all nine conditions, in order. */
    method ResultsFor(existing: map<Key, nat>, v: Visit) returns (results: seq<RuleResult>)
      requires forall key ::
               key in existing && existing[key] < |rules| && Find(rules, v.org, key) == Some(existing[key])
      ensures |results| == |KEYS|
      ensures forall n | 0 <= n < |KEYS| :: results[n] == ResultOf(rules, v, existing[KEYS[n]])
    {
      hide EvalLowDisk;
      var disks := CheckDisks(v.facts.disks, rules[existing[LowDisk]].params, v.settings);
      results := seq(|KEYS|, n requires 0 <= n < |KEYS| reads this
                             requires KEYS[n] in existing && existing[KEYS[n]] < |rules| =>
                             if KEYS[n] == LowDisk then disks
                             else Eval(KEYS[n], v.facts, rules[existing[KEYS[n]]].params, v.settings, v.now));
    }

    static lemma AllIndexed(before: seq<AlertRule>, v: Visit, existing: map<Key, nat>, rules: seq<AlertRule>)
      requires rules == Ensured(before, v.org, |KEYS|, v.settings) && Indexes(existing, rules, v.org)
      ensures forall key :: key in existing && existing[key] < |rules| && Find(rules, v.org, key) == Some(existing[key])
    {
      hide Ensured, Find;
      TurnsAreKeys();
      hide Turn;
      forall key ensures key in existing && existing[key] < |rules| && Find(rules, v.org, key) == Some(existing[key]) {
        EnsuredHas(before, v.org, |KEYS|, v.settings, Turn(key));
      }
    }

    // ---- Operator steps ----

    /** POST /alerts/{id}/acknowledge. */
    method AcknowledgeAlert(org: nat, id: nat, now: Time) returns (reply: OperatorReply)
      modifies this
      ensures Contents() == Acknowledges(old(Contents()), org, id, now)
      ensures reply == if id < |alerts| && old(alerts)[id].org == org then Answered(alerts[id]) else NotFound
    {
      if id >= |alerts| || alerts[id].org != org {
        return NotFound;
      }
      if alerts[id].status == Active {
        history := history + [Entry(alerts[id].device, alerts[id].rule, Acknowledge(now))];
        alerts := alerts[id := alerts[id].(status := Acknowledged, acknowledgedAt := Some(now))];
        WriteEvent(alerts[id].org, id, ByOperator(true));
      }
      reply := Answered(alerts[id]);
    }

    /** POST /alerts/{id}/resolve. */
    method ResolveAlert(org: nat, id: nat, now: Time) returns (reply: OperatorReply)
      modifies this
      ensures Contents() == Resolves(old(Contents()), org, id, now)
      ensures reply == if id < |alerts| && old(alerts)[id].org == org then Answered(alerts[id]) else NotFound
    {
      if id >= |alerts| || alerts[id].org != org {
        return NotFound;
      }
      if alerts[id].status != Resolved {
        history := history + [Entry(alerts[id].device, alerts[id].rule, Resolve(now))];
        alerts := alerts[id := alerts[id].(status := Resolved, resolvedAt := Some(now))];
        WriteEvent(alerts[id].org, id, ByOperator(false));
      }
      reply := Answered(alerts[id]);
    }
  }
}
