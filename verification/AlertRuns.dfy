/** The alert tables over whole runs: refinement, open-alert uniqueness, and agreement after an evaluation. */
module AlertRuns {
  import opened Base
  import opened Notifications
  import opened Alerts
  import opened AlertHistory
  import opened AlertBlocks

  // ---- Invariant ----

  /** An organization has at most one rule per key. */
  predicate OneRulePerKey(rules: seq<AlertRule>) {
    forall i, k | 0 <= i < k < |rules| && rules[i].org == rules[k].org :: rules[i].key != rules[k].key
  }

  /** Every alert belongs to a rule of its organization and carries that rule's severity. */
  predicate FitsRules(rules: seq<AlertRule>, alerts: seq<Alert>) {
    forall i | 0 <= i < |alerts| ::
      && alerts[i].rule < |rules|
      && alerts[i].org == rules[alerts[i].rule].org
      && alerts[i].severity == rules[alerts[i].rule].severity
  }

  /** Default rules keep the severity they were defined with. */
  predicate DefaultSeverities(rules: seq<AlertRule>) {
    forall i | 0 <= i < |rules| :: rules[i].severity == DefaultSeverity(rules[i].key)
  }

  ghost predicate Sound(b: Board) {
    && OpenIsNewest(b.alerts)
    && Refines(b.alerts, b.history)
    && OneRulePerKey(b.rules) && DefaultSeverities(b.rules)
    && FitsRules(b.rules, b.alerts)
  }

  // ---- One key ----

  lemma ResultFits(rules: seq<AlertRule>, alerts: seq<Alert>, org: nat, device: nat, rule: nat, r: RuleResult,
      now: Time)
    requires FitsRules(rules, alerts) && rule < |rules| && rules[rule].org == org
    ensures FitsRules(rules, ResultRows(alerts, org, device, rule, rules[rule].severity, r, now))
  {
  }

  lemma KeySound(b: Board, v: Visit, key: Key)
    requires Sound(b)
    ensures Sound(EvaluateKey(b, v, key))
  {
    hide ResultRows, ResultEvents, ResultDesk, OpenIsNewest, Refines, FitsRules, OneRulePerKey, DefaultSeverities,
      ResultOf;
    var found := Find(b.rules, v.org, key);
    if found.Some? {
      var rule, severity, r := found.value, b.rules[found.value].severity, ResultOf(b.rules, v, found.value);
      ResultKeepsNewest(b.alerts, v.org, v.device, rule, severity, r, v.now);
      ResultRefines(b.alerts, b.history, v.org, v.device, rule, severity, r, v.now);
      ResultFits(b.rules, b.alerts, v.org, v.device, rule, r, v.now);
    }
  }

  lemma {:induction false} KeysSound(b: Board, v: Visit, n: nat)
    requires Sound(b) && n <= |KEYS|
    ensures Sound(EvaluateKeys(b, v, n))
  {
    hide Sound, EvaluateKey;
    if n > 0 {
      KeysSound(b, v, n - 1);
      KeySound(EvaluateKeys(b, v, n - 1), v, KEYS[n - 1]);
    }
  }

  lemma {:induction false} EnsuredRules(rules: seq<AlertRule>, org: nat, n: nat, s: Settings)
    requires OneRulePerKey(rules) && DefaultSeverities(rules) && n <= |KEYS|
    ensures OneRulePerKey(Ensured(rules, org, n, s)) && DefaultSeverities(Ensured(rules, org, n, s))
  {
    hide DefaultParams, DefaultSeverity;
    if n > 0 {
      EnsuredRules(rules, org, n - 1, s);
      var before := Ensured(rules, org, n - 1, s);
      if Find(before, org, KEYS[n - 1]).None? {
        LatestNone(before, IsRule(org, KEYS[n - 1]));
      }
    }
  }

  function WithRules(b: Board, v: Visit): Board { b.(rules := Ensured(b.rules, v.org, |KEYS|, v.settings)) }

  lemma EvaluationSound(b: Board, v: Visit)
    requires Sound(b)
    ensures Sound(WithRules(b, v)) && Sound(Evaluate(b, v))
  {
    hide OpenIsNewest, Refines, OneRulePerKey, DefaultSeverities, Ensured;
    EnsuredRules(b.rules, v.org, |KEYS|, v.settings);
    EnsuredExtends(b.rules, v.org, |KEYS|, v.settings);
    assert FitsRules(WithRules(b, v).rules, b.alerts);
    hide FitsRules;
    KeysSound(WithRules(b, v), v, |KEYS|);
  }

  lemma OperatorSound(b: Board, org: nat, id: nat, item: Item)
    requires Sound(b) && !item.Seen?
    ensures Sound(if item.Acknowledge? then Acknowledges(b, org, id, item.now) else Resolves(b, org, id, item.now))
  {
    if Visible(b, org, id) && Open(b.alerts[id]) {
      var after := Operated(b.alerts[id], item);
      OperatorRefines(b.alerts, b.history, id, item);
      assert FitsRules(b.rules, b.alerts[id := after]);
    }
    hide OpenIsNewest, Refines;
  }

  // ---- Agreement ----

  /** The evaluation concerns this rule: it is one of the organization's and enabled. */
  predicate Concerns(rules: seq<AlertRule>, v: Visit, rule: nat) {
    rule < |rules| && rules[rule].org == v.org && rules[rule].enabled
  }

  /** Alerts of other devices, and of rules the evaluation does not concern, are as before; new ones are its own. */
  predicate OthersUntouched(rules: seq<AlertRule>, v: Visit, alerts: seq<Alert>, alerts': seq<Alert>) {
    && |alerts| <= |alerts'|
    && (forall i | 0 <= i < |alerts| :: alerts'[i].device == alerts[i].device && alerts'[i].rule == alerts[i].rule)
    && (forall i | 0 <= i < |alerts| && !(alerts[i].device == v.device && Concerns(rules, v, alerts[i].rule)) ::
         alerts'[i] == alerts[i])
    && (forall i | |alerts| <= i < |alerts'| :: alerts'[i].device == v.device && Concerns(rules, v, alerts'[i].rule))
  }

  lemma KeyUntouched(b: Board, v: Visit, key: Key, alerts: seq<Alert>)
    requires OthersUntouched(b.rules, v, alerts, b.alerts)
    ensures OthersUntouched(b.rules, v, alerts, EvaluateKey(b, v, key).alerts)
  {
    hide ResultRows, ResultEvents, ResultDesk, ResultOf;
    var found := Find(b.rules, v.org, key);
    if found.Some? && b.rules[found.value].enabled {
      var rule, r := found.value, ResultOf(b.rules, v, found.value);
      ResultFrames(b.alerts, v.org, v.device, rule, b.rules[rule].severity, r, v.now);
    }
  }

  lemma {:induction false} KeysUntouched(b: Board, v: Visit, n: nat)
    requires n <= |KEYS|
    ensures OthersUntouched(b.rules, v, b.alerts, EvaluateKeys(b, v, n).alerts)
  {
    hide EvaluateKey;
    if n > 0 {
      KeysUntouched(b, v, n - 1);
      KeyUntouched(EvaluateKeys(b, v, n - 1), v, KEYS[n - 1], b.alerts);
    }
  }

  /** A pair's open alert is the same question before and after another pair's step. */
  lemma OpenElsewhere(alerts: seq<Alert>, alerts': seq<Alert>, device: nat, rule: nat, rule': nat)
    requires OnlyPair(alerts, alerts', device, rule) && rule' != rule
    ensures OpenAlert(alerts', device, rule').Some? <==> OpenAlert(alerts, device, rule').Some?
  {
    if OpenAlert(alerts', device, rule').None? {
      NoneOpen(alerts', device, rule');
    }
    if OpenAlert(alerts, device, rule').None? {
      NoneOpen(alerts, device, rule');
    }
  }

  /** The condition of the key's rule and the presence of its open alert agree. */
  ghost predicate Agrees(b: Board, v: Visit, key: Key) {
    var found := Find(b.rules, v.org, key);
    found.Some? && b.rules[found.value].enabled ==>
      (OpenAlert(b.alerts, v.device, found.value).Some? <==> ResultOf(b.rules, v, found.value).active)
  }

  lemma KeyAgrees(b: Board, v: Visit, key: Key)
    requires OpenIsNewest(b.alerts)
    ensures Agrees(EvaluateKey(b, v, key), v, key)
  {
    hide ResultRows, ResultEvents, ResultDesk, ResultOf, OpenIsNewest, OpenAlert;
    var found := Find(b.rules, v.org, key);
    if found.Some? && b.rules[found.value].enabled {
      var rule, r := found.value, ResultOf(b.rules, v, found.value);
      ResultAgrees(b.alerts, v.org, v.device, rule, b.rules[rule].severity, r, v.now);
    }
  }

  lemma OtherKeyAgrees(b: Board, v: Visit, key: Key, other: Key)
    requires Agrees(b, v, other) && other != key
    ensures Agrees(EvaluateKey(b, v, key), v, other)
  {
    hide ResultRows, ResultEvents, ResultDesk, ResultOf, OpenAlert;
    var found, theirs := Find(b.rules, v.org, key), Find(b.rules, v.org, other);
    if found.Some? && b.rules[found.value].enabled && theirs.Some? {
      var rule, r := found.value, ResultOf(b.rules, v, found.value);
      var after := ResultRows(b.alerts, v.org, v.device, rule, b.rules[rule].severity, r, v.now);
      ResultFrames(b.alerts, v.org, v.device, rule, b.rules[rule].severity, r, v.now);
      OpenElsewhere(b.alerts, after, v.device, rule, theirs.value);
    }
  }

  lemma {:induction false} KeysAgree(b: Board, v: Visit, n: nat, i: nat)
    requires Sound(b) && i < n <= |KEYS|
    ensures Agrees(EvaluateKeys(b, v, n), v, KEYS[i])
  {
    hide EvaluateKey, Agrees, Refines;
    KeysSound(b, v, n - 1);
    var before := EvaluateKeys(b, v, n - 1);
    if i == n - 1 {
      KeyAgrees(before, v, KEYS[i]);
    } else {
      KeysAgree(b, v, n - 1, i);
      OtherKeyAgrees(before, v, KEYS[n - 1], KEYS[i]);
    }
  }

  /**
   * After an evaluation every default key has a rule of the device's organization, and if that rule is
   * enabled it has an open alert for the device exactly when the rule's condition holds. Alerts of
   * disabled rules, of other organizations' rules and of other devices are as they were.
   */
  lemma EvaluationAgrees(b: Board, v: Visit, key: Key)
    requires Sound(b)
    ensures var b', found := Evaluate(b, v), Find(Evaluate(b, v).rules, v.org, key);
            && found.Some?
            && (b'.rules[found.value].enabled ==>
                  (OpenAlert(b'.alerts, v.device, found.value).Some? <==> ResultOf(b'.rules, v, found.value).active))
    ensures OthersUntouched(Evaluate(b, v).rules, v, b.alerts, Evaluate(b, v).alerts)
  {
    EvaluationSound(b, v);
    TurnsAreKeys();
    hide Sound, Ensured, EvaluateKeys, OthersUntouched, Turn;
    EnsuredHas(b.rules, v.org, |KEYS|, v.settings, Turn(key));
    KeysAgree(WithRules(b, v), v, |KEYS|, Turn(key));
    KeysUntouched(WithRules(b, v), v, |KEYS|);
  }

  // ---- What an evaluation records ----

  /** The rule is the one its key is evaluated with, and it is enabled. */
  predicate Evaluated(rules: seq<AlertRule>, v: Visit, n: nat, rule: nat)
    requires n <= |KEYS|
  {
    rule < |rules| && rules[rule].enabled && Turn(rules[rule].key) < n
      && Find(rules, v.org, rules[rule].key) == Some(rule)
  }

  /** What an evaluation adds to a pair's history: one result for each enabled default rule, nothing else. */
  function Recorded(rules: seq<AlertRule>, v: Visit, n: nat, device: nat, rule: nat): seq<Item>
    requires n <= |KEYS|
  {
    if device == v.device && Evaluated(rules, v, n, rule)
    then [Seen(v.now, ResultOf(rules, v, rule).active, ResultOf(rules, v, rule).message)] else []
  }

  lemma KeyRecords(b: Board, v: Visit, n: nat, device: nat, rule: nat, items: seq<Item>)
    requires n < |KEYS| && ItemsOf(b.history, device, rule) == items + Recorded(b.rules, v, n, device, rule)
    ensures ItemsOf(EvaluateKey(b, v, KEYS[n]).history, device, rule)
            == items + Recorded(b.rules, v, n + 1, device, rule)
  {
    hide ResultRows, ResultEvents, ResultDesk, ResultOf, Find, Turn;
    TurnsAreKeys();
    var found := Find(b.rules, v.org, KEYS[n]);
    if found.Some? && b.rules[found.value].enabled {
      var r := ResultOf(b.rules, v, found.value);
      ItemsSnoc(b.history, Entry(v.device, found.value, Seen(v.now, r.active, r.message)), device, rule);
    }
  }

  lemma {:induction false} KeysRecord(b: Board, v: Visit, n: nat, device: nat, rule: nat)
    requires n <= |KEYS|
    ensures ItemsOf(EvaluateKeys(b, v, n).history, device, rule)
            == ItemsOf(b.history, device, rule) + Recorded(b.rules, v, n, device, rule)
  {
    hide EvaluateKey, ItemsOf, ResultOf, Find, Turn;
    if n > 0 {
      KeysRecord(b, v, n - 1, device, rule);
      KeyRecords(EvaluateKeys(b, v, n - 1), v, n - 1, device, rule, ItemsOf(b.history, device, rule));
    }
  }

  /** The history of a pair is the evaluations of its rule: each one adds its result, once, and only there. */
  lemma EvaluationIsRecorded(b: Board, v: Visit, device: nat, rule: nat)
    ensures ItemsOf(Evaluate(b, v).history, device, rule)
         == ItemsOf(b.history, device, rule) + Recorded(Evaluate(b, v).rules, v, |KEYS|, device, rule)
  {
    hide Ensured, EvaluateKey;
    KeysRecord(WithRules(b, v), v, |KEYS|, device, rule);
  }

  // ---- Runs ----

  /** Evaluations, operator steps, and administrative changes of a rule's switch and parameters. */
  datatype Step =
    | Evaluation(visit: Visit)
    | Operator(org: nat, alert: nat, item: Item)
    | Tuning(rule: nat, enabled: bool, params: Params)

  predicate Allowed(b: Board, s: Step) {
    match s
    case Evaluation(_) => true
    case Operator(_, _, item) => !item.Seen?
    case Tuning(rule, _, _) => rule < |b.rules|
  }

  function Apply(b: Board, s: Step): Board
    requires Allowed(b, s)
  {
    match s
    case Evaluation(v) => Evaluate(b, v)
    case Operator(org, id, item) =>
      if item.Acknowledge? then Acknowledges(b, org, id, item.now) else Resolves(b, org, id, item.now)
    case Tuning(rule, enabled, params) =>
      b.(rules := b.rules[rule := b.rules[rule].(enabled := enabled, params := params)])
  }

  /**
   * A step of the alert tables, or of the notification desk beside them; the latter leaves the alert
   * tables as they are.
   */
  ghost predicate Happens(b: Board, s: Option<Step>, b': Board) {
    match s
    case Some(step) => Allowed(b, step) && b' == Apply(b, step)
    case None => b' == b.(desk := b'.desk)
  }

  ghost predicate Run(boards: seq<Board>, steps: seq<Option<Step>>) {
    && |boards| == |steps| + 1
    && boards[0].rules == [] && boards[0].alerts == [] && boards[0].events == [] && boards[0].history == []
    && forall i | 0 <= i < |steps| :: Happens(boards[i], steps[i], boards[i + 1])
  }

  lemma StepSound(b: Board, s: Option<Step>, b': Board)
    requires Happens(b, s, b') && Sound(b)
    ensures Sound(b')
  {
    match s
    case Some(Evaluation(v)) => EvaluationSound(b, v);
    case Some(Operator(org, id, item)) => OperatorSound(b, org, id, item);
    case Some(Tuning(rule, enabled, params)) => TuningSound(b, rule, enabled, params);
    case None =>
  }

  lemma TuningSound(b: Board, rule: nat, enabled: bool, params: Params)
    requires Sound(b) && rule < |b.rules|
    ensures Sound(b.(rules := b.rules[rule := b.rules[rule].(enabled := enabled, params := params)]))
  {
    hide OpenIsNewest, Refines;
  }

  lemma NothingIsSound(b: Board)
    requires b.rules == [] && b.alerts == [] && b.history == []
    ensures Sound(b)
  {
    assert Refines([], []);
  }

  lemma {:induction false} AlwaysSound(boards: seq<Board>, steps: seq<Option<Step>>, i: nat)
    requires Run(boards, steps) && i < |boards|
    ensures Sound(boards[i])
  {
    hide Happens;
    if i == 0 {
      NothingIsSound(boards[0]);
    } else {
      hide Sound;
      AlwaysSound(boards, steps, i - 1);
      StepSound(boards[i - 1], steps[i - 1], boards[i]);
    }
  }

  /** In every reachable state a pair has at most one alert that is not resolved. */
  lemma OpenIsUnique(boards: seq<Board>, steps: seq<Option<Step>>, i: nat, x: nat, y: nat)
    requires Run(boards, steps) && i < |boards|
    requires x < |boards[i].alerts| && y < |boards[i].alerts|
    requires Open(boards[i].alerts[x]) && Open(boards[i].alerts[y])
    requires OfPair(boards[i].alerts[x], boards[i].alerts[y].device, boards[i].alerts[y].rule)
    ensures x == y
  {
    AlwaysSound(boards, steps, i);
  }

  /**
   * Run-length refinement: in every reachable state the alerts of every device/rule pair are, in order,
   * the maximal blocks of active evaluations in that pair's history, every field read off its block.
   */
  lemma TableIsRunLengthCode(boards: seq<Board>, steps: seq<Option<Step>>, i: nat, device: nat, rule: nat)
    requires Run(boards, steps) && i < |boards|
    ensures var items := ItemsOf(boards[i].history, device, rule);
            && Blocks(items, Episodes(boards[i].alerts, device, rule), Beginnings(items))
            && (forall k | 0 <= k < |items| :: k in Beginnings(items) <==> Begins(items, k))
  {
    hide Run;
    AlwaysSound(boards, steps, i);
    hide OpenIsNewest, OneRulePerKey, FitsRules, DefaultSeverities, Blocks, Begins;
    var items := ItemsOf(boards[i].history, device, rule);
    PairRefines(boards[i].alerts, boards[i].history, device, rule);
    FoldIsBlocks(items);
    BeginningsAreAll(items);
  }
}
