/** Alert rules, the nine conditions, and what one evaluation or operator step does to the alert tables. */
module Alerts {
  import opened Base
  import opened Notifications

  const MINUTE: Time := 60_000_000
  const HOUR: Time := 60 * MINUTE
  const DAY: Time := 24 * HOUR

  /** The configured thresholds. */
  datatype Settings = Settings(offlineMinutes: int, freePercent: real, usedPercent: real, staleDays: int,
    version: string, staleHours: int)

  /** A rule's stored parameters; a missing one falls back to the setting. */
  datatype Params = Params(offlineMinutes: Option<int>, freePercent: Option<real>, usedPercent: Option<real>,
                           staleDays: Option<int>, version: Option<string>, staleHours: Option<int>)

  datatype AlertRule = AlertRule(org: nat, key: Key, severity: Severity, enabled: bool, params: Params)

  datatype Disk = Disk(name: string, filesystem: Option<string>, size: Option<int>, free: Option<int>)

  /** `details` is the section's free-form document, stored as it comes. */
  datatype Security = Security(product: Option<string>, antivirus: Option<bool>, upToDate: Option<bool>,
                               defender: Option<bool>, firewall: Option<bool>, details: string)

  datatype UpdateWord = Stale | UpdatesAreStale | Other(text: string)

  datatype Updates = Updates(pendingReboot: Option<bool>, word: Option<UpdateWord>, lastCheck: Option<Time>,
    details: string)

  /** Everything one evaluation reads: the device, its inventory tables and the check-in payload. */
  datatype Facts = Facts(hostname: string, lastSeen: Option<Time>, version: Option<string>, disks: seq<Disk>,
                         memoryTotal: Option<int>, memoryUsed: Option<int>,
                         security: Option<Security>, updates: Option<Updates>, refreshed: Option<Time>)

  /** The message of a result, as the figures its text is formatted from. */
  datatype Message =
    | NotSeen(hostname: string, minutes: int)
    | LowOnSpace(count: nat, threshold: real)
    | MemoryAt(percent: Option<real>, threshold: real)
    | Defender
    | Firewall
    | Reboot
    | NoUpdateStatus
    | UpdatesOld(days: int)
    | VersionIs(version: Option<string>, current: string)
    | NotRefreshed(hours: int)

  datatype RuleResult = RuleResult(active: bool, message: Message)

  // ---- Default rules ----

  const KEYS: seq<Key> := [DeviceOffline, LowDisk, HighMemory, DefenderDisabled, FirewallDisabled, PendingReboot,
                           UpdatesStale, AgentOutdated, InventoryStale]

  /** The position of a key in the order of evaluation. */
  function Turn(key: Key): nat {
    match key
    case DeviceOffline => 0
    case LowDisk => 1
    case HighMemory => 2
    case DefenderDisabled => 3
    case FirewallDisabled => 4
    case PendingReboot => 5
    case UpdatesStale => 6
    case AgentOutdated => 7
    case InventoryStale => 8
  }

  lemma TurnsAreKeys()
    ensures |KEYS| == 9
    ensures forall key :: Turn(key) < |KEYS| && KEYS[Turn(key)] == key
    ensures forall i | 0 <= i < |KEYS| :: Turn(KEYS[i]) == i
  {
  }

  function DefaultSeverity(key: Key): Severity {
    match key
    case DeviceOffline | DefenderDisabled | FirewallDisabled => Critical
    case _ => Warning
  }

  function DefaultParams(key: Key, s: Settings): Params {
    var none := Params(None, None, None, None, None, None);
    match key
    case DeviceOffline => none.(offlineMinutes := Some(s.offlineMinutes))
    case LowDisk => none.(freePercent := Some(s.freePercent))
    case HighMemory => none.(usedPercent := Some(s.usedPercent))
    case UpdatesStale => none.(staleDays := Some(s.staleDays))
    case AgentOutdated => none.(version := Some(s.version))
    case InventoryStale => none.(staleHours := Some(s.staleHours))
    case _ => none
  }

  function DefaultRule(org: nat, key: Key, s: Settings): AlertRule {
    AlertRule(org, key, DefaultSeverity(key), true, DefaultParams(key, s))
  }

  /** The rule a dictionary built in table order maps the key to: the last one. */
  function Find(rules: seq<AlertRule>, org: nat, key: Key): (r: Option<nat>)
    ensures r.Some? ==> r.value < |rules| && rules[r.value].org == org && rules[r.value].key == key
  {
    Latest(rules, IsRule(org, key))
  }

  function IsRule(org: nat, key: Key): AlertRule -> bool { (r: AlertRule) => r.org == org && r.key == key }

  /** The first n default keys ensured. */
  function Ensured(rules: seq<AlertRule>, org: nat, n: nat, s: Settings): seq<AlertRule>
    requires n <= |KEYS|
  {
    if n == 0 then rules
    else
      var before := Ensured(rules, org, n - 1, s);
      if Find(before, org, KEYS[n - 1]).Some? then before else before + [DefaultRule(org, KEYS[n - 1], s)]
  }

  // ---- The nine conditions ----

  function Or<T>(stored: Option<T>, setting: T): T { if stored.Some? then stored.value else setting }

  function EvalOffline(f: Facts, p: Params, s: Settings, now: Time): RuleResult {
    var minutes := Or(p.offlineMinutes, s.offlineMinutes);
    RuleResult(f.lastSeen.None? || f.lastSeen.value < now - minutes * MINUTE, NotSeen(f.hostname, minutes))
  }

  /**
   * A disk counts when its size is known and positive, its free space is known, and the share is below the threshold.
   */
  predicate IsLow(d: Disk, threshold: real) {
    && d.size.Some? && d.size.value > 0 && d.free.Some?
    && (d.free.value as real / d.size.value as real) * 100.0 < threshold
  }

  function LowDisks(disks: seq<Disk>, n: nat, threshold: real): nat
    requires n <= |disks|
  {
    if n == 0 then 0 else LowDisks(disks, n - 1, threshold) + if IsLow(disks[n - 1], threshold) then 1 else 0
  }

  function EvalLowDisk(f: Facts, p: Params, s: Settings): RuleResult {
    var threshold := Or(p.freePercent, s.freePercent);
    var low := LowDisks(f.disks, |f.disks|, threshold);
    RuleResult(low > 0, LowOnSpace(low, threshold))
  }

  function MemoryPercent(f: Facts): Option<real> {
    if f.memoryTotal.Some? && f.memoryUsed.Some? && f.memoryTotal.value > 0
    then Some((f.memoryUsed.value as real / f.memoryTotal.value as real) * 100.0)
    else None
  }

  function EvalHighMemory(f: Facts, p: Params, s: Settings): RuleResult {
    var threshold, percent := Or(p.usedPercent, s.usedPercent), MemoryPercent(f);
    RuleResult(percent.Some? && percent.value > threshold, MemoryAt(percent, threshold))
  }

  function EvalBool(reported: Option<bool>, bad: bool, message: Message): RuleResult {
    RuleResult(reported == Some(bad), message)
  }

  function EvalUpdatesStale(f: Facts, p: Params, s: Settings, now: Time): RuleResult {
    var days := Or(p.staleDays, s.staleDays);
    match f.updates
    case None => RuleResult(false, NoUpdateStatus)
    case Some(u) =>
      var explicit := u.word.Some? && !u.word.value.Other?;
      RuleResult(explicit || (u.lastCheck.Some? && u.lastCheck.value < now - days * DAY), UpdatesOld(days))
  }

  function EvalAgentVersion(f: Facts, p: Params, s: Settings): RuleResult {
    var current := Or(p.version, s.version);
    RuleResult(f.version.Some? && f.version.value != [] && f.version.value != current, VersionIs(f.version, current))
  }

  function EvalInventoryStale(f: Facts, p: Params, s: Settings, now: Time): RuleResult {
    var hours := Or(p.staleHours, s.staleHours);
    RuleResult(f.refreshed.None? || f.refreshed.value < now - hours * HOUR, NotRefreshed(hours))
  }

  /** The result of one condition under its rule's parameters. */
  function Eval(key: Key, f: Facts, p: Params, s: Settings, now: Time): RuleResult {
    match key
    case DeviceOffline => EvalOffline(f, p, s, now)
    case LowDisk => EvalLowDisk(f, p, s)
    case HighMemory => EvalHighMemory(f, p, s)
    case DefenderDisabled => EvalBool(if f.security.Some? then f.security.value.defender else None, false, Defender)
    case FirewallDisabled => EvalBool(if f.security.Some? then f.security.value.firewall else None, false, Firewall)
    case PendingReboot => EvalBool(if f.updates.Some? then f.updates.value.pendingReboot else None, true, Reboot)
    case UpdatesStale => EvalUpdatesStale(f, p, s, now)
    case AgentOutdated => EvalAgentVersion(f, p, s)
    case InventoryStale => EvalInventoryStale(f, p, s, now)
  }

  // ---- Tables ----

  datatype AlertStatus = Active | Acknowledged | Resolved

  datatype Alert = Alert(org: nat, device: nat, rule: nat, severity: Severity, status: AlertStatus, message: Message,
                         firstSeen: Time, lastSeen: Time, acknowledgedAt: Option<Time>, resolvedAt: Option<Time>)

  datatype Mark = Created(message: Message) | Repeated(message: Message) | ByOperator(acknowledged: bool) | Cleared

  datatype AlertEvent = AlertEvent(org: nat, alert: nat, mark: Mark)

  /** What happened to a device/rule pair: an evaluation, or an operator step on its open alert. */
  datatype Item = Seen(now: Time, active: bool, message: Message) | Acknowledge(now: Time) | Resolve(now: Time)

  datatype Entry = Entry(device: nat, rule: nat, item: Item)

  /** The alert tables, the notification desk they feed, and the history they are compared with. */
  datatype Board = Board(rules: seq<AlertRule>, alerts: seq<Alert>, events: seq<AlertEvent>, desk: Desk,
    history: seq<Entry>)

  predicate Open(a: Alert) { a.status != Resolved }

  predicate OfPair(a: Alert, device: nat, rule: nat) { a.device == device && a.rule == rule }

  /** The open alert of a pair; where several could exist, the query's answer would be any of them. */
  function OpenAlert(alerts: seq<Alert>, device: nat, rule: nat): (r: Option<nat>)
    ensures r.Some? ==> r.value < |alerts| && OfPair(alerts[r.value], device, rule) && Open(alerts[r.value])
  {
    Latest(alerts, IsOpenFor(device, rule))
  }

  function IsOpenFor(device: nat, rule: nat): Alert -> bool { (a: Alert) => OfPair(a, device, rule) && Open(a) }

  function NewRow(org: nat, device: nat, rule: nat, severity: Severity, message: Message, now: Time): Alert {
    Alert(org, device, rule, severity, Active, message, now, now, None, None)
  }

  function RepeatRow(a: Alert, message: Message, now: Time): Alert { a.(lastSeen := now, message := message) }

  function ClearRow(a: Alert, now: Time): Alert { a.(status := Resolved, resolvedAt := Some(now), lastSeen := now) }

  function AcknowledgeRow(a: Alert, now: Time): Alert {
    if a.status == Active then a.(status := Acknowledged, acknowledgedAt := Some(now)) else a
  }

  function ResolveRow(a: Alert, now: Time): Alert {
    if a.status != Resolved then a.(status := Resolved, resolvedAt := Some(now)) else a
  }

  /** _apply_result on the alert table. */
  function ResultRows(alerts: seq<Alert>, org: nat, device: nat, rule: nat, severity: Severity, r: RuleResult,
      now: Time): seq<Alert> {
    match OpenAlert(alerts, device, rule)
    case None => if r.active then alerts + [NewRow(org, device, rule, severity, r.message, now)] else alerts
    case Some(k) => alerts[k := if r.active then RepeatRow(alerts[k], r.message, now) else ClearRow(alerts[k], now)]
  }

  function ResultEvents(alerts: seq<Alert>, org: nat, device: nat, rule: nat, r: RuleResult): seq<AlertEvent> {
    match OpenAlert(alerts, device, rule)
    case None => if r.active then [AlertEvent(org, |alerts|, Created(r.message))] else []
    case Some(k) => [AlertEvent(alerts[k].org, k, if r.active then Repeated(r.message) else Cleared)]
  }

  /** Fan-out happens exactly when a new alert is created. */
  function ResultDesk(b: Board, org: nat, device: nat, rule: nat, r: RuleResult, now: Time): Desk
    requires rule < |b.rules|
  {
    if r.active && OpenAlert(b.alerts, device, rule).None?
    then Enqueued(b.desk, NewAlert(|b.alerts|, org, b.rules[rule].severity, b.rules[rule].key), now)
    else b.desk
  }

  function ApplyResult(b: Board, org: nat, device: nat, rule: nat, r: RuleResult, now: Time): Board
    requires rule < |b.rules|
  {
    Board(b.rules,
          ResultRows(b.alerts, org, device, rule, b.rules[rule].severity, r, now),
          b.events + ResultEvents(b.alerts, org, device, rule, r),
          ResultDesk(b, org, device, rule, r, now),
          b.history + [Entry(device, rule, Seen(now, r.active, r.message))])
  }

  /** What one evaluation is given. */
  datatype Visit = Visit(org: nat, device: nat, facts: Facts, settings: Settings, now: Time)

  function ResultOf(rules: seq<AlertRule>, v: Visit, rule: nat): RuleResult
    requires rule < |rules|
  {
    Eval(rules[rule].key, v.facts, rules[rule].params, v.settings, v.now)
  }

  /** One key of the evaluation: its rule's result is applied if the rule is enabled. */
  function EvaluateKey(b: Board, v: Visit, key: Key): (r: Board)
    ensures r.rules == b.rules
  {
    match Find(b.rules, v.org, key)
    case None => b
    case Some(rule) =>
      if b.rules[rule].enabled then ApplyResult(b, v.org, v.device, rule, ResultOf(b.rules, v, rule), v.now) else b
  }

  function EvaluateKeys(b: Board, v: Visit, n: nat): (r: Board)
    requires n <= |KEYS|
    ensures r.rules == b.rules
  {
    if n == 0 then b else EvaluateKey(EvaluateKeys(b, v, n - 1), v, KEYS[n - 1])
  }

  /** evaluate_device_alerts. */
  function Evaluate(b: Board, v: Visit): Board {
    EvaluateKeys(b.(rules := Ensured(b.rules, v.org, |KEYS|, v.settings)), v, |KEYS|)
  }

  // ---- Operators ----

  datatype OperatorReply = NotFound | Answered(alert: Alert)

  /** The alert exists and belongs to the operator's organization. */
  predicate Visible(b: Board, org: nat, id: nat) { id < |b.alerts| && b.alerts[id].org == org }

  function Acknowledges(b: Board, org: nat, id: nat, now: Time): Board {
    if Visible(b, org, id) && b.alerts[id].status == Active
    then b.(alerts := b.alerts[id := AcknowledgeRow(b.alerts[id], now)],
            events := b.events + [AlertEvent(b.alerts[id].org, id, ByOperator(true))],
            history := b.history + [Entry(b.alerts[id].device, b.alerts[id].rule, Acknowledge(now))])
    else b
  }

  function Resolves(b: Board, org: nat, id: nat, now: Time): Board {
    if Visible(b, org, id) && Open(b.alerts[id])
    then b.(alerts := b.alerts[id := ResolveRow(b.alerts[id], now)],
            events := b.events + [AlertEvent(b.alerts[id].org, id, ByOperator(false))],
            history := b.history + [Entry(b.alerts[id].device, b.alerts[id].rule, Resolve(now))])
    else b
  }

  // ---- What the conditions mean ----

  lemma {:induction false} LowDiskExists(disks: seq<Disk>, n: nat, threshold: real)
    requires n <= |disks|
    ensures LowDisks(disks, n, threshold) > 0 <==> exists i | 0 <= i < n :: IsLow(disks[i], threshold)
    ensures LowDisks(disks, n, threshold) <= n
  {
    if n > 0 {
      LowDiskExists(disks, n - 1, threshold);
    }
  }

  /** After ensuring, every default key has a rule of the organization, and existing rules are untouched. */
  lemma {:induction false} EnsuredHas(rules: seq<AlertRule>, org: nat, n: nat, s: Settings, i: nat)
    requires i < n <= |KEYS|
    ensures Find(Ensured(rules, org, n, s), org, KEYS[i]).Some?
  {
    hide Latest, DefaultParams;
    var before := Ensured(rules, org, n - 1, s);
    if i < n - 1 {
      EnsuredHas(rules, org, n - 1, s, i);
    }
    if Find(before, org, KEYS[n - 1]).None? {
      LatestAppended(before, DefaultRule(org, KEYS[n - 1], s), IsRule(org, KEYS[i]));
    }
  }

  lemma {:induction false} EnsuredExtends(rules: seq<AlertRule>, org: nat, n: nat, s: Settings)
    requires n <= |KEYS|
    ensures rules <= Ensured(rules, org, n, s)
    ensures forall i | |rules| <= i < |Ensured(rules, org, n, s)| ::
              var r := Ensured(rules, org, n, s)[i]; r == DefaultRule(org, r.key, s)
  {
    if n > 0 {
      EnsuredExtends(rules, org, n - 1, s);
    }
  }

  /** With nothing new reported, time only makes conditions worse: one that holds keeps holding. */
  lemma TimeOnlyAggravates(key: Key, f: Facts, p: Params, s: Settings, now: Time, later: Time)
    requires now <= later && Eval(key, f, p, s, now).active
    ensures Eval(key, f, p, s, later).active
  {
  }

  /**
   * Through a check-in, whose payload carries no used memory and which has just stamped the device as seen,
   * the memory and offline conditions never hold (for a window of at least zero minutes).
   */
  lemma CheckinNeverOffline(f: Facts, p: Params, s: Settings, now: Time)
    requires f.lastSeen == Some(now) && f.memoryUsed.None?
    ensures !Eval(HighMemory, f, p, s, now).active
    ensures Eval(DeviceOffline, f, p, s, now).active <==> Or(p.offlineMinutes, s.offlineMinutes) < 0
  {
    var minutes := Or(p.offlineMinutes, s.offlineMinutes);
    assert Eval(DeviceOffline, f, p, s, now).active <==> now < now - minutes * MINUTE;
  }
}
