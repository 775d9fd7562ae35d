/** The default rules and the nine conditions written out: the thresholds, the comparisons and the messages. */
module AlertConditions {
  import opened Base
  import opened Notifications
  import opened Alerts
  import opened AlertHistory
  import opened AlertRuns

  // ---- The conditions ----

  /** The disk's size is known and positive, its free space is known, and is less than this percentage of the size. */
  predicate Short(d: Disk, percent: real) {
    match (d.size, d.free)
    case (Some(size), Some(free)) => 0 < size && free as real / size as real * 100.0 < percent
    case _ => false
  }

  predicate AnyShort(disks: seq<Disk>, percent: real) { exists i | 0 <= i < |disks| :: Short(disks[i], percent) }

  /** The condition of each key; a threshold is the rule's, or the setting where the rule stores none. */
  ghost predicate Holds(key: Key, f: Facts, p: Params, s: Settings, now: Time) {
    match key
    case DeviceOffline =>
      var minutes := if p.offlineMinutes == None then s.offlineMinutes else p.offlineMinutes.value;
      f.lastSeen == None || now - f.lastSeen.value > 60_000_000 * minutes
    case LowDisk =>
      var percent := if p.freePercent == None then s.freePercent else p.freePercent.value;
      AnyShort(f.disks, percent)
    case HighMemory =>
      var percent := if p.usedPercent == None then s.usedPercent else p.usedPercent.value;
      && f.memoryTotal.Some? && f.memoryUsed.Some? && 0 < f.memoryTotal.value
      && percent < f.memoryUsed.value as real / f.memoryTotal.value as real * 100.0
    case DefenderDisabled => f.security.Some? && f.security.value.defender == Some(false)
    case FirewallDisabled => f.security.Some? && f.security.value.firewall == Some(false)
    case PendingReboot => f.updates.Some? && f.updates.value.pendingReboot == Some(true)
    case UpdatesStale =>
      var days := if p.staleDays == None then s.staleDays else p.staleDays.value;
      f.updates.Some? && StaleUpdates(f.updates.value, days, now)
    case AgentOutdated =>
      f.version.Some? && f.version.value != []
        && f.version != (if p.version == None then Some(s.version) else p.version)
    case InventoryStale =>
      var hours := if p.staleHours == None then s.staleHours else p.staleHours.value;
      f.refreshed == None || now - f.refreshed.value > 3_600_000_000 * hours
  }

  /** The section says so in one of the two words, or the last check is more than this many days ago. */
  predicate StaleUpdates(u: Updates, days: int, now: Time) {
    || u.word == Some(Stale) || u.word == Some(UpdatesAreStale)
    || (u.lastCheck.Some? && now - u.lastCheck.value > 86_400_000_000 * days)
  }

  /** The message of each key. */
  ghost predicate Says(key: Key, f: Facts, p: Params, s: Settings, m: Message) {
    match key
    case DeviceOffline =>
      m == NotSeen(f.hostname, if p.offlineMinutes == None then s.offlineMinutes else p.offlineMinutes.value)
    case LowDisk =>
      var percent := if p.freePercent == None then s.freePercent else p.freePercent.value;
      m == LowOnSpace(|ShortDisks(f.disks, |f.disks|, percent)|, percent)
    case HighMemory =>
      && m.MemoryAt?
      && m.threshold == (if p.usedPercent == None then s.usedPercent else p.usedPercent.value)
      && (m.percent.Some? <==> f.memoryTotal.Some? && f.memoryUsed.Some? && 0 < f.memoryTotal.value)
      && (m.percent.Some? ==> m.percent.value == f.memoryUsed.value as real / f.memoryTotal.value as real * 100.0)
    case DefenderDisabled => m == Defender
    case FirewallDisabled => m == Firewall
    case PendingReboot => m == Reboot
    case UpdatesStale =>
      if f.updates == None then m == NoUpdateStatus
      else m == UpdatesOld(if p.staleDays == None then s.staleDays else p.staleDays.value)
    case AgentOutdated => m == VersionIs(f.version, if p.version == None then s.version else p.version.value)
    case InventoryStale => m == NotRefreshed(if p.staleHours == None then s.staleHours else p.staleHours.value)
  }

  /** The positions of the short disks among the first n. */
  function ShortDisks(disks: seq<Disk>, n: nat, percent: real): set<nat>
    requires n <= |disks|
  {
    set i: nat | i < n && Short(disks[i], percent)
  }

  lemma {:induction false} ShortDisksCount(disks: seq<Disk>, n: nat, percent: real)
    requires n <= |disks|
    ensures |ShortDisks(disks, n, percent)| == LowDisks(disks, n, percent)
  {
    if n > 0 {
      ShortDisksCount(disks, n - 1, percent);
      var before := ShortDisks(disks, n - 1, percent);
      assert ShortDisks(disks, n, percent) == if Short(disks[n - 1], percent) then before + {n - 1} else before;
    }
  }

  /** Every evaluation of a condition decides and says what is written out above. */
  lemma ConditionsAreTheseNine(key: Key, f: Facts, p: Params, s: Settings, now: Time)
    ensures Eval(key, f, p, s, now).active <==> Holds(key, f, p, s, now)
    ensures Says(key, f, p, s, Eval(key, f, p, s, now).message)
  {
    hide LowDisks, ShortDisks;
    if key == LowDisk {
      var percent := if p.freePercent == None then s.freePercent else p.freePercent.value;
      LowDiskExists(f.disks, |f.disks|, percent);
      ShortDisksCount(f.disks, |f.disks|, percent);
    }
  }

  // ---- The default rules ----

  /** The nine rules every organization starts with. */
  predicate IsDefault(r: AlertRule, s: Settings) {
    && r.enabled
    && (r.severity == if r.key in {DeviceOffline, DefenderDisabled, FirewallDisabled} then Critical else Warning)
    && r.params.offlineMinutes == (if r.key == DeviceOffline then Some(s.offlineMinutes) else None)
    && r.params.freePercent == (if r.key == LowDisk then Some(s.freePercent) else None)
    && r.params.usedPercent == (if r.key == HighMemory then Some(s.usedPercent) else None)
    && r.params.staleDays == (if r.key == UpdatesStale then Some(s.staleDays) else None)
    && r.params.version == (if r.key == AgentOutdated then Some(s.version) else None)
    && r.params.staleHours == (if r.key == InventoryStale then Some(s.staleHours) else None)
  }

  ghost predicate HasRule(rules: seq<AlertRule>, org: nat, key: Key) {
    exists i | 0 <= i < |rules| :: rules[i].org == org && rules[i].key == key
  }

  lemma FindIsHas(rules: seq<AlertRule>, org: nat, key: Key)
    ensures Find(rules, org, key).Some? <==> HasRule(rules, org, key)
  {
    if Find(rules, org, key).None? {
      LatestNone(rules, IsRule(org, key));
    }
  }

  /** The keys ensured so far are missing from the start, or have no new rule. */
  predicate OnlyMissing(rules: seq<AlertRule>, rules': seq<AlertRule>, org: nat, s: Settings) {
    && rules <= rules'
    && forall i | |rules| <= i < |rules'| :: rules'[i].org == org && IsDefault(rules'[i], s)
  }

  lemma {:induction false} EnsuredAddsMissing(rules: seq<AlertRule>, org: nat, n: nat, s: Settings)
    requires n <= |KEYS|
    ensures OnlyMissing(rules, Ensured(rules, org, n, s), org, s)
    ensures forall i | |rules| <= i < |Ensured(rules, org, n, s)| ::
            !HasRule(rules, org, Ensured(rules, org, n, s)[i].key)
  {
    hide HasRule, Find;
    if n > 0 {
      EnsuredAddsMissing(rules, org, n - 1, s);
      var before := Ensured(rules, org, n - 1, s);
      FindIsHas(before, org, KEYS[n - 1]);
      if HasRule(rules, org, KEYS[n - 1]) {
        HasMore(rules, before, org, KEYS[n - 1]);
      }
    }
  }

  lemma HasMore(rules: seq<AlertRule>, more: seq<AlertRule>, org: nat, key: Key)
    requires rules <= more && HasRule(rules, org, key)
    ensures HasRule(more, org, key)
  {
    var i :| 0 <= i < |rules| && rules[i].org == org && rules[i].key == key;
    assert more[i] == rules[i];
  }

  /**
   * An evaluation gives the organization a rule for each of the nine keys: those it has stay as they are, and
   * each one added is for a key it had no rule for, enabled, with the key's severity and configured threshold.
   */
  lemma EvaluationEnsuresRules(b: Board, v: Visit)
    ensures OnlyMissing(b.rules, Evaluate(b, v).rules, v.org, v.settings)
    ensures forall i | |b.rules| <= i < |Evaluate(b, v).rules| :: !HasRule(b.rules, v.org, Evaluate(b, v).rules[i].key)
    ensures forall key :: HasRule(Evaluate(b, v).rules, v.org, key)
  {
    hide HasRule, Ensured, OnlyMissing, EvaluateKey;
    EnsuredAddsMissing(b.rules, v.org, |KEYS|, v.settings);
    TurnsAreKeys();
    hide Turn;
    forall key ensures HasRule(Evaluate(b, v).rules, v.org, key) {
      EnsuredHas(b.rules, v.org, |KEYS|, v.settings, Turn(key));
      FindIsHas(Evaluate(b, v).rules, v.org, key);
    }
  }

  // ---- What an evaluation leaves open ----

  /** Some alert of the device and rule is not resolved. */
  ghost predicate HasOpen(alerts: seq<Alert>, device: nat, rule: nat) {
    exists i | 0 <= i < |alerts| :: alerts[i].device == device && alerts[i].rule == rule && alerts[i].status != Resolved
  }

  lemma OpenIsHas(alerts: seq<Alert>, device: nat, rule: nat)
    ensures OpenAlert(alerts, device, rule).Some? <==> HasOpen(alerts, device, rule)
  {
    if OpenAlert(alerts, device, rule).None? {
      LatestNone(alerts, IsOpenFor(device, rule));
    }
  }

  lemma FindIsOnly(rules: seq<AlertRule>, rule: nat)
    requires OneRulePerKey(rules) && rule < |rules|
    ensures Find(rules, rules[rule].org, rules[rule].key) == Some(rule)
  {
    FindIsHas(rules, rules[rule].org, rules[rule].key);
  }

  lemma SoundHasOneRule(b: Board)
    requires Sound(b)
    ensures OneRulePerKey(b.rules)
  {
    hide OpenIsNewest, Refines, OneRulePerKey;
  }

  /**
   * After an evaluation of any facts, the device has an open alert under an enabled rule of its organization
   * exactly when that rule's condition, written out, holds of the facts.
   */
  lemma EvaluationDecides(b: Board, v: Visit, rule: nat)
    requires Sound(b)
    requires var r := Evaluate(b, v).rules; rule < |r| && r[rule].org == v.org && r[rule].enabled
    ensures var b' := Evaluate(b, v);
            HasOpen(b'.alerts, v.device, rule)
            <==> Holds(b'.rules[rule].key, v.facts, b'.rules[rule].params, v.settings, v.now)
  {
    hide Sound, Evaluate, Find, HasOpen, Holds, Eval, OneRulePerKey, OpenAlert, OthersUntouched;
    var b' := Evaluate(b, v);
    EvaluationSound(b, v);
    SoundHasOneRule(b');
    FindIsOnly(b'.rules, rule);
    EvaluationAgrees(b, v, b'.rules[rule].key);
    OpenIsHas(b'.alerts, v.device, rule);
    ConditionsAreTheseNine(b'.rules[rule].key, v.facts, b'.rules[rule].params, v.settings, v.now);
  }

  /** And it adds one item to that rule's history, saying what was found, and when; nothing to any other pair. */
  lemma EvaluationRecords(b: Board, v: Visit, device: nat, rule: nat) returns (active: bool, message: Message)
    requires Sound(b)
    ensures var b' := Evaluate(b, v);
            var mine := device == v.device && rule < |b'.rules| && b'.rules[rule].org == v.org
              && b'.rules[rule].enabled;
            && ItemsOf(b'.history, device, rule)
               == ItemsOf(b.history, device, rule) + (if mine then [Seen(v.now, active, message)] else [])
            && (mine ==> (active <==> Holds(b'.rules[rule].key, v.facts, b'.rules[rule].params, v.settings, v.now)))
            && (mine ==> Says(b'.rules[rule].key, v.facts, b'.rules[rule].params, v.settings, message))
  {
    hide Sound, Evaluate, Find, Holds, Says, Eval, OneRulePerKey, ItemsOf, Turn;
    var b' := Evaluate(b, v);
    EvaluationSound(b, v);
    SoundHasOneRule(b');
    EvaluationIsRecorded(b, v, device, rule);
    active, message := false, Defender;
    if rule < |b'.rules| {
      TurnsAreKeys();
      FindIsOnly(b'.rules, rule);
      FindOfOrg(b'.rules, v.org, b'.rules[rule].key);
      ConditionsAreTheseNine(b'.rules[rule].key, v.facts, b'.rules[rule].params, v.settings, v.now);
      active, message := ResultOf(b'.rules, v, rule).active, ResultOf(b'.rules, v, rule).message;
    }
  }

  lemma FindOfOrg(rules: seq<AlertRule>, org: nat, key: Key)
    ensures Find(rules, org, key).Some? ==>
              Find(rules, org, key).value < |rules| && rules[Find(rules, org, key).value].org == org
  {
  }
}
