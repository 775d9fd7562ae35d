/** End to end: what a device reports decides which of its alerts are open. */
module CheckInResults {
  import opened Base
  import opened Backend
  import opened BackendRuns
  import N = Notifications
  import E = Enrollment
  import I = Inventory
  import IR = InventoryRuns
  import A = Alerts
  import AR = AlertRuns
  import AC = AlertConditions

  /** The facts of a check-in, read off what the device reported: in this request, and in its last inventories. */
  function ReportedFacts(c: CheckIn, log: seq<I.Receipt>): A.Facts {
    var device := c.visit.device;
    var last, security, updates := IR.LastReceipt(log, device), IR.LastSecurity(log, device),
      IR.LastUpdates(log, device);
    A.Facts(c.visit.profile.hostname, Some(c.visit.now), Some(c.visit.profile.version),
            if last.Some? then last.value.payload.disks else [], c.memoryTotal, None,
            if security.Some? then Some(security.value.0) else None,
            if updates.Some? then Some(updates.value.0) else None,
            if last.Some? then Some(last.value.now) else None)
  }

  lemma FactsAreReported(g: E.Registry, s: I.Shelf, c: CheckIn)
    requires c.visit.device < |g.devices| && IR.ShelfFits(s, c.visit.device)
    requires g.devices[c.visit.device].profile == c.visit.profile
             && g.devices[c.visit.device].lastSeen == Some(c.visit.now)
    ensures FactsOf(g, s, c.visit.device, c.memoryTotal) == ReportedFacts(c, s.log)
  {
    hide I.Stored, I.ItemsOf, IR.LastReceipt, IR.LastSecurity, IR.LastUpdates;
  }

  lemma VisitStamps(g: E.Registry, v: E.Visit)
    requires E.Accepts(g, v)
    ensures var g' := E.AfterVisit(g, v);
            && v.device < |g.devices| == |g'.devices| && g'.devices[v.device].org == g.devices[v.device].org
            && g'.devices[v.device].profile == v.profile && g'.devices[v.device].lastSeen == Some(v.now)
  {
  }

  /** The evaluation of a check-in is of the reported facts. */
  lemma VisitIsReported(flush: bool, setting: int, w: World, c: CheckIn)
    requires Sound(flush, setting, w) && E.Accepts(w.registry, c.visit)
    ensures c.visit.device < |w.registry.devices|
    ensures VisitOf(w, c) == A.Visit(w.registry.devices[c.visit.device].org, c.visit.device,
                                     ReportedFacts(c, AfterCheckIn(w, c).shelf.log), c.settings, c.visit.now)
  {
    hide E.Accepts, E.AfterVisit, ShelfAfter, FactsOf, ReportedFacts, A.Evaluate, IR.ShelfFits;
    CheckInSound(flush, setting, w, c);
    VisitStamps(w.registry, c.visit);
    var w' := AfterCheckIn(w, c);
    ShelfIsSound(flush, setting, w');
    FactsAreReported(w'.registry, w'.shelf, c);
  }

  lemma ShelfIsSound(flush: bool, setting: int, w: World)
    requires Sound(flush, setting, w)
    ensures forall device: nat :: IR.ShelfFits(w.shelf, device)
    ensures AR.Sound(w.board)
  {
    hide IR.ShelfFits, AR.Sound;
  }

  /** The alert of this key is open for the device. */
  predicate IsOpen(w: World, device: nat, org: nat, key: N.Key) {
    var rule := A.Find(w.board.rules, org, key);
    rule.Some? && A.OpenAlert(w.board.alerts, device, rule.value).Some?
  }

  /** The organization's rule for this key, if it is enabled. */
  predicate IsEnabled(w: World, org: nat, key: N.Key) {
    var rule := A.Find(w.board.rules, org, key);
    rule.Some? && w.board.rules[rule.value].enabled
  }

  function ParamsOf(w: World, org: nat, key: N.Key): A.Params
    requires IsEnabled(w, org, key)
  {
    w.board.rules[A.Find(w.board.rules, org, key).value].params
  }

  /**
   * After any accepted check-in, in any reachable state, the alert of every enabled key is open exactly when
   * its condition holds of what the device reported: this request and its latest inventory sections.
   */
  lemma CheckInDecidesAlerts(flush: bool, setting: int, w: World, c: CheckIn, key: N.Key)
    requires Sound(flush, setting, w) && E.Accepts(w.registry, c.visit)
    ensures c.visit.device < |w.registry.devices|
    ensures var w', org := AfterCheckIn(w, c), w.registry.devices[c.visit.device].org;
            && A.Find(w'.board.rules, org, key).Some?
            && (IsEnabled(w', org, key) ==>
                  (IsOpen(w', c.visit.device, org, key)
                   <==> A.Eval(key, ReportedFacts(c, w'.shelf.log), ParamsOf(w', org, key), c.settings,
                     c.visit.now).active))
  {
    hide Sound, E.Accepts, E.AfterVisit, ShelfAfter, FactsOf, ReportedFacts, A.Evaluate, A.OpenAlert, A.Eval, A.Find,
      AR.Sound, AR.OthersUntouched;
    VisitIsReported(flush, setting, w, c);
    ShelfIsSound(flush, setting, w);
    AR.EvaluationAgrees(w.board, VisitOf(w, c), key);
  }

  /** A check-in that carries an inventory decides the disk and freshness alerts on its own. */
  lemma InventoryDecidesItsAlerts(flush: bool, setting: int, w: World, c: CheckIn)
    requires Sound(flush, setting, w) && E.Accepts(w.registry, c.visit) && c.inventory.Some?
    ensures c.visit.device < |w.registry.devices|
    ensures var w', org := AfterCheckIn(w, c), w.registry.devices[c.visit.device].org;
            && (IsEnabled(w', org, N.LowDisk) ==>
                  (IsOpen(w', c.visit.device, org, N.LowDisk)
                   <==> exists i | 0 <= i < |c.inventory.value.disks| ::
                          A.IsLow(c.inventory.value.disks[i],
                            A.Or(ParamsOf(w', org, N.LowDisk).freePercent, c.settings.freePercent))))
            && (IsEnabled(w', org, N.InventoryStale) ==>
                  (IsOpen(w', c.visit.device, org, N.InventoryStale)
                   <==> A.Or(ParamsOf(w', org, N.InventoryStale).staleHours, c.settings.staleHours) < 0))
  {
    hide Sound, E.Accepts, E.AfterVisit, A.Evaluate, IsOpen, IsEnabled, ParamsOf, ShelfAfter, VisitOf;
    CheckInDecidesAlerts(flush, setting, w, c, N.LowDisk);
    CheckInDecidesAlerts(flush, setting, w, c, N.InventoryStale);
    var w', org := AfterCheckIn(w, c), w.registry.devices[c.visit.device].org;
    LastIsThis(w, c, org);
    var disks := c.inventory.value.disks;
    if IsEnabled(w', org, N.LowDisk) {
      A.LowDiskExists(disks, |disks|, A.Or(ParamsOf(w', org, N.LowDisk).freePercent, c.settings.freePercent));
    }
    if IsEnabled(w', org, N.InventoryStale) {
      StaleByHours(ReportedFacts(c, w'.shelf.log), ParamsOf(w', org, N.InventoryStale), c.settings, c.visit.now);
    }
  }

  lemma StaleByHours(f: A.Facts, p: A.Params, s: A.Settings, now: int)
    requires f.refreshed == Some(now)
    ensures A.Eval(N.InventoryStale, f, p, s, now).active <==> A.Or(p.staleHours, s.staleHours) < 0
  {
    var hours := A.Or(p.staleHours, s.staleHours);
    assert A.Eval(N.InventoryStale, f, p, s, now).active <==> now < now - hours * A.HOUR;
  }

  lemma LastIsThis(w: World, c: CheckIn, org: nat)
    requires c.inventory.Some?
    ensures var facts := ReportedFacts(c, ShelfAfter(w.shelf, c, org).log);
            facts.disks == c.inventory.value.disks && facts.refreshed == Some(c.visit.now)
  {
    var r := I.Receipt(c.visit.device, c.visit.profile, c.inventory.value, c.visit.now);
    hide I.Put, I.Replaced, IR.LastReceipt, IR.LastSecurity, IR.LastUpdates;
    IR.LastSnoc(w.shelf.log, r, c.visit.device);
  }

  /** Through check-ins the memory alert never opens, and the offline alert only under a negative window. */
  lemma NeverOfflineByCheckIn(flush: bool, setting: int, w: World, c: CheckIn)
    requires Sound(flush, setting, w) && E.Accepts(w.registry, c.visit)
    ensures c.visit.device < |w.registry.devices|
    ensures var w', org := AfterCheckIn(w, c), w.registry.devices[c.visit.device].org;
            && (IsEnabled(w', org, N.HighMemory) ==> !IsOpen(w', c.visit.device, org, N.HighMemory))
            && (IsEnabled(w', org, N.DeviceOffline) ==>
                  (IsOpen(w', c.visit.device, org, N.DeviceOffline)
                   <==> A.Or(ParamsOf(w', org, N.DeviceOffline).offlineMinutes, c.settings.offlineMinutes) < 0))
  {
    hide Sound, E.Accepts, E.AfterVisit, A.Evaluate, IsOpen, IsEnabled, ParamsOf, ShelfAfter, VisitOf, A.Eval;
    CheckInDecidesAlerts(flush, setting, w, c, N.HighMemory);
    CheckInDecidesAlerts(flush, setting, w, c, N.DeviceOffline);
    var w', org := AfterCheckIn(w, c), w.registry.devices[c.visit.device].org;
    var facts := ReportedFacts(c, w'.shelf.log);
    if IsEnabled(w', org, N.HighMemory) {
      A.CheckinNeverOffline(facts, ParamsOf(w', org, N.HighMemory), c.settings, c.visit.now);
    }
    if IsEnabled(w', org, N.DeviceOffline) {
      A.CheckinNeverOffline(facts, ParamsOf(w', org, N.DeviceOffline), c.settings, c.visit.now);
    }
  }

  /** A check-in leaves every other device alone: its alerts, its inventory, its row and all jobs. */
  lemma CheckInIsLocal(flush: bool, setting: int, w: World, c: CheckIn, other: nat)
    requires Sound(flush, setting, w) && other != c.visit.device
    ensures var w' := AfterCheckIn(w, c);
            && w'.jobs == w.jobs
            && (other < |w.registry.devices| ==>
                 other < |w'.registry.devices| && w'.registry.devices[other] == w.registry.devices[other])
            && I.ItemsOf(w'.shelf.disks, other) == I.ItemsOf(w.shelf.disks, other)
            && I.ItemsOf(w'.shelf.interfaces, other) == I.ItemsOf(w.shelf.interfaces, other)
            && I.ItemsOf(w'.shelf.software, other) == I.ItemsOf(w.shelf.software, other)
            && I.Stored(w'.shelf.summaries, other) == I.Stored(w.shelf.summaries, other)
            && I.Stored(w'.shelf.security, other) == I.Stored(w.shelf.security, other)
            && I.Stored(w'.shelf.updates, other) == I.Stored(w.shelf.updates, other)
            && |w.board.alerts| <= |w'.board.alerts|
            && (forall i | 0 <= i < |w'.board.alerts| && w'.board.alerts[i].device == other ::
                  i < |w.board.alerts| && w'.board.alerts[i] == w.board.alerts[i])
  {
    hide I.ItemsOf, I.Stored, A.Evaluate, I.Upserted, FactsOf, AR.Sound, IR.ShelfFits, IR.Unique;
    if E.Accepts(w.registry, c.visit) {
      ShelfIsUnique(flush, setting, w);
      hide Sound;
      ShelfIsSound(flush, setting, w);
      var org := w.registry.devices[c.visit.device].org;
      if c.inventory.Some? {
        IR.OthersUntouched(w.shelf, c.visit.device, org, c.visit.profile, c.inventory.value, c.visit.now, other);
      }
      AR.EvaluationAgrees(w.board, VisitOf(w, c), N.LowDisk);
    }
  }

  lemma ShelfIsUnique(flush: bool, setting: int, w: World)
    requires Sound(flush, setting, w)
    ensures IR.Unique(w.shelf)
  {
    hide AR.Sound;
  }

  /** An accepted check-in adds its inventory to what was received, if it carries one, and nothing else does. */
  lemma CheckInIsReceived(w: World, c: CheckIn)
    ensures AfterCheckIn(w, c).shelf.log
         == w.shelf.log + if E.Accepts(w.registry, c.visit) && c.inventory.Some?
                          then [I.Receipt(c.visit.device, c.visit.profile, c.inventory.value, c.visit.now)] else []
  {
    hide I.Put, I.Replaced, A.Evaluate, FactsOf;
  }

  // ---- Every alert of a check-in, on the reported fields ----

  /** Receipt k is the device's last in the log. */
  predicate IsLast(log: seq<I.Receipt>, device: nat, k: nat) {
    k < |log| && log[k].device == device && forall j | k < j < |log| :: log[j].device != device
  }

  /** Receipt k is the device's last with a security section. */
  predicate IsLastSecurity(log: seq<I.Receipt>, device: nat, k: nat) {
    && k < |log| && log[k].device == device && log[k].payload.security.Some?
    && forall j | k < j < |log| && log[j].device == device :: log[j].payload.security.None?
  }

  /** Receipt k is the device's last with an updates section. */
  predicate IsLastUpdates(log: seq<I.Receipt>, device: nat, k: nat) {
    && k < |log| && log[k].device == device && log[k].payload.updates.Some?
    && forall j | k < j < |log| && log[j].device == device :: log[j].payload.updates.None?
  }

  lemma {:induction false} LastIsInLog(log: seq<I.Receipt>, device: nat)
    ensures match IR.LastReceipt(log, device)
            case None => forall k: nat :: !IsLast(log, device, k)
            case Some(r) => exists k: nat :: IsLast(log, device, k) && log[k] == r
  {
    if log != [] {
      var last := |log| - 1;
      LastIsInLog(log[..last], device);
      if log[last].device == device {
        assert IsLast(log, device, last);
      } else {
        forall k: nat ensures IsLast(log, device, k) <==> IsLast(log[..last], device, k) {
        }
      }
    }
  }

  lemma {:induction false} LastSecurityIsInLog(log: seq<I.Receipt>, device: nat)
    ensures match IR.LastSecurity(log, device)
            case None => forall k: nat :: !IsLastSecurity(log, device, k)
            case Some(s) => exists k: nat :: IsLastSecurity(log, device, k) && log[k].payload.security == Some(s.0)
  {
    if log != [] {
      var last := |log| - 1;
      LastSecurityIsInLog(log[..last], device);
      if log[last].device == device && log[last].payload.security.Some? {
        assert IsLastSecurity(log, device, last);
      } else {
        forall k: nat ensures IsLastSecurity(log, device, k) <==> IsLastSecurity(log[..last], device, k) {
        }
      }
    }
  }

  lemma {:induction false} LastUpdatesIsInLog(log: seq<I.Receipt>, device: nat)
    ensures match IR.LastUpdates(log, device)
            case None => forall k: nat :: !IsLastUpdates(log, device, k)
            case Some(u) => exists k: nat :: IsLastUpdates(log, device, k) && log[k].payload.updates == Some(u.0)
  {
    if log != [] {
      var last := |log| - 1;
      LastUpdatesIsInLog(log[..last], device);
      if log[last].device == device && log[last].payload.updates.Some? {
        assert IsLastUpdates(log, device, last);
      } else {
        forall k: nat ensures IsLastUpdates(log, device, k) <==> IsLastUpdates(log[..last], device, k) {
        }
      }
    }
  }

  lemma {:induction false} OneIsLast(log: seq<I.Receipt>, device: nat, a: nat, b: nat)
    ensures IsLast(log, device, a) && IsLast(log, device, b) ==> a == b
    ensures IsLastSecurity(log, device, a) && IsLastSecurity(log, device, b) ==> a == b
    ensures IsLastUpdates(log, device, a) && IsLastUpdates(log, device, b) ==> a == b
  {
  }

  /** The check-in's facts, receipt by receipt. */
  ghost predicate FactsAre(f: A.Facts, c: CheckIn, log: seq<I.Receipt>) {
    var device := c.visit.device;
    && f.hostname == c.visit.profile.hostname && f.lastSeen == Some(c.visit.now)
    && f.version == Some(c.visit.profile.version) && f.memoryUsed == None
    && (forall k: nat | IsLast(log, device, k) :: f.disks == log[k].payload.disks && f.refreshed == Some(log[k].now))
    && ((forall k: nat :: !IsLast(log, device, k)) ==> f.disks == [] && f.refreshed == None)
    && (forall k: nat | IsLastSecurity(log, device, k) :: f.security == log[k].payload.security)
    && ((forall k: nat :: !IsLastSecurity(log, device, k)) ==> f.security == None)
    && (forall k: nat | IsLastUpdates(log, device, k) :: f.updates == log[k].payload.updates)
    && ((forall k: nat :: !IsLastUpdates(log, device, k)) ==> f.updates == None)
  }

  lemma ReportedFactsAre(c: CheckIn, log: seq<I.Receipt>)
    ensures FactsAre(ReportedFacts(c, log), c, log)
  {
    hide IR.LastReceipt, IR.LastSecurity, IR.LastUpdates, IsLast, IsLastSecurity, IsLastUpdates;
    LastIsInLog(log, c.visit.device);
    LastSecurityIsInLog(log, c.visit.device);
    LastUpdatesIsInLog(log, c.visit.device);
    forall a, b
      ensures IsLast(log, c.visit.device, a) && IsLast(log, c.visit.device, b) ==> a == b
      ensures IsLastSecurity(log, c.visit.device, a) && IsLastSecurity(log, c.visit.device, b) ==> a == b
      ensures IsLastUpdates(log, c.visit.device, a) && IsLastUpdates(log, c.visit.device, b) ==> a == b
    {
      OneIsLast(log, c.visit.device, a, b);
    }
  }

  /** What an open alert means after a check-in, key by key, on the fields the device reported. */
  ghost predicate Reported(key: N.Key, c: CheckIn, log: seq<I.Receipt>, p: A.Params) {
    var device, now, s := c.visit.device, c.visit.now, c.settings;
    match key
    case DeviceOffline => (if p.offlineMinutes == None then s.offlineMinutes else p.offlineMinutes.value) < 0
    case LowDisk =>
      var percent := if p.freePercent == None then s.freePercent else p.freePercent.value;
      exists k: nat :: IsLast(log, device, k) && AC.AnyShort(log[k].payload.disks, percent)
    case HighMemory => false
    case DefenderDisabled =>
      exists k: nat :: IsLastSecurity(log, device, k) && log[k].payload.security.value.defender == Some(false)
    case FirewallDisabled =>
      exists k: nat :: IsLastSecurity(log, device, k) && log[k].payload.security.value.firewall == Some(false)
    case PendingReboot =>
      exists k: nat :: IsLastUpdates(log, device, k) && log[k].payload.updates.value.pendingReboot == Some(true)
    case UpdatesStale =>
      var days := if p.staleDays == None then s.staleDays else p.staleDays.value;
      exists k: nat :: IsLastUpdates(log, device, k) && AC.StaleUpdates(log[k].payload.updates.value, days, now)
    case AgentOutdated =>
      && c.visit.profile.version != []
      && c.visit.profile.version != (if p.version == None then s.version else p.version.value)
    case InventoryStale =>
      var hours := if p.staleHours == None then s.staleHours else p.staleHours.value;
      forall k: nat | IsLast(log, device, k) :: now - log[k].now > 3_600_000_000 * hours
  }

  lemma NothingIsShort()
    ensures forall percent :: !AC.AnyShort([], percent)
  {
  }

  lemma ReportedIsHolds(key: N.Key, c: CheckIn, log: seq<I.Receipt>, p: A.Params, f: A.Facts)
    requires FactsAre(f, c, log)
    ensures AC.Holds(key, f, p, c.settings, c.visit.now) <==> Reported(key, c, log, p)
  {
    hide AC.AnyShort, AC.StaleUpdates;
    NothingIsShort();
    var device := c.visit.device;
    if k: nat :| key in {N.LowDisk, N.InventoryStale} && IsLast(log, device, k) {
      assert f.disks == log[k].payload.disks && f.refreshed == Some(log[k].now);
    }
    if k: nat :| key in {N.DefenderDisabled, N.FirewallDisabled} && IsLastSecurity(log, device, k) {
      assert f.security == log[k].payload.security;
    }
    if k: nat :| key in {N.PendingReboot, N.UpdatesStale} && IsLastUpdates(log, device, k) {
      assert f.updates == log[k].payload.updates;
    }
  }

  /**
   * After an accepted check-in, in any reachable state, the device has an open alert under an enabled rule of
   * its organization exactly when the device reported what the rule's key is about: in this request, or in the
   * last inventory section that says anything about it.
   */
  lemma CheckInDecidesOnFields(flush: bool, setting: int, w: World, c: CheckIn, rule: nat)
    requires Sound(flush, setting, w) && E.Accepts(w.registry, c.visit)
    requires var r := AfterCheckIn(w, c).board.rules;
             && c.visit.device < |w.registry.devices| && rule < |r|
             && r[rule].org == w.registry.devices[c.visit.device].org && r[rule].enabled
    ensures var w' := AfterCheckIn(w, c);
            AC.HasOpen(w'.board.alerts, c.visit.device, rule)
            <==> Reported(w'.board.rules[rule].key, c, w'.shelf.log, w'.board.rules[rule].params)
  {
    hide Sound, E.Accepts, E.AfterVisit, ShelfAfter, FactsOf, ReportedFacts, A.Evaluate, AC.HasOpen, AC.Holds, Reported,
      FactsAre, AR.Sound;
    var w' := AfterCheckIn(w, c);
    VisitIsReported(flush, setting, w, c);
    ShelfIsSound(flush, setting, w);
    AC.EvaluationDecides(w.board, VisitOf(w, c), rule);
    ReportedFactsAre(c, w'.shelf.log);
    ReportedIsHolds(w'.board.rules[rule].key, c, w'.shelf.log, w'.board.rules[rule].params,
      ReportedFacts(c, w'.shelf.log));
  }
}
