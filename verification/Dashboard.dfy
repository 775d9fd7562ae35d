/** The dashboard's counts and the bounds that hold between them in every reachable state. */
module Dashboard {
  import opened Base
  import opened Notifications
  import opened Alerts
  import opened AlertHistory
  import opened AlertRuns
  import E = Enrollment

  datatype Summary = Summary(total: nat, online: nat, offline: int, warnings: nat, critical: nat, attention: nat)

  /** Open alerts of an organization. */
  function OpenIds(alerts: seq<Alert>, org: nat): set<nat> {
    set i: nat | i < |alerts| && alerts[i].org == org && Open(alerts[i])
  }

  function ActiveIds(alerts: seq<Alert>, org: nat): set<nat> {
    set i: nat | i < |alerts| && alerts[i].org == org && alerts[i].status == Active
  }

  function ActiveOf(alerts: seq<Alert>, org: nat, severity: Severity): set<nat> {
    set i: nat | i < |alerts| && alerts[i].org == org && alerts[i].status == Active && alerts[i].severity == severity
  }

  /** The devices that an open alert of the organization names, counted once each. */
  function Attention(alerts: seq<Alert>, org: nat): set<nat> {
    set i: nat | i < |alerts| && alerts[i].org == org && Open(alerts[i]) :: alerts[i].device
  }

  function DevicesOf(devices: seq<E.Device>, org: nat): set<nat> { set i: nat | i < |devices| && devices[i].org == org }

  function OnlineOf(devices: seq<E.Device>, org: nat): set<nat> {
    set i: nat | i < |devices| && devices[i].org == org && devices[i].online
  }

  /** dashboard_summary. */
  function DashboardSummary(devices: seq<E.Device>, alerts: seq<Alert>, org: nat): Summary {
    var total, online := |DevicesOf(devices, org)|, |OnlineOf(devices, org)|;
    Summary(total, online, total - online, |ActiveOf(alerts, org, Warning)|, |ActiveOf(alerts, org, Critical)|,
      |Attention(alerts, org)|)
  }

  // ---- Counting ----

  function Column(n: nat, d: nat): set<(nat, nat)> { set k: nat | k < n :: (d, k) }

  lemma {:induction false} ColumnCount(n: nat, d: nat)
    ensures |Column(n, d)| == n
  {
    if n > 0 {
      ColumnCount(n - 1, d);
      assert Column(n, d) == Column(n - 1, d) + {(d, n - 1)};
    }
  }

  /** Pairs of a device and a place among the nine keys. */
  function Grid(devices: set<nat>): set<(nat, nat)> { set d, k: nat | d in devices && k < 9 :: (d, k) }

  lemma GridSplits(devices: set<nat>, d: nat)
    requires d in devices
    ensures Grid(devices) == Grid(devices - {d}) + Column(9, d) && Grid(devices - {d}) !! Column(9, d)
  {
  }

  lemma {:induction false} GridCount(devices: set<nat>)
    ensures |Grid(devices)| == 9 * |devices|
  {
    hide Column;
    if devices == {} {
      assert Grid(devices) == {};
    } else {
      var d :| d in devices;
      GridCount(devices - {d});
      ColumnCount(9, d);
      GridSplits(devices, d);
      assert |devices - {d}| == |devices| - 1;
    }
  }

  /** The place of an alert in the grid: its device, and the key of its rule. */
  function Place(rules: seq<AlertRule>, a: Alert): (nat, nat)
    requires a.rule < |rules|
  {
    (a.device, Turn(rules[a.rule].key))
  }

  function Places(rules: seq<AlertRule>, alerts: seq<Alert>, ids: set<nat>): set<(nat, nat)>
    requires forall i | i in ids :: i < |alerts| && alerts[i].rule < |rules|
  {
    set i | i in ids :: Place(rules, alerts[i])
  }

  lemma {:induction false} PlacesCount(rules: seq<AlertRule>, alerts: seq<Alert>, ids: set<nat>)
    requires forall i | i in ids :: i < |alerts| && alerts[i].rule < |rules|
    requires forall i, k | i in ids && k in ids && Place(rules, alerts[i]) == Place(rules, alerts[k]) :: i == k
    ensures |Places(rules, alerts, ids)| == |ids|
  {
    if ids != {} {
      var x :| x in ids;
      PlacesCount(rules, alerts, ids - {x});
      assert Places(rules, alerts, ids) == Places(rules, alerts, ids - {x}) + {Place(rules, alerts[x])};
    }
  }

  function Owners(alerts: seq<Alert>, ids: set<nat>): set<nat>
    requires forall i | i in ids :: i < |alerts|
  {
    set i | i in ids :: alerts[i].device
  }

  lemma {:induction false} OwnersCount(alerts: seq<Alert>, ids: set<nat>)
    requires forall i | i in ids :: i < |alerts|
    ensures |Owners(alerts, ids)| <= |ids|
  {
    if ids != {} {
      var x :| x in ids;
      OwnersCount(alerts, ids - {x});
      assert Owners(alerts, ids) == Owners(alerts, ids - {x}) + {alerts[x].device};
    }
  }

  /** Two open alerts of one organization never share a device and a key. */
  lemma PlaceIsOwn(b: Board, org: nat, i: nat, k: nat)
    requires Sound(b) && i in OpenIds(b.alerts, org) && k in OpenIds(b.alerts, org)
    requires Place(b.rules, b.alerts[i]) == Place(b.rules, b.alerts[k])
    ensures i == k
  {
    hide Refines, DefaultSeverities;
    TurnsAreKeys();
    hide Turn;
    var x, y := b.alerts[i].rule, b.alerts[k].rule;
    assert b.rules[x].key == b.rules[y].key;
    assert x == y;
  }

  lemma OpenBounds(b: Board, org: nat)
    requires Sound(b)
    ensures |Attention(b.alerts, org)| <= |OpenIds(b.alerts, org)| <= 9 * |Attention(b.alerts, org)|
  {
    var ids := OpenIds(b.alerts, org);
    assert forall i | i in ids :: i < |b.alerts| && b.alerts[i].rule < |b.rules|;
    forall i, k | i in ids && k in ids && Place(b.rules, b.alerts[i]) == Place(b.rules, b.alerts[k]) ensures i == k {
      PlaceIsOwn(b, org, i, k);
    }
    hide Sound;
    PlacesCount(b.rules, b.alerts, ids);
    GridCount(Attention(b.alerts, org));
    assert Owners(b.alerts, ids) == Attention(b.alerts, org);
    OwnersCount(b.alerts, ids);
    InGrid(b, org);
    SubsetCount(Places(b.rules, b.alerts, ids), Grid(Attention(b.alerts, org)));
  }

  lemma InGrid(b: Board, org: nat)
    requires forall i | i in OpenIds(b.alerts, org) :: i < |b.alerts| && b.alerts[i].rule < |b.rules|
    ensures Places(b.rules, b.alerts, OpenIds(b.alerts, org)) <= Grid(Attention(b.alerts, org))
  {
    forall i | i in OpenIds(b.alerts, org) ensures Place(b.rules, b.alerts[i]) in Grid(Attention(b.alerts, org)) {
      assert b.alerts[i].device in Attention(b.alerts, org);
    }
  }

  /** Every active alert is a warning or critical: those are the severities default rules have. */
  lemma ActiveSplits(b: Board, org: nat)
    requires Sound(b)
    ensures ActiveIds(b.alerts, org) == ActiveOf(b.alerts, org, Warning) + ActiveOf(b.alerts, org, Critical)
    ensures |ActiveIds(b.alerts, org)| == |ActiveOf(b.alerts, org, Warning)| + |ActiveOf(b.alerts, org, Critical)|
  {
    hide Refines, OpenIsNewest, OneRulePerKey;
    assert ActiveOf(b.alerts, org, Warning) !! ActiveOf(b.alerts, org, Critical);
  }

  /** What each figure counts, row by row of the two tables. */
  lemma FiguresCount(devices: seq<E.Device>, alerts: seq<Alert>, org: nat)
    ensures var s := DashboardSummary(devices, alerts, org);
            && s.total == |set i: nat | i < |devices| && devices[i].org == org|
            && s.online == |set i: nat | i < |devices| && devices[i].org == org && devices[i].online|
            && s.offline == |set i: nat | i < |devices| && devices[i].org == org && !devices[i].online|
            && s.warnings == |set i: nat | i < |alerts| && alerts[i].org == org && alerts[i].severity == Warning
                                           && alerts[i].status == Active|
            && s.critical == |set i: nat | i < |alerts| && alerts[i].org == org && alerts[i].severity == Critical
                                           && alerts[i].status == Active|
  {
    SubsetCount(OnlineOf(devices, org), DevicesOf(devices, org));
    assert DevicesOf(devices, org) - OnlineOf(devices, org)
        == set i: nat | i < |devices| && devices[i].org == org && !devices[i].online;
    assert ActiveOf(alerts, org, Warning)
        == set i: nat | i < |alerts| && alerts[i].org == org && alerts[i].severity == Warning
          && alerts[i].status == Active;
    assert ActiveOf(alerts, org, Critical)
        == set i: nat | i < |alerts| && alerts[i].org == org && alerts[i].severity == Critical
          && alerts[i].status == Active;
  }

  /** The devices needing attention are those named by an alert that is active or acknowledged. */
  lemma AttentionCounts(devices: seq<E.Device>, alerts: seq<Alert>, org: nat)
    ensures DashboardSummary(devices, alerts, org).attention == |Attention(alerts, org)|
    ensures forall d: nat :: d in Attention(alerts, org) <==>
              exists i | 0 <= i < |alerts| ::
                alerts[i].org == org && alerts[i].device == d && alerts[i].status in {Active, Acknowledged}
  {
  }

  /**
   * In every reachable state: the warning and critical figures together are exactly the active alerts;
   * the devices needing attention number at most the open alerts, and these at most nine for each of them.
   */
  lemma SummaryBounds(boards: seq<Board>, steps: seq<Option<Step>>, i: nat, devices: seq<E.Device>, org: nat)
    requires Run(boards, steps) && i < |boards|
    ensures var s := DashboardSummary(devices, boards[i].alerts, org);
            && s.warnings + s.critical == |ActiveIds(boards[i].alerts, org)|
            && s.attention <= |OpenIds(boards[i].alerts, org)| <= 9 * s.attention
            && s.warnings + s.critical <= 9 * s.attention
            && s.online + s.offline == s.total && 0 <= s.offline
  {
    hide Run;
    AlwaysSound(boards, steps, i);
    hide Sound;
    var alerts := boards[i].alerts;
    OpenBounds(boards[i], org);
    ActiveSplits(boards[i], org);
    SubsetCount(ActiveIds(alerts, org), OpenIds(alerts, org));
    SubsetCount(OnlineOf(devices, org), DevicesOf(devices, org));
  }
}
