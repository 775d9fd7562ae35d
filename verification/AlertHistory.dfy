/** The alert table of a device/rule pair as a fold over that pair's history. */
module AlertHistory {
  import opened Base
  import opened Notifications
  import opened Alerts

  /** The part of an alert that its pair's history determines. */
  datatype Episode = Episode(status: AlertStatus, message: Message, firstSeen: Time, lastSeen: Time,
                             acknowledgedAt: Option<Time>, resolvedAt: Option<Time>)

  function EpisodeOf(a: Alert): Episode {
    Episode(a.status, a.message, a.firstSeen, a.lastSeen, a.acknowledgedAt, a.resolvedAt)
  }

  /** The pair's alerts, oldest first. */
  function Episodes(alerts: seq<Alert>, device: nat, rule: nat): seq<Episode> {
    if alerts == [] then []
    else
      var last := |alerts| - 1;
      var before := Episodes(alerts[..last], device, rule);
      if OfPair(alerts[last], device, rule) then before + [EpisodeOf(alerts[last])] else before
  }

  /** The pair's history, oldest first. */
  function ItemsOf(history: seq<Entry>, device: nat, rule: nat): seq<Item> {
    if history == [] then []
    else
      var last := |history| - 1;
      var before := ItemsOf(history[..last], device, rule);
      if history[last].device == device && history[last].rule == rule then before + [history[last].item] else before
  }

  predicate HasOpen(es: seq<Episode>) { es != [] && es[|es| - 1].status != Resolved }

  /** One more item: a block begins, continues, is acknowledged, or is cut. */
  function Extend(es: seq<Episode>, item: Item): seq<Episode> {
    if !HasOpen(es) then
      if item.Seen? && item.active then es + [Episode(Active, item.message, item.now, item.now, None, None)] else es
    else
      var e := es[|es| - 1];
      var e' := match item
        case Seen(now, true, message) => e.(message := message, lastSeen := now)
        case Seen(now, false, _) => e.(status := Resolved, resolvedAt := Some(now), lastSeen := now)
        case Acknowledge(now) =>
          if e.status == Active then e.(status := Acknowledged, acknowledgedAt := Some(now)) else e
        case Resolve(now) => e.(status := Resolved, resolvedAt := Some(now));
      es[..|es| - 1] + [e']
  }

  function Fold(items: seq<Item>): seq<Episode> {
    if items == [] then [] else Extend(Fold(items[..|items| - 1]), items[|items| - 1])
  }

  /** Of one pair, only the newest alert can be open. */
  predicate OpenIsNewest(alerts: seq<Alert>) {
    forall i, m | 0 <= i < m < |alerts| && OfPair(alerts[m], alerts[i].device, alerts[i].rule) :: !Open(alerts[i])
  }

  ghost predicate Refines(alerts: seq<Alert>, history: seq<Entry>) {
    forall device: nat, rule: nat :: Episodes(alerts, device, rule) == Fold(ItemsOf(history, device, rule))
  }

  // ---- Single rows ----

  lemma EpisodesSnoc(alerts: seq<Alert>, a: Alert, device: nat, rule: nat)
    ensures Episodes(alerts + [a], device, rule)
         == if OfPair(a, device, rule) then Episodes(alerts, device, rule) + [EpisodeOf(a)]
           else Episodes(alerts, device, rule)
  {
    assert (alerts + [a])[..|alerts|] == alerts;
  }

  lemma ItemsSnoc(history: seq<Entry>, e: Entry, device: nat, rule: nat)
    ensures ItemsOf(history + [e], device, rule)
         == if e.device == device && e.rule == rule then ItemsOf(history, device, rule) + [e.item]
           else ItemsOf(history, device, rule)
  {
    assert (history + [e])[..|history|] == history;
  }

  lemma FoldSnoc(items: seq<Item>, item: Item)
    ensures Fold(items + [item]) == Extend(Fold(items), item)
  {
    assert (items + [item])[..|items|] == items;
  }

  /** Rewriting a row leaves the other pairs' episodes alone. */
  lemma {:induction false} EpisodesElsewhere(alerts: seq<Alert>, k: nat, a: Alert, device: nat, rule: nat)
    requires k < |alerts| && OfPair(a, alerts[k].device, alerts[k].rule) && !OfPair(alerts[k], device, rule)
    ensures Episodes(alerts[k := a], device, rule) == Episodes(alerts, device, rule)
  {
    var last := |alerts| - 1;
    if k == last {
      assert alerts[k := a][..last] == alerts[..last];
    } else {
      EpisodesElsewhere(alerts[..last], k, a, device, rule);
      assert alerts[k := a][..last] == alerts[..last][k := a];
    }
  }

  /** Rewriting the pair's newest row rewrites its last episode. */
  lemma {:induction false} EpisodesNewest(alerts: seq<Alert>, k: nat, a: Alert)
    requires k < |alerts| && OfPair(a, alerts[k].device, alerts[k].rule)
    requires forall m | k < m < |alerts| :: !OfPair(alerts[m], a.device, a.rule)
    ensures var es := Episodes(alerts, a.device, a.rule);
            es != [] && es[|es| - 1] == EpisodeOf(alerts[k])
            && Episodes(alerts[k := a], a.device, a.rule) == es[..|es| - 1] + [EpisodeOf(a)]
  {
    var last := |alerts| - 1;
    if k == last {
      assert alerts[k := a][..last] == alerts[..last];
    } else {
      EpisodesNewest(alerts[..last], k, a);
      assert alerts[k := a][..last] == alerts[..last][k := a];
    }
  }

  lemma {:induction false} NoneOpen(alerts: seq<Alert>, device: nat, rule: nat)
    requires OpenAlert(alerts, device, rule).None?
    ensures forall i | 0 <= i < |alerts| && OfPair(alerts[i], device, rule) :: !Open(alerts[i])
    ensures !HasOpen(Episodes(alerts, device, rule))
  {
    if alerts != [] {
      NoneOpen(alerts[..|alerts| - 1], device, rule);
    }
  }

  // ---- One evaluation result ----

  /** The row an open alert becomes under a result. */
  function Touched(a: Alert, r: RuleResult, now: Time): Alert {
    if r.active then RepeatRow(a, r.message, now) else ClearRow(a, now)
  }

  lemma ResultExtends(alerts: seq<Alert>, org: nat, device: nat, rule: nat, severity: Severity, r: RuleResult,
      now: Time)
    requires OpenIsNewest(alerts)
    ensures Episodes(ResultRows(alerts, org, device, rule, severity, r, now), device, rule)
         == Extend(Episodes(alerts, device, rule), Seen(now, r.active, r.message))
  {
    hide Fold;
    match OpenAlert(alerts, device, rule)
    case None =>
      NoneOpen(alerts, device, rule);
      EpisodesSnoc(alerts, NewRow(org, device, rule, severity, r.message, now), device, rule);
    case Some(k) =>
      EpisodesNewest(alerts, k, Touched(alerts[k], r, now));
  }

  lemma ResultElsewhere(alerts: seq<Alert>, org: nat, device: nat, rule: nat, severity: Severity, r: RuleResult,
      now: Time, device': nat, rule': nat)
    requires device' != device || rule' != rule
    ensures Episodes(ResultRows(alerts, org, device, rule, severity, r, now), device', rule')
            == Episodes(alerts, device', rule')
  {
    match OpenAlert(alerts, device, rule)
    case None =>
      EpisodesSnoc(alerts, NewRow(org, device, rule, severity, r.message, now), device', rule');
    case Some(k) =>
      EpisodesElsewhere(alerts, k, Touched(alerts[k], r, now), device', rule');
  }

  lemma ResultKeepsNewest(alerts: seq<Alert>, org: nat, device: nat, rule: nat, severity: Severity, r: RuleResult,
      now: Time)
    requires OpenIsNewest(alerts)
    ensures OpenIsNewest(ResultRows(alerts, org, device, rule, severity, r, now))
  {
    if OpenAlert(alerts, device, rule).None? {
      NoneOpen(alerts, device, rule);
    }
  }

  /** A result opens or keeps the pair's alert exactly when the condition holds. */
  lemma ResultAgrees(alerts: seq<Alert>, org: nat, device: nat, rule: nat, severity: Severity, r: RuleResult, now: Time)
    requires OpenIsNewest(alerts)
    ensures OpenAlert(ResultRows(alerts, org, device, rule, severity, r, now), device, rule).Some? <==> r.active
  {
    var alerts' := ResultRows(alerts, org, device, rule, severity, r, now);
    var open := OpenAlert(alerts, device, rule);
    if r.active {
      var k := if open.Some? then open.value else |alerts|;
      if OpenAlert(alerts', device, rule).None? {
        NoneOpen(alerts', device, rule);
        assert OfPair(alerts'[k], device, rule) && Open(alerts'[k]);
      }
    } else if open.Some? {
      forall i | 0 <= i < |alerts'| && OfPair(alerts'[i], device, rule) ensures !Open(alerts'[i]) {
        if i < open.value {
          assert OfPair(alerts[open.value], alerts[i].device, alerts[i].rule);
        }
      }
    }
  }

  /** Rows of other pairs stay where and what they were; new rows are the pair's. */
  predicate OnlyPair(alerts: seq<Alert>, alerts': seq<Alert>, device: nat, rule: nat) {
    && |alerts| <= |alerts'|
    && (forall i | 0 <= i < |alerts| && !OfPair(alerts[i], device, rule) :: alerts'[i] == alerts[i])
    && (forall i | |alerts| <= i < |alerts'| :: OfPair(alerts'[i], device, rule))
    && (forall i | 0 <= i < |alerts| && OfPair(alerts[i], device, rule) :: OfPair(alerts'[i], device, rule))
  }

  lemma ResultFrames(alerts: seq<Alert>, org: nat, device: nat, rule: nat, severity: Severity, r: RuleResult, now: Time)
    ensures OnlyPair(alerts, ResultRows(alerts, org, device, rule, severity, r, now), device, rule)
  {
  }

  /** The history entry of a step extends the fold of its own pair only, so refinement is kept. */
  lemma ResultRefines(alerts: seq<Alert>, history: seq<Entry>, org: nat, device: nat, rule: nat, severity: Severity,
      r: RuleResult, now: Time)
    requires OpenIsNewest(alerts) && Refines(alerts, history)
    ensures Refines(ResultRows(alerts, org, device, rule, severity, r, now),
            history + [Entry(device, rule, Seen(now, r.active, r.message))])
  {
    hide ResultRows, Fold, Extend, OpenIsNewest;
    var e := Entry(device, rule, Seen(now, r.active, r.message));
    forall d: nat, u: nat
      ensures Episodes(ResultRows(alerts, org, device, rule, severity, r, now), d, u)
              == Fold(ItemsOf(history + [e], d, u))
    {
      ItemsSnoc(history, e, d, u);
      if d == device && u == rule {
        ResultExtends(alerts, org, device, rule, severity, r, now);
        FoldSnoc(ItemsOf(history, d, u), e.item);
      } else {
        ResultElsewhere(alerts, org, device, rule, severity, r, now, d, u);
      }
    }
  }

  // ---- One operator step on an open alert ----

  /** The row of an open alert after an operator's item. */
  function Operated(a: Alert, item: Item): Alert
    requires !item.Seen?
  {
    if item.Acknowledge? then AcknowledgeRow(a, item.now) else ResolveRow(a, item.now)
  }

  lemma OperatorRefines(alerts: seq<Alert>, history: seq<Entry>, k: nat, item: Item)
    requires OpenIsNewest(alerts) && Refines(alerts, history)
    requires k < |alerts| && Open(alerts[k]) && !item.Seen?
    ensures Refines(alerts[k := Operated(alerts[k], item)], history + [Entry(alerts[k].device, alerts[k].rule, item)])
    ensures OpenIsNewest(alerts[k := Operated(alerts[k], item)])
  {
    hide Fold, Refines;
    var a, e := Operated(alerts[k], item), Entry(alerts[k].device, alerts[k].rule, item);
    forall d: nat, u: nat ensures Episodes(alerts[k := a], d, u) == Fold(ItemsOf(history + [e], d, u)) {
      ItemsSnoc(history, e, d, u);
      PairRefines(alerts, history, d, u);
      if OfPair(alerts[k], d, u) {
        EpisodesNewest(alerts, k, a);
        FoldSnoc(ItemsOf(history, d, u), item);
      } else {
        EpisodesElsewhere(alerts, k, a, d, u);
      }
    }
    RefinesIntro(alerts[k := a], history + [e]);
  }

  lemma PairRefines(alerts: seq<Alert>, history: seq<Entry>, device: nat, rule: nat)
    requires Refines(alerts, history)
    ensures Episodes(alerts, device, rule) == Fold(ItemsOf(history, device, rule))
  {
  }

  lemma RefinesIntro(alerts: seq<Alert>, history: seq<Entry>)
    requires forall device: nat, rule: nat :: Episodes(alerts, device, rule) == Fold(ItemsOf(history, device, rule))
    ensures Refines(alerts, history)
  {
  }
}
