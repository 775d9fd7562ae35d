/** Notification channels, rules and deliveries: fan-out of a new alert, and the delivery queue. */
module Notifications {
  import opened Base

  type Time = int

  datatype Severity = Info | Warning | Critical

  /** The keys of the default alert rules, in the order the backend defines and evaluates them. */
  datatype Key =
    | DeviceOffline
    | LowDisk
    | HighMemory
    | DefenderDisabled
    | FirewallDisabled
    | PendingReboot
    | UpdatesStale
    | AgentOutdated
    | InventoryStale

  datatype ChannelType = Email | Webhook | OtherType

  datatype Channel = Channel(org: nat, kind: ChannelType, enabled: bool)

  /** An entry of a rule's channel list: text that does not parse as an id, or an id. */
  datatype ChannelRef = Malformed | Ref(id: nat)

  /** A notification rule; an empty filter admits everything, `None` is a key no alert rule has. */
  datatype Rule = Rule(org: nat, enabled: bool, severities: seq<Severity>, keys: seq<Option<Key>>,
    channels: seq<ChannelRef>)

  datatype Status = Pending | Sent | Failed | Skipped

  datatype Note = MissingOrDisabled | Unavailable | SendError(text: string)

  datatype Delivery = Delivery(org: nat, alert: nat, channel: nat, status: Status, attempts: nat,
                               error: Option<Note>, createdAt: Time, sentAt: Option<Time>)

  datatype Action = EnqueuedFor(alert: nat) | SentAt(delivery: nat, attempts: nat) | FailedAt(delivery: nat,
    attempts: nat) | SkippedAt(delivery: nat)

  datatype Audit = Audit(org: nat, action: Action)

  datatype Desk = Desk(rules: seq<Rule>, channels: seq<Channel>, deliveries: seq<Delivery>, audits: seq<Audit>)

  /** What fan-out reads of a new alert: its id, tenant, severity and the key of its rule. */
  datatype NewAlert = NewAlert(id: nat, org: nat, severity: Severity, key: Key)

  // ---- Fan-out ----

  /** The rule belongs to the alert's organization, is enabled, and neither filter rejects the alert. */
  predicate Matches(rule: Rule, a: NewAlert) {
    && rule.org == a.org && rule.enabled
    && (rule.severities == [] || a.severity in rule.severities)
    && (rule.keys == [] || Some(a.key) in rule.keys)
  }

  /** The channel exists, belongs to the organization and is enabled. */
  predicate Usable(channels: seq<Channel>, org: nat, id: nat) {
    id < |channels| && channels[id].org == org && channels[id].enabled
  }

  function NewDelivery(channels: seq<Channel>, a: NewAlert, id: nat, now: Time): Delivery {
    if Usable(channels, a.org, id) then Delivery(a.org, a.id, id, Pending, 0, None, now, None)
    else Delivery(a.org, a.id, id, Skipped, 0, Some(MissingOrDisabled), now, None)
  }

  /** The occurrences that get a delivery: position i of the rules, position k of its channel list. */
  predicate Slot(rules: seq<Rule>, a: NewAlert, i: int, k: int) {
    0 <= i < |rules| && Matches(rules[i], a) && 0 <= k < |rules[i].channels| && rules[i].channels[k].Ref?
  }

  /** Deliveries for the first `k` entries of one rule's channel list. */
  function ForEntries(channels: seq<Channel>, a: NewAlert, refs: seq<ChannelRef>, k: nat, now: Time): seq<Delivery>
    requires k <= |refs|
  {
    if k == 0 then []
    else
      var before := ForEntries(channels, a, refs, k - 1, now);
      if refs[k - 1].Ref? then before + [NewDelivery(channels, a, refs[k - 1].id, now)] else before
  }

  function ForRule(channels: seq<Channel>, a: NewAlert, rule: Rule, now: Time): seq<Delivery> {
    if Matches(rule, a) then ForEntries(channels, a, rule.channels, |rule.channels|, now) else []
  }

  /** Deliveries for the first `i` rules. */
  function ForRules(channels: seq<Channel>, a: NewAlert, rules: seq<Rule>, i: nat, now: Time): seq<Delivery>
    requires i <= |rules|
  {
    if i == 0 then [] else ForRules(channels, a, rules, i - 1, now) + ForRule(channels, a, rules[i - 1], now)
  }

  /** Deliveries for all of these rules. */
  function ForAll(channels: seq<Channel>, a: NewAlert, rules: seq<Rule>, now: Time): seq<Delivery> {
    ForRules(channels, a, rules, |rules|, now)
  }

  function FanOut(d: Desk, a: NewAlert, now: Time): seq<Delivery> {
    ForAll(d.channels, a, d.rules, now)
  }

  function EnqueueAudits(a: NewAlert, n: nat): seq<Audit> {
    seq(n, i requires 0 <= i < n => Audit(a.org, EnqueuedFor(a.id)))
  }

  function Enqueued(d: Desk, a: NewAlert, now: Time): Desk {
    var more := FanOut(d, a, now);
    d.(deliveries := d.deliveries + more, audits := d.audits + EnqueueAudits(a, |more|))
  }

  // ---- Fan-out against its specification ----

  /** Where an occurrence's delivery stands in the fan-out. */
  function Position(d: Desk, a: NewAlert, i: nat, k: nat): nat
    requires i < |d.rules| && k <= |d.rules[i].channels|
  {
    |ForRules(d.channels, a, d.rules, i, 0)| + |ForEntries(d.channels, a, d.rules[i].channels, k, 0)|
  }

  /** The number of deliveries does not depend on the time stamped on them. */
  lemma {:induction false} EntriesLength(channels: seq<Channel>, a: NewAlert, refs: seq<ChannelRef>, k: nat, now: Time)
    requires k <= |refs|
    ensures |ForEntries(channels, a, refs, k, now)| == |ForEntries(channels, a, refs, k, 0)|
  {
    if k > 0 {
      EntriesLength(channels, a, refs, k - 1, now);
    }
  }

  lemma {:induction false} RulesLength(channels: seq<Channel>, a: NewAlert, rules: seq<Rule>, i: nat, now: Time)
    requires i <= |rules|
    ensures |ForRules(channels, a, rules, i, now)| == |ForRules(channels, a, rules, i, 0)|
  {
    if i > 0 {
      RulesLength(channels, a, rules, i - 1, now);
      EntriesLength(channels, a, rules[i - 1].channels, |rules[i - 1].channels|, now);
    }
  }

  /** Longer prefixes extend shorter ones, and the entry at a slot is the next delivery. */
  lemma {:induction false} EntriesPrefix(channels: seq<Channel>, a: NewAlert, refs: seq<ChannelRef>, k: nat, n: nat,
      now: Time)
    requires k <= n <= |refs|
    ensures ForEntries(channels, a, refs, k, now) <= ForEntries(channels, a, refs, n, now)
    ensures k < n && refs[k].Ref? ==>
              var p := |ForEntries(channels, a, refs, k, now)|;
              p < |ForEntries(channels, a, refs, n, now)|
              && ForEntries(channels, a, refs, n, now)[p] == NewDelivery(channels, a, refs[k].id, now)
    decreases n
  {
    if k < n {
      EntriesPrefix(channels, a, refs, k, n - 1, now);
    }
  }

  lemma {:induction false} RulesPrefix(channels: seq<Channel>, a: NewAlert, rules: seq<Rule>, i: nat, n: nat, now: Time)
    requires i <= n <= |rules|
    ensures ForRules(channels, a, rules, i, now) <= ForRules(channels, a, rules, n, now)
    decreases n
  {
    if i < n {
      RulesPrefix(channels, a, rules, i, n - 1, now);
    }
  }

  /** Each occurrence has its delivery, at its own position. */
  lemma SlotHasDelivery(d: Desk, a: NewAlert, i: nat, k: nat, now: Time)
    requires Slot(d.rules, a, i, k)
    ensures var p := Position(d, a, i, k);
            p < |FanOut(d, a, now)|
              && FanOut(d, a, now)[p] == NewDelivery(d.channels, a, d.rules[i].channels[k].id, now)
  {
    var refs := d.rules[i].channels;
    EntriesPrefix(d.channels, a, refs, k, |refs|, now);
    RulesPrefix(d.channels, a, d.rules, i + 1, |d.rules|, now);
    RulesLength(d.channels, a, d.rules, i, now);
    EntriesLength(d.channels, a, refs, k, now);
    var before, mine := ForRules(d.channels, a, d.rules, i, now), ForEntries(d.channels, a, refs, |refs|, now);
    assert ForRules(d.channels, a, d.rules, i + 1, now) == before + mine;
    assert (before + mine)[Position(d, a, i, k)] == mine[|ForEntries(d.channels, a, refs, k, now)|];
  }

  /** Positions grow with the occurrence, so two occurrences never share a delivery. */
  lemma PositionsIncrease(d: Desk, a: NewAlert, i: nat, k: nat, i': nat, k': nat)
    requires Slot(d.rules, a, i, k) && Slot(d.rules, a, i', k')
    requires i < i' || (i == i' && k < k')
    ensures Position(d, a, i, k) < Position(d, a, i', k')
  {
    var refs := d.rules[i].channels;
    EntriesPrefix(d.channels, a, refs, k, |refs|, 0);
    if i < i' {
      RulesPrefix(d.channels, a, d.rules, i + 1, i', 0);
    } else {
      EntriesPrefix(d.channels, a, refs, k, k', 0);
    }
  }

  lemma {:induction false} EntryAt(channels: seq<Channel>, a: NewAlert, refs: seq<ChannelRef>, n: nat, p: nat)
    returns (k: nat)
    requires n <= |refs| && p < |ForEntries(channels, a, refs, n, 0)|
    ensures k < n && refs[k].Ref? && |ForEntries(channels, a, refs, k, 0)| == p
  {
    if p < |ForEntries(channels, a, refs, n - 1, 0)| {
      k := EntryAt(channels, a, refs, n - 1, p);
    } else {
      k := n - 1;
    }
  }

  lemma {:induction false} SlotAt(d: Desk, a: NewAlert, n: nat, p: nat) returns (i: nat, k: nat)
    requires n <= |d.rules| && p < |ForRules(d.channels, a, d.rules, n, 0)|
    ensures i < n && Slot(d.rules, a, i, k) && Position(d, a, i, k) == p
  {
    var before := |ForRules(d.channels, a, d.rules, n - 1, 0)|;
    if p < before {
      i, k := SlotAt(d, a, n - 1, p);
    } else {
      i := n - 1;
      k := EntryAt(d.channels, a, d.rules[i].channels, |d.rules[i].channels|, p - before);
    }
  }

  /** And there are no other deliveries: every position of the fan-out belongs to an occurrence. */
  lemma DeliveryHasSlot(d: Desk, a: NewAlert, p: nat, now: Time) returns (i: nat, k: nat)
    requires p < |FanOut(d, a, now)|
    ensures Slot(d.rules, a, i, k) && Position(d, a, i, k) == p
    ensures FanOut(d, a, now)[p] == NewDelivery(d.channels, a, d.rules[i].channels[k].id, now)
  {
    RulesLength(d.channels, a, d.rules, |d.rules|, now);
    i, k := SlotAt(d, a, |d.rules|, p);
    SlotHasDelivery(d, a, i, k, now);
  }

  /** Every delivery of a fan-out is the alert's, unattempted, and pending exactly when its channel is usable. */
  lemma FanOutRows(d: Desk, a: NewAlert, now: Time)
    ensures forall p | 0 <= p < |FanOut(d, a, now)| ::
              var x := FanOut(d, a, now)[p];
              && x.alert == a.id && x.org == a.org && x.attempts == 0 && x.createdAt == now && x.sentAt.None?
              && x.status == if Usable(d.channels, a.org, x.channel) then Pending else Skipped
  {
    forall p | 0 <= p < |FanOut(d, a, now)|
      ensures var x := FanOut(d, a, now)[p];
              && x.alert == a.id && x.org == a.org && x.attempts == 0 && x.createdAt == now && x.sentAt.None?
              && x.status == if Usable(d.channels, a.org, x.channel) then Pending else Skipped
    {
      var i, k := DeliveryHasSlot(d, a, p, now);
    }
  }

  // ---- The order of the rules ----

  lemma {:induction false} RulesWithin(channels: seq<Channel>, a: NewAlert, rules: seq<Rule>, more: seq<Rule>, k: nat,
      now: Time)
    requires k <= |rules|
    ensures ForRules(channels, a, rules + more, k, now) == ForRules(channels, a, rules, k, now)
  {
    if k > 0 {
      RulesWithin(channels, a, rules, more, k - 1, now);
    }
  }

  lemma RuleAdded(channels: seq<Channel>, a: NewAlert, rules: seq<Rule>, x: Rule, now: Time)
    ensures ForAll(channels, a, rules + [x], now) == ForAll(channels, a, rules, now) + ForRule(channels, a, x, now)
  {
    hide ForRule;
    RulesWithin(channels, a, rules, [x], |rules|, now);
  }

  /** A rule contributes the same deliveries wherever it stands. */
  lemma {:induction false} RuleInserted(channels: seq<Channel>, a: NewAlert, before: seq<Rule>, x: Rule,
      after: seq<Rule>, now: Time)
    ensures multiset(ForAll(channels, a, before + [x] + after, now))
         == multiset(ForAll(channels, a, before + after, now)) + multiset(ForRule(channels, a, x, now))
    decreases |after|
  {
    hide ForRule, ForRules, ForAll;
    if after == [] {
      assert before + [x] + after == before + [x] && before + after == before;
      RuleAdded(channels, a, before, x, now);
    } else {
      var front, y := after[..|after| - 1], after[|after| - 1];
      assert before + [x] + after == before + [x] + front + [y];
      assert before + after == before + front + [y];
      RuleInserted(channels, a, before, x, front, now);
      RuleAdded(channels, a, before + [x] + front, y, now);
      RuleAdded(channels, a, before + front, y, now);
    }
  }

  lemma Cancel<T>(before: multiset<T>, x: T, after: multiset<T>, front: multiset<T>)
    requires before + multiset{x} + after == front + multiset{x}
    ensures before + after == front
  {
    forall y ensures (before + after)[y] == front[y] {
      assert (before + multiset{x} + after)[y] == (front + multiset{x})[y];
    }
  }

  lemma SplitAt(answer: seq<Rule>, front: seq<Rule>, x: Rule) returns (before: seq<Rule>, after: seq<Rule>)
    requires multiset(answer) == multiset(front) + multiset{x}
    ensures answer == before + [x] + after && multiset(before + after) == multiset(front)
  {
    assert x in multiset(answer);
    var j :| 0 <= j < |answer| && answer[j] == x;
    before, after := answer[..j], answer[j + 1..];
    assert answer == before + [x] + after;
    Cancel(multiset(before), x, multiset(after), multiset(front));
  }

  /**
   * The rule query fixes no order. Whatever order it answers in, the deliveries are the same, occurrence for
   * occurrence; only their order follows the answer's.
   */
  lemma {:induction false} FanOutAnyOrder(channels: seq<Channel>, a: NewAlert, rules: seq<Rule>, answer: seq<Rule>,
      now: Time)
    requires multiset(rules) == multiset(answer)
    ensures multiset(ForAll(channels, a, rules, now)) == multiset(ForAll(channels, a, answer, now))
    decreases |rules|
  {
    hide ForRule, ForRules, ForAll;
    if rules == [] {
      assert |multiset(answer)| == 0 && answer == rules;
    } else {
      var front, x := rules[..|rules| - 1], rules[|rules| - 1];
      assert rules == front + [x];
      var before, after := SplitAt(answer, front, x);
      FanOutAnyOrder(channels, a, front, before + after, now);
      RuleAdded(channels, a, front, x, now);
      RuleInserted(channels, a, before, x, after, now);
    }
  }

  // ---- Fan-out on the rules' own fields ----

  /** An entry's place: the rule, and the position in its channel list. */
  predicate Before(x: (nat, nat), y: (nat, nat)) { x.0 < y.0 || (x.0 == y.0 && x.1 < y.1) }

  /**
   * Rule i is the alert's organization's and enabled, each filter is empty or lists the alert, and entry k is an id.
   */
  ghost predicate Wants(rules: seq<Rule>, a: NewAlert, i: nat, k: nat) {
    && i < |rules| && rules[i].org == a.org && rules[i].enabled
    && (|rules[i].severities| == 0 || exists x | 0 <= x < |rules[i].severities| :: rules[i].severities[x] == a.severity)
    && (|rules[i].keys| == 0 || exists x | 0 <= x < |rules[i].keys| :: rules[i].keys[x] == Some(a.key))
    && k < |rules[i].channels| && rules[i].channels[k] != Malformed
  }

  lemma WantsIsSlot(rules: seq<Rule>, a: NewAlert, i: nat, k: nat)
    ensures Wants(rules, a, i, k) <==> Slot(rules, a, i, k)
    ensures Slot(rules, a, i, k) ==> i < |rules| && k < |rules[i].channels|
  {
  }

  /** The row of entry (i, k): pending if its channel is the organization's and enabled, and skipped otherwise. */
  predicate RowOf(d: Desk, a: NewAlert, i: nat, k: nat, now: Time, row: Delivery)
    requires i < |d.rules| && k < |d.rules[i].channels| && d.rules[i].channels[k].Ref?
  {
    && row.org == a.org && row.alert == a.id && d.rules[i].channels[k] == Ref(row.channel)
    && row.attempts == 0 && row.createdAt == now && row.sentAt == None
    && (if row.channel < |d.channels| && d.channels[row.channel].org == a.org && d.channels[row.channel].enabled
        then row.status == Pending && row.error == None
        else row.status == Skipped && row.error == Some(MissingOrDisabled))
  }

  /**
   * The rows are those of exactly the entries whose rules want the alert, one each, in the order of the rules
   * and of their channel lists.
   */
  ghost predicate Owned(d: Desk, a: NewAlert, now: Time, rows: seq<Delivery>, owners: seq<(nat, nat)>) {
    && |owners| == |rows|
    && (forall p, q | 0 <= p < q < |owners| :: Before(owners[p], owners[q]))
    && (forall i: nat, k: nat :: Wants(d.rules, a, i, k) <==> (i, k) in owners)
    && (forall p | 0 <= p < |rows| ::
         Wants(d.rules, a, owners[p].0, owners[p].1) && RowOf(d, a, owners[p].0, owners[p].1, now, rows[p]))
  }

  lemma {:induction false} OwnersUpTo(d: Desk, a: NewAlert, now: Time, n: nat) returns (owners: seq<(nat, nat)>)
    requires n <= |FanOut(d, a, now)|
    ensures |owners| == n
    ensures forall p | 0 <= p < n ::
              && Slot(d.rules, a, owners[p].0, owners[p].1) && Position(d, a, owners[p].0, owners[p].1) == p
              && RowOf(d, a, owners[p].0, owners[p].1, now, FanOut(d, a, now)[p])
  {
    hide FanOut, Position, Matches;
    if n == 0 {
      owners := [];
    } else {
      var before := OwnersUpTo(d, a, now, n - 1);
      var i, k := DeliveryHasSlot(d, a, n - 1, now);
      owners := before + [(i, k)];
    }
  }

  lemma OwnersOrdered(d: Desk, a: NewAlert, x: (nat, nat), y: (nat, nat))
    requires Slot(d.rules, a, x.0, x.1) && Slot(d.rules, a, y.0, y.1)
    ensures Position(d, a, x.0, x.1) < Position(d, a, y.0, y.1) ==> Before(x, y)
    ensures Position(d, a, x.0, x.1) == Position(d, a, y.0, y.1) ==> x == y
  {
    hide Position, Matches;
    if Before(y, x) {
      PositionsIncrease(d, a, y.0, y.1, x.0, x.1);
    } else if Before(x, y) {
      PositionsIncrease(d, a, x.0, x.1, y.0, y.1);
    }
  }

  /** Fan-out writes exactly the deliveries its rules ask for, each one's fields spelled out. */
  lemma FanOutIsOwned(d: Desk, a: NewAlert, now: Time) returns (owners: seq<(nat, nat)>)
    ensures Owned(d, a, now, FanOut(d, a, now), owners)
  {
    hide FanOut, Position, Slot, Wants;
    owners := OwnersUpTo(d, a, now, |FanOut(d, a, now)|);
    forall p, q | 0 <= p < q < |owners| ensures Before(owners[p], owners[q]) {
      OwnersOrdered(d, a, owners[p], owners[q]);
    }
    forall i: nat, k: nat ensures Wants(d.rules, a, i, k) <==> (i, k) in owners {
      WantsIsSlot(d.rules, a, i, k);
      if Wants(d.rules, a, i, k) {
        SlotHasDelivery(d, a, i, k, now);
        OwnersOrdered(d, a, owners[Position(d, a, i, k)], (i, k));
      }
    }
  }
}
