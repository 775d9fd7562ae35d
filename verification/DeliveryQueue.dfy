/** Processing the delivery queue: what an attempt does, what every run keeps, and how fast it drains. */
module DeliveryQueue {
  import opened Base
  import opened Notifications

  /** What the outside world answers to one attempt: the error of the send, if it fails, and the time. */
  datatype Outcome = Outcome(error: Option<string>, now: Time)

  /** NOTIFICATION_RETRY_LIMIT as it takes effect: the first failure is counted before the comparison. */
  function Limit(setting: int): nat { if setting < 1 then 1 else setting }

  /** The channels of the moment and whether each alert row still exists. */
  datatype Setup = Setup(channels: seq<Channel>, alerts: nat, setting: int)

  predicate Deliverable(d: Delivery, s: Setup) {
    d.channel < |s.channels| && d.alert < s.alerts && s.channels[d.channel].enabled
  }

  /** A channel of an unknown type fails like a send that raises. */
  function SendResult(d: Delivery, s: Setup, o: Outcome): Option<string>
    requires Deliverable(d, s)
  {
    if s.channels[d.channel].kind == OtherType then Some("Unsupported notification channel type") else o.error
  }

  /** process_delivery on the row: nothing unless pending, else skipped, sent, failed or pending again. */
  function Attempt(d: Delivery, s: Setup, o: Outcome): Delivery {
    if d.status != Pending then d
    else if !Deliverable(d, s) then d.(status := Skipped, error := Some(Unavailable))
    else
      var tried := d.(attempts := d.attempts + 1);
      match SendResult(d, s, o)
      case Some(text) =>
        tried.(status := if tried.attempts >= s.setting then Failed else Pending, error := Some(SendError(text)))
      case None => tried.(status := Sent, sentAt := Some(o.now), error := None)
  }

  function AttemptAudit(id: nat, d: Delivery, s: Setup, o: Outcome): seq<Audit> {
    if d.status != Pending then []
    else if !Deliverable(d, s) then [Audit(d.org, SkippedAt(id))]
    else if SendResult(d, s, o).Some? then [Audit(d.org, FailedAt(id, d.attempts + 1))]
    else [Audit(d.org, SentAt(id, d.attempts + 1))]
  }

  /** One row of the desk processed. */
  function ProcessOne(d: Desk, id: nat, s: Setup, o: Outcome): Desk
    requires id < |d.deliveries|
  {
    d.(deliveries := d.deliveries[id := Attempt(d.deliveries[id], s, o)],
       audits := d.audits + AttemptAudit(id, d.deliveries[id], s, o))
  }

  /** The first n rows of a batch processed, in order. */
  function ProcessSome(d: Desk, batch: seq<nat>, outcomes: seq<Outcome>, n: nat, s: Setup): (r: Desk)
    requires Within(batch, |d.deliveries|) && n <= |batch| == |outcomes|
    ensures |r.deliveries| == |d.deliveries|
  {
    if n == 0 then d
    else ProcessOne(ProcessSome(d, batch, outcomes, n - 1, s), batch[n - 1], s, outcomes[n - 1])
  }

  function ProcessBatch(d: Desk, batch: seq<nat>, outcomes: seq<Outcome>, s: Setup): (r: Desk)
    requires Within(batch, |d.deliveries|) && |batch| == |outcomes|
    ensures |r.deliveries| == |d.deliveries|
  {
    ProcessSome(d, batch, outcomes, |batch|, s)
  }

  /** The answer to the batch query: the oldest pending rows, at most `size` of them. */
  predicate AnswersPending(rows: seq<Delivery>, size: nat, batch: seq<nat>) {
    && Distinct(batch)
    && Within(batch, |rows|)
    && |batch| <= size
    && (forall i | 0 <= i < |batch| :: rows[batch[i]].status == Pending)
    && (forall i, k | 0 <= i < k < |batch| :: rows[batch[i]].createdAt <= rows[batch[k]].createdAt)
    && (forall w | 0 <= w < |rows| && rows[w].status == Pending && w !in batch ::
          |batch| == size && forall i | 0 <= i < |batch| :: rows[batch[i]].createdAt <= rows[w].createdAt)
  }

  // ---- The methods ----

  class DeskStore {
    var rules: seq<Rule>
    var channels: seq<Channel>
    var deliveries: seq<Delivery>
    var audits: seq<Audit>

    constructor (rules: seq<Rule>, channels: seq<Channel>)
      ensures Contents() == Desk(rules, channels, [], [])
    {
      this.rules, this.channels, deliveries, audits := rules, channels, [], [];
    }

    ghost function Contents(): Desk
      reads this
    {
      Desk(rules, channels, deliveries, audits)
    }

    method WriteAudit(org: nat, action: Action)
      modifies this`audits
      ensures audits == old(audits) + [Audit(org, action)]
    {
      audits := audits + [Audit(org, action)];
    }

    /** _get_enabled_channel: None for a missing, foreign or disabled channel. */
    method GetEnabledChannel(org: nat, id: nat) returns (channel: Option<Channel>)
      ensures channel.Some? <==> Usable(channels, org, id)
      ensures channel.Some? ==> channel.value == channels[id]
    {
      if id >= |channels| || channels[id].org != org || !channels[id].enabled {
        return None;
      }
      channel := Some(channels[id]);
    }

    /** enqueue_alert_notifications, once the alert's rule is known. */
    method EnqueueAlertNotifications(a: NewAlert, now: Time)
      modifies this
      ensures Contents() == Enqueued(old(Contents()), a, now)
    {
      for i := 0 to |rules|
        invariant rules == old(rules) && channels == old(channels)
        invariant deliveries == old(deliveries) + ForRules(channels, a, rules, i, now)
        invariant audits == old(audits) + EnqueueAudits(a, |ForRules(channels, a, rules, i, now)|)
      {
        var rule := rules[i];
        ghost var before := ForRules(channels, a, rules, i, now);
        if rule.org != a.org || !rule.enabled {
          continue;
        }
        if rule.severities != [] && a.severity !in rule.severities {
          continue;
        }
        if rule.keys != [] && Some(a.key) !in rule.keys {
          continue;
        }
        for k := 0 to |rule.channels|
          invariant rules == old(rules) && channels == old(channels) && rule == rules[i]
          invariant deliveries == old(deliveries) + (before + ForEntries(channels, a, rule.channels, k, now))
          invariant audits == old(audits) + EnqueueAudits(a, |before + ForEntries(channels, a, rule.channels, k, now)|)
        {
          if rule.channels[k].Malformed? {
            continue;
          }
          var id := rule.channels[k].id;
          var channel := GetEnabledChannel(a.org, id);
          deliveries := deliveries + [Delivery(a.org, a.id, id, if channel.Some? then Pending else Skipped, 0,
                                               if channel.Some? then None else Some(MissingOrDisabled), now, None)];
          WriteAudit(a.org, EnqueuedFor(a.id));
        }
      }
    }

    /** process_delivery; a failing send never escapes. */
    method ProcessDelivery(id: nat, alerts: nat, setting: int, o: Outcome)
      requires id < |deliveries|
      modifies this`deliveries, this`audits
      ensures Contents() == ProcessOne(old(Contents()), id, Setup(channels, alerts, setting), o)
    {
      var d := deliveries[id];
      if d.status != Pending {
        return;
      }
      if d.channel >= |channels| || d.alert >= alerts || !channels[d.channel].enabled {
        deliveries := deliveries[id := d.(status := Skipped, error := Some(Unavailable))];
        WriteAudit(d.org, SkippedAt(id));
        return;
      }
      d := d.(attempts := d.attempts + 1);
      var failure := o.error;
      if channels[d.channel].kind != Email && channels[d.channel].kind != Webhook {
        failure := Some("Unsupported notification channel type");
      }
      if failure.Some? {
        d := d.(error := Some(SendError(failure.value)));
        d := d.(status := if d.attempts >= setting then Failed else Pending);
        deliveries := deliveries[id := d];
        WriteAudit(d.org, FailedAt(id, d.attempts));
        return;
      }
      d := d.(status := Sent, sentAt := Some(o.now), error := None);
      deliveries := deliveries[id := d];
      WriteAudit(d.org, SentAt(id, d.attempts));
    }

    /** process_pending_deliveries on the answer to its query. */
    method ProcessPendingDeliveries(size: nat, batch: seq<nat>, alerts: nat, setting: int, outcomes: seq<Outcome>)
      requires AnswersPending(deliveries, size, batch) && Within(batch, |deliveries|) && |outcomes| == |batch|
      modifies this`deliveries, this`audits
      ensures Contents() == ProcessBatch(old(Contents()), batch, outcomes, Setup(channels, alerts, setting))
    {
      hide AnswersPending;
      ghost var s := Setup(channels, alerts, setting);
      for i := 0 to |batch|
        invariant |deliveries| == |old(deliveries)|
        invariant Contents() == ProcessSome(old(Contents()), batch, outcomes, i, s)
      {
        ProcessDelivery(batch[i], alerts, setting, outcomes[i]);
      }
    }
  }
}
