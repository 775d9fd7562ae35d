/**
 * What the fold over a pair's history says, without the fold: one alert per maximal block of active
 * evaluations, cut at an inactive evaluation or an operator's resolve, every field read off the block.
 */
module AlertBlocks {
  import opened Base
  import opened Notifications
  import opened Alerts
  import opened AlertHistory

  predicate IsHit(item: Item) { item.Seen? && item.active }

  predicate IsCut(item: Item) { (item.Seen? && !item.active) || item.Resolve? }

  predicate NoCut(items: seq<Item>, lo: int, hi: int) {
    forall k | lo <= k < hi && 0 <= k < |items| :: !IsCut(items[k])
  }

  /** Before position n an active evaluation stands that nothing has cut since. */
  ghost predicate OpenBefore(items: seq<Item>, n: nat)
    requires n <= |items|
  {
    exists j | 0 <= j < n :: IsHit(items[j]) && NoCut(items, j + 1, n)
  }

  /** A block begins at an active evaluation that continues no earlier block. */
  ghost predicate Begins(items: seq<Item>, i: nat)
    requires i < |items|
  {
    IsHit(items[i]) && !OpenBefore(items, i)
  }

  /** The block that begins at i ends at the first cut after it, or is still running. */
  predicate EndsAt(items: seq<Item>, i: nat, end: nat) {
    i < end <= |items| && NoCut(items, i + 1, end) && (end < |items| ==> IsCut(items[end]))
  }

  /** l is the last active evaluation of the block. */
  predicate LastHit(items: seq<Item>, i: nat, end: nat, l: nat)
    requires end <= |items|
  {
    i <= l < end && IsHit(items[l]) && forall k | l < k < end :: !IsHit(items[k])
  }

  /** The time of the block's first acknowledgement, if it has one. */
  ghost predicate FirstAcknowledged(items: seq<Item>, i: nat, end: nat, at: Option<Time>)
    requires end <= |items|
  {
    match at
    case None => forall k | i < k < end :: !items[k].Acknowledge?
    case Some(t) =>
      exists a | i < a < end :: items[a] == Acknowledge(t) && forall k | i < k < a :: !items[k].Acknowledge?
  }

  /** The alert of the block from i to end, whose last active evaluation is l. */
  ghost predicate Describes(items: seq<Item>, i: nat, end: nat, l: nat, e: Episode) {
    && EndsAt(items, i, end) && LastHit(items, i, end, l)
    && items[i].Seen? && e.firstSeen == items[i].now
    && e.message == items[l].message
    && e.lastSeen == (if end < |items| && items[end].Seen? then items[end].now else items[l].now)
    && FirstAcknowledged(items, i, end, e.acknowledgedAt)
    && e.resolvedAt == (if end < |items| then Some(items[end].now) else None)
    && e.status == if end < |items| then Resolved else if e.acknowledgedAt.Some? then Acknowledged else Active
  }

  ghost predicate Described(items: seq<Item>, i: nat, e: Episode) {
    exists end: nat, l: nat :: Describes(items, i, end, l, e)
  }

  /** Where the blocks begin, in order. */
  ghost function Beginnings(items: seq<Item>): seq<nat> {
    if items == [] then []
    else
      var last := |items| - 1;
      if Begins(items, last) then Beginnings(items[..last]) + [last] else Beginnings(items[..last])
  }

  // ---- Extending a history by one item ----

  lemma OpenPrefix(items: seq<Item>, item: Item, n: nat)
    requires n <= |items|
    ensures OpenBefore(items + [item], n) <==> OpenBefore(items, n)
  {
    if OpenBefore(items, n) {
      var j :| 0 <= j < n && IsHit(items[j]) && NoCut(items, j + 1, n);
      assert IsHit((items + [item])[j]) && NoCut(items + [item], j + 1, n);
    }
    if OpenBefore(items + [item], n) {
      var j :| 0 <= j < n && IsHit((items + [item])[j]) && NoCut(items + [item], j + 1, n);
      assert IsHit(items[j]);
      forall k | j + 1 <= k < n && 0 <= k < |items| ensures !IsCut(items[k]) {
        assert (items + [item])[k] == items[k];
      }
    }
  }

  lemma OpenExtended(items: seq<Item>, item: Item)
    ensures var n := |items|;
            OpenBefore(items + [item], n + 1) <==> IsHit(item) || (!IsCut(item) && OpenBefore(items, n))
  {
    var n, longer := |items|, items + [item];
    if IsHit(item) {
      assert IsHit(longer[n]) && NoCut(longer, n + 1, n + 1);
    } else if IsCut(item) {
      forall j | 0 <= j < n ensures !(IsHit(longer[j]) && NoCut(longer, j + 1, n + 1)) {
        assert IsCut(longer[n]);
      }
    } else {
      OpenPrefix(items, item, n);
      if OpenBefore(longer, n) {
        var j :| 0 <= j < n && IsHit(longer[j]) && NoCut(longer, j + 1, n);
        assert NoCut(longer, j + 1, n + 1);
      }
      if OpenBefore(longer, n + 1) {
        var j :| 0 <= j < n + 1 && IsHit(longer[j]) && NoCut(longer, j + 1, n + 1);
        assert NoCut(longer, j + 1, n);
      }
    }
  }

  lemma AcknowledgedPrefix(items: seq<Item>, item: Item, i: nat, end: nat, at: Option<Time>)
    requires end <= |items| && FirstAcknowledged(items, i, end, at)
    ensures FirstAcknowledged(items + [item], i, end, at)
  {
    if at.Some? {
      var a :| i < a < end && items[a] == Acknowledge(at.value) && forall k | i < k < a :: !items[k].Acknowledge?;
      assert (items + [item])[a] == items[a];
    }
  }

  lemma AcknowledgedExtended(items: seq<Item>, item: Item, i: nat, at: Option<Time>)
    requires i < |items| && FirstAcknowledged(items, i, |items|, at)
    ensures FirstAcknowledged(items + [item], i, |items| + 1, if at.None? && item.Acknowledge? then Some(item.now)
            else at)
  {
    var longer := items + [item];
    if at.Some? {
      var a :| i < a < |items| && items[a] == Acknowledge(at.value) && forall k | i < k < a :: !items[k].Acknowledge?;
      assert longer[a] == items[a];
    } else if item.Acknowledge? {
      assert longer[|items|] == Acknowledge(item.now);
    }
  }

  /** A block that has ended, and the alert it describes, do not change as the history grows. */
  lemma EndedStays(items: seq<Item>, item: Item, i: nat, e: Episode)
    requires Described(items, i, e) && e.status == Resolved
    ensures Described(items + [item], i, e)
  {
    var end: nat, l: nat :| Describes(items, i, end, l, e);
    AcknowledgedPrefix(items, item, i, end, e.acknowledgedAt);
    assert Describes(items + [item], i, end, l, e);
  }

  /** A running block continues, is acknowledged, or ends: exactly as the fold rewrites its alert. */
  lemma RunningExtends(items: seq<Item>, item: Item, i: nat, es: seq<Episode>)
    requires HasOpen(es) && Described(items, i, es[|es| - 1])
    ensures |Extend(es, item)| == |es| && Described(items + [item], i, Extend(es, item)[|es| - 1])
  {
    var longer, e, e' := items + [item], es[|es| - 1], Extend(es, item)[|es| - 1];
    var end: nat, l: nat :| Describes(items, i, end, l, e);
    var n := |items|;
    assert end == n;
    if IsCut(item) {
      AcknowledgedPrefix(items, item, i, n, e.acknowledgedAt);
      assert Describes(longer, i, n, l, e');
    } else {
      AcknowledgedExtended(items, item, i, e.acknowledgedAt);
      assert Describes(longer, i, n + 1, if IsHit(item) then n else l, e');
    }
  }

  lemma BlockBegins(items: seq<Item>, item: Item)
    requires IsHit(item)
    ensures Described(items + [item], |items|, Episode(Active, item.message, item.now, item.now, None, None))
  {
    var n := |items|;
    assert Describes(items + [item], n, n + 1, n, Episode(Active, item.message, item.now, item.now, None, None));
  }

  // ---- The theorem ----

  /** Alert by alert, the fold is the list of the history's blocks. */
  ghost predicate Blocks(items: seq<Item>, es: seq<Episode>, starts: seq<nat>) {
    && |es| == |starts|
    && (forall k | 0 <= k < |es| :: starts[k] < |items| && Described(items, starts[k], es[k]))
    && (forall k | 0 <= k < |es| - 1 :: es[k].status == Resolved)
    && (HasOpen(es) <==> OpenBefore(items, |items|))
  }

  /** The beginnings are all positions where a block begins, in increasing order. */
  lemma {:induction false} BeginningsAreAll(items: seq<Item>)
    ensures forall i | 0 <= i < |items| :: i in Beginnings(items) <==> Begins(items, i)
    ensures forall i, k | 0 <= i < k < |Beginnings(items)| :: Beginnings(items)[i] < Beginnings(items)[k]
    ensures forall k | 0 <= k < |Beginnings(items)| :: Beginnings(items)[k] < |items|
  {
    if items != [] {
      var n := |items| - 1;
      var front := items[..n];
      BeginningsAreAll(front);
      assert items == front + [items[n]];
      forall i | 0 <= i < n ensures Begins(items, i) <==> Begins(front, i) {
        OpenPrefix(front, items[n], i);
      }
    }
  }

  lemma BlocksStep(front: seq<Item>, item: Item, es: seq<Episode>, starts: seq<nat>)
    requires Blocks(front, es, starts)
    ensures Blocks(front + [item], Extend(es, item),
            if IsHit(item) && !OpenBefore(front, |front|) then starts + [|front|] else starts)
  {
    hide Described, OpenBefore;
    var items, es' := front + [item], Extend(es, item);
    OpenExtended(front, item);
    forall k | 0 <= k < |es| && es[k].status == Resolved ensures Described(items, starts[k], es[k]) {
      EndedStays(front, item, starts[k], es[k]);
    }
    if HasOpen(es) {
      RunningExtends(front, item, starts[|es| - 1], es);
    } else if IsHit(item) {
      BlockBegins(front, item);
    }
  }

  /**
   * For every history of a pair, the alerts the fold yields are, in order, the alerts of its maximal blocks:
   * times, message, acknowledgement, resolution and status all as the block determines them.
   */
  lemma {:induction false} FoldIsBlocks(items: seq<Item>)
    ensures Blocks(items, Fold(items), Beginnings(items))
  {
    hide Extend;
    if items != [] {
      var n := |items| - 1;
      var front := items[..n];
      FoldIsBlocks(front);
      assert items == front + [items[n]];
      BlocksStep(front, items[n], Fold(front), Beginnings(front));
      OpenPrefix(front, items[n], n);
    }
  }
}
