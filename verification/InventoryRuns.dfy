/** The inventory tables as a fold over everything received, in every reachable state. */
module InventoryRuns {
  import opened Base
  import opened Alerts
  import opened Enrollment
  import opened Inventory

  // ---- Folds over the log ----

  function LastReceipt(log: seq<Receipt>, device: nat): Option<Receipt> {
    if log == [] then None
    else if log[|log| - 1].device == device then Some(log[|log| - 1])
    else LastReceipt(log[..|log| - 1], device)
  }

  /** The security section of the last receipt that had one, and when it arrived. */
  function LastSecurity(log: seq<Receipt>, device: nat): Option<(Security, Enrollment.Time)> {
    if log == [] then None
    else
      var r := log[|log| - 1];
      if r.device == device && r.payload.security.Some? then Some((r.payload.security.value, r.now))
      else LastSecurity(log[..|log| - 1], device)
  }

  function LastUpdates(log: seq<Receipt>, device: nat): Option<(Updates, Enrollment.Time)> {
    if log == [] then None
    else
      var r := log[|log| - 1];
      if r.device == device && r.payload.updates.Some? then Some((r.payload.updates.value, r.now))
      else LastUpdates(log[..|log| - 1], device)
  }

  /** The tables hold, for this device, exactly what the last receipts said. */
  ghost predicate ShelfFits(s: Shelf, device: nat) {
    && (match LastReceipt(s.log, device)
        case None => Stored(s.summaries, device) == None && ItemsOf(s.disks, device) == []
                     && ItemsOf(s.interfaces, device) == [] && ItemsOf(s.software, device) == []
        case Some(r) =>
          && Stored(s.summaries, device) == Some((Summary(r.profile, r.payload.hardware), r.now))
          && ItemsOf(s.disks, device) == r.payload.disks
          && ItemsOf(s.interfaces, device) == r.payload.interfaces
          && ItemsOf(s.software, device) == r.payload.software)
    && Stored(s.security, device) == LastSecurity(s.log, device)
    && Stored(s.updates, device) == LastUpdates(s.log, device)
  }

  predicate OnePerDevice<T>(rows: seq<Section<T>>) {
    forall i, k | 0 <= i < k < |rows| :: rows[i].device != rows[k].device
  }

  // ---- Row tables ----

  lemma {:induction false} ItemsConcat<T>(a: seq<Row<T>>, b: seq<Row<T>>, device: nat)
    ensures ItemsOf(a + b, device) == ItemsOf(a, device) + ItemsOf(b, device)
  {
    if b == [] {
      assert a + b == a;
    } else {
      ItemsConcat(a, b[..|b| - 1], device);
      assert (a + b)[..|a + b| - 1] == a + b[..|b| - 1];
    }
  }

  lemma {:induction false} ItemsWithout<T>(rows: seq<Row<T>>, device: nat, other: nat)
    ensures ItemsOf(Without(rows, device), other) == if other == device then [] else ItemsOf(rows, other)
  {
    if rows != [] {
      var last := |rows| - 1;
      ItemsWithout(rows[..last], device, other);
      var before := Without(rows[..last], device);
      assert (before + [rows[last]])[..|before|] == before;
    }
  }

  lemma {:induction false} ItemsInserted<T>(items: seq<T>, n: nat, device: nat, org: nat, other: nat)
    requires n <= |items|
    ensures ItemsOf(RowsFor(items, n, device, org), other) == if other == device then items[..n] else []
  {
    if n > 0 {
      ItemsInserted(items, n - 1, device, org, other);
      var before := RowsFor(items, n - 1, device, org);
      assert (before + [Row(device, org, items[n - 1])])[..|before|] == before;
      assert items[..n] == items[..n - 1] + [items[n - 1]];
    }
  }

  /** Delete-then-insert leaves exactly the new items, and every other device's as they were. */
  lemma ItemsReplaced<T>(rows: seq<Row<T>>, device: nat, org: nat, items: seq<T>, other: nat)
    ensures ItemsOf(Replaced(rows, device, org, items), other)
            == if other == device then items else ItemsOf(rows, other)
  {
    ItemsConcat(Without(rows, device), RowsFor(items, |items|, device, org), other);
    ItemsWithout(rows, device, other);
    ItemsInserted(items, |items|, device, org, other);
    assert items[..|items|] == items;
  }

  // ---- Section tables ----

  /** An upsert stores the device's section, keeps it unique, and leaves the others alone. */
  lemma SectionPut<T>(rows: seq<Section<T>>, device: nat, org: nat, data: T, now: Enrollment.Time, other: nat)
    requires OnePerDevice(rows)
    ensures OnePerDevice(Put(rows, device, org, data, now))
    ensures Stored(Put(rows, device, org, data, now), other)
            == if other == device then Some((data, now)) else Stored(rows, other)
  {
    match SectionAt(rows, device)
    case None =>
      LatestNone(rows, IsFor(device));
      LatestAppended(rows, Section(device, org, data, now), IsFor(other));
    case Some(i) =>
      LatestUpdated(rows, i, rows[i].(data := data, refreshedAt := now), IsFor(other));
  }

  // ---- One payload ----

  lemma LastSnoc(log: seq<Receipt>, r: Receipt, device: nat)
    ensures LastReceipt(log + [r], device) == if r.device == device then Some(r) else LastReceipt(log, device)
    ensures LastSecurity(log + [r], device)
         == if r.device == device && r.payload.security.Some? then Some((r.payload.security.value, r.now))
           else LastSecurity(log, device)
    ensures LastUpdates(log + [r], device)
         == if r.device == device && r.payload.updates.Some? then Some((r.payload.updates.value, r.now))
           else LastUpdates(log, device)
  {
    assert (log + [r])[..|log|] == log;
  }

  ghost predicate Unique(s: Shelf) { OnePerDevice(s.summaries) && OnePerDevice(s.security) && OnePerDevice(s.updates) }

  lemma UpsertFits(s: Shelf, device: nat, org: nat, profile: Profile, p: Payload, now: Enrollment.Time, other: nat)
    requires Unique(s) && ShelfFits(s, other)
    ensures Unique(Upserted(s, device, org, profile, p, now))
            && ShelfFits(Upserted(s, device, org, profile, p, now), other)
  {
    hide ItemsOf, Without, RowsFor, Replaced, Put, Stored, LastReceipt, LastSecurity, LastUpdates, OnePerDevice;
    LastSnoc(s.log, Receipt(device, profile, p, now), other);
    SectionPut(s.summaries, device, org, Summary(profile, p.hardware), now, other);
    ItemsReplaced(s.disks, device, org, p.disks, other);
    ItemsReplaced(s.interfaces, device, org, p.interfaces, other);
    ItemsReplaced(s.software, device, org, p.software, other);
    if p.security.Some? {
      SectionPut(s.security, device, org, p.security.value, now, other);
    }
    if p.updates.Some? {
      SectionPut(s.updates, device, org, p.updates.value, now, other);
    }
  }

  /** A payload touches no row of another device. */
  lemma OthersUntouched(s: Shelf, device: nat, org: nat, profile: Profile, p: Payload, now: Enrollment.Time, other: nat)
    requires Unique(s) && other != device
    ensures var s' := Upserted(s, device, org, profile, p, now);
            && ItemsOf(s'.disks, other) == ItemsOf(s.disks, other)
                 && ItemsOf(s'.interfaces, other) == ItemsOf(s.interfaces, other)
            && ItemsOf(s'.software, other) == ItemsOf(s.software, other)
                 && Stored(s'.summaries, other) == Stored(s.summaries, other)
            && Stored(s'.security, other) == Stored(s.security, other)
                 && Stored(s'.updates, other) == Stored(s.updates, other)
  {
    hide ItemsOf, Without, RowsFor, Replaced, Put, Stored, OnePerDevice;
    SectionPut(s.summaries, device, org, Summary(profile, p.hardware), now, other);
    ItemsReplaced(s.disks, device, org, p.disks, other);
    ItemsReplaced(s.interfaces, device, org, p.interfaces, other);
    ItemsReplaced(s.software, device, org, p.software, other);
    if p.security.Some? {
      SectionPut(s.security, device, org, p.security.value, now, other);
    }
    if p.updates.Some? {
      SectionPut(s.updates, device, org, p.updates.value, now, other);
    }
  }

  // ---- Runs ----

  /** One payload received for a device. */
  datatype Delivery = Delivery(org: nat, receipt: Receipt)

  function Received(s: Shelf, d: Delivery): Shelf {
    Upserted(s, d.receipt.device, d.org, d.receipt.profile, d.receipt.payload, d.receipt.now)
  }

  const EMPTY_SHELF := Shelf([], [], [], [], [], [], [], [])

  ghost predicate Run(shelves: seq<Shelf>, received: seq<Delivery>) {
    && |shelves| == |received| + 1
    && shelves[0] == EMPTY_SHELF
    && forall i | 0 <= i < |received| :: shelves[i + 1] == Received(shelves[i], received[i])
  }

  /**
   * After any sequence of payloads, for every device: the disk, interface and software rows are those of its
   * last payload, its summary is that payload's and is unique, and its security and update rows are those of
   * the last payload that had the section.
   */
  lemma {:induction false} TablesAreTheFold(shelves: seq<Shelf>, received: seq<Delivery>, i: nat, device: nat)
    requires Run(shelves, received) && i < |shelves|
    ensures Unique(shelves[i]) && ShelfFits(shelves[i], device)
  {
    hide Upserted;
    if i > 0 {
      hide Unique, ShelfFits;
      TablesAreTheFold(shelves, received, i - 1, device);
      var r := received[i - 1].receipt;
      UpsertFits(shelves[i - 1], r.device, received[i - 1].org, r.profile, r.payload, r.now, device);
    }
  }

  /** And the log is what was received, in order. */
  lemma {:induction false} LogIsReceived(shelves: seq<Shelf>, received: seq<Delivery>, i: nat)
    requires Run(shelves, received) && i < |shelves|
    ensures |shelves[i].log| == i && forall k | 0 <= k < i :: shelves[i].log[k] == received[k].receipt
  {
    if i > 0 {
      LogIsReceived(shelves, received, i - 1);
    }
  }

  /** Every payload received is audited, with the numbers of items it replaced. */
  lemma {:induction false} AuditsAreReceipts(shelves: seq<Shelf>, received: seq<Delivery>, i: nat)
    requires Run(shelves, received) && i < |shelves|
    ensures |shelves[i].audits| == i
    ensures forall k | 0 <= k < i ::
              var a, r := shelves[i].audits[k], received[k].receipt;
              && a.org == received[k].org && a.device == r.device && a.counts.disks == |r.payload.disks|
              && a.counts.interfaces == |r.payload.interfaces| && a.counts.software == |r.payload.software|
  {
    hide Put, PutSome, Replaced;
    if i > 0 {
      AuditsAreReceipts(shelves, received, i - 1);
    }
  }
}
