/** Every inventory row carries the organization of its device; `homes` lists the devices' organizations. */
module InventoryTenancy {
  import opened Base
  import opened Alerts
  import opened Enrollment
  import opened Inventory

  predicate RowsHome<T>(homes: seq<nat>, rows: seq<Row<T>>) {
    forall i | 0 <= i < |rows| :: rows[i].device < |homes| && rows[i].org == homes[rows[i].device]
  }

  predicate SectionsHome<T>(homes: seq<nat>, rows: seq<Section<T>>) {
    forall i | 0 <= i < |rows| :: rows[i].device < |homes| && rows[i].org == homes[rows[i].device]
  }

  predicate AuditsHome(homes: seq<nat>, audits: seq<InventoryAudit>) {
    forall i | 0 <= i < |audits| :: audits[i].device < |homes| && audits[i].org == homes[audits[i].device]
  }

  predicate ShelfHome(homes: seq<nat>, s: Shelf) {
    && SectionsHome(homes, s.summaries) && RowsHome(homes, s.disks) && RowsHome(homes, s.interfaces)
         && RowsHome(homes, s.software)
    && SectionsHome(homes, s.security) && SectionsHome(homes, s.updates) && AuditsHome(homes, s.audits)
  }

  lemma {:induction false} WithoutHome<T>(homes: seq<nat>, rows: seq<Row<T>>, device: nat)
    requires RowsHome(homes, rows)
    ensures RowsHome(homes, Without(rows, device))
  {
    if rows != [] {
      WithoutHome(homes, rows[..|rows| - 1], device);
    }
  }

  lemma {:induction false} InsertedHome<T>(homes: seq<nat>, items: seq<T>, n: nat, device: nat, org: nat)
    requires n <= |items| && device < |homes| && homes[device] == org
    ensures RowsHome(homes, RowsFor(items, n, device, org))
  {
    if n > 0 {
      InsertedHome(homes, items, n - 1, device, org);
    }
  }

  lemma ReplacedHome<T>(homes: seq<nat>, rows: seq<Row<T>>, device: nat, org: nat, items: seq<T>)
    requires RowsHome(homes, rows) && device < |homes| && homes[device] == org
    ensures RowsHome(homes, Replaced(rows, device, org, items))
  {
    WithoutHome(homes, rows, device);
    InsertedHome(homes, items, |items|, device, org);
  }

  lemma PutHome<T>(homes: seq<nat>, rows: seq<Section<T>>, device: nat, org: nat, data: T, now: Enrollment.Time)
    requires SectionsHome(homes, rows) && device < |homes| && homes[device] == org
    ensures SectionsHome(homes, Put(rows, device, org, data, now))
  {
  }

  lemma UpsertHome(homes: seq<nat>, s: Shelf, device: nat, org: nat, profile: Profile, p: Payload, now: Enrollment.Time)
    requires ShelfHome(homes, s) && device < |homes| && homes[device] == org
    ensures ShelfHome(homes, Upserted(s, device, org, profile, p, now))
  {
    hide Put, Replaced;
    PutHome(homes, s.summaries, device, org, Summary(profile, p.hardware), now);
    ReplacedHome(homes, s.disks, device, org, p.disks);
    ReplacedHome(homes, s.interfaces, device, org, p.interfaces);
    ReplacedHome(homes, s.software, device, org, p.software);
    if p.security.Some? {
      PutHome(homes, s.security, device, org, p.security.value, now);
    }
    if p.updates.Some? {
      PutHome(homes, s.updates, device, org, p.updates.value, now);
    }
  }

  lemma MoreHomes(homes: seq<nat>, homes': seq<nat>, s: Shelf)
    requires ShelfHome(homes, s) && homes <= homes'
    ensures ShelfHome(homes', s)
  {
  }
}
