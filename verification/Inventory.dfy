/** The latest-inventory tables and what one inventory payload does to them. */
module Inventory {
  import opened Base
  import opened Alerts
  import opened Enrollment

  datatype Hardware = Hardware(osVersion: Option<string>, osBuild: Option<string>, cpuModel: Option<string>,
    cpuCores: Option<int>,
                               memoryTotal: Option<int>, biosVendor: Option<string>, biosVersion: Option<string>,
                               manufacturer: Option<string>, model: Option<string>)

  datatype Interface = Interface(name: string, mac: Option<string>, addresses: seq<string>)

  datatype Software = Software(name: string, version: Option<string>, publisher: Option<string>,
    installedAt: Option<Enrollment.Time>)

  datatype Payload = Payload(hardware: Hardware, disks: seq<Disk>, interfaces: seq<Interface>, software: seq<Software>,
                             security: Option<Security>, updates: Option<Updates>)

  /** A row of a table that holds many rows per device. */
  datatype Row<T> = Row(device: nat, org: nat, item: T)

  /** A row of a table that holds one row per device. */
  datatype Section<T> = Section(device: nat, org: nat, data: T, refreshedAt: Enrollment.Time)

  datatype Summary = Summary(profile: Profile, hardware: Hardware)

  datatype Counts = Counts(disks: nat, interfaces: nat, software: nat)

  datatype InventoryAudit = InventoryAudit(org: nat, device: nat, counts: Counts)

  /** One inventory received: what the tables are compared with. */
  datatype Receipt = Receipt(device: nat, profile: Profile, payload: Payload, now: Enrollment.Time)

  datatype Shelf = Shelf(summaries: seq<Section<Summary>>, disks: seq<Row<Disk>>, interfaces: seq<Row<Interface>>,
    software: seq<Row<Software>>,
                         security: seq<Section<Security>>, updates: seq<Section<Updates>>, audits: seq<InventoryAudit>,
                           log: seq<Receipt>)

  // ---- Tables ----

  /** delete(...).where(device_id == device). */
  function Without<T>(rows: seq<Row<T>>, device: nat): seq<Row<T>> {
    if rows == [] then []
    else
      var last := |rows| - 1;
      var before := Without(rows[..last], device);
      if rows[last].device == device then before else before + [rows[last]]
  }

  function RowsFor<T>(items: seq<T>, n: nat, device: nat, org: nat): seq<Row<T>>
    requires n <= |items|
  {
    if n == 0 then [] else RowsFor(items, n - 1, device, org) + [Row(device, org, items[n - 1])]
  }

  function Replaced<T>(rows: seq<Row<T>>, device: nat, org: nat, items: seq<T>): seq<Row<T>> {
    Without(rows, device) + RowsFor(items, |items|, device, org)
  }

  /** The device's items, in insertion order. */
  function ItemsOf<T>(rows: seq<Row<T>>, device: nat): seq<T> {
    if rows == [] then []
    else
      var last := |rows| - 1;
      var before := ItemsOf(rows[..last], device);
      if rows[last].device == device then before + [rows[last].item] else before
  }

  function IsFor<T>(device: nat): Section<T> -> bool { (s: Section<T>) => s.device == device }

  function SectionAt<T>(rows: seq<Section<T>>, device: nat): Option<nat> { Latest(rows, IsFor(device)) }

  /** Update the device's row, or create it; a row's organization is set only when it is created. */
  function Put<T>(rows: seq<Section<T>>, device: nat, org: nat, data: T, now: Enrollment.Time): seq<Section<T>> {
    match SectionAt(rows, device)
    case None => rows + [Section(device, org, data, now)]
    case Some(i) => rows[i := rows[i].(data := data, refreshedAt := now)]
  }

  function PutSome<T>(rows: seq<Section<T>>, device: nat, org: nat, data: Option<T>,
      now: Enrollment.Time): seq<Section<T>> {
    if data.Some? then Put(rows, device, org, data.value, now) else rows
  }

  /** The device's section and when it was refreshed. */
  function Stored<T>(rows: seq<Section<T>>, device: nat): Option<(T, Enrollment.Time)> {
    match SectionAt(rows, device)
    case None => None
    case Some(i) => Some((rows[i].data, rows[i].refreshedAt))
  }

  /** upsert_inventory. */
  function Upserted(s: Shelf, device: nat, org: nat, profile: Profile, p: Payload, now: Enrollment.Time): Shelf {
    Shelf(Put(s.summaries, device, org, Summary(profile, p.hardware), now),
          Replaced(s.disks, device, org, p.disks),
          Replaced(s.interfaces, device, org, p.interfaces),
          Replaced(s.software, device, org, p.software),
          PutSome(s.security, device, org, p.security, now),
          PutSome(s.updates, device, org, p.updates, now),
          s.audits + [InventoryAudit(org, device, Counts(|p.disks|, |p.interfaces|, |p.software|))],
          s.log + [Receipt(device, profile, p, now)])
  }

  // ---- The handler ----

  class InventoryTables {
    var summaries: seq<Section<Summary>>
    var disks: seq<Row<Disk>>
    var interfaces: seq<Row<Interface>>
    var software: seq<Row<Software>>
    var security: seq<Section<Security>>
    var updates: seq<Section<Updates>>
    var audits: seq<InventoryAudit>
    ghost var log: seq<Receipt>

    constructor ()
      ensures Contents() == Shelf([], [], [], [], [], [], [], [])
    {
      summaries, disks, interfaces, software, security, updates, audits := [], [], [], [], [], [], [];
      log := [];
    }

    ghost function Contents(): Shelf
      reads this
    {
      Shelf(summaries, disks, interfaces, software, security, updates, audits, log)
    }

    method UpsertInventory(device: nat, org: nat, profile: Profile, p: Payload, now: Enrollment.Time)
      modifies this
      ensures Contents() == Upserted(old(Contents()), device, org, profile, p, now)
    {
      var i := SectionAt(summaries, device);
      if i.None? {
        summaries := summaries + [Section(device, org, Summary(profile, p.hardware), now)];
      } else {
        summaries := summaries[i.value := summaries[i.value].(data := Summary(profile, p.hardware),
          refreshedAt := now)];
      }
      ReplaceItems(device, org, p);
      if p.security.Some? {
        var k := SectionAt(security, device);
        if k.None? {
          security := security + [Section(device, org, p.security.value, now)];
        } else {
          security := security[k.value := security[k.value].(data := p.security.value, refreshedAt := now)];
        }
      }
      if p.updates.Some? {
        var k := SectionAt(updates, device);
        if k.None? {
          updates := updates + [Section(device, org, p.updates.value, now)];
        } else {
          updates := updates[k.value := updates[k.value].(data := p.updates.value, refreshedAt := now)];
        }
      }
      audits := audits + [InventoryAudit(org, device, Counts(|p.disks|, |p.interfaces|, |p.software|))];
      log := log + [Receipt(device, profile, p, now)];
    }

    /** The three tables that are emptied for the device and filled again. */
    method ReplaceItems(device: nat, org: nat, p: Payload)
      modifies this`disks, this`interfaces, this`software
      ensures disks == Replaced(old(disks), device, org, p.disks)
      ensures interfaces == Replaced(old(interfaces), device, org, p.interfaces)
      ensures software == Replaced(old(software), device, org, p.software)
    {
      disks := Without(disks, device);
      for n := 0 to |p.disks|
        invariant disks == Without(old(disks), device) + RowsFor(p.disks, n, device, org)
        invariant interfaces == old(interfaces) && software == old(software)
      {
        disks := disks + [Row(device, org, p.disks[n])];
      }
      interfaces := Without(interfaces, device);
      for n := 0 to |p.interfaces|
        invariant interfaces == Without(old(interfaces), device) + RowsFor(p.interfaces, n, device, org)
        invariant disks == Replaced(old(disks), device, org, p.disks) && software == old(software)
      {
        interfaces := interfaces + [Row(device, org, p.interfaces[n])];
      }
      software := Without(software, device);
      for n := 0 to |p.software|
        invariant software == Without(old(software), device) + RowsFor(p.software, n, device, org)
        invariant disks == Replaced(old(disks), device, org, p.disks)
        invariant interfaces == Replaced(old(interfaces), device, org, p.interfaces)
      {
        software := software + [Row(device, org, p.software[n])];
      }
    }
  }
}
