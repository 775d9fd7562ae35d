/** What every reachable state of the backend keeps, across its four machines. */
module BackendRuns {
  import opened Base
  import opened Backend
  import E = Enrollment
  import ER = EnrollmentRuns
  import I = Inventory
  import IR = InventoryRuns
  import A = Alerts
  import AR = AlertRuns
  import AF = AlertFanOut
  import D = DeliveryRuns
  import J = Jobs
  import JL = JobLifecycle
  import JT = JobTenancy
  import AT = AlertTenancy
  import IT = InventoryTenancy

  // ---- Tenants ----

  /** The organization of every device. */
  function Homes(devices: seq<E.Device>): (h: seq<nat>)
    ensures |h| == |devices|
  {
    seq(|devices|, i requires 0 <= i < |devices| => devices[i].org)
  }

  /** Check-ins and enrollment audits carry their device's organization. */
  predicate RegistryHome(g: E.Registry) {
    && (forall i | 0 <= i < |g.checkins| ::
         g.checkins[i].device < |g.devices| && g.checkins[i].org == g.devices[g.checkins[i].device].org)
    && (forall i | 0 <= i < |g.audits| ::
         g.audits[i].device < |g.devices| && g.audits[i].org == g.devices[g.audits[i].device].org)
  }

  /** Every row of every table is in the organization of its device, and pending deliveries go to its channels. */
  ghost predicate Coherent(w: World) {
    var homes := Homes(w.registry.devices);
    && RegistryHome(w.registry)
    && JT.JobsHome(homes, w.jobs)
    && AT.AlertsHome(homes, w.board)
    && IT.ShelfHome(homes, w.shelf)
    && AF.Tenants(w.board)
  }

  /** Devices are never dropped or moved. */
  predicate KeepsHomes(devices: seq<E.Device>, devices': seq<E.Device>) {
    |devices| <= |devices'| && forall i | 0 <= i < |devices| :: devices'[i].org == devices[i].org
  }

  lemma HomesGrow(devices: seq<E.Device>, devices': seq<E.Device>)
    requires KeepsHomes(devices, devices')
    ensures Homes(devices) <= Homes(devices')
  {
  }

  /** A registry step on its own keeps all other tables coherent. */
  lemma RegistryMoves(w: World, g: E.Registry)
    requires Coherent(w) && RegistryHome(g) && KeepsHomes(w.registry.devices, g.devices)
    ensures Coherent(w.(registry := g))
  {
    hide *;
    RegistryMovesWith(w, g, Homes(w.registry.devices), Homes(g.devices));
  }

  lemma RegistryMovesWith(w: World, g: E.Registry, homes: seq<nat>, homes': seq<nat>)
    requires Coherent(w) && RegistryHome(g) && KeepsHomes(w.registry.devices, g.devices)
    requires homes == Homes(w.registry.devices) && homes' == Homes(g.devices)
    ensures Coherent(w.(registry := g))
  {
    hide JT.JobsHome, AT.AlertsHome, IT.ShelfHome, AF.Tenants, RegistryHome;
    HomesGrow(w.registry.devices, g.devices);
    JT.MoreHomes(homes, homes', w.jobs);
    AT.MoreHomes(homes, homes', w.board);
    IT.MoreHomes(homes, homes', w.shelf);
  }

  lemma RegistryStepHome(g: E.Registry, s: ER.Step)
    requires RegistryHome(g) && ER.Sound(g) && ER.Allowed(g, s)
    ensures RegistryHome(ER.Apply(g, s)) && KeepsHomes(g.devices, ER.Apply(g, s).devices)
  {
    hide E.DeviceFor, E.DevicesAfter, E.AgentsAfter, ER.AgentsRefine, ER.TokensAccount;
    if s.Enrolling? && E.Admits(g.tokens, s.enroll.hash, s.enroll.now) {
      ER.DevicesStep(g.devices, g.tokens[E.TokenOf(g.tokens, s.enroll.hash).value].org, s.enroll);
    }
  }

  // ---- The invariant ----

  ghost predicate ShelfSound(s: I.Shelf) { IR.Unique(s) && forall device: nat :: IR.ShelfFits(s, device) }

  ghost predicate Sound(flush: bool, setting: int, w: World) {
    && ER.Sound(w.registry)
    && ShelfSound(w.shelf)
    && AR.Sound(w.board)
    && D.Accounts(w.board.desk, setting)
    && JL.Inv(flush, w.jobs)
    && Coherent(w)
  }

  lemma RegistrationSound(flush: bool, setting: int, w: World, s: ER.Step)
    requires Sound(flush, setting, w) && ER.Allowed(w.registry, s)
    ensures Sound(flush, setting, w.(registry := ER.Apply(w.registry, s)))
  {
    hide ER.Sound, ER.Apply, ER.Allowed, ShelfSound, AR.Sound, D.Accounts, JL.Inv, KeepsHomes, RegistryHome;
    RegistryStepAll(w.registry, s);
    CoherentRegistry(w);
    RegistryMoves(w, ER.Apply(w.registry, s));
  }

  lemma CoherentRegistry(w: World)
    requires Coherent(w)
    ensures RegistryHome(w.registry)
  {
  }

  lemma RegistryStepAll(g: E.Registry, s: ER.Step)
    requires ER.Sound(g) && ER.Allowed(g, s)
    ensures ER.Sound(ER.Apply(g, s))
    ensures RegistryHome(g) ==> RegistryHome(ER.Apply(g, s)) && KeepsHomes(g.devices, ER.Apply(g, s).devices)
  {
    hide ER.Sound, ER.Apply, ER.Allowed, KeepsHomes, RegistryHome;
    RegistryStepSound(g, s);
    if RegistryHome(g) {
      RegistryStepHome(g, s);
    }
  }

  lemma RegistryStepSound(g: E.Registry, s: ER.Step)
    requires ER.Sound(g) && ER.Allowed(g, s)
    ensures ER.Sound(ER.Apply(g, s))
  {
    hide ER.Sound, ER.Apply, ER.Allowed;
    ER.StepSound(g, s, ER.Apply(g, s));
  }

  /** A step of the alert tables and their queue. */
  lemma BoardSound(flush: bool, setting: int, w: World, m: AF.Move)
    requires Sound(flush, setting, w) && AF.Allowed(w.board, m)
    requires m.OnAlerts? && m.step.Evaluation? ==> AT.AtHome(Homes(w.registry.devices), m.step.visit)
    ensures Sound(flush, setting, w.(board := AF.After(w.board, m, setting)))
  {
    hide ER.Sound, ShelfSound, AR.Sound, D.Accounts, JL.Inv, AT.AlertsHome, JT.JobsHome, IT.ShelfHome, AF.Tenants,
         AF.Allowed, AF.After, RegistryHome, Homes, AT.AtHome;
    AF.MoveAccounts(setting, w.board, m, AF.After(w.board, m, setting));
    AF.MoveTenants(setting, w.board, m, AF.After(w.board, m, setting));
    MoveSound(w.board, m, setting);
    MoveHome(Homes(w.registry.devices), w.board, m, setting);
  }

  lemma MoveSound(b: A.Board, m: AF.Move, setting: int)
    requires AF.Allowed(b, m) && AR.Sound(b)
    ensures AR.Sound(AF.After(b, m, setting))
  {
    hide AR.Sound, AR.Apply, D.Apply;
    if m.OnAlerts? {
      AR.StepSound(b, Some(m.step), AF.After(b, m, setting));
    } else {
      AR.StepSound(b, None, AF.After(b, m, setting));
    }
  }

  lemma MoveHome(homes: seq<nat>, b: A.Board, m: AF.Move, setting: int)
    requires AF.Allowed(b, m) && AT.AlertsHome(homes, b)
    requires m.OnAlerts? && m.step.Evaluation? ==> AT.AtHome(homes, m.step.visit)
    ensures AT.AlertsHome(homes, AF.After(b, m, setting))
  {
    hide AR.Apply, AR.Allowed, D.Apply, D.Allowed, AT.AtHome;
    if m.OnAlerts? {
      AT.StepHome(homes, b, m.step);
    }
  }

  lemma JobsSound(flush: bool, setting: int, w: World, r: J.Request)
    requires Sound(flush, setting, w) && J.Truthful(flush, w.jobs, r)
    requires JT.CreatesAtHome(Homes(w.registry.devices), r)
    ensures Sound(flush, setting, w.(jobs := J.Apply(w.jobs, r)))
  {
    hide ER.Sound, ShelfSound, AR.Sound, D.Accounts, JL.Inv, AT.AlertsHome, JT.JobsHome, IT.ShelfHome, AF.Tenants,
         RegistryHome, Homes, JT.CreatesAtHome, J.Truthful, J.Apply, J.Shaped;
    TruthIsShaped(flush, w.jobs, r);
    JL.InvStep(flush, w.jobs, r);
    JT.StepHome(Homes(w.registry.devices), w.jobs, r);
  }

  lemma TruthIsShaped(flush: bool, t: J.Tables, r: J.Request)
    requires J.Truthful(flush, t, r)
    ensures J.Shaped(t, r)
  {
  }

  lemma ShelfStep(homes: seq<nat>, s: I.Shelf, c: CheckIn, org: nat)
    requires ShelfSound(s) && IT.ShelfHome(homes, s) && c.visit.device < |homes| && homes[c.visit.device] == org
    ensures ShelfSound(ShelfAfter(s, c, org)) && IT.ShelfHome(homes, ShelfAfter(s, c, org))
  {
    hide IR.Unique, IR.ShelfFits, IT.ShelfHome, I.Upserted;
    if c.inventory.Some? {
      IT.UpsertHome(homes, s, c.visit.device, org, c.visit.profile, c.inventory.value, c.visit.now);
      forall device: nat ensures IR.Unique(ShelfAfter(s, c, org)) && IR.ShelfFits(ShelfAfter(s, c, org), device) {
        IR.UpsertFits(s, c.visit.device, org, c.visit.profile, c.inventory.value, c.visit.now, device);
      }
      assert IR.ShelfFits(ShelfAfter(s, c, org), 0);
    }
  }

  lemma ShelfMoves(flush: bool, setting: int, w: World, c: CheckIn, org: nat)
    requires Sound(flush, setting, w)
    requires c.visit.device < |w.registry.devices| && w.registry.devices[c.visit.device].org == org
    ensures Sound(flush, setting, w.(shelf := ShelfAfter(w.shelf, c, org)))
  {
    hide ER.Sound, ShelfSound, AR.Sound, D.Accounts, JL.Inv, AT.AlertsHome, JT.JobsHome, IT.ShelfHome, AF.Tenants,
      RegistryHome, ShelfAfter;
    ShelfStep(Homes(w.registry.devices), w.shelf, c, org);
  }

  lemma VisitKeepsOrg(g: E.Registry, v: E.Visit)
    requires E.Accepts(g, v)
    ensures var g' := E.AfterVisit(g, v);
            v.device < |g.devices| == |g'.devices| && g'.devices[v.device].org == g.devices[v.device].org
  {
  }

  /** An accepted check-in is a registry step, an inventory payload and an evaluation, in that order. */
  lemma CheckInSound(flush: bool, setting: int, w: World, c: CheckIn)
    requires Sound(flush, setting, w)
    ensures Sound(flush, setting, AfterCheckIn(w, c))
  {
    hide Sound, E.Accepts, E.AfterVisit, ShelfAfter, FactsOf, A.Evaluate;
    if E.Accepts(w.registry, c.visit) {
      VisitKeepsOrg(w.registry, c.visit);
      var org := w.registry.devices[c.visit.device].org;
      RegistrationSound(flush, setting, w, ER.Visiting(c.visit));
      var w1 := w.(registry := E.AfterVisit(w.registry, c.visit));
      ShelfMoves(flush, setting, w1, c, org);
      var w2 := w1.(shelf := ShelfAfter(w1.shelf, c, org));
      BoardSound(flush, setting, w2, AF.OnAlerts(AR.Evaluation(VisitOf(w, c))));
    }
  }

  lemma StepSound(flush: bool, setting: int, w: World, r: Request, w': World)
    requires Happens(flush, setting, w, r, w') && Sound(flush, setting, w)
    ensures Sound(flush, setting, w')
  {
    hide Sound, AfterCheckIn, ER.Apply, ER.Allowed, AR.Apply, D.Apply, J.Apply, J.Truthful;
    match r
    case Registering(s) => RegistrationSound(flush, setting, w, s);
    case CheckingIn(c) => CheckInSound(flush, setting, w, c);
    case Alerting(s) => BoardSound(flush, setting, w, AF.OnAlerts(s));
    case Delivering(s) => BoardSound(flush, setting, w, AF.OnDesk(s));
    case Operating(org, order) => if MayOrder(w, org, order) { JobsSound(flush, setting, w, order); }
    case Working(device, secret, call) => if RunsAs(w, device, secret, call) { JobsSound(flush, setting, w, call); }
  }

  lemma BlankIsSound(flush: bool, setting: int, w: World)
    requires Blank(w)
    ensures Sound(flush, setting, w)
  {
    hide ER.Sound, ShelfSound, AR.Sound, D.Accounts, JL.Inv, Coherent;
    BlankMachines(flush, setting, w);
    BlankIsCoherent(w);
  }

  lemma BlankIsCoherent(w: World)
    requires Blank(w)
    ensures Coherent(w)
  {
  }

  lemma BlankMachines(flush: bool, setting: int, w: World)
    requires Blank(w)
    ensures ER.Sound(w.registry) && ShelfSound(w.shelf) && AR.Sound(w.board) && D.Accounts(w.board.desk, setting)
            && JL.Inv(flush, w.jobs)
  {
    AR.NothingIsSound(w.board);
    hide AR.Sound;
    assert JL.Inv(flush, w.jobs);
    assert D.Accounts(w.board.desk, setting);
  }

  /**
   * Every reachable state of the backend is sound: all that the single machines keep, and tenant coherence between
   * them.
   */
  lemma {:induction false} AlwaysSound(flush: bool, setting: int, worlds: seq<World>, requests: seq<Request>, i: nat)
    requires Run(flush, setting, worlds, requests) && i < |worlds|
    ensures Sound(flush, setting, worlds[i])
  {
    hide Happens, Sound;
    if i == 0 {
      BlankIsSound(flush, setting, worlds[0]);
    } else {
      AlwaysSound(flush, setting, worlds, requests, i - 1);
      StepSound(flush, setting, worlds[i - 1], requests[i - 1], worlds[i]);
    }
  }

  // ---- Tenant coherence, spelled out ----

  /**
   * In every reachable state every job, job event, job audit, result, alert, alert event, inventory row and
   * check-in carries the organization of its device; alerts name rules of that organization; every delivery
   * carries its alert's organization, and the channel of a pending one belongs to it.
   */
  lemma TenantsNeverMix(flush: bool, setting: int, worlds: seq<World>, requests: seq<Request>, i: nat)
    requires Run(flush, setting, worlds, requests) && i < |worlds|
    ensures var w, devices := worlds[i], worlds[i].registry.devices;
            && (forall k | 0 <= k < |w.jobs.jobs| ::
                  w.jobs.jobs[k].device < |devices| && w.jobs.jobs[k].org == devices[w.jobs.jobs[k].device].org)
            && (forall k | 0 <= k < |w.board.alerts| ::
                  w.board.alerts[k].device < |devices|
                    && w.board.alerts[k].org == devices[w.board.alerts[k].device].org)
            && AR.FitsRules(w.board.rules, w.board.alerts)
            && (forall k | 0 <= k < |w.board.desk.deliveries| ::
                  AF.RowTenant(w.board.desk.deliveries[k], w.board.alerts, w.board.desk.channels))
            && JT.JobsHome(Homes(devices), w.jobs) && AT.AlertsHome(Homes(devices), w.board)
                 && IT.ShelfHome(Homes(devices), w.shelf)
            && RegistryHome(w.registry)
  {
    hide Run, ER.Sound, ShelfSound, D.Accounts, JL.Inv, IT.ShelfHome, RegistryHome, AF.RowTenant, AR.FitsRules;
    AlwaysSound(flush, setting, worlds, requests, i);
    var w := worlds[i];
    JobsAreHome(w.registry.devices, w.jobs);
    AlertsAreHome(w.registry.devices, w.board);
  }

  lemma JobsAreHome(devices: seq<E.Device>, t: J.Tables)
    requires JT.JobsHome(Homes(devices), t)
    ensures forall k | 0 <= k < |t.jobs| ::
            t.jobs[k].device < |devices| && t.jobs[k].org == devices[t.jobs[k].device].org
  {
    forall k | 0 <= k < |t.jobs|
      ensures t.jobs[k].device < |devices| && t.jobs[k].org == devices[t.jobs[k].device].org
    {
      assert JT.JobHome(Homes(devices), t.jobs[k]);
    }
  }

  lemma AlertsAreHome(devices: seq<E.Device>, b: A.Board)
    requires AT.AlertsHome(Homes(devices), b)
    ensures forall k | 0 <= k < |b.alerts| ::
            b.alerts[k].device < |devices| && b.alerts[k].org == devices[b.alerts[k].device].org
  {
    forall k | 0 <= k < |b.alerts|
      ensures b.alerts[k].device < |devices| && b.alerts[k].org == devices[b.alerts[k].device].org
    {
      assert AT.AlertHome(Homes(devices), b.alerts[k]);
    }
  }
}
