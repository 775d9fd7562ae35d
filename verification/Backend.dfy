/**
 * The whole backend as one world: enrollment, inventory, alerts with their delivery queue, and jobs. Each
 * HTTP request is one step.
 */
module Backend {
  import opened Base
  import E = Enrollment
  import ER = EnrollmentRuns
  import I = Inventory
  import A = Alerts
  import AR = AlertRuns
  import AF = AlertFanOut
  import D = DeliveryRuns
  import J = Jobs

  datatype World = World(registry: E.Registry, shelf: I.Shelf, board: A.Board, jobs: J.Tables)

  datatype CheckIn = CheckIn(visit: E.Visit, inventory: Option<I.Payload>, memoryTotal: Option<int>,
    settings: A.Settings)

  /** Registering covers enrollment, token administration and the device reads that write the online flag. */
  datatype Request =
    | Registering(registration: ER.Step)
    | CheckingIn(checkin: CheckIn)
    | Alerting(step: AR.Step)
    | Delivering(work: D.Step)
    | Operating(org: nat, order: J.Request)
    | Working(device: nat, secret: E.Secret, call: J.Request)

  // ---- A check-in ----

  /** What an evaluation reads of a device, the payload carrying total but never used memory. */
  function FactsOf(g: E.Registry, s: I.Shelf, device: nat, memoryTotal: Option<int>): A.Facts
    requires device < |g.devices|
  {
    var d := g.devices[device];
    var summary, security, updates := I.Stored(s.summaries, device), I.Stored(s.security, device),
      I.Stored(s.updates, device);
    A.Facts(d.profile.hostname, d.lastSeen, Some(d.profile.version), I.ItemsOf(s.disks, device), memoryTotal, None,
            if security.Some? then Some(security.value.0) else None,
            if updates.Some? then Some(updates.value.0) else None,
            if summary.Some? then Some(summary.value.1) else None)
  }

  function ShelfAfter(s: I.Shelf, c: CheckIn, org: nat): I.Shelf {
    if c.inventory.Some? then I.Upserted(s, c.visit.device, org, c.visit.profile, c.inventory.value, c.visit.now) else s
  }

  /** The evaluation a check-in ends with. */
  function VisitOf(w: World, c: CheckIn): A.Visit
    requires E.Accepts(w.registry, c.visit)
  {
    var org, g := w.registry.devices[c.visit.device].org, E.AfterVisit(w.registry, c.visit);
    A.Visit(org, c.visit.device, FactsOf(g, ShelfAfter(w.shelf, c, org), c.visit.device, c.memoryTotal), c.settings,
      c.visit.now)
  }

  /** checkin_agent. */
  function AfterCheckIn(w: World, c: CheckIn): World {
    if !E.Accepts(w.registry, c.visit) then w
    else
      w.(registry := E.AfterVisit(w.registry, c.visit),
         shelf := ShelfAfter(w.shelf, c, w.registry.devices[c.visit.device].org),
         board := A.Evaluate(w.board, VisitOf(w, c)))
  }

  // ---- Jobs ----

  /** What the job endpoints for operators check before they act. */
  predicate MayOrder(w: World, org: nat, r: J.Request) {
    match r
    case Create(_, device, _, _, _, _, _) => device < |w.registry.devices| && w.registry.devices[device].org == org
    case Sweep(scope, _, _) =>
      scope.Some? && scope.value < |w.registry.devices| && w.registry.devices[scope.value].org == org
    case Cancel(job, _) => job < |w.jobs.jobs| && w.jobs.jobs[job].org == org
    case _ => false
  }

  /** The request runs as the agent its credentials authenticate. */
  predicate RunsAs(w: World, device: nat, secret: E.Secret, r: J.Request) {
    (r.Poll? || r.Start? || r.Complete?) &&
    var agent := E.Authenticated(w.registry.agents, device, secret);
    agent.Some? && r.agent == J.Agent(agent.value, device)
  }

  // ---- One request ----

  /** The database answers truthfully, secrets are fresh, and each machine only takes its own kind of step. */
  predicate Allowed(flush: bool, w: World, r: Request) {
    match r
    case Registering(s) => !s.Visiting? && ER.Allowed(w.registry, s)
    case CheckingIn(_) => true
    case Alerting(s) => !s.Evaluation? && AR.Allowed(w.board, s)
    case Delivering(s) => AF.Allowed(w.board, AF.OnDesk(s))
    case Operating(org, order) =>
      && (MayOrder(w, org, order) ==> J.Truthful(flush, w.jobs, order))
      && (order.Create? ==> order.org == org)
    case Working(device, secret, call) => RunsAs(w, device, secret, call) ==> J.Truthful(flush, w.jobs, call)
  }

  function After(flush: bool, setting: int, w: World, r: Request): World
    requires Allowed(flush, w, r)
  {
    match r
    case Registering(s) => w.(registry := ER.Apply(w.registry, s))
    case CheckingIn(c) => AfterCheckIn(w, c)
    case Alerting(s) => w.(board := AR.Apply(w.board, s))
    case Delivering(s) => w.(board := AF.After(w.board, AF.OnDesk(s), setting))
    case Operating(org, order) => if MayOrder(w, org, order) then w.(jobs := J.Apply(w.jobs, order)) else w
    case Working(device, secret, call) =>
      if RunsAs(w, device, secret, call) then w.(jobs := J.Apply(w.jobs, call)) else w
  }

  ghost predicate Happens(flush: bool, setting: int, w: World, r: Request, w': World) {
    Allowed(flush, w, r) && w' == After(flush, setting, w, r)
  }

  /** Nothing but notification rules and channels has been set up. */
  predicate Blank(w: World) {
    && w.registry == E.Registry([], [], [], [], [], [])
    && w.shelf == I.Shelf([], [], [], [], [], [], [], [])
    && w.jobs == J.EMPTY
    && w.board == A.Board([], [], [], w.board.desk.(deliveries := [], audits := []), [])
  }

  ghost predicate Run(flush: bool, setting: int, worlds: seq<World>, requests: seq<Request>) {
    && |worlds| == |requests| + 1
    && Blank(worlds[0])
    && forall i | 0 <= i < |requests| :: Happens(flush, setting, worlds[i], requests[i], worlds[i + 1])
  }
}
