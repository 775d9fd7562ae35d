/**
 * A run of the backend, seen through one machine, is a run of that machine, moment by moment: an index map says
 * which state of the machine's run each world shows. Theorems about one or two moments therefore carry over.
 */
module BackendProjections {
  import opened Base
  import opened Backend
  import E = Enrollment
  import ER = EnrollmentRuns
  import A = Alerts
  import AR = AlertRuns
  import AF = AlertFanOut
  import J = Jobs
  import JR = JobRuns

  /** World j shows state at[j] of the machine's run, and later worlds show no earlier states. */
  predicate Marks(at: seq<nat>, worlds: nat, states: nat) {
    && |at| == worlds && (forall j | 0 <= j < worlds :: at[j] < states)
    && (forall j, k | 0 <= j <= k < worlds :: at[j] <= at[k])
  }

  /** The map advances by one where the machine takes a step, and stands still where it does not. */
  predicate Advances(before: nat, after: nat, moved: bool) { after == if moved then before + 1 else before }

  // ---- Enrollment ----

  /** The step the enrollment machine takes in a request, if any. */
  function RegistryStep(r: Request): Option<ER.Step> {
    match r
    case Registering(s) => Some(s)
    case CheckingIn(c) => Some(ER.Visiting(c.visit))
    case _ => None
  }

  lemma RegistryProjects(flush: bool, setting: int, w: World, r: Request, w': World)
    requires Happens(flush, setting, w, r, w')
    ensures match RegistryStep(r)
            case Some(s) => ER.Happens(w.registry, s, w'.registry)
            case None => w'.registry == w.registry
  {
    hide A.Evaluate, AR.Apply, ShelfAfter, J.Apply, FactsOf;
  }

  ghost predicate RegistryShows(
    worlds: seq<World>, requests: seq<Request>, i: nat, states: seq<E.Registry>, steps: seq<ER.Step>, at: seq<nat>)
    requires i < |worlds| == |requests| + 1 && |states| == |steps| + 1
  {
    && Marks(at, i + 1, |states|) && at[i] == |states| - 1
    && (forall j | 0 <= j <= i :: states[at[j]] == worlds[j].registry)
    && (forall j | 0 <= j < i ::
          && Advances(at[j], at[j + 1], RegistryStep(requests[j]).Some?)
          && (RegistryStep(requests[j]).Some? ==> at[j] < |steps| && steps[at[j]] == RegistryStep(requests[j]).value))
  }

  lemma {:induction false} RegistryRun(flush: bool, setting: int, worlds: seq<World>, requests: seq<Request>, i: nat)
    returns (states: seq<E.Registry>, steps: seq<ER.Step>, at: seq<nat>)
    requires Run(flush, setting, worlds, requests) && i < |worlds|
    ensures ER.Run(states, steps) && RegistryShows(worlds, requests, i, states, steps, at)
  {
    hide Happens, ER.Happens, RegistryStep;
    if i == 0 {
      states, steps, at := [worlds[0].registry], [], [0];
    } else {
      states, steps, at := RegistryRun(flush, setting, worlds, requests, i - 1);
      RegistryProjects(flush, setting, worlds[i - 1], requests[i - 1], worlds[i]);
      var s := RegistryStep(requests[i - 1]);
      if s.Some? {
        states, steps := states + [worlds[i].registry], steps + [s.value];
      }
      at := at + [|states| - 1];
    }
  }

  // ---- Alerts and deliveries ----

  /** The move the alert tables and the delivery queue make in a request, if any. */
  function BoardMove(w: World, r: Request): Option<AF.Move> {
    match r
    case CheckingIn(c) =>
      if E.Accepts(w.registry, c.visit) then Some(AF.OnAlerts(AR.Evaluation(VisitOf(w, c)))) else None
    case Alerting(s) => Some(AF.OnAlerts(s))
    case Delivering(work) => Some(AF.OnDesk(work))
    case _ => None
  }

  lemma BoardProjects(flush: bool, setting: int, w: World, r: Request, w': World)
    requires Happens(flush, setting, w, r, w')
    ensures match BoardMove(w, r)
            case Some(m) => AF.Happens(setting, w.board, m, w'.board)
            case None => w'.board == w.board
  {
    hide A.Evaluate, E.Accepts, E.AfterVisit, ShelfAfter, J.Apply, FactsOf;
  }

  ghost predicate BoardShows(
    worlds: seq<World>, requests: seq<Request>, i: nat, boards: seq<A.Board>, moves: seq<AF.Move>, at: seq<nat>)
    requires i < |worlds| == |requests| + 1 && |boards| == |moves| + 1
  {
    && Marks(at, i + 1, |boards|) && at[i] == |boards| - 1
    && (forall j | 0 <= j <= i :: boards[at[j]] == worlds[j].board)
    && (forall j | 0 <= j < i ::
          var m := BoardMove(worlds[j], requests[j]);
          Advances(at[j], at[j + 1], m.Some?) && (m.Some? ==> at[j] < |moves| && moves[at[j]] == m.value))
  }

  lemma {:induction false} BoardRun(flush: bool, setting: int, worlds: seq<World>, requests: seq<Request>, i: nat)
    returns (boards: seq<A.Board>, moves: seq<AF.Move>, at: seq<nat>)
    requires Run(flush, setting, worlds, requests) && i < |worlds|
    ensures AF.Run(setting, boards, moves) && BoardShows(worlds, requests, i, boards, moves, at)
  {
    hide Happens, AF.Happens, BoardMove;
    if i == 0 {
      boards, moves, at := [worlds[0].board], [], [0];
    } else {
      boards, moves, at := BoardRun(flush, setting, worlds, requests, i - 1);
      BoardProjects(flush, setting, worlds[i - 1], requests[i - 1], worlds[i]);
      var m := BoardMove(worlds[i - 1], requests[i - 1]);
      if m.Some? {
        boards, moves := boards + [worlds[i].board], moves + [m.value];
      }
      at := at + [|boards| - 1];
    }
  }

  // ---- Jobs ----

  /** The job request the job machine serves in a request, if any. */
  function JobRequest(w: World, r: Request): Option<J.Request> {
    match r
    case Operating(org, order) => if MayOrder(w, org, order) then Some(order) else None
    case Working(device, secret, call) => if RunsAs(w, device, secret, call) then Some(call) else None
    case _ => None
  }

  lemma JobsProject(flush: bool, setting: int, w: World, r: Request, w': World)
    requires Happens(flush, setting, w, r, w')
    ensures match JobRequest(w, r)
            case Some(q) => JR.Happens(flush, w.jobs, q, w'.jobs)
            case None => w'.jobs == w.jobs
  {
    hide A.Evaluate, AR.Apply, E.Accepts, E.AfterVisit, ShelfAfter, J.Apply, J.Truthful, FactsOf;
  }

  ghost predicate JobsShow(
    worlds: seq<World>, requests: seq<Request>, i: nat, states: seq<J.Tables>, served: seq<J.Request>, at: seq<nat>)
    requires i < |worlds| == |requests| + 1 && |states| == |served| + 1
  {
    && Marks(at, i + 1, |states|) && at[i] == |states| - 1
    && (forall j | 0 <= j <= i :: states[at[j]] == worlds[j].jobs)
    && (forall j | 0 <= j < i ::
          var q := JobRequest(worlds[j], requests[j]);
          Advances(at[j], at[j + 1], q.Some?) && (q.Some? ==> at[j] < |served| && served[at[j]] == q.value))
  }

  lemma {:induction false} JobRun(flush: bool, setting: int, worlds: seq<World>, requests: seq<Request>, i: nat)
    returns (states: seq<J.Tables>, served: seq<J.Request>, at: seq<nat>)
    requires Run(flush, setting, worlds, requests) && i < |worlds|
    ensures JR.Run(flush, states, served) && JobsShow(worlds, requests, i, states, served, at)
  {
    hide Happens, JR.Happens, JobRequest;
    if i == 0 {
      states, served, at := [worlds[0].jobs], [], [0];
    } else {
      states, served, at := JobRun(flush, setting, worlds, requests, i - 1);
      JobsProject(flush, setting, worlds[i - 1], requests[i - 1], worlds[i]);
      var q := JobRequest(worlds[i - 1], requests[i - 1]);
      if q.Some? {
        states, served := states + [worlds[i].jobs], served + [q.value];
      }
      at := at + [|states| - 1];
    }
  }
}
