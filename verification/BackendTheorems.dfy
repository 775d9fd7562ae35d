/** The theorems about two moments of one machine's run, for the whole backend. */
module BackendTheorems {
  import opened Base
  import opened Backend
  import opened BackendProjections
  import N = Notifications
  import E = Enrollment
  import ER = EnrollmentRuns
  import A = Alerts
  import AF = AlertFanOut
  import J = Jobs
  import JL = JobLifecycle
  import JR = JobRuns

  /** A job that has ended stays as it is, and so does its log, whatever requests follow. */
  lemma JobsEndForever(flush: bool, setting: int, worlds: seq<World>, requests: seq<Request>, i: nat, k: nat, id: nat)
    requires Run(flush, setting, worlds, requests) && i <= k < |worlds| && id < |worlds[i].jobs.jobs|
    requires worlds[i].jobs.jobs[id].status.Terminal()
    ensures id < |worlds[k].jobs.jobs| && worlds[k].jobs.jobs[id] == worlds[i].jobs.jobs[id]
    ensures JL.Word(worlds[k].jobs.events, id) == JL.Word(worlds[i].jobs.events, id)
  {
    hide Run, JR.Run, JL.Word, JobRequest;
    var states, served, at := JobRun(flush, setting, worlds, requests, k);
    JR.TerminalForever(flush, states, served, at[i], at[k], id);
  }

  /** The request is a poll that is carried out and hands out the job. */
  predicate HandsOut(w: World, r: Request, id: nat) {
    var q := JobRequest(w, r);
    q.Some? && q.value.Poll? && id in q.value.oldest
  }

  /** No two requests hand out the same job. */
  lemma JobsHandedOutOnce(flush: bool, setting: int, worlds: seq<World>, requests: seq<Request>, i: nat, k: nat,
      id: nat)
    requires Run(flush, setting, worlds, requests) && i < k < |requests| && HandsOut(worlds[i], requests[i], id)
    ensures !HandsOut(worlds[k], requests[k], id)
  {
    hide Happens, JR.Run, JobRequest;
    var states, served, at := JobRun(flush, setting, worlds, requests, k + 1);
    assert at[i + 1] <= at[k];
    if HandsOut(worlds[k], requests[k], id) {
      JR.HandedOutOnce(flush, states, served, at[i], at[k], id);
    }
  }

  /** A settled delivery is never written again. */
  lemma DeliveriesSettleForever(
    flush: bool, setting: int, worlds: seq<World>, requests: seq<Request>, i: nat, k: nat, id: nat)
    requires Run(flush, setting, worlds, requests) && i <= k < |worlds| && id < |worlds[i].board.desk.deliveries|
    requires worlds[i].board.desk.deliveries[id].status != N.Pending
    ensures id < |worlds[k].board.desk.deliveries|
    ensures worlds[k].board.desk.deliveries[id] == worlds[i].board.desk.deliveries[id]
  {
    hide Run, AF.Run, BoardMove;
    var boards, moves, at := BoardRun(flush, setting, worlds, requests, k);
    AF.SettledForever(setting, boards, moves, at[i], at[k], id);
  }

  /** No request adds, drops or redirects a delivery of an alert that exists. */
  lemma DeliveriesAreFixed(flush: bool, setting: int, worlds: seq<World>, requests: seq<Request>, i: nat, k: nat,
      id: nat)
    requires Run(flush, setting, worlds, requests) && i <= k < |worlds| && id < |worlds[i].board.alerts|
    ensures id < |worlds[k].board.alerts|
    ensures AF.SameRoutes(AF.DeliveriesFor(worlds[i].board.desk.deliveries, id),
            AF.DeliveriesFor(worlds[k].board.desk.deliveries, id))
  {
    hide Run, AF.Run, BoardMove, AF.SameRoutes, AF.DeliveriesFor;
    var boards, moves, at := BoardRun(flush, setting, worlds, requests, k);
    AF.DeliveriesAreFixed(setting, boards, moves, at[i], at[k], id);
  }

  /**
   * An alert is created by an accepted check-in, and its deliveries at any later time are, row for row, the
   * fan-out of that check-in's evaluation under the rules and channels of that moment.
   */
  lemma FannedOutOnce(flush: bool, setting: int, worlds: seq<World>, requests: seq<Request>, i: nat, k: nat, id: nat)
    requires Run(flush, setting, worlds, requests) && i < k < |worlds|
    requires |worlds[i].board.alerts| <= id < |worlds[i + 1].board.alerts|
    ensures requests[i].CheckingIn? && E.Accepts(worlds[i].registry, requests[i].checkin.visit)
    ensures id < |worlds[k].board.alerts| && worlds[i + 1].board.alerts[id].rule < |worlds[i + 1].board.rules|
    ensures AF.SameRoutes(
              N.FanOut(worlds[i].board.desk, AF.NoticeOf(worlds[i + 1].board, id), requests[i].checkin.visit.now),
              AF.DeliveriesFor(worlds[k].board.desk.deliveries, id))
  {
    hide AF.Run, E.Accepts, FactsOf, ShelfAfter, N.FanOut, AF.SameRoutes, AF.DeliveriesFor, After, J.Truthful, Blank;
    var boards, moves, at := BoardRun(flush, setting, worlds, requests, k);
    assert Happens(flush, setting, worlds[i], requests[i], worlds[i + 1]);
    assert at[i + 1] <= at[k] && boards[at[i]] == worlds[i].board && boards[at[i + 1]] == worlds[i + 1].board;
    assert BoardMove(worlds[i], requests[i]).Some?;
    AF.FannedOutOnce(setting, boards, moves, at[i], at[k], id);
  }

  /** A credential that has stopped working never works again. */
  lemma DeadCredentialsStayDead(
    flush: bool, setting: int, worlds: seq<World>, requests: seq<Request>, i: nat, k: nat, e: nat)
    requires Run(flush, setting, worlds, requests) && i <= k < |worlds| && e < |worlds[i].registry.log|
    requires var entry := worlds[i].registry.log[e];
             E.Authenticated(worlds[i].registry.agents, entry.device, entry.secret).None?
    ensures var entry := worlds[i].registry.log[e];
            E.Authenticated(worlds[k].registry.agents, entry.device, entry.secret).None?
  {
    hide Run, ER.Run, E.Authenticated, RegistryStep;
    var states, steps, at := RegistryRun(flush, setting, worlds, requests, k);
    ER.DeadCredentialsStayDead(states, steps, at[i], at[k], e);
  }
}
