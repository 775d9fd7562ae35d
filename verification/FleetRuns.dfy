/** At-most-once execution and the fate of dropped jobs, over every run of the fleet. */
module FleetRuns {
  import opened Base
  import opened Jobs
  import opened JobLifecycle
  import JobRuns
  import opened Fleet

  lemma StartInv(flush: bool)
    ensures FleetInv(flush, START)
  {
    JobRuns.EmptyInv(flush);
  }

  lemma {:induction false} Reachable(flush: bool, worlds: seq<World>, moves: seq<Move>, i: nat)
    requires Run(flush, worlds, moves) && i < |worlds|
    ensures FleetInv(flush, worlds[i])
  {
    hide FleetInv, Moves;
    if i == 0 {
      StartInv(flush);
    } else {
      Reachable(flush, worlds, moves, i - 1);
      MovesKeep(flush, worlds[i - 1], moves[i - 1], worlds[i]);
    }
  }

  /**
   * At most once, end to end: in every state of every run no job has been executed twice, an executed
   * job was handed out and started, at most one result row is stored for a job, and a result row exists
   * exactly when the job succeeded or failed, with that status, and only if the job was executed.
   */
  lemma AtMostOnce(flush: bool, worlds: seq<World>, moves: seq<Move>, i: nat, id: nat)
    requires Run(flush, worlds, moves) && i < |worlds| && id < |worlds[i].server.jobs|
    ensures var w := worlds[i]; var status := w.server.jobs[id].status;
            && (forall a, b | 0 <= a < b < |w.executed| :: w.executed[a] != w.executed[b])
            && (id in w.executed ==> AssignedEv in Word(w.server.events, id) && StartedEv in Word(w.server.events, id))
            && (forall a, b | 0 <= a < b < |w.server.results| :: w.server.results[a].job != w.server.results[b].job)
            && (status in {Succeeded, Failed} <==>
                 exists a :: 0 <= a < |w.server.results| && w.server.results[a].job == id)
            && (forall a | 0 <= a < |w.server.results| && w.server.results[a].job == id ::
                  w.server.results[a].status == status && id in w.executed)
  {
    Reachable(flush, worlds, moves, i);
    hide Moves, RowsAgree, LogsAgree, PhaseAgrees, Disjoint;
    assert ResultsAgree(worlds[i].server);
  }

  // ---- Dropped jobs ----

  /** A call's request as the server sees it, if it gets there. */
  ghost predicate ServerSees(w: World, m: Move, r: Request) {
    match m
    case Operate(q) => r == q
    case PollCall(_, fate, q) => fate != RequestLost && r == q
    case StartCall(c, fate, _, _) =>
      fate != RequestLost && PhaseOf(w, c).Starting? && PhaseOf(w, c).todo != [] && r == Sent(w, m)
    case CompleteCall(c, fate, _, _) => fate != RequestLost && PhaseOf(w, c).Reporting? && r == Sent(w, m)
    case _ => false
  }

  /** Any move either leaves the server alone or has it handle the one request it sees. */
  lemma ServerMoves(flush: bool, w: World, m: Move, w': World)
    requires Moves(flush, w, m, w')
    ensures w'.server == w.server || exists r :: ServerSees(w, m, r) && JobRuns.Happens(flush, w.server, r, w'.server)
  {
    if w'.server != w.server {
      var r := Sent(w, m);
      assert ServerSees(w, m, r) && JobRuns.Happens(flush, w.server, r, w'.server);
    }
  }

  lemma MoveGrows(flush: bool, w: World, m: Move, w': World)
    requires FleetInv(flush, w) && Moves(flush, w, m, w')
    ensures Grew(w.server, w'.server)
  {
    ServerMoves(flush, w, m, w');
    hide Moves, Inv, JobRuns.Happens, ServerSees, Logged;
    if w'.server != w.server {
      var r :| ServerSees(w, m, r) && JobRuns.Happens(flush, w.server, r, w'.server);
      ServerStep(flush, w.server, r, w'.server);
    }
  }

  lemma {:induction false} LogsGrow(flush: bool, worlds: seq<World>, moves: seq<Move>, i: nat, k: nat)
    requires Run(flush, worlds, moves) && i <= k < |worlds|
    ensures Grew(worlds[i].server, worlds[k].server)
    decreases k
  {
    hide FleetInv, Moves, Logged;
    if i < k {
      LogsGrow(flush, worlds, moves, i, k - 1);
      Reachable(flush, worlds, moves, k - 1);
      MoveGrows(flush, worlds[k - 1], moves[k - 1], worlds[k]);
    }
  }

  /** The server hands the job out in this move, whether or not the response arrives. */
  predicate HandsOut(m: Move, id: nat) {
    m.PollCall? && m.fate != RequestLost && m.request.Poll? && id in m.request.oldest
  }

  lemma HandOutLogged(flush: bool, w: World, m: Move, w': World, id: nat)
    requires FleetInv(flush, w) && Moves(flush, w, m, w') && HandsOut(m, id)
    ensures !Logged(w.server, id, AssignedEv) && Logged(w'.server, id, AssignedEv)
  {
    PollStep(flush, w.server, m.request, w'.server, id);
  }

  /** Over a whole run of the fleet, no job is handed out by two different polls. */
  lemma HandedOutOnce(flush: bool, worlds: seq<World>, moves: seq<Move>, i: nat, k: nat, id: nat)
    requires Run(flush, worlds, moves) && i < k < |moves| && HandsOut(moves[i], id)
    ensures !HandsOut(moves[k], id)
  {
    hide FleetInv, Moves, Logged, HandsOut;
    Reachable(flush, worlds, moves, i);
    Reachable(flush, worlds, moves, k);
    HandOutLogged(flush, worlds[i], moves[i], worlds[i + 1], id);
    LogsGrow(flush, worlds, moves, i + 1, k);
    if HandsOut(moves[k], id) {
      HandOutLogged(flush, worlds[k], moves[k], worlds[k + 1], id);
    }
  }

  /** Handed out, not finished by completion, and in nobody's hands. */
  ghost predicate Dropped(w: World, id: nat) {
    && Logged(w.server, id, AssignedEv)
    && w.server.jobs[id].status !in {Succeeded, Failed}
    && forall c :: id !in Held(PhaseOf(w, c))
  }

  /** Only a poll can put a job into a process's hands. */
  lemma HeldAfter(flush: bool, w: World, m: Move, w': World, c: nat, id: nat)
    requires Moves(flush, w, m, w') && id in Held(PhaseOf(w', c)) && id !in Held(PhaseOf(w, c))
    ensures m.PollCall? && m.client == c && m.fate == Delivered && id in m.request.oldest
  {
    hide JobRuns.Happens;
  }

  /** A start or a completion the server sees comes from a process that holds the job. */
  lemma SenderHolds(flush: bool, w: World, m: Move, w': World, r: Request)
    requires Moves(flush, w, m, w') && ServerSees(w, m, r) && (r.Start? || r.Complete?)
    ensures exists c :: r.job in Held(PhaseOf(w, c))
  {
    assert r.job in Held(PhaseOf(w, m.client));
  }

  /** A start of a job is the only thing that logs one. */
  lemma StartLogged(flush: bool, t: Tables, r: Request, t': Tables, id: nat)
    requires JobRuns.Happens(flush, t, r, t') && id < |t.jobs|
    requires Logged(t', id, StartedEv) && !Logged(t, id, StartedEv)
    ensures r.Start? && r.job == id
  {
    JobRuns.HappensToRow(flush, t, r, t', id);
  }

  lemma DroppedOnServer(flush: bool, w: World, m: Move, w': World, id: nat)
    requires FleetInv(flush, w) && Moves(flush, w, m, w') && Dropped(w, id)
    ensures Logged(w'.server, id, AssignedEv) && w'.server.jobs[id].status !in {Succeeded, Failed}
    ensures Logged(w'.server, id, StartedEv) <==> Logged(w.server, id, StartedEv)
  {
    ServerMoves(flush, w, m, w');
    if w'.server != w.server {
      var r :| ServerSees(w, m, r) && JobRuns.Happens(flush, w.server, r, w'.server);
      if r.Start? || r.Complete? {
        SenderHolds(flush, w, m, w', r);
      }
      ServerStep(flush, w.server, r, w'.server);
      if Logged(w'.server, id, StartedEv) && !Logged(w.server, id, StartedEv) {
        StartLogged(flush, w.server, r, w'.server, id);
      }
      hide Moves, Inv, JobRuns.Happens, ServerSees;
    }
  }

  lemma DroppedStep(flush: bool, w: World, m: Move, w': World, id: nat)
    requires FleetInv(flush, w) && Moves(flush, w, m, w') && Dropped(w, id)
    ensures Dropped(w', id)
    ensures Logged(w'.server, id, StartedEv) <==> Logged(w.server, id, StartedEv)
    ensures id in w'.executed <==> id in w.executed
    ensures !HandsOut(m, id)
  {
    DroppedOnServer(flush, w, m, w', id);
    if HandsOut(m, id) {
      HandOutLogged(flush, w, m, w', id);
    }
    forall c ensures id !in Held(PhaseOf(w', c)) {
      if id in Held(PhaseOf(w', c)) {
        HeldAfter(flush, w, m, w', c, id);
      }
    }
    hide Inv, JobRuns.Happens, Logged;
    if m.ExecuteCall? {
      assert PhaseOf(w, m.client).job in Held(PhaseOf(w, m.client));
    }
  }

  /**
   * Once dropped, a job is never handed out, started or executed again, and it can only rest, be
   * canceled or expire.
   */
  lemma {:induction false} DroppedForever(flush: bool, worlds: seq<World>, moves: seq<Move>, i: nat, k: nat, id: nat)
    requires Run(flush, worlds, moves) && i <= k < |worlds| && Dropped(worlds[i], id)
    ensures Dropped(worlds[k], id)
    ensures id in worlds[k].executed <==> id in worlds[i].executed
    ensures Logged(worlds[k].server, id, StartedEv) <==> Logged(worlds[i].server, id, StartedEv)
    ensures k < |moves| ==> !HandsOut(moves[k], id)
    decreases k
  {
    hide FleetInv, Moves, Dropped, Logged, HandsOut;
    if i < k {
      DroppedForever(flush, worlds, moves, i, k - 1, id);
      Reachable(flush, worlds, moves, k - 1);
      DroppedStep(flush, worlds[k - 1], moves[k - 1], worlds[k], id);
    }
    if k < |moves| {
      Reachable(flush, worlds, moves, k);
      DroppedStep(flush, worlds[k], moves[k], worlds[k + 1], id);
    }
  }

  /** A process that returns or crashes while it holds an unfinished job drops it. */
  lemma AbortDrops(flush: bool, w: World, m: Move, w': World, c: nat, id: nat)
    requires FleetInv(flush, w) && Moves(flush, w, m, w') && FleetInv(flush, w')
    requires id in Held(PhaseOf(w, c)) && PhaseOf(w', c).Idle?
    requires Logged(w'.server, id, AssignedEv) && w'.server.jobs[id].status !in {Succeeded, Failed}
    ensures Dropped(w', id)
  {
    forall d ensures id !in Held(PhaseOf(w', d)) {
      if id in Held(PhaseOf(w', d)) {
        assert d != c;
        assert id !in Held(PhaseOf(w, d));
        HeldAfter(flush, w, m, w', d, id);
        assert Logged(w.server, id, AssignedEv);
        PollStep(flush, w.server, m.request, w'.server, id);
      }
    }
  }

  /** The move ends the process's cycle while it holds the job, before the job's start reached the server. */
  ghost predicate CutShort(worlds: seq<World>, i: nat, c: nat, id: nat)
    requires i + 1 < |worlds|
  {
    && id in Held(PhaseOf(worlds[i], c)) && PhaseOf(worlds[i + 1], c).Idle?
    && StartedEv !in Word(worlds[i + 1].server.events, id)
  }

  /** The poll that was to bring the job reached the server, but its response never reached the process. */
  predicate LostInPoll(m: Move, id: nat) { HandsOut(m, id) && m.fate == ResponseLost }

  /** A poll's word for a job it hands out: created, as shipped perhaps expired, and assigned. */
  lemma HandOutWord(flush: bool, t: Tables, r: Request, t': Tables, id: nat)
    requires JobRuns.Happens(flush, t, r, t') && Inv(flush, t) && r.Poll? && id in r.oldest
    ensures StartedEv !in Word(t'.events, id)
  {
    var p :| 0 <= p < |r.oldest| && r.oldest[p] == id;
    JobRuns.SelectedIsQueued(flush, t, r, p);
    WordAfter(flush, t, r, id);
    hide Inv, Truthful, Apply, Word;
    JobRuns.QueuedRow(flush, t, id);
  }

  /** Nobody holds a job that was never handed out before and whose poll's response is lost. */
  lemma LostPollHeld(flush: bool, w: World, m: Move, w': World, id: nat)
    requires Moves(flush, w, m, w') && m.PollCall? && m.fate != Delivered
    requires forall c :: id !in Held(PhaseOf(w, c))
    ensures forall c :: id !in Held(PhaseOf(w', c))
  {
    hide Moves, Held, PhaseOf;
    forall c ensures id !in Held(PhaseOf(w', c)) {
      if id in Held(PhaseOf(w', c)) {
        HeldAfter(flush, w, m, w', c, id);
      }
    }
  }

  /** A job whose poll's response is lost is in nobody's hands and has not been started. */
  lemma LostPollDrops(flush: bool, w: World, m: Move, w': World, id: nat)
    requires FleetInv(flush, w) && Moves(flush, w, m, w') && FleetInv(flush, w') && LostInPoll(m, id)
    ensures Dropped(w', id) && !Logged(w'.server, id, StartedEv)
  {
    hide Inv, JobRuns.Happens, Logged, Disjoint, ExecutedAgrees;
    HandOutLogged(flush, w, m, w', id);
    HandOutWord(flush, w.server, m.request, w'.server, id);
    LostPollHeld(flush, w, m, w', id);
    NotStartedLogged(flush, w'.server, id);
  }

  lemma NotStartedLogged(flush: bool, t: Tables, id: nat)
    requires Inv(flush, t) && Logged(t, id, AssignedEv) && StartedEv !in Word(t.events, id)
    ensures id < |t.jobs| && t.jobs[id].status in {Assigned, Canceled, Expired} && !Logged(t, id, StartedEv)
  {
    NotStarted(flush, t, id);
  }

  /**
   * An aborted cycle: a job the server handed out to a cycle that ended before the job's start reached the
   * server, because the poll's own response was lost or because the process went idle while it still held the
   * job, is never returned by a later poll, never executed, and in every later state it is assigned, canceled
   * or expired.
   */
  lemma AbortedCycle(flush: bool, worlds: seq<World>, moves: seq<Move>, i: nat, k: nat, id: nat)
    requires Run(flush, worlds, moves) && i < k < |worlds|
    requires LostInPoll(moves[i], id) || exists c :: CutShort(worlds, i, c, id)
    ensures id < |worlds[k].server.jobs| && worlds[k].server.jobs[id].status in {Assigned, Canceled, Expired}
    ensures id !in worlds[k].executed
    ensures k < |moves| ==> !HandsOut(moves[k], id)
  {
    hide FleetInv, Moves, HandsOut, LostInPoll, Dropped, Logged;
    Reachable(flush, worlds, moves, i);
    Reachable(flush, worlds, moves, i + 1);
    Reachable(flush, worlds, moves, k);
    if LostInPoll(moves[i], id) {
      LostPollDrops(flush, worlds[i], moves[i], worlds[i + 1], id);
    } else {
      var c :| CutShort(worlds, i, c, id);
      AbortDropsUnstarted(flush, worlds[i], moves[i], worlds[i + 1], c, id);
    }
    DroppedForever(flush, worlds, moves, i + 1, k, id);
    UnstartedRow(flush, worlds[k], id);
  }

  lemma AbortDropsUnstarted(flush: bool, w: World, m: Move, w': World, c: nat, id: nat)
    requires FleetInv(flush, w) && Moves(flush, w, m, w') && FleetInv(flush, w')
    requires id in Held(PhaseOf(w, c)) && PhaseOf(w', c).Idle? && StartedEv !in Word(w'.server.events, id)
    ensures Dropped(w', id) && !Logged(w'.server, id, StartedEv)
  {
    hide Moves;
    assert Logged(w.server, id, AssignedEv);
    MoveGrows(flush, w, m, w');
    NotStarted(flush, w'.server, id);
    AbortDrops(flush, w, m, w', c, id);
  }

  lemma UnstartedRow(flush: bool, w: World, id: nat)
    requires FleetInv(flush, w) && Dropped(w, id) && !Logged(w.server, id, StartedEv)
    ensures id < |w.server.jobs| && w.server.jobs[id].status in {Assigned, Canceled, Expired} && id !in w.executed
  {
    NotStarted(flush, w.server, id);
  }

  lemma NotStarted(flush: bool, t: Tables, id: nat)
    requires Inv(flush, t) && Logged(t, id, AssignedEv) && StartedEv !in Word(t.events, id)
    ensures t.jobs[id].status in {Assigned, Canceled, Expired}
  {
    var w := Word(t.events, id);
    assert RowAgrees(flush, t.jobs[id], w);
    LanguageShape(flush, w);
    if w[|w| - 1] == CreatedEv {
      QueuedWord(flush, w);
    }
  }
}
