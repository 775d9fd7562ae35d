/**
 * The job protocol end to end: a server and any number of agent processes, each running the shipped
 * poll-start-execute-complete cycle, over a network that may lose any request or any response, while
 * operators create and cancel jobs, readers expire them, and agents crash.
 */
module Fleet {
  import opened Base
  import opened Jobs
  import opened JobLifecycle
  import opened JobRuns

  /** Where a process stands in ProcessJobs; the sequences are the rest of the polled list. */
  datatype Phase =
    | Idle
    | Starting(todo: seq<nat>)
    | Executing(job: nat, rest: seq<nat>)
    | Reporting(job: nat, report: Report, rest: seq<nat>)

  datatype Fate = RequestLost | ResponseLost | Delivered

  datatype World = World(server: Tables, phases: map<nat, Phase>, executed: seq<nat>)

  datatype Move =
    | Operate(request: Request)
    | PollCall(client: nat, fate: Fate, request: Request)
    | StartCall(client: nat, fate: Fate, agent: Agent, now: Time)
    | ExecuteCall(client: nat, report: Report)
    | CompleteCall(client: nat, fate: Fate, agent: Agent, now: Time)
    | Crash(client: nat)

  function PhaseOf(w: World, client: nat): Phase {
    if client in w.phases then w.phases[client] else Idle
  }

  function Next(todo: seq<nat>): Phase { if todo == [] then Idle else Starting(todo) }

  /** The request a process sends in its phase. */
  function Sent(w: World, m: Move): Request
    requires m.StartCall? ==> PhaseOf(w, m.client).Starting? && PhaseOf(w, m.client).todo != []
    requires m.CompleteCall? ==> PhaseOf(w, m.client).Reporting?
    requires m.Operate? || m.PollCall? || m.StartCall? || m.CompleteCall?
  {
    match m
    case Operate(r) => r
    case PollCall(_, _, r) => r
    case StartCall(c, _, agent, now) => Start(PhaseOf(w, c).todo[0], agent, now)
    case CompleteCall(c, _, agent, now) => Complete(PhaseOf(w, c).job, agent, PhaseOf(w, c).report, now)
  }

  /** The phase after a call: on any error the process returns from ProcessJobs and is idle again. */
  function PhaseAfter(w: World, m: Move): Phase
    requires m.PollCall? ==> m.request.Poll?
    requires m.StartCall? ==> PhaseOf(w, m.client).Starting? && PhaseOf(w, m.client).todo != []
    requires m.CompleteCall? ==> PhaseOf(w, m.client).Reporting?
    requires m.PollCall? || m.StartCall? || m.CompleteCall?
  {
    if m.fate != Delivered || ReplyTo(w.server, Sent(w, m)) != Ok then Idle
    else match m
      case PollCall(_, _, r) => Next(r.oldest)
      case StartCall(c, _, _, _) => Executing(PhaseOf(w, c).todo[0], PhaseOf(w, c).todo[1..])
      case CompleteCall(c, _, _, _) => Next(PhaseOf(w, c).rest)
  }

  ghost predicate Moves(flush: bool, w: World, m: Move, w': World) {
    match m
    case Operate(r) =>
      && (r.Create? || r.Sweep? || r.Cancel?)
      && Happens(flush, w.server, r, w'.server)
      && w' == w.(server := w'.server)
    case PollCall(c, fate, r) =>
      && PhaseOf(w, c).Idle? && r.Poll?
      && Reaches(flush, w, r, fate, w')
      && w' == w.(server := w'.server, phases := w.phases[c := PhaseAfter(w, m)])
    case StartCall(c, fate, _, _) =>
      && PhaseOf(w, c).Starting? && PhaseOf(w, c).todo != []
      && Reaches(flush, w, Sent(w, m), fate, w')
      && w' == w.(server := w'.server, phases := w.phases[c := PhaseAfter(w, m)])
    case ExecuteCall(c, report) =>
      && PhaseOf(w, c).Executing?
      && w' == w.(phases := w.phases[c := Reporting(PhaseOf(w, c).job, report, PhaseOf(w, c).rest)],
                  executed := w.executed + [PhaseOf(w, c).job])
    case CompleteCall(c, fate, _, _) =>
      && PhaseOf(w, c).Reporting?
      && Reaches(flush, w, Sent(w, m), fate, w')
      && w' == w.(server := w'.server, phases := w.phases[c := PhaseAfter(w, m)])
    case Crash(c) => w' == w.(phases := w.phases[c := Idle])
  }

  /** A lost request leaves the server alone; otherwise the server handles it. */
  ghost predicate Reaches(flush: bool, w: World, r: Request, fate: Fate, w': World) {
    if fate == RequestLost then w'.server == w.server else Happens(flush, w.server, r, w'.server)
  }

  const START := World(EMPTY, map[], [])

  ghost predicate Run(flush: bool, worlds: seq<World>, moves: seq<Move>) {
    && |worlds| == |moves| + 1
    && worlds[0] == START
    && forall i | 0 <= i < |moves| :: Moves(flush, worlds[i], moves[i], worlds[i + 1])
  }

  // ---- The invariant ----

  /** The jobs a process still holds. */
  function Held(p: Phase): set<nat> {
    match p
    case Idle => {}
    case Starting(todo) => set x | x in todo
    case Executing(j, rest) => {j} + set x | x in rest
    case Reporting(j, _, rest) => {j} + set x | x in rest
  }

  predicate Logged(t: Tables, id: nat, k: Kind) { id < |t.jobs| && k in Word(t.events, id) }

  /** One process: what it holds was handed out; what it executes was started and not yet executed. */
  ghost predicate PhaseAgrees(t: Tables, executed: seq<nat>, p: Phase) {
    && (forall id | id in Held(p) :: Logged(t, id, AssignedEv))
    && (p.Executing? ==> Logged(t, p.job, StartedEv) && p.job !in executed)
    && (p.Reporting? ==> p.job in executed)
  }

  ghost predicate Disjoint(w: World) {
    forall c, d | c != d :: Held(PhaseOf(w, c)) !! Held(PhaseOf(w, d))
  }

  ghost predicate ExecutedAgrees(t: Tables, executed: seq<nat>) {
    && Distinct(executed)
    && (forall id | id in executed :: Logged(t, id, StartedEv) && Logged(t, id, AssignedEv))
    && (forall id | 0 <= id < |t.jobs| && t.jobs[id].status in {Succeeded, Failed} :: id in executed)
  }

  ghost predicate FleetInv(flush: bool, w: World) {
    && Inv(flush, w.server)
    && (forall c :: PhaseAgrees(w.server, w.executed, PhaseOf(w, c)))
    && Disjoint(w)
    && ExecutedAgrees(w.server, w.executed)
  }

  // ---- What a server step means for the processes ----

  ghost predicate Grew(t: Tables, t': Tables) {
    forall id, k :: Logged(t, id, k) ==> Logged(t', id, k)
  }

  /** Logs grow, and a status becomes completed only by an accepted completion of that job. */
  lemma ServerStep(flush: bool, t: Tables, r: Request, t': Tables)
    requires Happens(flush, t, r, t') && Inv(flush, t)
    ensures Inv(flush, t') && Grew(t, t')
    ensures forall id | 0 <= id < |t'.jobs| && t'.jobs[id].status in {Succeeded, Failed} ::
              (id < |t.jobs| && t.jobs[id].status in {Succeeded, Failed})
                || (r.Complete? && r.job == id && ReplyTo(t, r) == Ok)
  {
    HappensKeepsInv(flush, t, r, t');
    forall id, k | Logged(t, id, k) ensures Logged(t', id, k) {
      HappensToRow(flush, t, r, t', id);
    }
    forall id | 0 <= id < |t'.jobs| && t'.jobs[id].status in {Succeeded, Failed}
      ensures (id < |t.jobs| && t.jobs[id].status in {Succeeded, Failed})
              || (r.Complete? && r.job == id && ReplyTo(t, r) == Ok)
    {
      if id < |t.jobs| {
        CompletedRow(flush, t, r, id);
      } else {
        NewRow(t, r);
      }
    }
  }

  lemma ServerStays(t: Tables)
    ensures Grew(t, t)
  {
  }

  /** An accepted start: the job had not been started, and now its log says so. */
  lemma StartStep(flush: bool, t: Tables, r: Request, t': Tables)
    requires Happens(flush, t, r, t') && Inv(flush, t) && r.Start? && ReplyTo(t, r) == Ok
    ensures !Logged(t, r.job, StartedEv) && Logged(t', r.job, StartedEv)
  {
    HappensToRow(flush, t, r, t', r.job);
    assert Letters(t, r, r.job) == [StartedEv];
    var w := Word(t.events, r.job);
    assert RowAgrees(flush, t.jobs[r.job], w);
    LanguageShape(flush, w);
  }

  /** The jobs a poll hands out have never been handed out, and are logged as handed out after it. */
  lemma PollStep(flush: bool, t: Tables, r: Request, t': Tables, id: nat)
    requires Happens(flush, t, r, t') && Inv(flush, t) && r.Poll? && id in r.oldest
    ensures !Logged(t, id, AssignedEv) && Logged(t', id, AssignedEv)
  {
    SelectedIsAssigned(flush, t, r, t', id);
    if Logged(t, id, AssignedEv) {
      SelectedIsFresh(flush, t, r, t', id);
    }
  }

  // ---- The invariant is kept ----

  lemma PhasesKept(t: Tables, t': Tables, executed: seq<nat>, p: Phase)
    requires Grew(t, t') && PhaseAgrees(t, executed, p)
    ensures PhaseAgrees(t', executed, p)
  {
  }

  /** A step of one process, given that its own new phase agrees and holds nothing that others hold. */
  lemma OneProcess(flush: bool, w: World, w': World, c: nat)
    requires FleetInv(flush, w) && Inv(flush, w'.server) && Grew(w.server, w'.server)
    requires ExecutedAgrees(w'.server, w'.executed)
    requires PhaseAgrees(w'.server, w'.executed, PhaseOf(w', c))
    requires forall d | d != c :: PhaseOf(w', d) == PhaseOf(w, d) && PhaseAgrees(w.server, w'.executed, PhaseOf(w, d))
    requires forall d | d != c :: Held(PhaseOf(w', c)) !! Held(PhaseOf(w, d))
    ensures FleetInv(flush, w')
  {
    hide Inv, Logged, ExecutedAgrees;
    forall d ensures PhaseAgrees(w'.server, w'.executed, PhaseOf(w', d)) {
      if d != c {
        PhasesKept(w.server, w'.server, w'.executed, PhaseOf(w, d));
      }
    }
    forall d, e | d != e ensures Held(PhaseOf(w', d)) !! Held(PhaseOf(w', e)) {
    }
  }

  lemma ExecutedKept(t: Tables, t': Tables, executed: seq<nat>)
    requires Grew(t, t') && ExecutedAgrees(t, executed)
    requires forall id | 0 <= id < |t'.jobs| && t'.jobs[id].status in {Succeeded, Failed} ::
               (id < |t.jobs| && t.jobs[id].status in {Succeeded, Failed}) || id in executed
    ensures ExecutedAgrees(t', executed)
  {
    hide Logged;
    assert forall id | id in executed :: Logged(t', id, StartedEv) && Logged(t', id, AssignedEv);
  }

  /** What a call may do to the server: nothing, or handle the request; completions come from executions. */
  lemma ServerSide(flush: bool, w: World, r: Request, fate: Fate, w': World)
    requires FleetInv(flush, w) && Reaches(flush, w, r, fate, w')
    requires r.Complete? ==> r.job in w.executed
    ensures Inv(flush, w'.server) && Grew(w.server, w'.server) && ExecutedAgrees(w'.server, w.executed)
  {
    hide Inv;
    if fate == RequestLost {
      ServerStays(w.server);
    } else {
      ServerStep(flush, w.server, r, w'.server);
    }
    ExecutedKept(w.server, w'.server, w.executed);
  }

  lemma OperateKeeps(flush: bool, w: World, m: Move, w': World)
    requires FleetInv(flush, w) && m.Operate? && Moves(flush, w, m, w')
    ensures FleetInv(flush, w')
  {
    ServerSide(flush, w, m.request, Delivered, w');
    hide Inv, Happens, ExecutedAgrees, Grew;
    PhasesKept(w.server, w'.server, w.executed, PhaseOf(w, 0));
    OneProcess(flush, w, w', 0);
  }

  lemma IdleKeeps(flush: bool, w: World, w': World, c: nat)
    requires FleetInv(flush, w) && Inv(flush, w'.server) && Grew(w.server, w'.server)
             && ExecutedAgrees(w'.server, w.executed)
    requires w'.executed == w.executed && w'.phases == w.phases[c := Idle]
    ensures FleetInv(flush, w')
  {
    hide Inv, ExecutedAgrees, Grew;
    OneProcess(flush, w, w', c);
  }

  lemma PollKeeps(flush: bool, w: World, m: Move, w': World)
    requires FleetInv(flush, w) && m.PollCall? && Moves(flush, w, m, w')
    ensures FleetInv(flush, w')
  {
    ServerSide(flush, w, m.request, m.fate, w');
    var p := PhaseAfter(w, m);
    if m.fate != Delivered {
      IdleKeeps(flush, w, w', m.client);
    } else {
      forall id | id in m.request.oldest
        ensures !Logged(w.server, id, AssignedEv) && Logged(w'.server, id, AssignedEv)
      {
        PollStep(flush, w.server, m.request, w'.server, id);
      }
      hide Inv, Happens, ExecutedAgrees, Grew, Logged;
      assert Held(p) == set x | x in m.request.oldest;
      assert PhaseOf(w', m.client) == p;
      OneProcess(flush, w, w', m.client);
    }
  }

  /** A job that was not started before has not been executed. */
  lemma NotExecuted(t: Tables, executed: seq<nat>, id: nat)
    requires ExecutedAgrees(t, executed) && !Logged(t, id, StartedEv)
    ensures id !in executed
  {
  }

  /** An accepted start moves the process on to execution of the job it started, holding what it held. */
  lemma Started(flush: bool, w: World, m: Move, w': World, todo: seq<nat>)
    requires FleetInv(flush, w) && m.StartCall? && Moves(flush, w, m, w')
    requires todo == PhaseOf(w, m.client).todo && PhaseAfter(w, m) == Executing(todo[0], todo[1..])
    requires Grew(w.server, w'.server)
    ensures PhaseAgrees(w'.server, w.executed, PhaseOf(w', m.client))
    ensures Held(PhaseOf(w', m.client)) == Held(PhaseOf(w, m.client))
  {
    hide Inv, Happens, Logged, Grew, ExecutedAgrees, ReplyTo;
    StartStep(flush, w.server, Sent(w, m), w'.server);
    NotExecuted(w.server, w.executed, todo[0]);
    PhasesKept(w.server, w'.server, w.executed, PhaseOf(w, m.client));
    assert todo == [todo[0]] + todo[1..];
  }

  lemma StartKeeps(flush: bool, w: World, m: Move, w': World)
    requires FleetInv(flush, w) && m.StartCall? && Moves(flush, w, m, w')
    ensures FleetInv(flush, w')
  {
    hide Inv, Happens, Logged, Grew, ExecutedAgrees, ReplyTo, Held, PhaseAgrees, Disjoint;
    var todo := PhaseOf(w, m.client).todo;
    ServerSide(flush, w, Sent(w, m), m.fate, w');
    if PhaseAfter(w, m).Idle? {
      IdleKeeps(flush, w, w', m.client);
    } else {
      Started(flush, w, m, w', todo);
      HeldApart(w, m.client);
      OneProcess(flush, w, w', m.client);
    }
  }

  lemma HeldApart(w: World, c: nat)
    requires Disjoint(w)
    ensures forall d | d != c :: Held(PhaseOf(w, c)) !! Held(PhaseOf(w, d))
  {
  }

  lemma ExecuteKeeps(flush: bool, w: World, m: Move, w': World)
    requires FleetInv(flush, w) && m.ExecuteCall? && Moves(flush, w, m, w')
    ensures FleetInv(flush, w')
  {
    hide Inv, Logged;
    ServerStays(w.server);
    var j := PhaseOf(w, m.client).job;
    assert j in Held(PhaseOf(w, m.client));
    forall d | d != m.client ensures PhaseAgrees(w.server, w'.executed, PhaseOf(w, d)) {
      assert j !in Held(PhaseOf(w, d));
    }
    assert Held(PhaseOf(w', m.client)) == Held(PhaseOf(w, m.client));
    OneProcess(flush, w, w', m.client);
  }

  lemma CompleteKeeps(flush: bool, w: World, m: Move, w': World)
    requires FleetInv(flush, w) && m.CompleteCall? && Moves(flush, w, m, w')
    ensures FleetInv(flush, w')
  {
    ServerSide(flush, w, Sent(w, m), m.fate, w');
    hide Inv, Happens, Logged, ExecutedAgrees, Grew;
    var p := PhaseAfter(w, m);
    if p.Idle? {
      IdleKeeps(flush, w, w', m.client);
    } else {
      assert PhaseOf(w', m.client) == p == Starting(PhaseOf(w, m.client).rest);
      PhasesKept(w.server, w'.server, w.executed, PhaseOf(w, m.client));
      assert Held(p) <= Held(PhaseOf(w, m.client));
      OneProcess(flush, w, w', m.client);
    }
  }

  lemma MovesKeep(flush: bool, w: World, m: Move, w': World)
    requires FleetInv(flush, w) && Moves(flush, w, m, w')
    ensures FleetInv(flush, w')
  {
    hide FleetInv;
    match m
    case Operate(_) => OperateKeeps(flush, w, m, w');
    case PollCall(_, _, _) => PollKeeps(flush, w, m, w');
    case StartCall(_, _, _, _) => StartKeeps(flush, w, m, w');
    case ExecuteCall(_, _) => ExecuteKeeps(flush, w, m, w');
    case CompleteCall(_, _, _, _) => CompleteKeeps(flush, w, m, w');
    case Crash(c) =>
      CrashKeeps(flush, w, m, w');
  }

  lemma CrashKeeps(flush: bool, w: World, m: Move, w': World)
    requires FleetInv(flush, w) && m.Crash? && Moves(flush, w, m, w')
    ensures FleetInv(flush, w')
  {
    hide Inv, ExecutedAgrees, Logged;
    ServerStays(w.server);
    IdleKeeps(flush, w, w', m.client);
  }
}
