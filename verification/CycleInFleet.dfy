/** The agent's cycle as computed call by call is a sequence of moves of the fleet. */
module CycleInFleet {
  import opened Base
  import opened Jobs
  import opened Fleet
  import opened AgentCycle
  import JobPayload
  import JobRuns

  /** A stretch of a fleet run, from its first world to its last. */
  ghost predicate Path(flush: bool, worlds: seq<World>, moves: seq<Move>) {
    && |worlds| == |moves| + 1
    && forall i | 0 <= i < |moves| :: Moves(flush, worlds[i], moves[i], worlds[i + 1])
  }

  lemma PathGrows(flush: bool, worlds: seq<World>, moves: seq<Move>, m: Move, w': World)
    requires Path(flush, worlds, moves) && Moves(flush, worlds[|worlds| - 1], m, w')
    ensures Path(flush, worlds + [w'], moves + [m])
  {
    hide Moves;
  }

  lemma PathsJoin(flush: bool, a: seq<World>, m: seq<Move>, b: seq<World>, n: seq<Move>)
    requires Path(flush, a, m) && Path(flush, b, n) && a[|a| - 1] == b[0]
    ensures Path(flush, a + b[1..], m + n)
    ensures (a + b[1..])[0] == a[0] && (a + b[1..])[|a + b[1..]| - 1] == b[|b| - 1]
  {
    hide Moves;
    var worlds, moves := a + b[1..], m + n;
    forall i | 0 <= i < |moves| ensures Moves(flush, worlds[i], moves[i], worlds[i + 1]) {
      if i < |m| {
        assert worlds[i] == a[i] && worlds[i + 1] == a[i + 1];
      } else {
        assert worlds[i] == b[i - |m|] && worlds[i + 1] == b[i - |m| + 1];
      }
    }
  }

  /** The world after a client's call, as `Call` computes it. */
  function AfterCall(w: World, c: nat, t: Tables, p: Phase): World { w.(server := t, phases := w.phases[c := p]) }

  lemma StartMove(flush: bool, w: World, c: nat, agent: Agent, todo: seq<nat>, turn: Turn)
    requires PhaseOf(w, c) == Starting(todo) && todo != []
    ensures var (t1, ok) := Call(w.server, Start(todo[0], agent, turn.startNow), turn.startFate);
            Moves(flush, w, StartCall(c, turn.startFate, agent, turn.startNow),
                  AfterCall(w, c, t1, if ok then Executing(todo[0], todo[1..]) else Idle))
  {
  }

  lemma ExecuteMove(flush: bool, w: World, c: nat, report: Report, job: nat, rest: seq<nat>)
    requires PhaseOf(w, c) == Executing(job, rest)
    ensures Moves(flush, w, ExecuteCall(c, report),
            AfterCall(w, c, w.server, Reporting(job, report, rest)).(executed := w.executed + [job]))
  {
  }

  lemma CompleteMove(flush: bool, w: World, c: nat, agent: Agent, job: nat, report: Report, rest: seq<nat>, turn: Turn)
    requires PhaseOf(w, c) == Reporting(job, report, rest)
    ensures var (t1, ok) := Call(w.server, Complete(job, agent, report, turn.completeNow), turn.completeFate);
            Moves(flush, w, CompleteCall(c, turn.completeFate, agent, turn.completeNow),
                  AfterCall(w, c, t1, if ok then Next(rest) else Idle))
  {
  }

  lemma PollMove(flush: bool, w: World, c: nat, poll: Request, fate: Fate)
    requires PhaseOf(w, c).Idle? && poll.Poll? && Truthful(flush, w.server, poll) && Shaped(w.server, poll)
    ensures var (t1, ok) := Call(w.server, poll, fate);
            Moves(flush, w, PollCall(c, fate, poll), AfterCall(w, c, t1, if ok then Next(poll.oldest) else Idle))
  {
  }

  /** One job of the list is at most three moves. */
  lemma TurnPath(flush: bool, w: World, c: nat, agent: Agent, entry: (nat, Job), rest: seq<nat>, turn: Turn,
                 render: JobPayload.Output -> string) returns (worlds: seq<World>, moves: seq<Move>)
    requires PhaseOf(w, c) == Starting([entry.0] + rest)
    ensures Path(flush, worlds, moves) && worlds[0] == w
    ensures var p, last := OneJob(w.server, agent, entry, turn, render), worlds[|worlds| - 1];
            last.server == p.tables && last.executed == w.executed + p.executed
            && PhaseOf(last, c) == if p.failed then Idle else Next(rest)
  {
    hide Moves, Apply, ReplyTo, ResultFor;
    var todo := [entry.0] + rest;
    assert todo[1..] == rest;
    StartMove(flush, w, c, agent, todo, turn);
    var (t1, started) := Call(w.server, Start(entry.0, agent, turn.startNow), turn.startFate);
    var w1 := AfterCall(w, c, t1, if started then Executing(entry.0, rest) else Idle);
    worlds, moves := [w] + [w1], [] + [StartCall(c, turn.startFate, agent, turn.startNow)];
    PathGrows(flush, [w], [], moves[0], w1);
    if started {
      var report := ReportOf(ResultFor(entry.1, turn), render);
      ExecuteMove(flush, w1, c, report, entry.0, rest);
      var w2 := AfterCall(w1, c, w1.server, Reporting(entry.0, report, rest)).(executed := w1.executed + [entry.0]);
      PathGrows(flush, worlds, moves, ExecuteCall(c, report), w2);
      CompleteMove(flush, w2, c, agent, entry.0, report, rest, turn);
      var (t2, completed) := Call(t1, Complete(entry.0, agent, report, turn.completeNow), turn.completeFate);
      var w3 := AfterCall(w2, c, t2, if completed then Next(rest) else Idle);
      PathGrows(flush, worlds + [w2], moves + [ExecuteCall(c, report)],
        CompleteCall(c, turn.completeFate, agent, turn.completeNow), w3);
      worlds := worlds + [w2] + [w3];
      moves := moves + [ExecuteCall(c, report)] + [CompleteCall(c, turn.completeFate, agent, turn.completeNow)];
    }
  }

  lemma {:induction false} ListPath(flush: bool, w: World, c: nat, agent: Agent, list: seq<(nat, Job)>, ids: seq<nat>,
      turns: seq<Turn>,
                                    render: JobPayload.Output -> string) returns (worlds: seq<World>, moves: seq<Move>)
    requires |turns| == |list| == |ids| && forall i | 0 <= i < |ids| :: list[i].0 == ids[i]
    requires PhaseOf(w, c) == Next(ids)
    ensures Path(flush, worlds, moves) && worlds[0] == w
    ensures var p, last := Process(w.server, agent, list, turns, render), worlds[|worlds| - 1];
            last.server == p.tables && last.executed == w.executed + p.executed && PhaseOf(last, c) == Idle
    decreases |list|
  {
    hide Moves, OneJob;
    if list == [] {
      worlds, moves := [w], [];
    } else {
      assert ids == [list[0].0] + ids[1..];
      worlds, moves := TurnPath(flush, w, c, agent, list[0], ids[1..], turns[0], render);
      var p, mid := OneJob(w.server, agent, list[0], turns[0], render), worlds[|worlds| - 1];
      if !p.failed {
        var more, rest := ListPath(flush, mid, c, agent, list[1..], ids[1..], turns[1..], render);
        PathsJoin(flush, worlds, moves, more, rest);
        worlds, moves := worlds + more[1..], moves + rest;
      }
    }
  }

  /**
   * A cycle of an idle process, faults included, is a stretch of moves of that process: what holds over
   * all fleet runs holds of ProcessJobs.
   */
  lemma CycleIsMoves(flush: bool, w: World, c: nat, agent: Agent, fate: Fate, poll: Request, turns: seq<Turn>,
                     render: JobPayload.Output -> string) returns (worlds: seq<World>, moves: seq<Move>)
    requires PhaseOf(w, c).Idle? && poll.Poll? && poll.agent == agent && |turns| == |poll.oldest|
    requires Truthful(flush, w.server, poll) && Shaped(w.server, poll)
    ensures Path(flush, worlds, moves) && worlds[0] == w
    ensures var p, last := Cycle(w.server, agent, fate, poll, turns, render), worlds[|worlds| - 1];
            last.server == p.tables && last.executed == w.executed + p.executed && PhaseOf(last, c) == Idle
  {
    hide Moves, Apply, ReplyTo, Truthful, Process;
    PollMove(flush, w, c, poll, fate);
    CycleShape(w.server, agent, fate, poll, turns, render);
    var (t1, ok) := Call(w.server, poll, fate);
    var w1 := AfterCall(w, c, t1, if ok then Next(poll.oldest) else Idle);
    PathGrows(flush, [w], [], PollCall(c, fate, poll), w1);
    worlds, moves := [w] + [w1], [] + [PollCall(c, fate, poll)];
    if ok {
      var more, rest := ListPath(flush, w1, c, agent, Listed(t1.jobs, poll.oldest), poll.oldest, turns, render);
      PathsJoin(flush, worlds, moves, more, rest);
      worlds, moves := worlds + more[1..], moves + rest;
    }
  }
}
