/** Enrollment over whole runs: the agent table is each machine's last enrollment, and what follows from it. */
module EnrollmentRuns {
  import opened Base
  import opened Enrollment

  datatype Step =
    | Mint(minted: Token)
    | Revoke(token: nat, at: Time)
    | Enrolling(enroll: Enroll)
    | Visiting(visit: Visit)
    | Reading(reading: Enrollment.Reading)

  /** New tokens are unused and have hashes of their own; a new secret was never handed out before. */
  predicate Allowed(g: Registry, s: Step) {
    match s
    case Mint(token) => token.uses == 0 && forall i | 0 <= i < |g.tokens| :: g.tokens[i].hash != token.hash
    case Revoke(token, _) => token < |g.tokens|
    case Enrolling(e) => forall i | 0 <= i < |g.log| :: g.log[i].secret != e.secret
    case Visiting(_) => true
    case Reading(_) => true
  }

  function Apply(g: Registry, s: Step): Registry
    requires Allowed(g, s)
  {
    match s
    case Mint(token) => g.(tokens := g.tokens + [token])
    case Revoke(token, at) => g.(tokens := g.tokens[token := g.tokens[token].(revokedAt := Some(at))])
    case Enrolling(e) => AfterEnroll(g, e)
    case Visiting(v) => AfterVisit(g, v)
    case Reading(r) => AfterReading(g, r)
  }

  ghost predicate Happens(g: Registry, s: Step, g': Registry) { Allowed(g, s) && g' == Apply(g, s) }

  ghost predicate Run(states: seq<Registry>, steps: seq<Step>) {
    && |states| == |steps| + 1
    && states[0] == Registry([], [], [], [], [], [])
    && forall i | 0 <= i < |steps| :: Happens(states[i], steps[i], states[i + 1])
  }

  // ---- The log, folded ----

  function LastFor(log: seq<Enrolled>, machine: string): (r: Option<Enrolled>)
    ensures r.Some? ==> r.value in log && r.value.machine == machine
  {
    if log == [] then None
    else
      var last := |log| - 1;
      if log[last].machine == machine then Some(log[last]) else LastFor(log[..last], machine)
  }

  /** How often a token was used, according to the log. */
  function Uses(log: seq<Enrolled>, token: nat): nat {
    if log == [] then 0
    else Uses(log[..|log| - 1], token) + if log[|log| - 1].token == token then 1 else 0
  }

  /** What the agent table says of a machine, and what a log entry says. */
  datatype Binding = Binding(org: nat, device: nat, secret: Secret)

  function BoundBy(agents: seq<AgentRow>, machine: string): Option<Binding> {
    match AgentOfMachine(agents, machine)
    case None => None
    case Some(a) => Some(Binding(agents[a].org, agents[a].device, agents[a].secret))
  }

  function LogBinding(log: seq<Enrolled>, machine: string): Option<Binding> {
    match LastFor(log, machine)
    case None => None
    case Some(e) => Some(Binding(e.org, e.device, e.secret))
  }

  // ---- Invariant ----

  predicate OneAgentPerMachine(agents: seq<AgentRow>) {
    forall i, k | 0 <= i < k < |agents| :: agents[i].machine != agents[k].machine
  }

  predicate OneDevicePerMachine(devices: seq<Device>) {
    forall i, k | 0 <= i < k < |devices| ::
      !(devices[i].org == devices[k].org && devices[i].machine == devices[k].machine)
  }

  /** Every enrollment names its token, its token's organization, and the device of that organization and machine. */
  predicate LogFits(g: Registry) {
    forall i | 0 <= i < |g.log| ::
      && g.log[i].token < |g.tokens| && g.log[i].org == g.tokens[g.log[i].token].org
      && g.log[i].device < |g.devices| && IsDevice(g.devices[g.log[i].device], g.log[i].org, g.log[i].machine)
  }

  predicate FreshSecrets(log: seq<Enrolled>) {
    forall i, k | 0 <= i < k < |log| :: log[i].secret != log[k].secret
  }

  /** Tokens are used exactly as often as the log says, and never beyond their limit. */
  ghost predicate TokensAccount(g: Registry) {
    && (forall t | 0 <= t < |g.tokens| ::
         g.tokens[t].uses == Uses(g.log, t) && (g.tokens[t].uses == 0 || g.tokens[t].uses <= g.tokens[t].maxUses))
    && (forall t: nat | t >= |g.tokens| :: Uses(g.log, t) == 0)
  }

  ghost predicate AgentsRefine(agents: seq<AgentRow>, log: seq<Enrolled>) {
    forall machine :: BoundBy(agents, machine) == LogBinding(log, machine)
  }

  ghost predicate Sound(g: Registry) {
    && OneAgentPerMachine(g.agents) && OneDevicePerMachine(g.devices)
    && LogFits(g) && FreshSecrets(g.log) && TokensAccount(g) && AgentsRefine(g.agents, g.log)
  }

  // ---- Table lookups ----

  lemma LastSnoc(log: seq<Enrolled>, e: Enrolled, machine: string)
    ensures LastFor(log + [e], machine) == if e.machine == machine then Some(e) else LastFor(log, machine)
  {
    assert (log + [e])[..|log|] == log;
  }

  lemma UsesSnoc(log: seq<Enrolled>, e: Enrolled, token: nat)
    ensures Uses(log + [e], token) == Uses(log, token) + if e.token == token then 1 else 0
  {
    assert (log + [e])[..|log|] == log;
  }

  // ---- Steps ----

  lemma AgentsStep(agents: seq<AgentRow>, log: seq<Enrolled>, t: nat, org: nat, device: nat, e: Enroll)
    requires OneAgentPerMachine(agents) && AgentsRefine(agents, log)
    ensures OneAgentPerMachine(AgentsAfter(agents, org, device, e))
    ensures AgentsRefine(AgentsAfter(agents, org, device, e), log + [Enrolled(t, org, e.machine, device, e.secret)])
  {
    var entry := Enrolled(t, org, e.machine, device, e.secret);
    if AgentOfMachine(agents, e.machine).None? {
      LatestNone(agents, RunsOn(e.machine));
    }
    forall machine ensures BoundBy(AgentsAfter(agents, org, device, e), machine) == LogBinding(log + [entry], machine) {
      LastSnoc(log, entry, machine);
      BindingAt(agents, log, machine);
      match AgentOfMachine(agents, e.machine)
      case None => LatestAppended(agents, EnrolledRow(org, device, e), RunsOn(machine));
      case Some(a) =>
        LatestUpdated(agents, a, EnrolledRow(org, device, e), RunsOn(machine));
        if machine != e.machine && AgentOfMachine(agents, machine).Some? {
          assert AgentOfMachine(agents, machine).value != a;
        }
    }
  }

  lemma BindingAt(agents: seq<AgentRow>, log: seq<Enrolled>, machine: string)
    requires AgentsRefine(agents, log)
    ensures BoundBy(agents, machine) == LogBinding(log, machine)
  {
  }

  lemma DevicesStep(devices: seq<Device>, org: nat, e: Enroll)
    requires OneDevicePerMachine(devices)
    ensures var after, d := DevicesAfter(devices, org, e), DeviceFor(devices, org, e.machine);
            && OneDevicePerMachine(after) && |devices| <= |after| && d < |after| && IsDevice(after[d], org, e.machine)
            && forall i | 0 <= i < |devices| :: after[i].org == devices[i].org && after[i].machine == devices[i].machine
  {
    if DeviceOf(devices, org, e.machine).None? {
      LatestNone(devices, IsDeviceOf(org, e.machine));
    }
  }

  lemma EnrollTokens(g: Registry, e: Enroll)
    requires TokensAccount(g)
    ensures TokensAccount(AfterEnroll(g, e))
  {
    hide DevicesAfter, AgentsAfter, DeviceFor;
    if Admits(g.tokens, e.hash, e.now) {
      var g' := AfterEnroll(g, e);
      var entry := g'.log[|g.log|];
      forall t: nat ensures Uses(g'.log, t) == Uses(g.log, t) + if entry.token == t then 1 else 0 {
        UsesSnoc(g.log, entry, t);
      }
      hide Uses;
    }
  }

  lemma EnrollSound(g: Registry, e: Enroll)
    requires Sound(g) && Allowed(g, Enrolling(e))
    ensures Sound(AfterEnroll(g, e))
  {
    hide AgentsRefine, TokensAccount, OneAgentPerMachine, OneDevicePerMachine, DevicesAfter, AgentsAfter, DeviceFor;
    EnrollTokens(g, e);
    if Admits(g.tokens, e.hash, e.now) {
      var t := TokenOf(g.tokens, e.hash).value;
      var org := g.tokens[t].org;
      DevicesStep(g.devices, org, e);
      AgentsStep(g.agents, g.log, t, org, DeviceFor(g.devices, org, e.machine), e);
    }
  }

  lemma VisitSound(g: Registry, v: Visit)
    requires Sound(g)
    ensures Sound(AfterVisit(g, v))
  {
    hide TokensAccount, LastFor;
    if Accepts(g, v) {
      var a := Authenticated(g.agents, v.device, v.secret).value;
      var row, g' := CheckedInRow(g.agents[a], v), AfterVisit(g, v);
      forall machine ensures BoundBy(g'.agents, machine) == LogBinding(g'.log, machine) {
        LatestUpdated(g.agents, a, row, RunsOn(machine));
        BindingAt(g.agents, g.log, machine);
      }
      VisitTokens(g, v);
    }
  }

  lemma VisitTokens(g: Registry, v: Visit)
    requires TokensAccount(g)
    ensures TokensAccount(AfterVisit(g, v))
  {
  }

  /** Reading devices rewrites nothing but flags. */
  lemma ReadingSound(g: Registry, r: Enrollment.Reading)
    requires Sound(g)
    ensures Sound(AfterReading(g, r))
  {
    hide AgentsRefine, Uses;
  }

  lemma MintSound(g: Registry, token: Token)
    requires Sound(g) && Allowed(g, Mint(token))
    ensures Sound(g.(tokens := g.tokens + [token]))
  {
    hide AgentsRefine, OneAgentPerMachine, OneDevicePerMachine, FreshSecrets;
  }

  lemma StepSound(g: Registry, s: Step, g': Registry)
    requires Happens(g, s, g') && Sound(g)
    ensures Sound(g')
  {
    match s
    case Mint(token) => MintSound(g, token);
    case Revoke(token, at) => hide AgentsRefine;
    case Enrolling(e) => EnrollSound(g, e);
    case Visiting(v) => VisitSound(g, v);
    case Reading(r) => ReadingSound(g, r);
  }

  lemma {:induction false} AlwaysSound(states: seq<Registry>, steps: seq<Step>, i: nat)
    requires Run(states, steps) && i < |states|
    ensures Sound(states[i])
  {
    hide Happens;
    if i > 0 {
      hide Sound;
      AlwaysSound(states, steps, i - 1);
      StepSound(states[i - 1], steps[i - 1], states[i]);
    }
  }

  // ---- What follows in every reachable state ----

  lemma {:induction false} Found(agents: seq<AgentRow>, a: nat)
    requires OneAgentPerMachine(agents) && a < |agents|
    ensures AgentOfMachine(agents, agents[a].machine) == Some(a)
  {
    if AgentOfMachine(agents, agents[a].machine).None? {
      LatestNone(agents, RunsOn(agents[a].machine));
    }
  }

  /** An agent row is its machine's last enrollment, and its device is that machine's in that organization. */
  lemma AgentIsLastEnrollment(g: Registry, a: nat)
    requires Sound(g) && a < |g.agents|
    ensures var row, last := g.agents[a], LastFor(g.log, g.agents[a].machine);
            && last.Some? && row.org == last.value.org && row.device == last.value.device
                 && row.secret == last.value.secret
            && row.device < |g.devices| && IsDevice(g.devices[row.device], row.org, row.machine)
  {
    hide TokensAccount, OneDevicePerMachine;
    var row := g.agents[a];
    Found(g.agents, a);
    BindingAt(g.agents, g.log, row.machine);
    var e := LastFor(g.log, row.machine).value;
    var i :| 0 <= i < |g.log| && g.log[i] == e;
  }

  /**
   * Over all runs the agent table is the map from each machine to its last successful enrollment: a row for
   * every machine that enrolled, with the organization, device and secret of the latest time, and no other row.
   */
  lemma AgentsAreLastEnrollments(states: seq<Registry>, steps: seq<Step>, i: nat, machine: string)
    requires Run(states, steps) && i < |states|
    ensures BoundBy(states[i].agents, machine) == LogBinding(states[i].log, machine)
    ensures forall a, b | 0 <= a < b < |states[i].agents| :: states[i].agents[a].machine != states[i].agents[b].machine
  {
    AlwaysSound(states, steps, i);
    BindingAt(states[i].agents, states[i].log, machine);
  }

  /** A device has at most one agent, and an organization at most one device per machine. */
  lemma OneAgentPerDevice(states: seq<Registry>, steps: seq<Step>, i: nat, a: nat, b: nat)
    requires Run(states, steps) && i < |states| && a < |states[i].agents| && b < |states[i].agents|
    requires states[i].agents[a].device == states[i].agents[b].device
    ensures a == b
  {
    hide Run;
    AlwaysSound(states, steps, i);
    AgentIsLastEnrollment(states[i], a);
    AgentIsLastEnrollment(states[i], b);
    hide AgentsRefine, TokensAccount;
  }

  lemma OneDevicePerOrganization(states: seq<Registry>, steps: seq<Step>, i: nat, x: nat, y: nat)
    requires Run(states, steps) && i < |states| && x < |states[i].devices| && y < |states[i].devices|
    requires states[i].devices[x].org == states[i].devices[y].org
             && states[i].devices[x].machine == states[i].devices[y].machine
    ensures x == y
  {
    AlwaysSound(states, steps, i);
  }

  /** The organization guard of a check-in never fires: whoever authenticates is let in. */
  lemma GuardNeverFires(states: seq<Registry>, steps: seq<Step>, i: nat, v: Visit)
    requires Run(states, steps) && i < |states|
    ensures Accepts(states[i], v) <==> Authenticated(states[i].agents, v.device, v.secret).Some?
  {
    hide Run;
    AlwaysSound(states, steps, i);
    var agent := Authenticated(states[i].agents, v.device, v.secret);
    if agent.Some? {
      AgentIsLastEnrollment(states[i], agent.value);
    }
  }

  lemma {:induction false} LastIsLatest(log: seq<Enrolled>, i: nat)
    requires i < |log| && forall k | i < k < |log| :: log[k].machine != log[i].machine
    ensures LastFor(log, log[i].machine) == Some(log[i])
  {
    if i < |log| - 1 {
      LastIsLatest(log[..|log| - 1], i);
    }
  }

  lemma {:induction false} LastIndex(log: seq<Enrolled>, machine: string) returns (i: nat)
    requires LastFor(log, machine).Some?
    ensures i < |log| && LastFor(log, machine) == Some(log[i]) && log[i].machine == machine
    ensures forall k | i < k < |log| :: log[k].machine != machine
  {
    if log[|log| - 1].machine == machine {
      i := |log| - 1;
    } else {
      i := LastIndex(log[..|log| - 1], machine);
    }
  }

  /**
   * A credential that was handed out authenticates exactly while its machine has not enrolled again, in
   * whichever organization. A machine that moves to another tenant leaves its old device without an agent.
   */
  lemma CredentialWorksUntilReplaced(states: seq<Registry>, steps: seq<Step>, s: nat, i: nat)
    requires Run(states, steps) && s < |states| && i < |states[s].log|
    ensures var g, e := states[s], states[s].log[i];
            Authenticated(g.agents, e.device, e.secret).Some? <==>
              forall k | i < k < |g.log| :: g.log[k].machine != e.machine
  {
    AlwaysSound(states, steps, s);
    hide Run, Sound;
    var g, e := states[s], states[s].log[i];
    if forall k | i < k < |g.log| :: g.log[k].machine != e.machine {
      LatestAuthenticates(g, i);
    } else if Authenticated(g.agents, e.device, e.secret).Some? {
      OnlyLatest(g, e.device, e.secret, i);
    }
  }

  lemma LatestAuthenticates(g: Registry, i: nat)
    requires Sound(g) && i < |g.log| && forall k | i < k < |g.log| :: g.log[k].machine != g.log[i].machine
    ensures Authenticated(g.agents, g.log[i].device, g.log[i].secret).Some?
  {
    hide TokensAccount, OneDevicePerMachine;
    var e := g.log[i];
    LastIsLatest(g.log, i);
    BindingAt(g.agents, g.log, e.machine);
    var a := AgentOfMachine(g.agents, e.machine).value;
    var found := AgentOfDevice(g.agents, e.device);
    if found.None? {
      LatestNone(g.agents, BelongsTo(e.device));
    } else {
      AgentIsLastEnrollment(g, a);
      AgentIsLastEnrollment(g, found.value);
      Found(g.agents, found.value);
    }
  }

  lemma OnlyLatest(g: Registry, device: nat, secret: Secret, i: nat)
    requires Sound(g) && i < |g.log| && g.log[i].secret == secret && Authenticated(g.agents, device, secret).Some?
    ensures forall k | i < k < |g.log| :: g.log[k].machine != g.log[i].machine
  {
    hide TokensAccount, OneDevicePerMachine;
    var a := Authenticated(g.agents, device, secret).value;
    AgentIsLastEnrollment(g, a);
    var last := LastIndex(g.log, g.agents[a].machine);
    assert last == i;
  }

  /** Nothing authenticates that was not handed out by an enrollment of that very device. */
  lemma OnlyIssuedCredentials(states: seq<Registry>, steps: seq<Step>, s: nat, device: nat, secret: Secret)
    requires Run(states, steps) && s < |states|
    requires Authenticated(states[s].agents, device, secret).Some?
    ensures exists i | 0 <= i < |states[s].log| ::
            states[s].log[i].device == device && states[s].log[i].secret == secret
  {
    hide Run;
    AlwaysSound(states, steps, s);
    var g := states[s];
    var a := Authenticated(g.agents, device, secret).value;
    AgentIsLastEnrollment(g, a);
    var i := LastIndex(g.log, g.agents[a].machine);
  }

  /** After a machine enrolls under another organization, its device in the old one has no agent at all. */
  lemma MovingLeavesOldDevice(states: seq<Registry>, steps: seq<Step>, s: nat, i: nat, k: nat)
    requires Run(states, steps) && s < |states| && i < |states[s].log| && k < |states[s].log|
    requires states[s].log[i].machine == states[s].log[k].machine && states[s].log[i].org != states[s].log[k].org
    requires LastFor(states[s].log, states[s].log[k].machine) == Some(states[s].log[k])
    ensures AgentOfDevice(states[s].agents, states[s].log[i].device).None?
  {
    hide Run;
    AlwaysSound(states, steps, s);
    var g := states[s];
    var found := AgentOfDevice(g.agents, g.log[i].device);
    if found.Some? {
      AgentIsLastEnrollment(g, found.value);
    }
  }

  /** A token is used exactly once per enrollment it admitted, and never more often than allowed. */
  lemma TokensAreLimited(states: seq<Registry>, steps: seq<Step>, s: nat, t: nat)
    requires Run(states, steps) && s < |states| && t < |states[s].tokens|
    ensures states[s].tokens[t].uses == Uses(states[s].log, t)
    ensures states[s].tokens[t].uses > 0 ==> states[s].tokens[t].uses <= states[s].tokens[t].maxUses
  {
    AlwaysSound(states, steps, s);
  }

  // ---- Two moments of one run ----

  /** Enrollments are never forgotten. */
  lemma {:induction false} LogGrows(states: seq<Registry>, steps: seq<Step>, i: nat, k: nat)
    requires Run(states, steps) && i <= k < |states|
    ensures states[i].log <= states[k].log
    decreases k
  {
    hide Happens;
    if i < k {
      LogGrows(states, steps, i, k - 1);
      StepLog(states[k - 1], steps[k - 1], states[k]);
    }
  }

  lemma StepLog(g: Registry, s: Step, g': Registry)
    requires Happens(g, s, g')
    ensures g.log <= g'.log
  {
  }

  /** A credential that has stopped working never works again. */
  lemma DeadCredentialsStayDead(states: seq<Registry>, steps: seq<Step>, i: nat, k: nat, e: nat)
    requires Run(states, steps) && i <= k < |states| && e < |states[i].log|
    requires Authenticated(states[i].agents, states[i].log[e].device, states[i].log[e].secret).None?
    ensures Authenticated(states[k].agents, states[i].log[e].device, states[i].log[e].secret).None?
  {
    hide Run, Authenticated;
    LogGrows(states, steps, i, k);
    CredentialWorksUntilReplaced(states, steps, i, e);
    CredentialWorksUntilReplaced(states, steps, k, e);
    var x :| e < x < |states[i].log| && states[i].log[x].machine == states[i].log[e].machine;
    assert states[k].log[x] == states[i].log[x] && states[k].log[e] == states[i].log[e];
  }
}
