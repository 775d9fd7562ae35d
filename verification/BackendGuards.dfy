/** Who may do what in the whole backend, on the tables' own fields, and what a request can never reach. */
module BackendGuards {
  import opened Base
  import opened Backend
  import opened BackendRuns
  import E = Enrollment
  import ER = EnrollmentRuns
  import EE = EnrollmentEffects
  import A = Alerts
  import AR = AlertRuns
  import J = Jobs

  /** The device exists and is the organization's. */
  predicate Owns(w: World, org: nat, device: nat) {
    device < |w.registry.devices| && w.registry.devices[device].org == org
  }

  /** What an operator of the organization may ask of the job endpoints. */
  predicate OrderTaken(w: World, org: nat, order: J.Request) {
    || (order.Create? && Owns(w, org, order.device))
    || (order.Sweep? && order.scope.Some? && Owns(w, org, order.scope.value))
    || (order.Cancel? && order.job < |w.jobs.jobs| && w.jobs.jobs[order.job].org == org)
  }

  /** The agent the credentials are of, and the request is one agents make, as that agent. */
  predicate CallTaken(w: World, device: nat, secret: E.Secret, call: J.Request, a: nat) {
    && EE.Knows(w.registry.agents, a, device, secret)
    && (call.Poll? || call.Start? || call.Complete?) && call.agent.id == a && call.agent.device == device
  }

  lemma KnownInSound(g: E.Registry, device: nat, secret: E.Secret)
    requires ER.Sound(g)
    ensures forall a: nat :: E.Authenticated(g.agents, device, secret) == Some(a) <==>
            EE.Knows(g.agents, a, device, secret)
  {
    hide ER.Sound;
    forall a: nat | EE.Knows(g.agents, a, device, secret) ensures E.AgentOfDevice(g.agents, device) == Some(a) {
      if E.AgentOfDevice(g.agents, device).None? {
        LatestNone(g.agents, E.BelongsTo(device));
      } else {
        var b := E.AgentOfDevice(g.agents, device).value;
        ER.AgentIsLastEnrollment(g, a);
        ER.AgentIsLastEnrollment(g, b);
        OneOfDevice(g, a, b);
      }
    }
  }

  lemma OneOfDevice(g: E.Registry, a: nat, b: nat)
    requires ER.Sound(g) && a < |g.agents| && b < |g.agents| && g.agents[a].machine == g.agents[b].machine
    ensures a == b
  {
    hide ER.AgentsRefine, ER.TokensAccount;
  }

  lemma WorldIsSound(flush: bool, setting: int, w: World)
    requires Sound(flush, setting, w)
    ensures ER.Sound(w.registry) && Coherent(w)
  {
    hide ER.Sound, Coherent;
  }

  /**
   * In every reachable world a job request is served exactly if it is an operator's, on a device or job of the
   * operator's organization, or an agent's own, with the secret of the device's agent; it then changes the job
   * tables alone, and otherwise nothing.
   */
  lemma JobRequestServedIff(flush: bool, setting: int, worlds: seq<World>, requests: seq<Request>, i: nat)
    requires Run(flush, setting, worlds, requests) && i < |requests|
    requires requests[i].Operating? || requests[i].Working?
    ensures var w, r, w' := worlds[i], requests[i], worlds[i + 1];
            && (r.Operating? && OrderTaken(w, r.org, r.order) ==>
                  J.Shaped(w.jobs, r.order) && w' == w.(jobs := J.Apply(w.jobs, r.order)))
            && (r.Operating? && !OrderTaken(w, r.org, r.order) ==> w' == w)
            && (r.Working? && (exists a: nat :: CallTaken(w, r.device, r.secret, r.call, a)) ==>
                  J.Shaped(w.jobs, r.call) && w' == w.(jobs := J.Apply(w.jobs, r.call)))
            && (r.Working? && !(exists a: nat :: CallTaken(w, r.device, r.secret, r.call, a)) ==> w' == w)
  {
    hide Blank, Sound, ER.Sound, Coherent, E.Authenticated, J.Apply, J.Truthful, J.Shaped, EE.Knows;
    var w, r := worlds[i], requests[i];
    AlwaysSound(flush, setting, worlds, requests, i);
    WorldIsSound(flush, setting, w);
    StepHappens(flush, setting, worlds, requests, i);
    if r.Working? {
      KnownInSound(w.registry, r.device, r.secret);
      if RunsAs(w, r.device, r.secret, r.call) {
        TruthIsShaped(flush, w.jobs, r.call);
        assert CallTaken(w, r.device, r.secret, r.call, r.call.agent.id);
      }
    } else if MayOrder(w, r.org, r.order) {
      TruthIsShaped(flush, w.jobs, r.order);
    }
  }

  lemma StepHappens(flush: bool, setting: int, worlds: seq<World>, requests: seq<Request>, i: nat)
    requires Run(flush, setting, worlds, requests) && i < |requests|
    ensures Happens(flush, setting, worlds[i], requests[i], worlds[i + 1])
  {
    hide Happens, Blank;
  }

  /** The organization a request acts for: an operator's own, or that of the agent's device. */
  ghost predicate ActsFor(w: World, r: Request, org: nat) {
    match r
    case Operating(o, _) => o == org
    case Working(device, _, _) => Owns(w, org, device)
    case _ => false
  }

  /** A job request only ever touches jobs of the devices it concerns. */
  lemma TouchesItsDevice(t: J.Tables, r: J.Request, device: nat, id: nat)
    requires J.Shaped(t, r) && id < |t.jobs| && t.jobs[id].device != device
    requires r.Poll? || r.Start? || r.Complete? ==> r.agent.device == device
    requires r.Sweep? ==> r.scope == Some(device)
    requires r.Sweep? ==> forall x | x in r.due :: t.jobs[x].device == device
    requires r.Poll? ==> forall x | x in r.due || x in r.oldest :: t.jobs[x].device == device
    requires r.Cancel? ==> r.job != id
    ensures J.Apply(t, r).jobs[id] == t.jobs[id]
  {
    hide J.Written;
  }

  lemma AnswersAreOfDevice(flush: bool, t: J.Tables, r: J.Request, device: nat)
    requires J.Truthful(flush, t, r) && (r.Sweep? || r.Poll?)
    requires r.Sweep? ==> r.scope == Some(device)
    requires r.Poll? ==> r.agent.device == device
    ensures J.Shaped(t, r) && forall x | x in r.due :: t.jobs[x].device == device
    ensures r.Poll? ==> forall x | x in r.oldest :: t.jobs[x].device == device
  {
    if r.Poll? {
      forall x | x in r.oldest ensures t.jobs[x].device == device {
        assert J.Waiting(J.Seen(flush, t, r.now, r.due)[x], device);
      }
    }
  }

  /** Tenant isolation of the job endpoints: a request for one organization leaves the jobs of all others alone. */
  lemma JobsOfOthersUntouched(flush: bool, setting: int, worlds: seq<World>, requests: seq<Request>, i: nat, org: nat,
      id: nat)
    requires Run(flush, setting, worlds, requests) && i < |requests| && ActsFor(worlds[i], requests[i], org)
    requires id < |worlds[i].jobs.jobs| && worlds[i].jobs.jobs[id].org != org
    ensures id < |worlds[i + 1].jobs.jobs| && worlds[i + 1].jobs.jobs[id] == worlds[i].jobs.jobs[id]
  {
    hide Blank, Sound, ER.Sound, Coherent, E.Authenticated, J.Apply, J.Truthful, J.Shaped;
    var w, r := worlds[i], requests[i];
    AlwaysSound(flush, setting, worlds, requests, i);
    WorldIsSound(flush, setting, w);
    JobHome(w, id);
    StepHappens(flush, setting, worlds, requests, i);
    if r.Working? && RunsAs(w, r.device, r.secret, r.call) {
      TruthIsShaped(flush, w.jobs, r.call);
      if r.call.Poll? {
        AnswersAreOfDevice(flush, w.jobs, r.call, r.device);
      }
      TouchesItsDevice(w.jobs, r.call, r.device, id);
    } else if r.Operating? && MayOrder(w, r.org, r.order) {
      TruthIsShaped(flush, w.jobs, r.order);
      if r.order.Sweep? {
        AnswersAreOfDevice(flush, w.jobs, r.order, r.order.scope.value);
        TouchesItsDevice(w.jobs, r.order, r.order.scope.value, id);
      } else if r.order.Cancel? {
        JobHome(w, r.order.job);
        TouchesItsDevice(w.jobs, r.order, w.jobs.jobs[r.order.job].device, id);
      } else {
        TouchesItsDevice(w.jobs, r.order, r.order.device, id);
      }
    }
  }

  lemma JobHome(w: World, id: nat)
    requires Coherent(w) && id < |w.jobs.jobs|
    ensures var j := w.jobs.jobs[id]; j.device < |w.registry.devices| && j.org == w.registry.devices[j.device].org
  {
    JobsAreHome(w.registry.devices, w.jobs);
  }
}
