/** The HTTP handlers as they run: each authenticates, checks the tenant, and works on the tables in place. */
module BackendStore {
  import opened Base
  import opened Backend
  import E = Enrollment
  import I = Inventory
  import A = Alerts
  import AS = AlertStore
  import Q = DeliveryQueue
  import J = Jobs
  import JS = JobStore
  import JobPayload

  class Handlers {
    const registry: E.RegistryTables
    const inventory: I.InventoryTables
    const alerts: AS.AlertTables
    const session: JS.JobSession

    constructor (registry: E.RegistryTables, inventory: I.InventoryTables, alerts: AS.AlertTables,
      session: JS.JobSession)
      ensures this.registry == registry && this.inventory == inventory && this.alerts == alerts
              && this.session == session
    {
      this.registry, this.inventory, this.alerts, this.session := registry, inventory, alerts, session;
    }

    ghost function Contents(): World
      reads registry, inventory, alerts, alerts.desk, session
    {
      World(registry.Contents(), inventory.Contents(), alerts.Contents(), session.Committed())
    }

    // ---- POST /agent/checkin ----

    method CheckinAgent(c: CheckIn) returns (accepted: bool)
      modifies registry, inventory, alerts, alerts.desk
      ensures accepted == E.Accepts(old(Contents()).registry, c.visit)
      ensures Contents() == AfterCheckIn(old(Contents()), c)
    {
      hide E.Accepts, E.AfterVisit, I.Upserted, A.Evaluate, FactsOf;
      accepted := registry.CheckinAgent(c.visit);
      if !accepted {
        RefusedChangesNothing(old(registry.Contents()), c.visit);
        return;
      }
      VisitKeepsDevice(old(registry.Contents()), c.visit);
      var device := c.visit.device;
      var org := registry.devices[device].org;
      if c.inventory.Some? {
        inventory.UpsertInventory(device, org, c.visit.profile, c.inventory.value, c.visit.now);
      }
      var facts := ReadFacts(device, c.memoryTotal);
      alerts.EvaluateDeviceAlerts(A.Visit(org, device, facts, c.settings, c.visit.now));
    }

    static lemma VisitKeepsDevice(g: E.Registry, v: E.Visit)
      requires E.Accepts(g, v)
      ensures var g' := E.AfterVisit(g, v);
              v.device < |g.devices| == |g'.devices| && g'.devices[v.device].org == g.devices[v.device].org
    {
    }

    static lemma RefusedChangesNothing(g: E.Registry, v: E.Visit)
      requires !E.Accepts(g, v)
      ensures E.AfterVisit(g, v) == g
    {
    }

    /** The queries an evaluation starts with. */
    method ReadFacts(device: nat, memoryTotal: Option<int>) returns (facts: A.Facts)
      requires device < |registry.devices|
      ensures facts == FactsOf(registry.Contents(), inventory.Contents(), device, memoryTotal)
    {
      var d := registry.devices[device];
      var summary := I.SectionAt(inventory.summaries, device);
      var security := I.SectionAt(inventory.security, device);
      var updates := I.SectionAt(inventory.updates, device);
      facts := A.Facts(d.profile.hostname, d.lastSeen, Some(d.profile.version), I.ItemsOf(inventory.disks, device),
        memoryTotal, None,
                       if security.Some? then Some(inventory.security[security.value].data) else None,
                       if updates.Some? then Some(inventory.updates[updates.value].data) else None,
                       if summary.Some? then Some(inventory.summaries[summary.value].refreshedAt) else None);
    }

    // ---- /agent/jobs ----

    /** GET /agent/jobs; None is the 401. */
    method PollJobs(device: nat, secret: E.Secret, agent: J.Agent, now: J.Time, due: seq<nat>, oldest: seq<nat>)
      returns (response: Option<seq<(nat, J.Job)>>)
      requires session.objects == map[]
      requires var found := E.Authenticated(registry.agents, device, secret);
               found.Some? ==>
                 agent == J.Agent(found.value, device)
                 && J.Truthful(session.flushBeforeSelect, session.Committed(), J.Poll(agent, now, due, oldest))
      modifies session
      ensures session.objects == map[]
      ensures Contents()
              == After(session.flushBeforeSelect, 0, old(Contents()),
                Working(device, secret, J.Poll(agent, now, due, oldest)))
      ensures response.Some? <==> E.Authenticated(registry.agents, device, secret).Some?
      ensures response.Some? ==> |response.value| == |oldest| && forall i | 0 <= i < |oldest| ::
                oldest[i] < |session.rows| && response.value[i] == (oldest[i], session.rows[oldest[i]])
    {
      hide E.Authenticated, J.Truthful, J.Apply;
      var found := registry.AuthenticateAgentJobs(device, secret);
      if found.None? {
        return None;
      }
      var jobs := session.PollJobs(agent, now, due, oldest);
      response := Some(jobs);
    }

    /** POST /agent/jobs/{id}/start; None is the 401. */
    method StartPolledJob(id: nat, device: nat, secret: E.Secret, now: J.Time) returns (reply: Option<J.Reply>)
      requires session.objects == map[]
      modifies session
      ensures session.objects == map[]
      ensures match E.Authenticated(registry.agents, device, secret)
              case None => reply == None && Contents() == old(Contents())
              case Some(a) =>
                var call := J.Start(id, J.Agent(a, device), now);
                reply == Some(J.ReplyTo(old(Contents()).jobs, call))
                && Contents() == After(session.flushBeforeSelect, 0, old(Contents()), Working(device, secret, call))
    {
      hide E.Authenticated, J.Apply, J.ReplyTo;
      var found := registry.AuthenticateAgentJobs(device, secret);
      if found.None? {
        return None;
      }
      var answer := session.StartJob(id, J.Agent(found.value, device), now);
      reply := Some(answer);
    }

    /** POST /agent/jobs/{id}/complete; None is the 401. */
    method CompletePolledJob(id: nat, device: nat, secret: E.Secret, report: J.Report, now: J.Time)
      returns (reply: Option<J.Reply>)
      requires session.objects == map[]
      modifies session
      ensures session.objects == map[]
      ensures match E.Authenticated(registry.agents, device, secret)
              case None => reply == None && Contents() == old(Contents())
              case Some(a) =>
                var call := J.Complete(id, J.Agent(a, device), report, now);
                reply == Some(J.ReplyTo(old(Contents()).jobs, call))
                && Contents() == After(session.flushBeforeSelect, 0, old(Contents()), Working(device, secret, call))
    {
      hide E.Authenticated, J.Apply, J.ReplyTo;
      var found := registry.AuthenticateAgentJobs(device, secret);
      if found.None? {
        return None;
      }
      var answer := session.CompleteJob(id, J.Agent(found.value, device), report, now);
      reply := Some(answer);
    }

    // ---- Operators' job endpoints ----

    /** POST /devices/{id}/jobs. */
    method CreateDeviceJob(org: nat, device: nat, jobType: JobPayload.JobType, payload: JobPayload.Payload,
                           createdAt: J.Time, now: J.Time, timeout: int) returns (reply: J.Reply)
      requires session.objects == map[]
      modifies session
      ensures session.objects == map[]
      ensures var order := J.Create(org, device, jobType, payload, createdAt, now, timeout);
              && Contents() == After(session.flushBeforeSelect, 0, old(Contents()), Operating(org, order))
              && reply
                   == if MayOrder(old(Contents()), org, order) then J.ReplyTo(old(Contents()).jobs, order)
                     else J.NotFound
    {
      hide J.Apply, J.ReplyTo;
      if device >= |registry.devices| || registry.devices[device].org != org {
        return J.NotFound;
      }
      reply := session.CreateJob(registry.devices[device].org, device, jobType, payload, createdAt, now, timeout);
    }

    /** POST /jobs/{id}/cancel. */
    method CancelAgentJob(org: nat, id: nat, now: J.Time) returns (reply: J.Reply)
      requires session.objects == map[]
      modifies session
      ensures session.objects == map[]
      ensures var order := J.Cancel(id, now);
              && Contents() == After(session.flushBeforeSelect, 0, old(Contents()), Operating(org, order))
              && reply
                   == if MayOrder(old(Contents()), org, order) then J.ReplyTo(old(Contents()).jobs, order)
                     else J.NotFound
    {
      hide J.Apply, J.ReplyTo;
      if id >= |session.rows| || session.rows[id].org != org {
        return J.NotFound;
      }
      reply := session.CancelJob(id, now);
    }
  }
}
