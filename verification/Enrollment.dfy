/**
 * Enrollment tokens, devices and agents: what enrolling, authenticating and checking in do to them.
 * A secret stands for itself in the tables: hashing is injective and secrets are drawn fresh.
 */
module Enrollment {
  import opened Base

  type Time = int
  type Secret = nat

  datatype Token = Token(org: nat, hash: Secret, expiresAt: Time, maxUses: int, uses: nat, revokedAt: Option<Time>)

  /** The fields an agent reports about its machine at enrollment and at every check-in. */
  datatype Profile = Profile(hostname: string, system: string, architecture: Option<string>, version: string)

  datatype Health = JustEnrolled | Reported(text: string)

  datatype Device = Device(org: nat, machine: string, profile: Profile, address: Option<string>, health: Health,
                           online: bool, lastSeen: Option<Time>)

  datatype AgentRow = AgentRow(org: nat, device: nat, machine: string, version: string, secret: Secret,
    lastSeen: Option<Time>)

  datatype Checkin = Checkin(org: nat, device: nat, agent: nat, health: string, address: Option<string>,
    version: string)

  datatype Action = EnrolledAgent | CheckedIn

  datatype Audit = Audit(org: nat, action: Action, device: nat)

  /** A successful enrollment, as the log the tables are compared with records it. */
  datatype Enrolled = Enrolled(token: nat, org: nat, machine: string, device: nat, secret: Secret)

  datatype Registry = Registry(tokens: seq<Token>, devices: seq<Device>, agents: seq<AgentRow>, checkins: seq<Checkin>,
                               audits: seq<Audit>, log: seq<Enrolled>)

  // ---- Queries ----

  predicate IsDevice(d: Device, org: nat, machine: string) { d.org == org && d.machine == machine }

  function HasHash(hash: Secret): Token -> bool { (t: Token) => t.hash == hash }

  function IsDeviceOf(org: nat, machine: string): Device -> bool { (d: Device) => IsDevice(d, org, machine) }

  function RunsOn(machine: string): AgentRow -> bool { (a: AgentRow) => a.machine == machine }

  function BelongsTo(device: nat): AgentRow -> bool { (a: AgentRow) => a.device == device }

  function TokenOf(tokens: seq<Token>, hash: Secret): Option<nat> { Latest(tokens, HasHash(hash)) }

  function DeviceOf(devices: seq<Device>, org: nat, machine: string): Option<nat> {
    Latest(devices, IsDeviceOf(org, machine))
  }

  function AgentOfMachine(agents: seq<AgentRow>, machine: string): Option<nat> { Latest(agents, RunsOn(machine)) }

  function AgentOfDevice(agents: seq<AgentRow>, device: nat): Option<nat> { Latest(agents, BelongsTo(device)) }

  // ---- Enrollment ----

  datatype Enroll = Enroll(hash: Secret, machine: string, profile: Profile, address: Option<string>, secret: Secret,
    now: Time)

  /** The token exists, is not revoked, has not expired and has uses left. */
  predicate Admits(tokens: seq<Token>, hash: Secret, now: Time) {
    var found := TokenOf(tokens, hash);
    found.Some? && tokens[found.value].revokedAt.None? && now < tokens[found.value].expiresAt
    && tokens[found.value].uses < tokens[found.value].maxUses
  }

  function EnrolledDevice(d: Option<Device>, org: nat, e: Enroll): Device {
    var address := if e.address.Some? || d.None? then e.address else d.value.address;
    Device(org, e.machine, e.profile, address, JustEnrolled, true, Some(e.now))
  }

  /** The device table after an admitted enrollment, and the device's id. */
  function DevicesAfter(devices: seq<Device>, org: nat, e: Enroll): seq<Device> {
    match DeviceOf(devices, org, e.machine)
    case None => devices + [EnrolledDevice(None, org, e)]
    case Some(d) => devices[d := EnrolledDevice(Some(devices[d]), org, e)]
  }

  function DeviceFor(devices: seq<Device>, org: nat, machine: string): nat {
    var found := DeviceOf(devices, org, machine);
    if found.Some? then found.value else |devices|
  }

  function EnrolledRow(org: nat, device: nat, e: Enroll): AgentRow {
    AgentRow(org, device, e.machine, e.profile.version, e.secret, Some(e.now))
  }

  function AgentsAfter(agents: seq<AgentRow>, org: nat, device: nat, e: Enroll): seq<AgentRow> {
    match AgentOfMachine(agents, e.machine)
    case None => agents + [EnrolledRow(org, device, e)]
    case Some(a) => agents[a := EnrolledRow(org, device, e)]
  }

  function AfterEnroll(g: Registry, e: Enroll): Registry {
    if !Admits(g.tokens, e.hash, e.now) then g
    else
      var t := TokenOf(g.tokens, e.hash).value;
      var org := g.tokens[t].org;
      var device := DeviceFor(g.devices, org, e.machine);
      Registry(g.tokens[t := g.tokens[t].(uses := g.tokens[t].uses + 1)],
               DevicesAfter(g.devices, org, e),
               AgentsAfter(g.agents, org, device, e),
               g.checkins,
               g.audits + [Audit(org, EnrolledAgent, device)],
               g.log + [Enrolled(t, org, e.machine, device, e.secret)])
  }

  /** None is the 401; otherwise the device id and the secret, handed out this once. */
  function EnrollReply(g: Registry, e: Enroll): Option<(nat, Secret)> {
    if !Admits(g.tokens, e.hash, e.now) then None
    else Some((DeviceFor(g.devices, g.tokens[TokenOf(g.tokens, e.hash).value].org, e.machine), e.secret))
  }

  // ---- Authentication and check-in ----

  /** The agent a device id and secret authenticate as. */
  function Authenticated(agents: seq<AgentRow>, device: nat, secret: Secret): (r: Option<nat>)
    ensures r.Some? ==> r.value < |agents| && agents[r.value].device == device && agents[r.value].secret == secret
  {
    var found := AgentOfDevice(agents, device);
    if found.Some? && agents[found.value].secret == secret then found else None
  }

  datatype Visit = Visit(device: nat, secret: Secret, profile: Profile, address: Option<string>, peer: Option<string>,
    health: string, now: Time)

  /** The device exists and is in the agent's organization: the guard after authentication. */
  predicate InTenant(g: Registry, device: nat, agent: nat)
    requires agent < |g.agents|
  {
    device < |g.devices| && g.devices[device].org == g.agents[agent].org
  }

  function CheckedInDevice(d: Device, v: Visit): Device {
    d.(profile := v.profile, address := if v.address.Some? && v.address.value != [] then v.address else v.peer,
       health := Reported(v.health), online := true, lastSeen := Some(v.now))
  }

  function CheckedInRow(a: AgentRow, v: Visit): AgentRow { a.(version := v.profile.version, lastSeen := Some(v.now)) }

  /** A check-in is accepted. */
  predicate Accepts(g: Registry, v: Visit) {
    var agent := Authenticated(g.agents, v.device, v.secret);
    agent.Some? && InTenant(g, v.device, agent.value)
  }

  function AfterVisit(g: Registry, v: Visit): Registry {
    if !Accepts(g, v) then g
    else
      var agent := Authenticated(g.agents, v.device, v.secret).value;
      var device := CheckedInDevice(g.devices[v.device], v);
      g.(devices := g.devices[v.device := device],
         agents := g.agents[agent := CheckedInRow(g.agents[agent], v)],
         checkins := g.checkins + [Checkin(device.org, v.device, agent, v.health, device.address, v.profile.version)],
         audits := g.audits + [Audit(device.org, CheckedIn, v.device)])
  }

  // ---- Reading devices ----

  /** A dashboard read of the organization's devices, or of one of them, with the offline window in force. */
  datatype Reading = Reading(org: nat, device: Option<nat>, now: Time, window: int)

  /** _is_online. */
  predicate SeenWithin(lastSeen: Option<Time>, r: Reading) { lastSeen.Some? && lastSeen.value >= r.now - r.window }

  /** The row is one the request reads: the tenant's, and the one asked for if one was. */
  predicate Covers(r: Reading, devices: seq<Device>, d: nat) {
    d < |devices| && devices[d].org == r.org && (r.device.Some? ==> r.device.value == d)
  }

  /** _sync_status. */
  function SyncedRow(d: Device, r: Reading): Device { d.(online := SeenWithin(d.lastSeen, r)) }

  /** The first n rows of the device table after a read: the rows it covers are synchronized, and nothing else. */
  function SyncedRows(devices: seq<Device>, r: Reading, n: nat): (rows: seq<Device>)
    requires n <= |devices|
    ensures |rows| == |devices|
  {
    seq(|devices|, d requires 0 <= d < |devices| => if d < n && Covers(r, devices, d) then SyncedRow(devices[d], r)
      else devices[d])
  }

  function AfterReading(g: Registry, r: Reading): Registry { g.(devices := SyncedRows(g.devices, r, |g.devices|)) }

  // ---- The handlers ----

  class RegistryTables {
    var tokens: seq<Token>
    var devices: seq<Device>
    var agents: seq<AgentRow>
    var checkins: seq<Checkin>
    var audits: seq<Audit>
    ghost var log: seq<Enrolled>

    constructor ()
      ensures Contents() == Registry([], [], [], [], [], [])
    {
      tokens, devices, agents, checkins, audits, log := [], [], [], [], [], [];
    }

    ghost function Contents(): Registry
      reads this
    {
      Registry(tokens, devices, agents, checkins, audits, log)
    }

    method WriteAudit(org: nat, action: Action, device: nat)
      modifies this`audits
      ensures audits == old(audits) + [Audit(org, action, device)]
    {
      audits := audits + [Audit(org, action, device)];
    }

    /** POST /agent/enroll. */
    method EnrollAgent(e: Enroll) returns (reply: Option<(nat, Secret)>)
      modifies this
      ensures Contents() == AfterEnroll(old(Contents()), e) && reply == EnrollReply(old(Contents()), e)
    {
      var found := TokenOf(tokens, e.hash);
      if found.None? || tokens[found.value].revokedAt.Some? || tokens[found.value].expiresAt <= e.now
         || tokens[found.value].uses >= tokens[found.value].maxUses {
        return None;
      }
      var token := found.value;
      var org := tokens[token].org;
      var device := |devices|;
      var known := DeviceOf(devices, org, e.machine);
      if known.None? {
        devices := devices + [Device(org, e.machine, e.profile, e.address, JustEnrolled, true, Some(e.now))];
      } else {
        device := known.value;
        var d := devices[device].(profile := e.profile, health := JustEnrolled, online := true,
          lastSeen := Some(e.now));
        if e.address.Some? {
          d := d.(address := e.address);
        }
        devices := devices[device := d];
      }
      var agent := AgentOfMachine(agents, e.machine);
      if agent.None? {
        agents := agents + [AgentRow(org, device, e.machine, e.profile.version, e.secret, Some(e.now))];
      } else {
        agents := agents[agent.value := agents[agent.value].(org := org, device := device, version := e.profile.version,
                                                             secret := e.secret, lastSeen := Some(e.now))];
      }
      tokens := tokens[token := tokens[token].(uses := tokens[token].uses + 1)];
      WriteAudit(org, EnrolledAgent, device);
      log := log + [Enrolled(token, org, e.machine, device, e.secret)];
      reply := Some((device, e.secret));
    }

    /** _authenticate_agent_jobs. */
    method AuthenticateAgentJobs(device: nat, secret: Secret) returns (agent: Option<nat>)
      ensures agent == Authenticated(agents, device, secret)
    {
      agent := AgentOfDevice(agents, device);
      if agent.Some? && agents[agent.value].secret != secret {
        agent := None;
      }
    }

    /** The part of POST /agent/checkin that updates the device and its agent. */
    method CheckinAgent(v: Visit) returns (accepted: bool)
      modifies this
      ensures accepted == Accepts(old(Contents()), v) && Contents() == AfterVisit(old(Contents()), v)
    {
      var found := AuthenticateAgentJobs(v.device, v.secret);
      if found.None? {
        return false;
      }
      var agent := found.value;
      if v.device >= |devices| || devices[v.device].org != agents[agent].org {
        return false;
      }
      var address := if v.address.Some? && v.address.value != [] then v.address else v.peer;
      devices := devices[v.device := devices[v.device].(profile := v.profile, address := address,
        health := Reported(v.health),
                                                        online := true, lastSeen := Some(v.now))];
      agents := agents[agent := agents[agent].(version := v.profile.version, lastSeen := Some(v.now))];
      checkins := checkins + [Checkin(devices[v.device].org, v.device, agent, v.health, address, v.profile.version)];
      WriteAudit(devices[v.device].org, CheckedIn, v.device);
      accepted := true;
    }

    /** GET /devices: lists the organization's devices, each with its flag synchronized and committed. */
    method ListDevices(org: nat, now: Time, window: int) returns (listed: seq<nat>)
      modifies this`devices
      ensures Contents() == AfterReading(old(Contents()), Reading(org, None, now, window))
      ensures forall d: nat :: d in listed <==> d < |devices| && devices[d].org == org
    {
      ghost var r := Reading(org, None, now, window);
      ghost var before := devices;
      listed := [];
      for d := 0 to |devices|
        invariant |devices| == |before| && devices == SyncedRows(before, r, d)
        invariant forall i: nat :: i in listed <==> i < d && before[i].org == org
      {
        if devices[d].org == org {
          var online := devices[d].lastSeen.Some? && devices[d].lastSeen.value >= now - window;
          devices := devices[d := devices[d].(online := online)];
          listed := listed + [d];
        }
      }
    }

    /** GET /devices/{id}; None is the 404. */
    method GetDevice(org: nat, id: nat, now: Time, window: int) returns (device: Option<Device>)
      modifies this`devices
      ensures Contents() == AfterReading(old(Contents()), Reading(org, Some(id), now, window))
      ensures device == if id < |devices| && devices[id].org == org then Some(devices[id]) else None
    {
      if id >= |devices| || devices[id].org != org {
        assert SyncedRows(devices, Reading(org, Some(id), now, window), |devices|) == devices;
        return None;
      }
      var online := devices[id].lastSeen.Some? && devices[id].lastSeen.value >= now - window;
      devices := devices[id := devices[id].(online := online)];
      device := Some(devices[id]);
    }
  }
}
