/**
 * Who is let in and what it writes, on the tables' own fields: when an enrollment is admitted, what each contact
 * leaves behind, and, over whole runs, where every field of a token, a device and an agent comes from.
 */
module EnrollmentEffects {
  import opened Base
  import opened Enrollment
  import opened EnrollmentRuns

  // ---- Tokens ----

  ghost predicate OwnHashes(tokens: seq<Token>) {
    forall i, k | 0 <= i < k < |tokens| :: tokens[i].hash != tokens[k].hash
  }

  lemma {:induction false} HashesAreOwn(states: seq<Registry>, steps: seq<Step>, i: nat)
    requires Run(states, steps) && i < |states|
    ensures OwnHashes(states[i].tokens)
  {
    hide DevicesAfter, AgentsAfter, DeviceFor, Authenticated;
    if i > 0 {
      HashesAreOwn(states, steps, i - 1);
      assert Happens(states[i - 1], steps[i - 1], states[i]);
    }
  }

  /** The token has this hash, nobody has revoked it, its time is not up and it has a use left. */
  predicate Opens(token: Token, hash: Secret, now: Time) {
    token.hash == hash && token.revokedAt == None && now < token.expiresAt && token.uses + 1 <= token.maxUses
  }

  lemma AdmitsIsOpens(tokens: seq<Token>, hash: Secret, now: Time)
    requires OwnHashes(tokens)
    ensures Admits(tokens, hash, now) <==> exists t | 0 <= t < |tokens| :: Opens(tokens[t], hash, now)
    ensures forall t: nat | t < |tokens| && tokens[t].hash == hash :: TokenOf(tokens, hash) == Some(t)
  {
    if TokenOf(tokens, hash).None? {
      LatestNone(tokens, HasHash(hash));
    }
  }

  // ---- Enrollment ----

  /** The row is as the enrollment reports it; a reported address replaces the old one, a missing one does not. */
  predicate EnrolledAs(before: Option<Device>, d: Device, org: nat, e: Enroll) {
    && d.org == org && d.machine == e.machine && d.profile == e.profile && d.health == JustEnrolled
    && d.online && d.lastSeen == Some(e.now)
    && d.address == (if e.address == None && before.Some? then before.value.address else e.address)
  }

  /** One row of the table is rewritten, or one is added; all others stay. */
  predicate OneRow<T(==)>(rows: seq<T>, rows': seq<T>, at: nat) {
    && at < |rows'| && (at < |rows| ==> |rows'| == |rows|) && (at >= |rows| ==> at == |rows| && |rows'| == |rows| + 1)
    && forall i | 0 <= i < |rows| && i != at :: rows'[i] == rows[i]
  }

  /** Everything an enrollment admitted by token t writes; d and a are the device's and the agent's rows. */
  ghost predicate Enrolls(g: Registry, e: Enroll, g': Registry, t: nat, d: nat, a: nat) {
    && t < |g.tokens| == |g'.tokens|
    && g'.tokens == g.tokens[t := Token(g.tokens[t].org, g.tokens[t].hash, g.tokens[t].expiresAt, g.tokens[t].maxUses,
                                        g.tokens[t].uses + 1, g.tokens[t].revokedAt)]
    && var org := g.tokens[t].org;
       && OneRow(g.devices, g'.devices, d)
       && EnrolledAs(if d < |g.devices| then Some(g.devices[d]) else None, g'.devices[d], org, e)
       && (forall i | 0 <= i < |g.devices| && g.devices[i].org == org && g.devices[i].machine == e.machine :: i == d)
       && (d < |g.devices| ==> g.devices[d].org == org && g.devices[d].machine == e.machine)
       && OneRow(g.agents, g'.agents, a)
       && g'.agents[a] == AgentRow(org, d, e.machine, e.profile.version, e.secret, Some(e.now))
       && (forall i | 0 <= i < |g.agents| && g.agents[i].machine == e.machine :: i == a)
       && (a < |g.agents| ==> g.agents[a].machine == e.machine)
       && g'.checkins == g.checkins
       && g'.audits == g.audits + [Audit(org, EnrolledAgent, d)]
       && g'.log == g.log + [Enrolled(t, org, e.machine, d, e.secret)]
  }

  /**
   * In every reachable state an enrollment is admitted exactly when some token opens: the log then gains its entry
   * and the credential is handed out; otherwise nothing at all is written and none is.
   */
  lemma EnrollmentAdmittedIff(states: seq<Registry>, steps: seq<Step>, s: nat)
    requires Run(states, steps) && s < |steps| && steps[s].Enrolling?
    ensures var g, e, g' := states[s], steps[s].enroll, states[s + 1];
            var admitted := exists t | 0 <= t < |g.tokens| :: Opens(g.tokens[t], e.hash, e.now);
            && (|g'.log| == |g.log| + 1 <==> admitted) && (g' == g <==> !admitted)
            && (EnrollReply(g, e).Some? <==> admitted)
  {
    hide DevicesAfter, AgentsAfter, DeviceFor, Opens, TokenOf;
    HashesAreOwn(states, steps, s);
    assert Happens(states[s], steps[s], states[s + 1]);
    AdmitsIsOpens(states[s].tokens, steps[s].enroll.hash, steps[s].enroll.now);
  }

  lemma DeviceRow(devices: seq<Device>, org: nat, e: Enroll)
    requires OneDevicePerMachine(devices)
    ensures var d, after := DeviceFor(devices, org, e.machine), DevicesAfter(devices, org, e);
            && OneRow(devices, after, d)
            && EnrolledAs(if d < |devices| then Some(devices[d]) else None, after[d], org, e)
            && (forall i | 0 <= i < |devices| && devices[i].org == org && devices[i].machine == e.machine :: i == d)
            && (d < |devices| ==> devices[d].org == org && devices[d].machine == e.machine)
  {
    if DeviceOf(devices, org, e.machine).None? {
      LatestNone(devices, IsDeviceOf(org, e.machine));
    }
  }

  lemma AgentsRow(agents: seq<AgentRow>, org: nat, device: nat, e: Enroll) returns (a: nat)
    requires OneAgentPerMachine(agents)
    ensures var after := AgentsAfter(agents, org, device, e);
            && OneRow(agents, after, a)
            && after[a] == AgentRow(org, device, e.machine, e.profile.version, e.secret, Some(e.now))
            && (forall i | 0 <= i < |agents| && agents[i].machine == e.machine :: i == a)
            && (a < |agents| ==> agents[a].machine == e.machine)
  {
    if AgentOfMachine(agents, e.machine).None? {
      LatestNone(agents, RunsOn(e.machine));
      a := |agents|;
    } else {
      a := AgentOfMachine(agents, e.machine).value;
    }
  }

  /** An admitted enrollment writes its token's use, its device, its agent, one audit and one log entry; no more. */
  lemma EnrollmentWrites(states: seq<Registry>, steps: seq<Step>, s: nat, t: nat) returns (d: nat, a: nat)
    requires Run(states, steps) && s < |steps| && steps[s].Enrolling? && t < |states[s].tokens|
    requires Opens(states[s].tokens[t], steps[s].enroll.hash, steps[s].enroll.now)
    ensures Enrolls(states[s], steps[s].enroll, states[s + 1], t, d, a)
    ensures EnrollReply(states[s], steps[s].enroll) == Some((d, steps[s].enroll.secret))
  {
    hide DevicesAfter, AgentsAfter, DeviceFor, TokenOf, OneRow, EnrolledAs, OwnHashes;
    HashesAreOwn(states, steps, s);
    AlwaysSound(states, steps, s);
    hide TokensAccount, AgentsRefine, LogFits, FreshSecrets, OneAgentPerMachine, OneDevicePerMachine;
    var g, e := states[s], steps[s].enroll;
    assert Happens(g, steps[s], states[s + 1]);
    AdmitsIsOpens(g.tokens, e.hash, e.now);
    var org := g.tokens[t].org;
    DeviceRow(g.devices, org, e);
    d := DeviceFor(g.devices, org, e.machine);
    a := AgentsRow(g.agents, org, d, e);
  }

  // ---- Check-ins ----

  /** The agent is the device's, and the secret presented is its own. */
  predicate Knows(agents: seq<AgentRow>, a: nat, device: nat, secret: Secret) {
    a < |agents| && agents[a].device == device && agents[a].secret == secret
  }

  lemma {:induction false} AuthenticatedIsKnown(states: seq<Registry>, steps: seq<Step>, s: nat, device: nat,
      secret: Secret)
    requires Run(states, steps) && s < |states|
    ensures forall a: nat :: Authenticated(states[s].agents, device, secret) == Some(a)
              <==> Knows(states[s].agents, a, device, secret)
  {
    hide Run;
    var agents := states[s].agents;
    forall a: nat | Knows(agents, a, device, secret) ensures AgentOfDevice(agents, device) == Some(a) {
      if AgentOfDevice(agents, device).None? {
        LatestNone(agents, BelongsTo(device));
      } else {
        OneAgentPerDevice(states, steps, s, AgentOfDevice(agents, device).value, a);
      }
    }
  }

  /** Everything a check-in by agent a writes. */
  ghost predicate ChecksIn(g: Registry, v: Visit, g': Registry, a: nat) {
    && v.device < |g.devices| && a < |g.agents|
    && g'.tokens == g.tokens && g'.log == g.log
    && OneRow(g.devices, g'.devices, v.device) && OneRow(g.agents, g'.agents, a)
    && var d, d' := g.devices[v.device], g'.devices[v.device];
       && d'.org == d.org && d'.machine == d.machine && d'.profile == v.profile
       && d'.health == Reported(v.health) && d'.online && d'.lastSeen == Some(v.now)
       && d'.address == (if v.address == None || v.address == Some([]) then v.peer else v.address)
       && g'.agents[a] == AgentRow(g.agents[a].org, g.agents[a].device, g.agents[a].machine, v.profile.version,
                                   g.agents[a].secret, Some(v.now))
       && g'.checkins == g.checkins + [Checkin(d.org, v.device, a, v.health, d'.address, v.profile.version)]
       && g'.audits == g.audits + [Audit(d.org, CheckedIn, v.device)]
  }

  lemma VisitWrites(g: Registry, v: Visit, a: nat)
    requires Authenticated(g.agents, v.device, v.secret) == Some(a) && Accepts(g, v)
    ensures ChecksIn(g, v, AfterVisit(g, v), a)
  {
    hide Authenticated;
  }

  /**
   * In every reachable state a check-in is accepted exactly when some agent of the device has the secret
   * presented; it then writes that device and that agent, one check-in and one audit, and otherwise nothing.
   */
  lemma CheckInAcceptedIff(states: seq<Registry>, steps: seq<Step>, s: nat)
    requires Run(states, steps) && s < |steps| && steps[s].Visiting?
    ensures var g, v, g' := states[s], steps[s].visit, states[s + 1];
            && (Accepts(g, v) <==> exists a: nat :: Knows(g.agents, a, v.device, v.secret))
            && (forall a: nat | Knows(g.agents, a, v.device, v.secret) :: ChecksIn(g, v, g', a))
            && (!Accepts(g, v) ==> g' == g)
  {
    hide Authenticated, ChecksIn, Knows, InTenant;
    var g, v := states[s], steps[s].visit;
    AuthenticatedIsKnown(states, steps, s, v.device, v.secret);
    GuardNeverFires(states, steps, s, v);
    assert Happens(g, steps[s], states[s + 1]);
    forall a: nat | Knows(g.agents, a, v.device, v.secret) ensures ChecksIn(g, v, states[s + 1], a) {
      VisitWrites(g, v, a);
    }
    if Accepts(g, v) {
      assert Knows(g.agents, Authenticated(g.agents, v.device, v.secret).value, v.device, v.secret);
    }
  }

  // ---- The other steps ----

  /** Minting adds the token as it is given, revoking stamps one, and reading sets flags; nothing else is written. */
  lemma OtherStepsWrite(g: Registry, s: Step, g': Registry)
    requires Happens(g, s, g')
    ensures s.Mint? ==> g' == g.(tokens := g.tokens + [s.minted])
    ensures s.Revoke? ==>
              && s.token < |g.tokens|
              && g' == g.(tokens := g.tokens[s.token := g.tokens[s.token].(revokedAt := Some(s.at))])
    ensures s.Reading? ==>
              && g' == g.(devices := g'.devices) && |g'.devices| == |g.devices|
              && forall d | 0 <= d < |g.devices| ::
                   var mine := g.devices[d].org == s.reading.org && s.reading.device in {None, Some(d)};
                   && g'.devices[d] == g.devices[d].(online := g'.devices[d].online)
                   && (!mine ==> g'.devices[d] == g.devices[d])
                   && (mine ==> (g'.devices[d].online <==>
                        g.devices[d].lastSeen.Some? && s.reading.now - g.devices[d].lastSeen.value <= s.reading.window))
  {
  }

  // ---- Where a token's fields come from ----

  /** Token t was minted as this, and is as it was minted but for its uses and its revocation. */
  predicate MintedAs(token: Token, minted: Token) {
    token.org == minted.org && token.hash == minted.hash && token.expiresAt == minted.expiresAt
      && token.maxUses == minted.maxUses
  }

  predicate Revokes(s: Step, t: nat) { s.Revoke? && s.token == t }

  /** The last revocation of token t after step m and before state i, if there was one. */
  ghost predicate LastRevocation(steps: seq<Step>, m: nat, i: nat, t: nat, r: Option<nat>)
    requires i <= |steps|
  {
    match r
    case None => forall x | m < x < i :: !Revokes(steps[x], t)
    case Some(at) => m < at < i && Revokes(steps[at], t) && forall x | at < x < i :: !Revokes(steps[x], t)
  }

  /**
   * In every reachable state every token is one that was minted: its organization, hash, expiry and limit are as
   * minted, and it is revoked exactly if it was minted so or a revocation of it followed.
   */
  lemma {:induction false} TokenIsMinted(states: seq<Registry>, steps: seq<Step>, i: nat, t: nat)
    returns (m: nat, r: Option<nat>)
    requires Run(states, steps) && i < |states| && t < |states[i].tokens|
    ensures m < i && steps[m].Mint? && |states[m].tokens| == t && MintedAs(states[i].tokens[t], steps[m].minted)
    ensures LastRevocation(steps, m, i, t, r)
    ensures states[i].tokens[t].revokedAt == match r
                                             case None => steps[m].minted.revokedAt
                                             case Some(at) => Some(steps[at].at)
  {
    hide Happens, Revokes;
    if i == 0 {
      assert false;
    } else {
      assert Happens(states[i - 1], steps[i - 1], states[i]);
      TokenStep(states[i - 1], steps[i - 1], states[i], t);
      if t < |states[i - 1].tokens| {
        m, r := TokenIsMinted(states, steps, i - 1, t);
        if Revokes(steps[i - 1], t) {
          r := Some(i - 1);
        }
      } else {
        m, r := i - 1, None;
      }
    }
  }

  lemma TokenStep(g: Registry, s: Step, g': Registry, t: nat)
    requires Happens(g, s, g') && t < |g'.tokens|
    ensures t >= |g.tokens| ==> t == |g.tokens| && s.Mint? && g'.tokens[t] == s.minted && !Revokes(s, t)
    ensures t < |g.tokens| ==> MintedAs(g'.tokens[t], g.tokens[t])
    ensures t < |g.tokens| ==> g'.tokens[t].revokedAt == if Revokes(s, t) then Some(s.at) else g.tokens[t].revokedAt
    ensures Revokes(s, t) ==> s.Revoke?
  {
    hide DevicesAfter, AgentsAfter, DeviceFor, Authenticated;
  }
}
