/**
 * Devices against their trail: audits, check-in rows and the device row tell the same story in every reachable state.
 */
module EnrollmentTrail {
  import opened Base
  import opened Enrollment
  import opened EnrollmentRuns

  /** The device's audits of one kind, as organization and device, oldest first. */
  function AuditsOf(audits: seq<Audit>, action: Action): seq<(nat, nat)> {
    if audits == [] then []
    else
      var last := audits[|audits| - 1];
      var before := AuditsOf(audits[..|audits| - 1], action);
      if last.action == action then before + [(last.org, last.device)] else before
  }

  function LoggedEnrollments(log: seq<Enrolled>): (r: seq<(nat, nat)>)
    ensures |r| == |log|
  {
    seq(|log|, i requires 0 <= i < |log| => (log[i].org, log[i].device))
  }

  function LoggedCheckins(checkins: seq<Checkin>): (r: seq<(nat, nat)>)
    ensures |r| == |checkins|
  {
    seq(|checkins|, i requires 0 <= i < |checkins| => (checkins[i].org, checkins[i].device))
  }

  function LastAction(audits: seq<Audit>, device: nat): Option<Action> {
    if audits == [] then None
    else if audits[|audits| - 1].device == device then Some(audits[|audits| - 1].action)
    else LastAction(audits[..|audits| - 1], device)
  }

  function LastCheckin(checkins: seq<Checkin>, device: nat): Option<Checkin> {
    if checkins == [] then None
    else if checkins[|checkins| - 1].device == device then Some(checkins[|checkins| - 1])
    else LastCheckin(checkins[..|checkins| - 1], device)
  }

  /** The row says what the last contact said: freshly enrolled, or as its last check-in reported. */
  ghost predicate RowFollows(d: Device, last: Option<Action>, checkin: Option<Checkin>) {
    && d.lastSeen.Some?
    && match last
       case None => false
       case Some(EnrolledAgent) => d.health == JustEnrolled
       case Some(CheckedIn) =>
         && checkin.Some? && d.health == Reported(checkin.value.health)
         && d.address == checkin.value.address && d.profile.version == checkin.value.version
  }

  ghost predicate DevicesFollow(g: Registry) {
    forall d: nat | d < |g.devices| :: RowFollows(g.devices[d], LastAction(g.audits, d), LastCheckin(g.checkins, d))
  }

  ghost predicate TrailFits(g: Registry) {
    && AuditsOf(g.audits, EnrolledAgent) == LoggedEnrollments(g.log)
    && AuditsOf(g.audits, CheckedIn) == LoggedCheckins(g.checkins)
    && DevicesFollow(g)
  }

  lemma AuditSnoc(audits: seq<Audit>, a: Audit, action: Action, device: nat)
    ensures AuditsOf(audits + [a], action)
            == if a.action == action then AuditsOf(audits, action) + [(a.org, a.device)] else AuditsOf(audits, action)
    ensures LastAction(audits + [a], device)
            == if a.device == device then Some(a.action) else LastAction(audits, device)
  {
    assert (audits + [a])[..|audits|] == audits;
  }

  lemma CheckinSnoc(checkins: seq<Checkin>, c: Checkin, device: nat)
    ensures LastCheckin(checkins + [c], device) == if c.device == device then Some(c) else LastCheckin(checkins, device)
  {
    assert (checkins + [c])[..|checkins|] == checkins;
  }

  /** An enrollment rewrites one device row, or adds one. */
  lemma EnrollRow(devices: seq<Device>, org: nat, e: Enroll)
    ensures var after, d := DevicesAfter(devices, org, e), DeviceFor(devices, org, e.machine);
            && d <= |devices| <= |after| && d < |after| <= |devices| + 1
                 && (d == |devices| <==> |after| == |devices| + 1)
            && after[d].health == JustEnrolled && after[d].online && after[d].lastSeen == Some(e.now)
            && forall i | 0 <= i < |devices| && i != d :: after[i] == devices[i]
  {
  }

  lemma EnrollTrail(g: Registry, e: Enroll)
    requires TrailFits(g)
    ensures TrailFits(AfterEnroll(g, e))
  {
    hide DevicesAfter, AgentsAfter, DeviceFor, AuditsOf, LastAction, LastCheckin;
    if Admits(g.tokens, e.hash, e.now) {
      var g' := AfterEnroll(g, e);
      var entry := g'.log[|g.log|];
      EnrollRow(g.devices, entry.org, e);
      var a := Audit(entry.org, EnrolledAgent, entry.device);
      forall action, d
        ensures AuditsOf(g'.audits, action)
             == if action == EnrolledAgent then AuditsOf(g.audits, action) + [(a.org, a.device)]
               else AuditsOf(g.audits, action)
        ensures LastAction(g'.audits, d) == if d == a.device then Some(EnrolledAgent) else LastAction(g.audits, d)
      {
        AuditSnoc(g.audits, a, action, d);
      }
      assert LoggedEnrollments(g'.log) == LoggedEnrollments(g.log) + [(a.org, a.device)];
      assert DevicesFollow(g') by {
        forall d: nat | d < |g'.devices|
          ensures RowFollows(g'.devices[d], LastAction(g'.audits, d), LastCheckin(g'.checkins, d))
        {
          if d != a.device {
            assert g'.devices[d] == g.devices[d];
          }
        }
      }
    }
  }

  lemma VisitTrail(g: Registry, v: Visit)
    requires TrailFits(g)
    ensures TrailFits(AfterVisit(g, v))
  {
    hide Authenticated, AuditsOf, LastAction, LastCheckin;
    if Accepts(g, v) {
      var g' := AfterVisit(g, v);
      var c := g'.checkins[|g.checkins|];
      var a := Audit(c.org, CheckedIn, c.device);
      forall action, d
        ensures AuditsOf(g'.audits, action)
             == if action == CheckedIn then AuditsOf(g.audits, action) + [(a.org, a.device)]
               else AuditsOf(g.audits, action)
        ensures LastAction(g'.audits, d) == if d == a.device then Some(CheckedIn) else LastAction(g.audits, d)
        ensures LastCheckin(g'.checkins, d) == if d == c.device then Some(c) else LastCheckin(g.checkins, d)
      {
        AuditSnoc(g.audits, a, action, d);
        CheckinSnoc(g.checkins, c, d);
      }
    }
  }

  lemma StepTrail(g: Registry, s: Step, g': Registry)
    requires Happens(g, s, g') && TrailFits(g)
    ensures TrailFits(g')
  {
    hide TrailFits, AfterEnroll, AfterVisit;
    match s
    case Mint(token) => TokensAside(g, g');
    case Revoke(token, at) => TokensAside(g, g');
    case Enrolling(e) => EnrollTrail(g, e);
    case Visiting(v) => VisitTrail(g, v);
    case Reading(r) => ReadingTrail(g, r);
  }

  lemma ReadingTrail(g: Registry, r: Enrollment.Reading)
    requires TrailFits(g)
    ensures TrailFits(AfterReading(g, r))
  {
    hide AuditsOf, LastAction, LastCheckin;
  }

  lemma TokensAside(g: Registry, g': Registry)
    requires TrailFits(g) && g' == g.(tokens := g'.tokens)
    ensures TrailFits(g')
  {
  }

  /**
   * In every reachable state the enrollment audits are exactly the enrollments and the check-in audits exactly
   * the check-in rows, in order; and every device has been seen, and shows the health, address and version of
   * its last check-in, or is marked as just enrolled if it enrolled since.
   */
  lemma {:induction false} TrailAlwaysFits(states: seq<Registry>, steps: seq<Step>, i: nat)
    requires Run(states, steps) && i < |states|
    ensures TrailFits(states[i])
  {
    hide Happens;
    if i > 0 {
      hide TrailFits;
      TrailAlwaysFits(states, steps, i - 1);
      StepTrail(states[i - 1], steps[i - 1], states[i]);
    }
  }

  // ---- The online flag ----

  /** The step enrolls the device or accepts its check-in. */
  predicate Contacts(g: Registry, s: Step, d: nat) {
    match s
    case Enrolling(e) =>
      Admits(g.tokens, e.hash, e.now)
        && DeviceFor(g.devices, g.tokens[TokenOf(g.tokens, e.hash).value].org, e.machine) == d
    case Visiting(v) => v.device == d && Accepts(g, v)
    case _ => false
  }

  predicate Reads(g: Registry, s: Step, d: nat) { s.Reading? && Covers(s.reading, g.devices, d) }

  function ContactTime(s: Step): Time
    requires s.Enrolling? || s.Visiting?
  {
    if s.Enrolling? then s.enroll.now else s.visit.now
  }

  /** A contact stamps the device and sets its flag; a reading sets the flag; nothing else touches either. */
  lemma FlagStep(g: Registry, s: Step, g': Registry, d: nat)
    requires Happens(g, s, g') && d < |g'.devices|
    ensures Contacts(g, s, d) ==> g'.devices[d].online && g'.devices[d].lastSeen == Some(ContactTime(s))
    ensures !Contacts(g, s, d) ==> d < |g.devices| && g'.devices[d].lastSeen == g.devices[d].lastSeen
    ensures Reads(g, s, d) ==> g'.devices[d].online == SeenWithin(g'.devices[d].lastSeen, s.reading)
    ensures !Contacts(g, s, d) && !Reads(g, s, d) ==> g'.devices[d].online == g.devices[d].online
  {
    hide Latest, AgentsAfter, Authenticated;
    if s.Enrolling? && Admits(g.tokens, s.enroll.hash, s.enroll.now) {
      EnrollRow(g.devices, g.tokens[TokenOf(g.tokens, s.enroll.hash).value].org, s.enroll);
    }
  }

  /** Step c is the device's last contact before state i. */
  ghost predicate LastContact(states: seq<Registry>, steps: seq<Step>, i: nat, d: nat, c: nat)
    requires Run(states, steps) && i < |states|
  {
    c < i && Contacts(states[c], steps[c], d) && forall k | c < k < i :: !Contacts(states[k], steps[k], d)
  }

  /** The last reading of the device after step c and before state i, if there was one. */
  ghost predicate LastReading(states: seq<Registry>, steps: seq<Step>, i: nat, d: nat, c: nat, r: Option<nat>)
    requires Run(states, steps) && i < |states|
  {
    match r
    case None => forall k | c < k < i :: !Reads(states[k], steps[k], d)
    case Some(at) =>
      c < at < i && Reads(states[at], steps[at], d) && forall k | at < k < i :: !Reads(states[k], steps[k], d)
  }

  /**
   * The online flag, exactly: in every reachable state every device has a last contact, which stamped it; the
   * flag is set if no reading of the device followed that contact, and otherwise it says whether the last such
   * reading found the contact inside its window.
   */
  lemma {:induction false} OnlineIsLastReading(states: seq<Registry>, steps: seq<Step>, i: nat, d: nat)
    returns (c: nat, r: Option<nat>)
    requires Run(states, steps) && i < |states| && d < |states[i].devices|
    ensures LastContact(states, steps, i, d, c) && LastReading(states, steps, i, d, c, r)
    ensures states[i].devices[d].lastSeen == Some(ContactTime(steps[c]))
    ensures states[i].devices[d].online <==>
            (r.Some? ==> SeenWithin(Some(ContactTime(steps[c])), steps[r.value].reading))
  {
    hide Contacts, Reads, Happens, SeenWithin;
    if i == 0 {
      assert false;
    } else {
      var s, g := steps[i - 1], states[i - 1];
      assert Happens(g, s, states[i]);
      FlagStep(g, s, states[i], d);
      ContactIsNoReading(g, s, d);
      if Contacts(g, s, d) {
        c, r := i - 1, None;
      } else {
        c, r := OnlineIsLastReading(states, steps, i - 1, d);
        if Reads(g, s, d) {
          r := Some(i - 1);
        }
      }
    }
  }

  lemma ContactIsNoReading(g: Registry, s: Step, d: nat)
    ensures Contacts(g, s, d) ==> (s.Enrolling? || s.Visiting?) && !Reads(g, s, d)
    ensures Reads(g, s, d) ==> s.Reading?
  {
  }

  /** Any reading finds the device online exactly when its last contact is inside the reading's window. */
  lemma ReadingShowsContact(states: seq<Registry>, steps: seq<Step>, i: nat, d: nat) returns (c: nat)
    requires Run(states, steps) && i < |steps| && Reads(states[i], steps[i], d)
    ensures LastContact(states, steps, i, d, c) && d < |states[i + 1].devices|
    ensures states[i + 1].devices[d].online <==> ContactTime(steps[c]) >= steps[i].reading.now - steps[i].reading.window
  {
    var r;
    c, r := OnlineIsLastReading(states, steps, i, d);
    assert Happens(states[i], steps[i], states[i + 1]);
    FlagStep(states[i], steps[i], states[i + 1], d);
    ContactIsNoReading(states[i], steps[i], d);
  }
}
