/** Every row of the job tables carries the organization of its device; `homes` lists the devices' organizations. */
module JobTenancy {
  import opened Base
  import opened Jobs

  predicate JobHome(homes: seq<nat>, j: Job) { j.device < |homes| && j.org == homes[j.device] }

  ghost predicate JobsHome(homes: seq<nat>, t: Tables) {
    && (forall i | 0 <= i < |t.jobs| :: JobHome(homes, t.jobs[i]))
    && (forall i | 0 <= i < |t.events| :: t.events[i].job < |t.jobs| && t.events[i].org == t.jobs[t.events[i].job].org)
    && (forall i | 0 <= i < |t.audits| ::
         t.audits[i].target < |t.jobs| && t.audits[i].org == t.jobs[t.audits[i].target].org)
    && (forall i | 0 <= i < |t.results| ::
         t.results[i].job < |t.jobs| && t.results[i].org == t.jobs[t.results[i].job].org)
  }

  /** The handler checked that the device exists and is the operator's before creating a job for it. */
  predicate CreatesAtHome(homes: seq<nat>, r: Request) { r.Create? ==> r.device < |homes| && r.org == homes[r.device] }

  /** No request moves an existing job to another device or organization; a created one is where the request says. */
  lemma RowsHome(homes: seq<nat>, t: Tables, r: Request)
    requires Shaped(t, r) && ReplyTo(t, r) == Ok && CreatesAtHome(homes, r)
    requires forall i | 0 <= i < |t.jobs| :: JobHome(homes, t.jobs[i])
    ensures var rows := RowsAfter(t, r);
            && (forall i | 0 <= i < |rows| :: JobHome(homes, rows[i]))
            && (forall i | 0 <= i < |t.jobs| :: rows[i].org == t.jobs[i].org)
  {
  }

  /** What a request writes names jobs of the new table, each under its own organization. */
  lemma WrittenHome(homes: seq<nat>, t: Tables, r: Request)
    requires Shaped(t, r) && ReplyTo(t, r) == Ok && CreatesAtHome(homes, r)
    ensures forall e | e in Written(t, r) :: e.job < |RowsAfter(t, r)| && e.org == RowsAfter(t, r)[e.job].org
  {
  }

  lemma StepHome(homes: seq<nat>, t: Tables, r: Request)
    requires JobsHome(homes, t) && Shaped(t, r) && CreatesAtHome(homes, r)
    ensures JobsHome(homes, Apply(t, r))
  {
    hide RowsAfter, Written;
    if ReplyTo(t, r) == Ok {
      RowsHome(homes, t, r);
      WrittenHome(homes, t, r);
      var t', w := Apply(t, r), Written(t, r);
      forall i | 0 <= i < |t'.events|
        ensures t'.events[i].job < |t'.jobs| && t'.events[i].org == t'.jobs[t'.events[i].job].org
      {
        if i >= |t.events| {
          assert t'.events[i] in w;
        }
      }
      forall i | 0 <= i < |t'.audits|
        ensures t'.audits[i].target < |t'.jobs| && t'.audits[i].org == t'.jobs[t'.audits[i].target].org
      {
        if i >= |t.audits| {
          assert t'.audits[i] == AuditOf(w[i - |t.audits|]) && w[i - |t.audits|] in w;
        }
      }
    }
  }

  lemma MoreHomes(homes: seq<nat>, homes': seq<nat>, t: Tables)
    requires JobsHome(homes, t) && homes <= homes'
    ensures JobsHome(homes', t)
  {
  }
}
