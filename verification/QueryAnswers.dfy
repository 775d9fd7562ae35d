/** What the three queries may answer, as selections from sets of rows: exactly which lists the database can return. */
module QueryAnswers {
  import opened Base
  import J = Jobs
  import N = Notifications
  import Q = DeliveryQueue

  /** The list holds the ids of this set, each once. */
  predicate Enumerates(ids: seq<nat>, chosen: set<nat>) { Distinct(ids) && Ids(ids) == chosen }

  /** The unfinished rows past their deadline, of one device or of all. */
  function Overdue(jobs: seq<J.Job>, device: Option<nat>, now: int): set<nat> {
    set i: nat | i < |jobs|
      && (jobs[i].status == J.Queued || jobs[i].status == J.Assigned || jobs[i].status == J.Running)
                 && now >= jobs[i].expiresAt && (device == None || device == Some(jobs[i].device))
  }

  lemma DueIffOverdue(jobs: seq<J.Job>, device: Option<nat>, now: int, ids: seq<nat>)
    ensures J.AnswersDue(jobs, device, now, ids) <==> Enumerates(ids, Overdue(jobs, device, now))
  {
    if J.AnswersDue(jobs, device, now, ids) {
      forall x ensures x in Ids(ids) <==> x in Overdue(jobs, device, now) {
      }
    } else if Enumerates(ids, Overdue(jobs, device, now)) {
      forall i | 0 <= i < |ids| ensures ids[i] in Overdue(jobs, device, now) {
        assert ids[i] in Ids(ids);
      }
      forall i | 0 <= i < |jobs| ensures i in ids <==> J.Due(jobs[i], device, now) {
        assert i in Ids(ids) <==> i in Overdue(jobs, device, now);
      }
    }
  }

  /** The device's queued rows. */
  function QueuedRows(jobs: seq<J.Job>, device: nat): set<nat> {
    set i: nat | i < |jobs| && jobs[i].device == device && jobs[i].status == J.Queued
  }

  /** A poll's selection of these queued rows: five of them or all, listed by creation time, none left behind older. */
  ghost predicate Selects(jobs: seq<J.Job>, q: set<nat>, ids: seq<nat>)
    requires forall x | x in q :: x < |jobs|
  {
    && Distinct(ids) && Ids(ids) <= q && |ids| == Min(|q|, 5)
    && (forall i, k | 0 <= i < k < |ids| ::
         ids[i] in q && ids[k] in q && jobs[ids[i]].createdAt <= jobs[ids[k]].createdAt)
    && (forall x, w | x in ids && w in q && w !in ids :: x in q && jobs[x].createdAt <= jobs[w].createdAt)
  }

  lemma OldestSelects(jobs: seq<J.Job>, device: nat, ids: seq<nat>)
    requires J.AnswersOldest(jobs, device, ids)
    ensures Selects(jobs, QueuedRows(jobs, device), ids)
  {
    var q := QueuedRows(jobs, device);
    DistinctCount(ids);
    assert forall x | x in ids :: x in q;
    SubsetCount(Ids(ids), q);
    if |ids| < 5 {
      assert forall w | w in q :: w in Ids(ids);
      assert Ids(ids) == q;
    }
  }

  lemma SelectsOldest(jobs: seq<J.Job>, device: nat, ids: seq<nat>)
    requires Selects(jobs, QueuedRows(jobs, device), ids)
    ensures J.AnswersOldest(jobs, device, ids)
  {
    var q := QueuedRows(jobs, device);
    DistinctCount(ids);
    InSet(ids, q);
    if |ids| < 5 {
      SameSize(ids, q);
    }
    forall w | 0 <= w < |jobs| && J.Waiting(jobs[w], device) && w !in ids
      ensures |ids| == 5 && forall i | 0 <= i < |ids| :: jobs[ids[i]].createdAt <= jobs[w].createdAt
    {
      assert w in q;
    }
  }

  /**
   * A poll selects five of the device's queued rows, or all if there are fewer, listed by creation time, none of
   * them younger than one left behind; and any such list may be the answer.
   */
  lemma OldestIff(jobs: seq<J.Job>, device: nat, ids: seq<nat>)
    ensures J.AnswersOldest(jobs, device, ids) <==> Selects(jobs, QueuedRows(jobs, device), ids)
  {
    hide J.AnswersOldest, Selects;
    if J.AnswersOldest(jobs, device, ids) {
      OldestSelects(jobs, device, ids);
    } else if Selects(jobs, QueuedRows(jobs, device), ids) {
      SelectsOldest(jobs, device, ids);
    }
  }

  lemma InSet(ids: seq<nat>, q: set<nat>)
    requires Ids(ids) <= q
    ensures forall i | 0 <= i < |ids| :: ids[i] in q
  {
    forall i | 0 <= i < |ids| ensures ids[i] in q {
      assert ids[i] in Ids(ids);
    }
  }

  lemma SameSize(ids: seq<nat>, q: set<nat>)
    requires Ids(ids) <= q && |Ids(ids)| == |q|
    ensures forall w | w in q :: w in ids
  {
    SubsetCount(Ids(ids), q);
    assert |q - Ids(ids)| == 0;
    forall w | w in q ensures w in ids {
      assert w !in q - Ids(ids);
    }
  }

  function PendingRows(rows: seq<N.Delivery>): set<nat> { set i: nat | i < |rows| && rows[i].status == N.Pending }

  /** A batch of these pending rows: as many as fit, listed by creation time, none left behind older. */
  ghost predicate Takes(rows: seq<N.Delivery>, q: set<nat>, size: nat, batch: seq<nat>)
    requires forall x | x in q :: x < |rows|
  {
    && Distinct(batch) && Ids(batch) <= q && |batch| == Min(|q|, size)
    && (forall i, k | 0 <= i < k < |batch| ::
         batch[i] in q && batch[k] in q && rows[batch[i]].createdAt <= rows[batch[k]].createdAt)
    && (forall x, w | x in batch && w in q && w !in batch :: x in q && rows[x].createdAt <= rows[w].createdAt)
  }

  lemma PendingTakes(rows: seq<N.Delivery>, size: nat, batch: seq<nat>)
    requires Q.AnswersPending(rows, size, batch)
    ensures Takes(rows, PendingRows(rows), size, batch)
  {
    var q := PendingRows(rows);
    DistinctCount(batch);
    assert forall x | x in batch :: x in q;
    SubsetCount(Ids(batch), q);
    if |batch| < size {
      assert forall w | w in q :: w in Ids(batch);
      assert Ids(batch) == q;
    }
  }

  lemma TakesPending(rows: seq<N.Delivery>, size: nat, batch: seq<nat>)
    requires Takes(rows, PendingRows(rows), size, batch)
    ensures Q.AnswersPending(rows, size, batch)
  {
    var q := PendingRows(rows);
    DistinctCount(batch);
    InSet(batch, q);
    if |batch| < size {
      SameSize(batch, q);
    }
    forall w | 0 <= w < |rows| && rows[w].status == N.Pending && w !in batch
      ensures |batch| == size && forall i | 0 <= i < |batch| :: rows[batch[i]].createdAt <= rows[w].createdAt
    {
      assert w in q;
    }
  }

  /** A batch is as many of the oldest pending rows as fit its size, listed by creation time; any such list may be. */
  lemma PendingIff(rows: seq<N.Delivery>, size: nat, batch: seq<nat>)
    ensures Q.AnswersPending(rows, size, batch) <==> Takes(rows, PendingRows(rows), size, batch)
  {
    hide Q.AnswersPending, Takes;
    if Q.AnswersPending(rows, size, batch) {
      PendingTakes(rows, size, batch);
    } else if Takes(rows, PendingRows(rows), size, batch) {
      TakesPending(rows, size, batch);
    }
  }
}
