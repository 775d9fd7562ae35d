/**
 * How fast the delivery queue empties when nothing new is enqueued, whatever the sends return and
 * however channels are switched between calls.
 */
module DeliveryDrain {
  import opened Base
  import opened Notifications
  import opened DeliveryQueue
  import opened DeliveryRuns

  function PendingIds(rows: seq<Delivery>): set<nat> {
    set i: nat | i < |rows| && rows[i].status == Pending
  }

  lemma BatchIsExact(rows: seq<Delivery>, size: nat, batch: seq<nat>)
    requires AnswersPending(rows, size, batch)
    ensures Ids(batch) <= PendingIds(rows)
    ensures |batch| == |Ids(batch)| == Min(|PendingIds(rows)|, size)
  {
    var q := PendingIds(rows);
    assert forall x | x in batch :: x in q;
    DistinctCount(batch);
    SubsetCount(Ids(batch), q);
    if |batch| < size {
      assert forall w | w in q :: w in Ids(batch);
      assert Ids(batch) == q;
    }
  }

  // ---- Potential: any order, any ties ----

  /** Attempts still open: the sum of L - attempts over the first n rows that are pending. */
  function Open(rows: seq<Delivery>, n: nat, limit: nat): nat
    requires n <= |rows|
  {
    if n == 0 then 0
    else
      var x := rows[n - 1];
      Open(rows, n - 1, limit) + if x.status == Pending && x.attempts < limit then limit - x.attempts else 0
  }

  function OpenAttempts(d: Desk, setting: int): nat { Open(d.deliveries, |d.deliveries|, Limit(setting)) }

  /** Members of the batch among the first n positions. */
  function Below(batch: set<nat>, n: nat): set<nat> { set x | x in batch && x < n }

  lemma {:induction false} OpenFalls(rows: seq<Delivery>, rows': seq<Delivery>, batch: set<nat>, n: nat, limit: nat)
    requires n <= |rows| == |rows'|
    requires forall k | 0 <= k < |rows| && k !in batch :: rows'[k] == rows[k]
    requires forall k | 0 <= k < |rows| && k in batch ::
             rows[k].status == Pending && rows[k].attempts < limit && Advances(rows[k], rows'[k])
    ensures Open(rows', n, limit) + |Below(batch, n)| <= Open(rows, n, limit)
  {
    if n == 0 {
      assert Below(batch, 0) == {};
    } else {
      OpenFalls(rows, rows', batch, n - 1, limit);
      if n - 1 in batch {
        assert Below(batch, n) == Below(batch, n - 1) + {n - 1};
      } else {
        assert Below(batch, n) == Below(batch, n - 1);
      }
    }
  }

  /** Pending rows have attempts left: what accounting guarantees in every reachable state. */
  predicate AttemptsLeft(rows: seq<Delivery>, setting: int) {
    forall k | 0 <= k < |rows| && rows[k].status == Pending :: rows[k].attempts < Limit(setting)
  }

  lemma LimitAt(rows: seq<Delivery>, setting: int, k: nat)
    requires AttemptsLeft(rows, setting) && k < |rows|
    ensures rows[k].status == Pending ==> rows[k].attempts < Limit(setting)
  {
  }

  /** Every reachable state of the queue leaves its pending rows attempts. */
  lemma ReachableLeavesAttempts(setting: int, desks: seq<Desk>, steps: seq<Step>, i: nat)
    requires Run(setting, desks, steps) && i < |desks|
    ensures AttemptsLeft(desks[i].deliveries, setting)
  {
    hide Run, Tries, Sends;
    AttemptsAreAccounted(setting, desks, steps, i);
    var d := desks[i];
    forall k | 0 <= k < |d.deliveries| && d.deliveries[k].status == Pending
      ensures d.deliveries[k].attempts < Limit(setting)
    {
      assert RowAccounts(d.deliveries[k], Tries(d.audits, k), Sends(d.audits, k), setting);
    }
  }

  /**
   * One call, for any tie order of the database: the open attempts of the queue fall by at least
   * min(size, pending).
   */
  lemma PotentialFalls(d: Desk, size: nat, batch: seq<nat>, outcomes: seq<Outcome>, s: Setup)
    requires AnswersPending(d.deliveries, size, batch) && Within(batch, |d.deliveries|) && |outcomes| == |batch|
    requires AttemptsLeft(d.deliveries, s.setting)
    ensures OpenAttempts(ProcessBatch(d, batch, outcomes, s), s.setting) + Min(|PendingIds(d.deliveries)|, size)
            <= OpenAttempts(d, s.setting)
  {
    hide ProcessSome, Attempt, AttemptsLeft, Open;
    BatchAdvances(d, batch, outcomes, s);
    BatchIsExact(d.deliveries, size, batch);
    var r := ProcessBatch(d, batch, outcomes, s);
    forall k | 0 <= k < |d.deliveries| && k in Ids(batch)
      ensures d.deliveries[k].status == Pending && d.deliveries[k].attempts < Limit(s.setting)
    {
      LimitAt(d.deliveries, s.setting, k);
    }
    OpenFalls(d.deliveries, r.deliveries, Ids(batch), |d.deliveries|, Limit(s.setting));
    assert Below(Ids(batch), |d.deliveries|) == Ids(batch);
  }

  // ---- FIFO: L calls empty the first batch ----

  /** The calls of a drain: batches of one size; channels may change and sends may do anything. */
  datatype Call = Call(batch: seq<nat>, outcomes: seq<Outcome>, setup: Setup)

  predicate Answered(d: Desk, size: nat, setting: int, c: Call) {
    && AnswersPending(d.deliveries, size, c.batch) && Within(c.batch, |d.deliveries|)
    && |c.outcomes| == |c.batch| && c.setup.setting == setting
  }

  ghost predicate Calls(desks: seq<Desk>, calls: seq<Call>, size: nat, setting: int) {
    && |desks| == |calls| + 1
    && forall i | 0 <= i < |calls| :: CallHappens(desks[i], calls[i], desks[i + 1], size, setting)
  }

  /** A call happens; between calls the channels, rules and audit log are nobody's concern here. */
  ghost predicate CallHappens(d: Desk, c: Call, d': Desk, size: nat, setting: int) {
    Answered(d, size, setting, c) && d'.deliveries == ProcessBatch(d, c.batch, c.outcomes, c.setup).deliveries
  }

  /** No two pending rows were created at the same instant: the database's order is total. */
  predicate TotalOrder(rows: seq<Delivery>) {
    forall i, k | 0 <= i < |rows| && 0 <= k < |rows| && i != k && rows[i].status == Pending
      && rows[k].status == Pending ::
      rows[i].createdAt != rows[k].createdAt
  }

  lemma CallRows(d: Desk, c: Call, d': Desk, size: nat, setting: int)
    requires CallHappens(d, c, d', size, setting)
    ensures |d'.deliveries| == |d.deliveries|
    ensures forall k | 0 <= k < |d.deliveries| && k in c.batch :: Advances(d.deliveries[k], d'.deliveries[k])
    ensures forall k | 0 <= k < |d.deliveries| && k !in c.batch :: d'.deliveries[k] == d.deliveries[k]
  {
    BatchAdvances(d, c.batch, c.outcomes, c.setup);
  }

  lemma CallKeepsLimit(d: Desk, c: Call, d': Desk, size: nat, setting: int)
    requires CallHappens(d, c, d', size, setting) && AttemptsLeft(d.deliveries, setting)
    ensures |d'.deliveries| == |d.deliveries| && AttemptsLeft(d'.deliveries, setting)
  {
    hide TotalOrder, PendingIds, AttemptsLeft, Attempt, ProcessSome;
    BatchRows(d, c.batch, c.outcomes, |c.batch|, c.setup);
    assert c.batch[..|c.batch|] == c.batch;
    forall k | 0 <= k < |d'.deliveries| && d'.deliveries[k].status == Pending
      ensures d'.deliveries[k].attempts < Limit(setting)
    {
      LimitAt(d.deliveries, setting, k);
      if k in c.batch {
        var i :| 0 <= i < |c.batch| && c.batch[i] == k;
        AttemptKeepsLimit(d.deliveries[k], c.setup, c.outcomes[i]);
      }
    }
    LimitEverywhere(d'.deliveries, setting);
  }

  lemma LimitEverywhere(rows: seq<Delivery>, setting: int)
    requires forall k | 0 <= k < |rows| && rows[k].status == Pending :: rows[k].attempts < Limit(setting)
    ensures AttemptsLeft(rows, setting)
  {
  }

  lemma AttemptKeepsLimit(x: Delivery, s: Setup, o: Outcome)
    requires x.status == Pending ==> x.attempts < Limit(s.setting)
    ensures Attempt(x, s, o).status == Pending ==> x.status == Pending && Attempt(x, s, o).attempts < Limit(s.setting)
  {
  }

  lemma CallKeeps(d: Desk, c: Call, d': Desk, size: nat, setting: int)
    requires CallHappens(d, c, d', size, setting) && AttemptsLeft(d.deliveries, setting) && TotalOrder(d.deliveries)
    ensures |d'.deliveries| == |d.deliveries| && AttemptsLeft(d'.deliveries, setting) && TotalOrder(d'.deliveries)
    ensures PendingIds(d'.deliveries) <= PendingIds(d.deliveries)
  {
    hide AttemptsLeft, Attempt, AnswersPending, ProcessSome, ProcessBatch;
    CallKeepsLimit(d, c, d', size, setting);
    CallRows(d, c, d', size, setting);
    hide CallHappens;
    forall k | 0 <= k < |d'.deliveries| && d'.deliveries[k].status == Pending
      ensures d.deliveries[k].status == Pending && d'.deliveries[k].createdAt == d.deliveries[k].createdAt
    {
    }
  }

  /** `first` is the head of the queue: pending rows outside it are younger than all of it. */
  predicate Heads(rows: seq<Delivery>, first: set<nat>) {
    forall k, w | k in first && k < |rows| && 0 <= w < |rows| && w !in first && rows[w].status == Pending ::
      rows[k].createdAt < rows[w].createdAt
  }

  /** While a head row is pending, every call takes it. */
  lemma HeadIsTaken(rows: seq<Delivery>, size: nat, batch: seq<nat>, first: set<nat>, k: nat)
    requires AnswersPending(rows, size, batch) && Heads(rows, first) && TotalOrder(rows) && |first| <= size
    requires k in first && k < |rows| && rows[k].status == Pending
    ensures k in batch
  {
    if k !in batch {
      assert Ids(batch) <= first - {k} by {
        forall x | x in batch ensures x in first - {k} {
          var i :| 0 <= i < |batch| && batch[i] == x;
          assert rows[batch[i]].createdAt <= rows[k].createdAt;
        }
      }
      DistinctCount(batch);
      SubsetCount(Ids(batch), first - {k});
      SubsetCount({k}, first);
    }
  }

  /** After j calls a head row is settled or has been attempted j times. */
  lemma {:induction false} HeadAfter(desks: seq<Desk>, calls: seq<Call>, size: nat, setting: int, first: set<nat>,
      j: nat)
    requires Calls(desks, calls, size, setting) && j < |desks| && |first| <= size
    requires AttemptsLeft(desks[0].deliveries, setting) && TotalOrder(desks[0].deliveries)
             && Heads(desks[0].deliveries, first)
    ensures var rows := desks[j].deliveries;
            && |rows| == |desks[0].deliveries|
            && AttemptsLeft(rows, setting) && TotalOrder(rows) && Heads(rows, first)
            && PendingIds(rows) <= PendingIds(desks[0].deliveries)
            && forall k | k in first && k < |rows| && rows[k].status == Pending :: rows[k].attempts >= j
  {
    hide CallHappens;
    if j > 0 {
      HeadAfter(desks, calls, size, setting, first, j - 1);
      HeadStep(desks[j - 1], calls[j - 1], desks[j], size, setting, first, j - 1);
    }
  }

  lemma HeadStep(d: Desk, c: Call, d': Desk, size: nat, setting: int, first: set<nat>, j: nat)
    requires CallHappens(d, c, d', size, setting) && |first| <= size
    requires AttemptsLeft(d.deliveries, setting) && TotalOrder(d.deliveries) && Heads(d.deliveries, first)
    requires forall k | k in first && k < |d.deliveries| && d.deliveries[k].status == Pending ::
             d.deliveries[k].attempts >= j
    ensures |d'.deliveries| == |d.deliveries|
    ensures AttemptsLeft(d'.deliveries, setting) && TotalOrder(d'.deliveries) && Heads(d'.deliveries, first)
    ensures PendingIds(d'.deliveries) <= PendingIds(d.deliveries)
    ensures forall k | k in first && k < |d'.deliveries| && d'.deliveries[k].status == Pending ::
            d'.deliveries[k].attempts >= j + 1
  {
    hide ProcessBatch;
    CallKeeps(d, c, d', size, setting);
    CallRows(d, c, d', size, setting);
    forall k | k in first && k < |d'.deliveries| && d'.deliveries[k].status == Pending
      ensures d'.deliveries[k].attempts >= j + 1
    {
      assert d.deliveries[k].status == Pending;
      HeadIsTaken(d.deliveries, size, c.batch, first, k);
    }
    forall k, w | k in first && k < |d'.deliveries| && 0 <= w < |d'.deliveries| && w !in first
      && d'.deliveries[w].status == Pending
      ensures d'.deliveries[k].createdAt < d'.deliveries[w].createdAt
    {
      assert d.deliveries[w].status == Pending;
    }
  }

  /** The first call's batch is a head of the queue. */
  lemma BatchIsHead(rows: seq<Delivery>, size: nat, batch: seq<nat>)
    requires AnswersPending(rows, size, batch) && TotalOrder(rows)
    ensures Heads(rows, Ids(batch))
  {
    forall k, w | k in Ids(batch) && k < |rows| && 0 <= w < |rows| && w !in Ids(batch) && rows[w].status == Pending
      ensures rows[k].createdAt < rows[w].createdAt
    {
      var i :| 0 <= i < |batch| && batch[i] == k;
      assert rows[batch[i]].createdAt <= rows[w].createdAt;
    }
  }

  /** L calls settle everything the first of them took. */
  lemma FirstBatchSettles(desks: seq<Desk>, calls: seq<Call>, size: nat, setting: int)
    requires Calls(desks, calls, size, setting) && Limit(setting) <= |calls|
    requires AttemptsLeft(desks[0].deliveries, setting) && TotalOrder(desks[0].deliveries)
    ensures var rows := desks[Limit(setting)].deliveries;
            && |rows| == |desks[0].deliveries| && AttemptsLeft(rows, setting) && TotalOrder(rows)
            && PendingIds(rows) <= PendingIds(desks[0].deliveries) - Ids(calls[0].batch)
  {
    var first := Ids(calls[0].batch);
    assert CallHappens(desks[0], calls[0], desks[1], size, setting);
    hide CallHappens;
    BatchIsHead(desks[0].deliveries, size, calls[0].batch);
    BatchIsExact(desks[0].deliveries, size, calls[0].batch);
    HeadAfter(desks, calls, size, setting, first, Limit(setting));
  }

  lemma CallsFrom(desks: seq<Desk>, calls: seq<Call>, size: nat, setting: int, j: nat)
    requires Calls(desks, calls, size, setting) && j <= |calls|
    ensures Calls(desks[j..], calls[j..], size, setting)
  {
    hide CallHappens;
    forall i | 0 <= i < |calls[j..]|
      ensures CallHappens(desks[j..][i], calls[j..][i], desks[j..][i + 1], size, setting)
    {
      assert desks[j..][i] == desks[j + i] && calls[j..][i] == calls[j + i] && desks[j..][i + 1] == desks[j + i + 1];
    }
  }

  lemma {:induction false} StaysEmpty(desks: seq<Desk>, calls: seq<Call>, size: nat, setting: int, j: nat)
    requires Calls(desks, calls, size, setting) && j < |desks|
    requires AttemptsLeft(desks[0].deliveries, setting) && TotalOrder(desks[0].deliveries)
             && PendingIds(desks[0].deliveries) == {}
    ensures PendingIds(desks[j].deliveries) == {}
  {
    assert Heads(desks[0].deliveries, {});
    HeadAfter(desks, calls, size, setting, {}, j);
  }

  /**
   * The drain bound: with L the effective retry limit, batches of `size` >= 1 and a total creation order,
   * L * ceil(P / size) calls leave none of P pending deliveries, whatever the sends and the channels do.
   */
  lemma {:induction false} Drains(desks: seq<Desk>, calls: seq<Call>, size: nat, setting: int, rounds: nat)
    requires Calls(desks, calls, size, setting) && size >= 1
    requires AttemptsLeft(desks[0].deliveries, setting) && TotalOrder(desks[0].deliveries)
    requires |PendingIds(desks[0].deliveries)| <= size * rounds && |calls| >= Limit(setting) * rounds
    ensures PendingIds(desks[|calls|].deliveries) == {}
    decreases rounds
  {
    hide CallHappens, TotalOrder, AttemptsLeft, PendingIds;
    var pending, l := PendingIds(desks[0].deliveries), Limit(setting);
    if rounds == 0 || pending == {} {
      assert pending == {} by {
        assert rounds == 0 ==> size * rounds == 0;
      }
      StaysEmpty(desks, calls, size, setting, |calls|);
    } else {
      RoundsLeft(l, size, rounds);
      FirstBatchSettles(desks, calls, size, setting);
      FirstBatchSize(desks, calls, size, setting);
      FewerPending(desks[l].deliveries, pending, Ids(calls[0].batch));
      CallsFrom(desks, calls, size, setting, l);
      Drains(desks[l..], calls[l..], size, setting, rounds - 1);
      assert desks[l..][|calls[l..]|] == desks[|calls|];
    }
  }

  /** One round less of calls and of rows. */
  lemma RoundsLeft(l: nat, size: nat, rounds: nat)
    requires rounds > 0
    ensures l <= l * rounds && l * rounds == l * (rounds - 1) + l && size * rounds == size * (rounds - 1) + size
  {
    assert l * (rounds - 1) >= 0;
  }

  lemma FewerPending(rows: seq<Delivery>, pending: set<nat>, first: set<nat>)
    requires PendingIds(rows) <= pending - first && first <= pending
    ensures |PendingIds(rows)| <= |pending| - |first|
  {
    SubsetCount(first, pending);
    SubsetCount(PendingIds(rows), pending - first);
  }

  lemma FirstBatchSize(desks: seq<Desk>, calls: seq<Call>, size: nat, setting: int)
    requires Calls(desks, calls, size, setting) && calls != []
    ensures var pending, first := PendingIds(desks[0].deliveries), Ids(calls[0].batch);
            first <= pending && |first| == Min(|pending|, size)
  {
    assert CallHappens(desks[0], calls[0], desks[1], size, setting);
    hide ProcessBatch;
    BatchIsExact(desks[0].deliveries, size, calls[0].batch);
  }
}
