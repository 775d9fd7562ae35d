/**
 * The drain without a total order: rows created at the same instant may be taken in any order, and then
 * L * ceil(P / size) calls can be too few. A queue that fits one batch empties in L calls, a longer one in
 * floor(L * (P - 1) / size) + L calls, and in both cases one call fewer can be too few.
 */
module DeliveryTies {
  import opened Base
  import opened Notifications
  import opened DeliveryQueue
  import opened DeliveryRuns
  import opened DeliveryDrain

  // ---- One call ----

  lemma CallFalls(d: Desk, c: Call, d': Desk, size: nat, setting: int)
    requires CallHappens(d, c, d', size, setting) && AttemptsLeft(d.deliveries, setting)
    ensures OpenAttempts(d', setting) + Min(|PendingIds(d.deliveries)|, size) <= OpenAttempts(d, setting)
  {
    hide AttemptsLeft, AnswersPending, ProcessSome, Open;
    PotentialFalls(d, size, c.batch, c.outcomes, c.setup);
  }

  lemma CallPending(d: Desk, c: Call, d': Desk, size: nat, setting: int)
    requires CallHappens(d, c, d', size, setting) && AttemptsLeft(d.deliveries, setting)
    ensures AttemptsLeft(d'.deliveries, setting) && |d'.deliveries| == |d.deliveries|
    ensures PendingIds(d'.deliveries) <= PendingIds(d.deliveries)
  {
    CallKeepsLimit(d, c, d', size, setting);
    hide AttemptsLeft, Attempt, AnswersPending, ProcessSome, ProcessBatch;
    CallRows(d, c, d', size, setting);
  }

  /** No pending row has more than m attempts left. */
  predicate AtMost(rows: seq<Delivery>, setting: int, m: int) {
    forall k | 0 <= k < |rows| && rows[k].status == Pending :: Limit(setting) - rows[k].attempts <= m
  }

  /** A call that can take every pending row does. */
  lemma SmallCall(d: Desk, c: Call, d': Desk, size: nat, setting: int, m: int)
    requires CallHappens(d, c, d', size, setting) && |PendingIds(d.deliveries)| <= size
             && AtMost(d.deliveries, setting, m)
    ensures |d'.deliveries| == |d.deliveries| && AtMost(d'.deliveries, setting, m - 1)
  {
    hide AtMost;
    CallRows(d, c, d', size, setting);
    BatchIsExact(d.deliveries, size, c.batch);
    SubsetCount(Ids(c.batch), PendingIds(d.deliveries));
    assert Ids(c.batch) == PendingIds(d.deliveries);
    hide AnswersPending, ProcessSome, ProcessBatch, Attempt, CallHappens;
    forall k | 0 <= k < |d'.deliveries| && d'.deliveries[k].status == Pending
      ensures Limit(setting) - d'.deliveries[k].attempts <= m - 1
    {
      if d.deliveries[k].status == Pending {
        assert k in PendingIds(d.deliveries) && k in c.batch;
        AtMostAt(d.deliveries, setting, m, k);
      }
    }
    AtMostEverywhere(d'.deliveries, setting, m - 1);
  }

  lemma AtMostAt(rows: seq<Delivery>, setting: int, m: int, k: nat)
    requires AtMost(rows, setting, m) && k < |rows| && rows[k].status == Pending
    ensures Limit(setting) - rows[k].attempts <= m
  {
  }

  lemma AtMostEverywhere(rows: seq<Delivery>, setting: int, m: int)
    requires forall k | 0 <= k < |rows| && rows[k].status == Pending :: Limit(setting) - rows[k].attempts <= m
    ensures AtMost(rows, setting, m)
  {
  }

  lemma NothingLeft(rows: seq<Delivery>, setting: int, m: int)
    requires AttemptsLeft(rows, setting) && AtMost(rows, setting, m) && m <= 0
    ensures PendingIds(rows) == {}
  {
  }

  /** A queue that fits one batch empties in as many calls as its rows have attempts left. */
  lemma {:induction false} SmallQueueEmpties(desks: seq<Desk>, calls: seq<Call>, size: nat, setting: int, m: int)
    requires Calls(desks, calls, size, setting) && m <= |calls|
    requires AttemptsLeft(desks[0].deliveries, setting) && AtMost(desks[0].deliveries, setting, m)
    requires |PendingIds(desks[0].deliveries)| <= size
    ensures PendingIds(desks[|calls|].deliveries) == {}
    decreases |calls|
  {
    hide CallHappens, AttemptsLeft, AtMost;
    if calls == [] {
      NothingLeft(desks[0].deliveries, setting, m);
    } else {
      CallPending(desks[0], calls[0], desks[1], size, setting);
      SmallCall(desks[0], calls[0], desks[1], size, setting, m);
      SubsetCount(PendingIds(desks[1].deliveries), PendingIds(desks[0].deliveries));
      CallsFrom(desks, calls, size, setting, 1);
      SmallQueueEmpties(desks[1..], calls[1..], size, setting, m - 1);
      assert desks[1..][|calls[1..]|] == desks[|calls|];
    }
  }

  // ---- Counting ----

  lemma {:induction false} OpenCovers(rows: seq<Delivery>, n: nat, limit: nat, k: nat)
    requires n <= |rows| && k < n && rows[k].status == Pending && rows[k].attempts < limit
    ensures Open(rows, n, limit) >= limit - rows[k].attempts
  {
    if k < n - 1 {
      OpenCovers(rows, n - 1, limit, k);
    }
  }

  function PendingBelow(rows: seq<Delivery>, n: nat): set<nat> {
    set i: nat | i < n && i < |rows| && rows[i].status == Pending
  }

  lemma {:induction false} OpenAtMost(rows: seq<Delivery>, n: nat, limit: nat)
    requires n <= |rows|
    ensures Open(rows, n, limit) <= limit * |PendingBelow(rows, n)|
  {
    if n > 0 {
      OpenAtMost(rows, n - 1, limit);
      if rows[n - 1].status == Pending {
        assert PendingBelow(rows, n) == PendingBelow(rows, n - 1) + {n - 1};
        assert limit * (|PendingBelow(rows, n - 1)| + 1) == limit * |PendingBelow(rows, n - 1)| + limit;
      } else {
        assert PendingBelow(rows, n) == PendingBelow(rows, n - 1);
      }
    }
  }

  /** The number of calls is enough for S open attempts: size * (calls - L + 1) > S - L. */
  predicate Enough(size: nat, calls: nat, limit: nat, open: int) { size * (calls - limit + 1) > open - limit }

  lemma EnoughCalls(size: nat, calls: nat, limit: nat, open: int, m: int)
    requires size >= 1 && limit >= 1 && Enough(size, calls, limit, open) && m <= open && m <= limit
    ensures m <= calls
  {
    var x := calls - limit + 1;
    if x <= 0 {
      Nonpositive(size, x);
    }
  }

  lemma Nonpositive(size: nat, x: int)
    requires size >= 1 && x <= 0
    ensures size * x <= x
  {
    assert (size - 1) * x <= 0;
    assert size * x == (size - 1) * x + x;
  }

  lemma EnoughStep(size: nat, calls: nat, limit: nat, open: int, open': int)
    requires size >= 1 && calls >= 1 && Enough(size, calls, limit, open) && open' + size <= open
    ensures Enough(size, calls - 1, limit, open')
  {
    assert size * (calls - limit + 1) == size * (calls - 1 - limit + 1) + size;
  }

  /** The most attempts any pending row has left. */
  lemma LargestLeft(rows: seq<Delivery>, setting: int) returns (m: int)
    requires AttemptsLeft(rows, setting)
    ensures AtMost(rows, setting, m) && 0 <= m <= Limit(setting) && m <= Open(rows, |rows|, Limit(setting))
  {
    m := 0;
    for n := 0 to |rows|
      invariant 0 <= m <= Limit(setting) && m <= Open(rows, |rows|, Limit(setting))
      invariant forall k | 0 <= k < n && rows[k].status == Pending :: Limit(setting) - rows[k].attempts <= m
    {
      if rows[n].status == Pending && Limit(setting) - rows[n].attempts > m {
        LimitAt(rows, setting, n);
        OpenCovers(rows, |rows|, Limit(setting), n);
        m := Limit(setting) - rows[n].attempts;
      }
    }
  }

  lemma {:induction false} DrainsByCount(desks: seq<Desk>, calls: seq<Call>, size: nat, setting: int)
    requires Calls(desks, calls, size, setting) && size >= 1 && AttemptsLeft(desks[0].deliveries, setting)
    requires Enough(size, |calls|, Limit(setting), OpenAttempts(desks[0], setting))
    ensures PendingIds(desks[|calls|].deliveries) == {}
    decreases |calls|
  {
    hide CallHappens, AttemptsLeft, Enough, AtMost, Open, PendingIds;
    var rows, open := desks[0].deliveries, OpenAttempts(desks[0], setting);
    var m := LargestLeft(rows, setting);
    EnoughCalls(size, |calls|, Limit(setting), open, m);
    if |PendingIds(rows)| <= size {
      SmallQueueEmpties(desks, calls, size, setting, m);
    } else {
      SomeAttemptLeft(rows, setting, m);
      CallPending(desks[0], calls[0], desks[1], size, setting);
      CallFalls(desks[0], calls[0], desks[1], size, setting);
      EnoughStep(size, |calls|, Limit(setting), open, OpenAttempts(desks[1], setting));
      CallsFrom(desks, calls, size, setting, 1);
      DrainsByCount(desks[1..], calls[1..], size, setting);
      assert desks[1..][|calls[1..]|] == desks[|calls|];
    }
  }

  lemma SomeAttemptLeft(rows: seq<Delivery>, setting: int, m: int)
    requires AttemptsLeft(rows, setting) && AtMost(rows, setting, m) && |PendingIds(rows)| > 0
    ensures m >= 1
  {
    if m <= 0 {
      NothingLeft(rows, setting, m);
    }
  }

  /**
   * For any tie order, with L the effective retry limit and P pending deliveries, n calls with
   * size * (n - L + 1) > L * (P - 1) leave none of them pending; that is, floor(L * (P - 1) / size) + L calls.
   */
  lemma DrainsUnderTies(desks: seq<Desk>, calls: seq<Call>, size: nat, setting: int)
    requires Calls(desks, calls, size, setting) && size >= 1 && AttemptsLeft(desks[0].deliveries, setting)
    requires size * (|calls| - Limit(setting) + 1) > Limit(setting) * (|PendingIds(desks[0].deliveries)| - 1)
    ensures PendingIds(desks[|calls|].deliveries) == {}
  {
    hide CallHappens, AttemptsLeft;
    var rows, l := desks[0].deliveries, Limit(setting);
    OpenAtMost(rows, |rows|, l);
    assert PendingBelow(rows, |rows|) == PendingIds(rows);
    assert l * (|PendingIds(rows)| - 1) == l * |PendingIds(rows)| - l;
    DrainsByCount(desks, calls, size, setting);
  }

  /** A queue of P <= size pending deliveries needs no more than L calls. */
  lemma SmallQueueDrains(desks: seq<Desk>, calls: seq<Call>, size: nat, setting: int)
    requires Calls(desks, calls, size, setting) && AttemptsLeft(desks[0].deliveries, setting)
    requires |PendingIds(desks[0].deliveries)| <= size && |calls| >= Limit(setting)
    ensures PendingIds(desks[|calls|].deliveries) == {}
  {
    hide CallHappens;
    assert AtMost(desks[0].deliveries, setting, Limit(setting));
    SmallQueueEmpties(desks, calls, size, setting, Limit(setting));
  }

  // ---- Both bounds are tight ----

  /** A delivery of one fixed instant after this many failed attempts. */
  function RowAfter(attempts: nat, setting: int): Delivery {
    Delivery(0, 0, 0, if attempts >= Limit(setting) then Failed else Pending, attempts,
             if attempts == 0 then None else Some(SendError([])), 0, None)
  }

  /**
   * m + 1 deliveries of one instant: the first p have a + 1 failed attempts behind them, the others below m
   * have a, and the last one has z.
   */
  function Tied(m: nat, a: nat, p: nat, z: nat, setting: int): (d: Desk)
    ensures |d.deliveries| == m + 1
    ensures forall r | 0 <= r <= m :: d.deliveries[r] == RowAfter(TriedBefore(m, a, p, z, r), setting)
  {
    Desk([], [Channel(0, Email, true)],
         seq(m + 1, r requires 0 <= r < m + 1 => RowAfter(TriedBefore(m, a, p, z, r), setting)), [])
  }

  function TriedBefore(m: nat, a: nat, p: nat, z: nat, r: int): nat { if r == m then z else if r < p then a + 1 else a }

  /** The n rows from lo on. */
  function Range(lo: nat, n: nat): (s: seq<nat>)
    ensures |s| == n
  {
    seq(n, i requires 0 <= i < n => lo + i)
  }

  lemma RangeMembers(lo: nat, n: nat)
    ensures Distinct(Range(lo, n)) && forall r: nat :: r in Range(lo, n) <==> lo <= r < lo + n
    ensures forall i | 0 <= i < n :: lo <= Range(lo, n)[i] < lo + n
  {
    forall r: nat ensures r in Range(lo, n) <==> lo <= r < lo + n {
      if lo <= r < lo + n {
        assert Range(lo, n)[r - lo] == r;
      }
    }
  }

  /** A call that takes these rows and fails to send any of them. */
  function Failing(batch: seq<nat>, setting: int): Call {
    Call(batch, seq(|batch|, i requires 0 <= i < |batch| => Outcome(Some([]), 0)),
      Setup([Channel(0, Email, true)], 1, setting))
  }

  lemma FailedAttempt(attempts: nat, setting: int)
    requires attempts < Limit(setting)
    ensures Attempt(RowAfter(attempts, setting), Setup([Channel(0, Email, true)], 1, setting), Outcome(Some([]), 0))
         == RowAfter(attempts + 1, setting)
  {
  }

  /** A failing call adds one attempt to the rows it takes. */
  lemma FailingRows(d: Desk, d': Desk, batch: seq<nat>, setting: int)
    requires Distinct(batch) && Within(batch, |d.deliveries|) && |d'.deliveries| == |d.deliveries|
    requires forall r | 0 <= r < |d.deliveries| :: d.deliveries[r] == RowAfter(d.deliveries[r].attempts, setting)
    requires forall i | 0 <= i < |batch| :: d.deliveries[batch[i]].attempts < Limit(setting)
    requires forall r | 0 <= r < |d.deliveries| ::
               d'.deliveries[r]
                 == if r in batch then RowAfter(d.deliveries[r].attempts + 1, setting) else d.deliveries[r]
    ensures var c := Failing(batch, setting); d'.deliveries == ProcessBatch(d, c.batch, c.outcomes, c.setup).deliveries
  {
    hide Attempt, RowAfter;
    var c := Failing(batch, setting);
    BatchRows(d, batch, c.outcomes, |batch|, c.setup);
    assert batch[..|batch|] == batch;
    forall r | 0 <= r < |d.deliveries| && r in batch
      ensures ProcessBatch(d, batch, c.outcomes, c.setup).deliveries[r]
              == RowAfter(d.deliveries[r].attempts + 1, setting)
    {
      var i :| 0 <= i < |batch| && batch[i] == r;
      FailedAttempt(d.deliveries[r].attempts, setting);
    }
  }

  /** Tied rows let the database answer with any pending ones, as long as the batch is full or takes them all. */
  lemma TiedAnswer(m: nat, a: nat, p: nat, z: nat, size: nat, batch: seq<nat>, setting: int)
    requires Distinct(batch) && Within(batch, m + 1) && |batch| <= size
    requires forall i | 0 <= i < |batch| :: Tied(m, a, p, z, setting).deliveries[batch[i]].status == Pending
    requires |batch| < size ==>
             forall r | 0 <= r <= m && r !in batch :: Tied(m, a, p, z, setting).deliveries[r].status != Pending
    ensures Answered(Tied(m, a, p, z, setting), size, setting, Failing(batch, setting))
  {
  }

  lemma TiedCall(m: nat, a: nat, p: nat, z: nat, d': Desk, size: nat, batch: seq<nat>, setting: int)
    requires Answered(Tied(m, a, p, z, setting), size, setting, Failing(batch, setting))
    requires Distinct(batch) && Within(batch, m + 1) && |d'.deliveries| == m + 1
    requires forall i | 0 <= i < |batch| :: Tied(m, a, p, z, setting).deliveries[batch[i]].attempts < Limit(setting)
    requires var rows := Tied(m, a, p, z, setting).deliveries;
             forall r | 0 <= r <= m ::
               d'.deliveries[r] == if r in batch then RowAfter(rows[r].attempts + 1, setting) else rows[r]
    ensures CallHappens(Tied(m, a, p, z, setting), Failing(batch, setting), d', size, setting)
  {
    hide AnswersPending, ProcessBatch;
    FailingRows(Tied(m, a, p, z, setting), d', batch, setting);
  }

  /** The next `size` rows in cyclic order below m. */
  function Around(m: nat, p: nat, size: nat): seq<nat> {
    seq(size, i requires 0 <= i < size => if p + i < m then p + i else p + i - m)
  }

  lemma AroundMembers(m: nat, p: nat, size: nat)
    requires p <= m && size <= m
    ensures Distinct(Around(m, p, size)) && Within(Around(m, p, size), m)
    ensures forall r: nat :: r in Around(m, p, size) <==> (p <= r < m && r < p + size) || r + m < p + size
  {
    var s := Around(m, p, size);
    forall r: nat ensures r in s <==> (p <= r < m && r < p + size) || r + m < p + size {
      if p <= r < m && r < p + size {
        assert s[r - p] == r;
      } else if r + m < p + size {
        assert s[r + m - p] == r;
      }
    }
  }

  /** Where the cycle stands after `size` more attempts. */
  function NextLevel(m: nat, a: nat, p: nat, size: nat): nat { if p + size <= m then a else a + 1 }

  function NextPlace(m: nat, p: nat, size: nat): nat { if p + size <= m then p + size else p + size - m }

  /** A full batch from the first m rows, leaving the last one alone. */
  lemma FullCall(m: nat, a: nat, p: nat, size: nat, setting: int)
    requires p <= m && 1 <= size <= m && a < Limit(setting) && (p + size > m ==> a + 1 < Limit(setting))
    ensures CallHappens(Tied(m, a, p, 0, setting), Failing(Around(m, p, size), setting),
                        Tied(m, NextLevel(m, a, p, size), NextPlace(m, p, size), 0, setting), size, setting)
  {
    hide CallHappens, Answered, Failing, Around;
    AroundMembers(m, p, size);
    var batch := Around(m, p, size);
    assert |batch| == size by { AroundLength(m, p, size); }
    forall i | 0 <= i < |batch|
      ensures batch[i] < m && Tied(m, a, p, 0, setting).deliveries[batch[i]].attempts < Limit(setting)
    {
      assert batch[i] in batch;
    }
    TiedAnswer(m, a, p, 0, size, batch, setting);
    TiedCall(m, a, p, 0, Tied(m, NextLevel(m, a, p, size), NextPlace(m, p, size), 0, setting), size, batch, setting);
  }

  lemma AroundLength(m: nat, p: nat, size: nat)
    ensures |Around(m, p, size)| == size
  {
  }

  /** The call that takes everything still pending: the last attempts of rows from p on, and the last row. */
  lemma LastMixedCall(m: nat, p: nat, size: nat, setting: int)
    requires p <= m && m + 1 - p <= size && Limit(setting) >= 2
    ensures CallHappens(Tied(m, Limit(setting) - 1, p, 0, setting), Failing(Range(p, m + 1 - p), setting),
                        Tied(m, Limit(setting) - 1, m, 1, setting), size, setting)
  {
    hide CallHappens, Answered, Failing;
    var batch := Range(p, m + 1 - p);
    RangeMembers(p, m + 1 - p);
    TiedAnswer(m, Limit(setting) - 1, p, 0, size, batch, setting);
    TiedCall(m, Limit(setting) - 1, p, 0, Tied(m, Limit(setting) - 1, m, 1, setting), size, batch, setting);
  }

  /** The last row alone, once all others have failed. */
  lemma LoneCall(m: nat, z: nat, size: nat, setting: int)
    requires size >= 1 && z < Limit(setting)
    ensures CallHappens(Tied(m, Limit(setting) - 1, m, z, setting), Failing([m], setting),
                        Tied(m, Limit(setting) - 1, m, z + 1, setting), size, setting)
  {
    hide CallHappens, Answered, Failing;
    TiedAnswer(m, Limit(setting) - 1, m, z, size, [m], setting);
    TiedCall(m, Limit(setting) - 1, m, z, Tied(m, Limit(setting) - 1, m, z + 1, setting), size, [m], setting);
  }

  lemma CallsGrow(desks: seq<Desk>, calls: seq<Call>, c: Call, d: Desk, size: nat, setting: int)
    requires Calls(desks, calls, size, setting) && CallHappens(desks[|calls|], c, d, size, setting)
    ensures Calls(desks + [d], calls + [c], size, setting)
  {
    hide CallHappens;
  }

  /** j full batches go around the first m rows as long as these have attempts left. */
  lemma {:induction false} FullRun(m: nat, size: nat, setting: int, j: nat)
    returns (desks: seq<Desk>, calls: seq<Call>, a: nat, p: nat)
    requires 1 <= size <= m && j * size <= Limit(setting) * m
    ensures Calls(desks, calls, size, setting) && |calls| == j && p <= m && (j > 0 ==> p >= 1)
    ensures desks[0] == Tied(m, 0, 0, 0, setting) && desks[j] == Tied(m, a, p, 0, setting) && a * m + p == j * size
  {
    hide CallHappens, Tied, Failing, Around, Limit;
    if j == 0 {
      desks, calls, a, p := [Tied(m, 0, 0, 0, setting)], [], 0, 0;
    } else {
      assert j * size == (j - 1) * size + size;
      desks, calls, a, p := FullRun(m, size, setting, j - 1);
      LevelsLeft(m, a, p, size, Limit(setting));
      FullCall(m, a, p, size, setting);
      CallsGrow(desks, calls, Failing(Around(m, p, size), setting),
                Tied(m, NextLevel(m, a, p, size), NextPlace(m, p, size), 0, setting), size, setting);
      desks := desks + [Tied(m, NextLevel(m, a, p, size), NextPlace(m, p, size), 0, setting)];
      calls := calls + [Failing(Around(m, p, size), setting)];
      assert (a + 1) * m == a * m + m;
      a, p := NextLevel(m, a, p, size), NextPlace(m, p, size);
    }
  }

  lemma LevelsLeft(m: nat, a: nat, p: nat, size: nat, limit: nat)
    requires m >= 1 && size >= 1 && a * m + p + size <= limit * m
    ensures a < limit && (p + size > m ==> a + 1 < limit)
  {
    assert (a + 1) * m == a * m + m;
    if limit <= a {
      MulMonotone(limit, a, m);
    } else if limit <= a + 1 {
      MulMonotone(limit, a + 1, m);
    }
  }

  lemma MulMonotone(x: nat, y: nat, m: nat)
    requires x <= y
    ensures x * m <= y * m
  {
    assert y * m == x * m + (y - x) * m;
    assert (y - x) * m >= 0;
  }

  /** The last row is attempted alone until one attempt is left. */
  lemma {:induction false} LoneRun(desks: seq<Desk>, calls: seq<Call>, m: nat, z: nat, size: nat, setting: int)
    returns (desks': seq<Desk>, calls': seq<Call>)
    requires Calls(desks, calls, size, setting) && size >= 1 && z < Limit(setting)
    requires desks[|calls|] == Tied(m, Limit(setting) - 1, m, z, setting)
    ensures Calls(desks', calls', size, setting) && desks'[0] == desks[0]
    ensures |calls'| == |calls| + (Limit(setting) - 1 - z)
    ensures desks'[|calls'|] == Tied(m, Limit(setting) - 1, m, Limit(setting) - 1, setting)
    decreases Limit(setting) - z
  {
    hide CallHappens, Tied, Failing, Limit;
    if z == Limit(setting) - 1 {
      desks', calls' := desks, calls;
    } else {
      LoneCall(m, z, size, setting);
      CallsGrow(desks, calls, Failing([m], setting), Tied(m, Limit(setting) - 1, m, z + 1, setting), size, setting);
      desks', calls' := LoneRun(desks + [Tied(m, Limit(setting) - 1, m, z + 1, setting)],
        calls + [Failing([m], setting)],
                                m, z + 1, size, setting);
    }
  }

  /** When no full batch is left in the first m rows, they are on their last round. */
  lemma LastRound(m: nat, a: nat, p: nat, size: nat, limit: nat, j: nat)
    requires 1 <= size <= m && 1 <= p <= m && a * m + p == j * size && j == limit * m / size && limit >= 1
    ensures a == limit - 1 && m + 1 - p <= size
  {
    assert j * size <= limit * m < j * size + size by { DivBounds(limit * m, size); }
    assert (a + 2) * m == a * m + 2 * m && limit * m == (limit - 1) * m + m;
    if limit <= a {
      MulMonotone(limit, a, m);
    } else if a + 2 <= limit {
      MulMonotone(a + 2, limit, m);
    }
  }

  lemma DivBounds(x: nat, size: nat)
    requires size >= 1
    ensures (x / size) * size <= x < (x / size) * size + size
  {
    assert x == size * (x / size) + x % size;
  }

  lemma FreshTied(m: nat, setting: int)
    ensures AttemptsLeft(Tied(m, 0, 0, 0, setting).deliveries, setting)
    ensures |PendingIds(Tied(m, 0, 0, 0, setting).deliveries)| == m + 1
  {
    var rows := Tied(m, 0, 0, 0, setting).deliveries;
    RangeMembers(0, m + 1);
    assert PendingIds(rows) == Ids(Range(0, m + 1));
    DistinctCount(Range(0, m + 1));
  }

  lemma LastIsPending(m: nat, a: nat, p: nat, z: nat, setting: int)
    requires z < Limit(setting)
    ensures PendingIds(Tied(m, a, p, z, setting).deliveries) != {}
  {
    assert m in PendingIds(Tied(m, a, p, z, setting).deliveries);
  }

  /**
   * For P > size the bound is tight: for every batch size, retry setting and number of deliveries there is a run
   * over P deliveries of one instant in which floor(L * (P - 1) / size) + L - 1 calls leave one pending.
   */
  lemma TieBoundIsTight(size: nat, pending: nat, setting: int) returns (desks: seq<Desk>, calls: seq<Call>)
    requires 1 <= size < pending
    ensures Calls(desks, calls, size, setting) && |calls| == Limit(setting) * (pending - 1) / size + Limit(setting) - 1
    ensures AttemptsLeft(desks[0].deliveries, setting) && |PendingIds(desks[0].deliveries)| == pending
    ensures PendingIds(desks[|calls|].deliveries) != {}
  {
    hide CallHappens, Tied, Failing, AttemptsLeft, PendingIds;
    var m, l := pending - 1, Limit(setting);
    var full := l * m / size;
    DivBounds(l * m, size);
    FullIsSome(l, m, size);
    var a, p;
    desks, calls, a, p := FullRun(m, size, setting, full);
    LastRound(m, a, p, size, l, full);
    FreshTied(m, setting);
    if l == 1 {
      LastIsPending(m, a, p, 0, setting);
    } else {
      var batch := Range(p, m + 1 - p);
      LastMixedCall(m, p, size, setting);
      CallsGrow(desks, calls, Failing(batch, setting), Tied(m, l - 1, m, 1, setting), size, setting);
      desks, calls := LoneRun(desks + [Tied(m, l - 1, m, 1, setting)], calls + [Failing(batch, setting)], m, 1, size,
        setting);
      LastIsPending(m, l - 1, m, l - 1, setting);
    }
  }

  lemma FullIsSome(l: nat, m: nat, size: nat)
    requires l >= 1 && 1 <= size <= m
    ensures l * m / size >= 1
  {
    MulMonotone(1, l, m);
    DivBounds(l * m, size);
  }

  /** Every row of a queue that fits one batch, attempted together. */
  lemma {:induction false} EvenRun(m: nat, size: nat, setting: int, j: nat) returns (desks: seq<Desk>, calls: seq<Call>)
    requires m + 1 <= size && j < Limit(setting)
    ensures Calls(desks, calls, size, setting) && |calls| == j
    ensures desks[0] == Tied(m, 0, 0, 0, setting) && desks[j] == Tied(m, j, 0, j, setting)
  {
    hide CallHappens, Tied, Failing, Limit;
    if j == 0 {
      desks, calls := [Tied(m, 0, 0, 0, setting)], [];
    } else {
      desks, calls := EvenRun(m, size, setting, j - 1);
      var batch := Range(0, m + 1);
      EvenCall(m, j - 1, size, setting);
      CallsGrow(desks, calls, Failing(batch, setting), Tied(m, j, 0, j, setting), size, setting);
      desks, calls := desks + [Tied(m, j, 0, j, setting)], calls + [Failing(batch, setting)];
    }
  }

  lemma EvenCall(m: nat, a: nat, size: nat, setting: int)
    requires m + 1 <= size && a < Limit(setting)
    ensures CallHappens(Tied(m, a, 0, a, setting), Failing(Range(0, m + 1), setting),
            Tied(m, a + 1, 0, a + 1, setting), size, setting)
  {
    hide CallHappens, Answered, Failing;
    var batch := Range(0, m + 1);
    RangeMembers(0, m + 1);
    TiedAnswer(m, a, 0, a, size, batch, setting);
    TiedCall(m, a, 0, a, Tied(m, a + 1, 0, a + 1, setting), size, batch, setting);
  }

  /** For P <= size the bound of L calls is tight: L - 1 calls can leave all P pending. */
  lemma SmallBoundIsTight(size: nat, pending: nat, setting: int) returns (desks: seq<Desk>, calls: seq<Call>)
    requires 1 <= pending <= size
    ensures Calls(desks, calls, size, setting) && |calls| == Limit(setting) - 1
    ensures AttemptsLeft(desks[0].deliveries, setting) && |PendingIds(desks[0].deliveries)| == pending
    ensures PendingIds(desks[|calls|].deliveries) != {}
  {
    hide CallHappens, Tied, AttemptsLeft, PendingIds;
    desks, calls := EvenRun(pending - 1, size, setting, Limit(setting) - 1);
    FreshTied(pending - 1, setting);
    LastIsPending(pending - 1, Limit(setting) - 1, 0, Limit(setting) - 1, setting);
  }

  /** So under ties L * ceil(P / size) calls can be too few: with two attempts, batches of two and four deliveries. */
  lemma TiesNeedMore() returns (desks: seq<Desk>, calls: seq<Call>)
    ensures Calls(desks, calls, 2, 2) && |calls| == 4 == Limit(2) * (4 / 2)
    ensures AttemptsLeft(desks[0].deliveries, 2) && |PendingIds(desks[0].deliveries)| == 4
    ensures PendingIds(desks[4].deliveries) != {}
  {
    hide CallHappens, AttemptsLeft, PendingIds;
    desks, calls := TieBoundIsTight(2, 4, 2);
  }
}
