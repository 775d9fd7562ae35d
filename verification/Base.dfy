/** Small shared vocabulary: optional values and facts about id sequences. */
module Base {
  datatype Option<+T> = None | Some(value: T)

  /** No id occurs twice. */
  predicate Distinct(ids: seq<nat>) {
    forall i, j | 0 <= i < j < |ids| :: ids[i] != ids[j]
  }

  /** Every id is the position of a row in a table of `size` rows. */
  predicate Within(ids: seq<nat>, size: nat) {
    forall i | 0 <= i < |ids| :: ids[i] < size
  }

  function Min(a: int, b: int): int { if a < b then a else b }

  /** The set of ids listed. */
  function Ids(ids: seq<nat>): set<nat> { set x | x in ids }

  lemma {:induction false} DistinctCount(ids: seq<nat>)
    requires Distinct(ids)
    ensures |Ids(ids)| == |ids|
  {
    if ids != [] {
      var front, last := ids[..|ids| - 1], ids[|ids| - 1];
      DistinctCount(front);
      assert ids == front + [last];
      assert Ids(ids) == Ids(front) + {last};
    }
  }

  lemma SubsetCount<T>(a: set<T>, b: set<T>)
    requires a <= b
    ensures |b - a| == |b| - |a| && |a| <= |b|
  {
    assert b == a + (b - a);
  }

  /** The newest row that satisfies the condition: the answer of a query that matches at most one row. */
  function Latest<T>(rows: seq<T>, p: T -> bool): (r: Option<nat>)
    ensures r.Some? ==> r.value < |rows| && p(rows[r.value])
  {
    if rows == [] then None
    else if p(rows[|rows| - 1]) then Some(|rows| - 1)
    else Latest(rows[..|rows| - 1], p)
  }

  lemma {:induction false} LatestNone<T>(rows: seq<T>, p: T -> bool)
    requires Latest(rows, p).None?
    ensures forall i | 0 <= i < |rows| :: !p(rows[i])
  {
    if rows != [] {
      LatestNone(rows[..|rows| - 1], p);
    }
  }

  /** A row rewritten without changing whether it matches is found where it was. */
  lemma {:induction false} LatestUpdated<T>(rows: seq<T>, i: nat, row: T, p: T -> bool)
    requires i < |rows| && p(row) == p(rows[i])
    ensures Latest(rows[i := row], p) == Latest(rows, p)
  {
    var last := |rows| - 1;
    if i == last {
      assert rows[i := row][..last] == rows[..last];
    } else {
      LatestUpdated(rows[..last], i, row, p);
      assert rows[i := row][..last] == rows[..last][i := row];
    }
  }

  lemma LatestAppended<T>(rows: seq<T>, row: T, p: T -> bool)
    ensures Latest(rows + [row], p) == if p(row) then Some(|rows|) else Latest(rows, p)
  {
    assert (rows + [row])[..|rows|] == rows;
  }
}
