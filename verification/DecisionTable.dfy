/** The store's decision table: rows with increasing ids, trimmed by deleting all but the top ids. */
module DecisionTable {
  import opened Scheduling

  type Rows = map<nat, Decision>

  /** The rows occupy the ids just below `next`, without gaps. */
  ghost predicate Contiguous(rows: Rows, next: nat) {
    |rows| <= next && forall k: nat :: k in rows <==> next - |rows| <= k < next
  }

  /** The rows in id order. */
  function RowList(rows: Rows, next: nat): seq<Decision>
    requires Contiguous(rows, next)
  {
    seq(|rows|, i requires 0 <= i < |rows| => rows[next - |rows| + i])
  }

  function Above(rows: Rows, k: nat): set<nat> {
    set j | j in rows && j > k
  }

  /** Delete every row whose id is not among the `limit` largest. */
  function TopRows(rows: Rows, limit: nat): Rows {
    map k | k in rows && |Above(rows, k)| < limit :: rows[k]
  }

  lemma {:induction false} IntervalSize(s: set<nat>, lo: nat, hi: nat)
    requires lo <= hi && forall k: nat :: k in s <==> lo <= k < hi
    ensures |s| == hi - lo
  {
    if lo < hi {
      IntervalSize(s - {hi - 1}, lo, hi - 1);
    } else {
      assert s == {};
    }
  }

  /** Inserting a row with the next id appends to the list. */
  lemma InsertAppends(rows: Rows, next: nat, x: Decision)
    requires Contiguous(rows, next)
    ensures Contiguous(rows[next := x], next + 1)
    ensures RowList(rows[next := x], next + 1) == RowList(rows, next) + [x]
  {
    assert |rows[next := x]| == |rows| + 1;
  }

  lemma TopRowsKeys(rows: Rows, next: nat, limit: nat)
    requires Contiguous(rows, next)
    ensures var size := if |rows| < limit then |rows| else limit;
      |TopRows(rows, limit)| == size && forall k: nat :: k in TopRows(rows, limit) <==> next - size <= k < next
  {
    forall k | k in rows ensures |Above(rows, k)| == next - 1 - k {
      IntervalSize(Above(rows, k), k + 1, next);
    }
    var size := if |rows| < limit then |rows| else limit;
    IntervalSize(TopRows(rows, limit).Keys, next - size, next);
  }

  /** Deleting all but the top ids is taking the suffix of the list. */
  lemma TrimIsSuffix(rows: Rows, next: nat, limit: nat)
    requires Contiguous(rows, next)
    ensures Contiguous(TopRows(rows, limit), next)
    ensures RowList(TopRows(rows, limit), next) == Suffix(RowList(rows, next), limit)
  {
    TopRowsKeys(rows, next, limit);
  }
}
