/**
 * SQL aggregates over a table: `COUNT(*) ... WHERE p`, `SUM(f) ... WHERE p`
 * and the NULL that `SUM` yields over no rows.
 */
module Aggregate {

  import opened Wrappers

  /** `SELECT COUNT(*) FROM rows WHERE p`. */
  function Count<R>(rows: seq<R>, p: R -> bool): (n: nat)
    ensures n <= |rows|
    ensures n == 0 <==> forall i :: 0 <= i < |rows| ==> !p(rows[i])
  {
    if rows == [] then 0
    else Count(rows[..|rows| - 1], p) + (if p(rows[|rows| - 1]) then 1 else 0)
  }

  /** The sum of `f` over the rows satisfying `p`, with 0 for no rows. */
  function Sum<R>(rows: seq<R>, p: R -> bool, f: R -> int): int {
    if rows == [] then 0
    else Sum(rows[..|rows| - 1], p, f) + (if p(rows[|rows| - 1]) then f(rows[|rows| - 1]) else 0)
  }

  /** `SELECT SUM(f) FROM rows WHERE p`: NULL when no row satisfies `p`. */
  function SqlSum<R>(rows: seq<R>, p: R -> bool, f: R -> int): Option<int> {
    if Count(rows, p) == 0 then None else Some(Sum(rows, p, f))
  }

  /** `CASE WHEN p THEN 1 ELSE 0 END`. */
  function Indicator<R>(p: R -> bool): R -> int {
    x => if p(x) then 1 else 0
  }

  function Always<R>(): R -> bool {
    x => true
  }

  /** The rows' positions that satisfy `p`. */
  ghost function Matching<R>(rows: seq<R>, p: R -> bool): set<int> {
    set i | 0 <= i < |rows| && p(rows[i])
  }

  /** `Count` counts exactly the rows that satisfy `p`. */
  lemma {:induction false} CountIsMatchingSize<R>(rows: seq<R>, p: R -> bool)
    ensures Count(rows, p) == |Matching(rows, p)|
  {
    if rows != [] {
      var n := |rows| - 1;
      var init := rows[..n];
      CountIsMatchingSize(init, p);
      assert Matching(rows, p) == Matching(init, p) + (if p(rows[n]) then {n} else {}) by {
        forall i | 0 <= i < n ensures init[i] == rows[i] {}
      }
      assert n !in Matching(init, p);
    }
  }

  lemma {:induction false} CountAppend<R>(rows: seq<R>, x: R, p: R -> bool)
    ensures Count(rows + [x], p) == Count(rows, p) + (if p(x) then 1 else 0)
  {
    assert (rows + [x])[..|rows|] == rows;
  }

  lemma {:induction false} SumAppend<R>(rows: seq<R>, x: R, p: R -> bool, f: R -> int)
    ensures Sum(rows + [x], p, f) == Sum(rows, p, f) + (if p(x) then f(x) else 0)
  {
    assert (rows + [x])[..|rows|] == rows;
  }

  /** A predicate that holds wherever another does counts at least as many rows. */
  lemma {:induction false} CountMonotone<R>(rows: seq<R>, p: R -> bool, q: R -> bool)
    requires forall i :: 0 <= i < |rows| && p(rows[i]) ==> q(rows[i])
    ensures Count(rows, p) <= Count(rows, q)
  {
    if rows != [] {
      CountMonotone(rows[..|rows| - 1], p, q);
    }
  }

  /** A predicate split into two disjoint cases counts the sum of both. */
  lemma {:induction false} CountSplit<R>(rows: seq<R>, r: R -> bool, p: R -> bool, q: R -> bool)
    requires forall i :: 0 <= i < |rows| ==> (r(rows[i]) <==> p(rows[i]) || q(rows[i]))
    requires forall i :: 0 <= i < |rows| ==> !(p(rows[i]) && q(rows[i]))
    ensures Count(rows, r) == Count(rows, p) + Count(rows, q)
  {
    if rows != [] {
      CountSplit(rows[..|rows| - 1], r, p, q);
    }
  }

  /** A sum over a predicate split into two disjoint cases is the sum of both sums. */
  lemma {:induction false} SumSplit<R>(rows: seq<R>, r: R -> bool, p: R -> bool, q: R -> bool, f: R -> int)
    requires forall i :: 0 <= i < |rows| ==> (r(rows[i]) <==> p(rows[i]) || q(rows[i]))
    requires forall i :: 0 <= i < |rows| ==> !(p(rows[i]) && q(rows[i]))
    ensures Sum(rows, r, f) == Sum(rows, p, f) + Sum(rows, q, f)
  {
    if rows != [] {
      SumSplit(rows[..|rows| - 1], r, p, q, f);
    }
  }

  /** Summing `g + h` row by row is summing `g` and `h` separately. */
  lemma {:induction false} SumAdditive<R>(rows: seq<R>, p: R -> bool, f: R -> int, g: R -> int, h: R -> int)
    requires forall i :: 0 <= i < |rows| ==> f(rows[i]) == g(rows[i]) + h(rows[i])
    ensures Sum(rows, p, f) == Sum(rows, p, g) + Sum(rows, p, h)
  {
    if rows != [] {
      SumAdditive(rows[..|rows| - 1], p, f, g, h);
    }
  }

  /** A row-by-row smaller summand gives a smaller sum. */
  lemma {:induction false} SumMonotone<R>(rows: seq<R>, p: R -> bool, f: R -> int, g: R -> int)
    requires forall i :: 0 <= i < |rows| && p(rows[i]) ==> f(rows[i]) <= g(rows[i])
    ensures Sum(rows, p, f) <= Sum(rows, p, g)
  {
    if rows != [] {
      SumMonotone(rows[..|rows| - 1], p, f, g);
    }
  }

  /** Predicates and summands that agree on every row give the same count and sum. */
  lemma {:induction false} AgreeingAggregates<R>(rows: seq<R>, p: R -> bool, q: R -> bool, f: R -> int, g: R -> int)
    requires forall i :: 0 <= i < |rows| ==> (p(rows[i]) <==> q(rows[i]))
    requires forall i :: 0 <= i < |rows| && p(rows[i]) ==> f(rows[i]) == g(rows[i])
    ensures Count(rows, p) == Count(rows, q)
    ensures Sum(rows, p, f) == Sum(rows, q, g)
    ensures SqlSum(rows, p, f) == SqlSum(rows, q, g)
  {
    if rows != [] {
      AgreeingAggregates(rows[..|rows| - 1], p, q, f, g);
    }
  }

  /** `SUM(CASE WHEN p THEN 1 ELSE 0 END)` over every row counts the rows satisfying `p`. */
  lemma {:induction false} SumOfIndicator<R>(rows: seq<R>, p: R -> bool)
    ensures Sum(rows, Always(), Indicator(p)) == Count(rows, p)
  {
    if rows != [] {
      SumOfIndicator(rows[..|rows| - 1], p);
    }
  }

  /** `SELECT * FROM rows WHERE p`, in table order. */
  function Filter<R>(rows: seq<R>, p: R -> bool): (res: seq<R>)
    ensures |res| == Count(rows, p)
    ensures forall i :: 0 <= i < |res| ==> p(res[i]) && res[i] in rows
    ensures forall i :: 0 <= i < |rows| && p(rows[i]) ==> rows[i] in res
  {
    if rows == [] then []
    else
      var n := |rows| - 1;
      assert forall i :: 0 <= i < n ==> rows[..n][i] == rows[i];
      Filter(rows[..n], p) + (if p(rows[n]) then [rows[n]] else [])
  }

  /** A filter that every row passes keeps the whole table. */
  lemma {:induction false} FilterAll<R>(rows: seq<R>, p: R -> bool)
    requires forall i :: 0 <= i < |rows| ==> p(rows[i])
    ensures Filter(rows, p) == rows
  {
    if rows != [] {
      var n := |rows| - 1;
      FilterAll(rows[..n], p);
      assert rows[..n] + [rows[n]] == rows;
    }
  }

  /** `IFNULL(SUM(f), 0)`: NULL over no rows reads as 0, so it is the plain sum. */
  lemma {:induction false} SqlSumOrZero<R>(rows: seq<R>, p: R -> bool, f: R -> int)
    ensures SqlSum(rows, p, f).GetOr(0) == Sum(rows, p, f)
  {
    if Count(rows, p) == 0 {
      SumOverNoRows(rows, p, f);
    }
  }

  lemma {:induction false} SumOverNoRows<R>(rows: seq<R>, p: R -> bool, f: R -> int)
    requires Count(rows, p) == 0
    ensures Sum(rows, p, f) == 0
  {
    if rows != [] {
      SumOverNoRows(rows[..|rows| - 1], p, f);
    }
  }
}
