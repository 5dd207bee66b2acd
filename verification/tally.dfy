/**
  Sums of a weight over the n x n cells of a grid, with the monotonicity
  facts the termination argument of the search needs.
 */
module Tally {
  import opened Cells
  import opened Grids

  /** The sum of `w` over the cells (i, j), (i, j + 1), ..., (i, n - 1). */
  function RowSum(n: nat, i: int, j: nat, w: Pos -> nat): nat
    decreases n - j
  {
    if j >= n then 0 else w(Pos(i, j)) + RowSum(n, i, j + 1, w)
  }

  /** The sum of `w` over rows i, ..., n - 1. */
  function GridSum(n: nat, i: nat, w: Pos -> nat): nat
    decreases n - i
  {
    if i >= n then 0 else RowSum(n, i, 0, w) + GridSum(n, i + 1, w)
  }

  /** The sum of `w` over every cell of an n x n grid. */
  function Total(n: nat, w: Pos -> nat): nat
  {
    GridSum(n, 0, w)
  }

  ghost predicate AtMostOn(n: nat, w1: Pos -> nat, w2: Pos -> nat)
  {
    forall p :: InBounds(p, n) ==> w1(p) <= w2(p)
  }

  lemma {:induction false} RowSumMono(n: nat, i: int, j: nat, w1: Pos -> nat, w2: Pos -> nat)
    requires 0 <= i < n && AtMostOn(n, w1, w2)
    ensures RowSum(n, i, j, w1) <= RowSum(n, i, j, w2)
    decreases n - j
  {
    if j < n {
      assert InBounds(Pos(i, j), n);
      RowSumMono(n, i, j + 1, w1, w2);
    }
  }

  lemma {:induction false} RowSumStrict(n: nat, i: int, j: nat, w1: Pos -> nat, w2: Pos -> nat, q: Pos)
    requires 0 <= i < n && AtMostOn(n, w1, w2)
    requires q.row == i && j <= q.col < n && w1(q) < w2(q)
    ensures RowSum(n, i, j, w1) < RowSum(n, i, j, w2)
    decreases n - j
  {
    if j == q.col {
      assert q == Pos(i, j);
      RowSumMono(n, i, j + 1, w1, w2);
    } else {
      assert InBounds(Pos(i, j), n);
      RowSumStrict(n, i, j + 1, w1, w2, q);
    }
  }

  lemma {:induction false} GridSumMono(n: nat, i: nat, w1: Pos -> nat, w2: Pos -> nat)
    requires AtMostOn(n, w1, w2)
    ensures GridSum(n, i, w1) <= GridSum(n, i, w2)
    decreases n - i
  {
    if i < n {
      RowSumMono(n, i, 0, w1, w2);
      GridSumMono(n, i + 1, w1, w2);
    }
  }

  lemma {:induction false} GridSumStrict(n: nat, i: nat, w1: Pos -> nat, w2: Pos -> nat, q: Pos)
    requires AtMostOn(n, w1, w2)
    requires InBounds(q, n) && i <= q.row && w1(q) < w2(q)
    ensures GridSum(n, i, w1) < GridSum(n, i, w2)
    decreases n - i
  {
    if i == q.row {
      RowSumStrict(n, i, 0, w1, w2, q);
      GridSumMono(n, i + 1, w1, w2);
    } else {
      RowSumMono(n, i, 0, w1, w2);
      GridSumStrict(n, i + 1, w1, w2, q);
    }
  }

  /** A weight no larger on any cell has no larger total. */
  lemma TotalMono(n: nat, w1: Pos -> nat, w2: Pos -> nat)
    requires AtMostOn(n, w1, w2)
    ensures Total(n, w1) <= Total(n, w2)
  {
    GridSumMono(n, 0, w1, w2);
  }

  /** ... and a strictly smaller total once it is smaller on one cell. */
  lemma TotalStrict(n: nat, w1: Pos -> nat, w2: Pos -> nat, q: Pos)
    requires AtMostOn(n, w1, w2)
    requires InBounds(q, n) && w1(q) < w2(q)
    ensures Total(n, w1) < Total(n, w2)
  {
    GridSumStrict(n, 0, w1, w2, q);
  }
}
