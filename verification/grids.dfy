/**
  The square grid of spots: construction, neighbour derivation and the
  per-spot recolouring the search performs.
 */
module Grids {
  import opened Cells

  /** Rows of spots; `grid[i][j]` is the spot at row i, column j. */
  type Grid = seq<seq<Spot>>

  predicate InBounds(p: Pos, n: int)
  {
    0 <= p.row < n && 0 <= p.col < n
  }

  /** An n x n grid whose spot [i][j] is identified as (i, j) and knows n. */
  predicate WellFormed(grid: Grid)
  {
    && (forall i :: 0 <= i < |grid| ==> |grid[i]| == |grid|)
    && (forall i, j :: 0 <= i < |grid| && 0 <= j < |grid[i]| ==>
          grid[i][j].row == i && grid[i][j].col == j && grid[i][j].totalRows == |grid|)
  }

  function At(grid: Grid, p: Pos): Spot
    requires WellFormed(grid) && InBounds(p, |grid|)
  {
    grid[p.row][p.col]
  }

  /** Every neighbour list names spots of the grid. */
  ghost predicate NeighborsInBounds(grid: Grid)
    requires WellFormed(grid)
  {
    forall p, q :: InBounds(p, |grid|) && q in At(grid, p).neighbors ==> InBounds(q, |grid|)
  }

  /** `b` is `a` with possibly different colours and nothing else changed. */
  ghost predicate SameLayout(a: Grid, b: Grid)
  {
    && WellFormed(a) && WellFormed(b) && |a| == |b|
    && forall p :: InBounds(p, |a|) ==> At(b, p) == At(a, p).(color := At(b, p).color)
  }

  /** `set_state` on the spot at `p`, seen from the grid. */
  function Recolor(grid: Grid, p: Pos, c: Color): (r: Grid)
    requires WellFormed(grid) && InBounds(p, |grid|)
    ensures SameLayout(grid, r)
    ensures forall q :: InBounds(q, |grid|) ==>
              At(r, q).color == if q == p then c else At(grid, q).color
  {
    grid[p.row := grid[p.row][p.col := SetState(grid[p.row][p.col], c)]]
  }

  lemma SameLayoutTrans(a: Grid, b: Grid, c: Grid)
    requires SameLayout(a, b) && SameLayout(b, c)
    ensures SameLayout(a, c)
  {
  }

  /** `make_grid`: `rows` rows of `rows` free spots, each with its own identity
      and no neighbours yet. `make_grid` also divides the window width by
      `rows` to size the spots, which fails for zero rows. */
  method MakeGrid(rows: nat) returns (grid: Grid)
    requires rows > 0
    ensures |grid| == rows && WellFormed(grid)
    ensures forall p :: InBounds(p, rows) ==> At(grid, p) == Spot(p.row, p.col, White, [], rows)
  {
    grid := [];
    var i := 0;
    while i < rows
      invariant 0 <= i <= rows && |grid| == i
      invariant forall a :: 0 <= a < i ==> |grid[a]| == rows
      invariant forall a, b :: 0 <= a < i && 0 <= b < rows ==> grid[a][b] == Spot(a, b, White, [], rows)
    {
      var row: seq<Spot> := [];
      var j := 0;
      while j < rows
        invariant 0 <= j <= rows && |row| == j
        invariant forall b :: 0 <= b < j ==> row[b] == Spot(i, b, White, [], rows)
      {
        row := row + [Spot(i, j, White, [], rows)];
        j := j + 1;
      }
      grid := grid + [row];
      i := i + 1;
    }
  }

  /** The spot `s` may stand on: one of the grid's own spots. */
  predicate OnGrid(grid: Grid, s: Spot)
  {
    WellFormed(grid) && s.row < |grid| && s.col < |grid| && s.totalRows == |grid|
  }

  /** One probe of the neighbour scan: `[q]` when the guard `inside` holds and
      the spot at `q` is not a wall, else nothing. */
  function Probe(grid: Grid, inside: bool, q: Pos): (r: seq<Pos>)
    requires WellFormed(grid) && (inside ==> InBounds(q, |grid|))
    ensures |r| <= 1
  {
    if inside && !IsState(At(grid, q), Black) then [q] else []
  }

  /** `q` is a spot of the grid one orthogonal step from `p`, and not a wall. */
  predicate Adjacent(grid: Grid, p: Pos, q: Pos)
    requires WellFormed(grid)
  {
    InBounds(q, |grid|) && H(p, q) == 1 && !IsState(At(grid, q), Black)
  }

  /** The entries of `r` appear in increasing slot order around `p`. */
  predicate SlotOrdered(p: Pos, r: seq<Pos>)
  {
    forall i, j :: 0 <= i < j < |r| ==> Slot(p, r[i]) < Slot(p, r[j])
  }

  /** Every entry of `r` lies in a slot below `k` around `p`. */
  predicate SlotsBelow(p: Pos, r: seq<Pos>, k: int)
  {
    forall x :: x in r ==> Slot(p, x) < k
  }

  /** Every entry of `r` lies in slot `k` or a later one around `p`. */
  predicate SlotsFrom(p: Pos, r: seq<Pos>, k: int)
  {
    forall x :: x in r ==> Slot(p, x) >= k
  }

  /** A probe holds at most the one spot of its slot. */
  lemma ProbeSlots(grid: Grid, p: Pos, inside: bool, q: Pos, k: nat)
    requires WellFormed(grid) && (inside ==> InBounds(q, |grid|)) && Slot(p, q) == k
    ensures SlotOrdered(p, Probe(grid, inside, q))
    ensures SlotsBelow(p, Probe(grid, inside, q), k + 1) && SlotsFrom(p, Probe(grid, inside, q), k)
  {
  }

  /** The probe of slot k finds `x` exactly when `x` is the adjacent spot in
      slot k, given that its guard is the bounds check of that slot. */
  lemma ProbeFindsSlot(grid: Grid, p: Pos, inside: bool, q: Pos, k: nat, x: Pos)
    requires WellFormed(grid) && InBounds(p, |grid|)
    requires inside <==> InBounds(q, |grid|)
    requires k < 4 && Slot(p, q) == k
    ensures x in Probe(grid, inside, q) <==> Adjacent(grid, p, x) && Slot(p, x) == k
  {
    SlotIsUnitDistance(p, q);
  }

  /** Appending entries of higher slots keeps the slot order. */
  lemma AppendSlotOrdered(p: Pos, a: seq<Pos>, b: seq<Pos>, k: int)
    requires SlotOrdered(p, a) && SlotOrdered(p, b) && SlotsBelow(p, a, k) && SlotsFrom(p, b, k)
    ensures SlotOrdered(p, a + b)
  {
    forall i, j | 0 <= i < j < |a + b|
      ensures Slot(p, (a + b)[i]) < Slot(p, (a + b)[j])
    {
      if j < |a| {
        assert (a + b)[i] == a[i] && (a + b)[j] == a[j];
      } else if i < |a| {
        assert (a + b)[i] in a && (a + b)[j] in b;
      } else {
        assert (a + b)[i] == b[i - |a|] && (a + b)[j] == b[j - |a|];
      }
    }
  }

  /** The probes below and above `s`, the first two of `update_neighbors`. */
  function Vertical(grid: Grid, s: Spot): seq<Pos>
    requires OnGrid(grid, s)
  {
    var n := s.totalRows;
    Probe(grid, s.row < n - 1, Pos(s.row + 1, s.col)) + Probe(grid, s.row > 0, Pos(s.row - 1, s.col))
  }

  /** ... then the probe to the left. */
  function ThreeProbes(grid: Grid, s: Spot): seq<Pos>
    requires OnGrid(grid, s)
  {
    Vertical(grid, s) + Probe(grid, s.col > 0, Pos(s.row, s.col - 1))
  }

  /** The four probes of the neighbour scan, concatenated: down, up, left, right. */
  function Scan(grid: Grid, s: Spot): seq<Pos>
    requires OnGrid(grid, s)
  {
    ThreeProbes(grid, s) + Probe(grid, s.col < s.totalRows - 1, Pos(s.row, s.col + 1))
  }

  /** The scan finds `x` exactly when `x` is adjacent to `s`. */
  lemma ScanMember(grid: Grid, s: Spot, x: Pos)
    requires OnGrid(grid, s)
    ensures x in Scan(grid, s) <==> Adjacent(grid, GetPos(s), x)
  {
    var n := s.totalRows;
    var p := GetPos(s);
    ProbeFindsSlot(grid, p, s.row < n - 1, Pos(s.row + 1, s.col), 0, x);
    ProbeFindsSlot(grid, p, s.row > 0, Pos(s.row - 1, s.col), 1, x);
    ProbeFindsSlot(grid, p, s.col > 0, Pos(s.row, s.col - 1), 2, x);
    ProbeFindsSlot(grid, p, s.col < n - 1, Pos(s.row, s.col + 1), 3, x);
    SlotIsUnitDistance(p, x);
  }

  lemma ScanFindsAdjacent(grid: Grid, s: Spot)
    requires OnGrid(grid, s)
    ensures forall x :: x in Scan(grid, s) <==> Adjacent(grid, GetPos(s), x)
  {
    forall x
      ensures x in Scan(grid, s) <==> Adjacent(grid, GetPos(s), x)
    {
      ScanMember(grid, s, x);
    }
  }

  lemma VerticalOrdered(grid: Grid, s: Spot)
    requires OnGrid(grid, s)
    ensures SlotOrdered(GetPos(s), Vertical(grid, s)) && SlotsBelow(GetPos(s), Vertical(grid, s), 2)
  {
    var n := s.totalRows;
    var p := GetPos(s);
    var d := Probe(grid, s.row < n - 1, Pos(s.row + 1, s.col));
    var u := Probe(grid, s.row > 0, Pos(s.row - 1, s.col));
    ProbeSlots(grid, p, s.row < n - 1, Pos(s.row + 1, s.col), 0);
    ProbeSlots(grid, p, s.row > 0, Pos(s.row - 1, s.col), 1);
    AppendSlotOrdered(p, d, u, 1);
    AppendSlotsBelow(p, d, u, 2);
  }

  lemma AppendSlotsBelow(p: Pos, a: seq<Pos>, b: seq<Pos>, k: int)
    requires SlotsBelow(p, a, k) && SlotsBelow(p, b, k)
    ensures SlotsBelow(p, a + b, k)
  {
  }

  lemma ThreeOrdered(grid: Grid, s: Spot)
    requires OnGrid(grid, s)
    ensures SlotOrdered(GetPos(s), ThreeProbes(grid, s)) && SlotsBelow(GetPos(s), ThreeProbes(grid, s), 3)
  {
    var p := GetPos(s);
    var l := Probe(grid, s.col > 0, Pos(s.row, s.col - 1));
    VerticalOrdered(grid, s);
    ProbeSlots(grid, p, s.col > 0, Pos(s.row, s.col - 1), 2);
    AppendSlotOrdered(p, Vertical(grid, s), l, 2);
    AppendSlotsBelow(p, Vertical(grid, s), l, 3);
  }

  /** The scan lists what it finds in slot order: down, up, left, right. */
  lemma ScanInSlotOrder(grid: Grid, s: Spot)
    requires OnGrid(grid, s)
    ensures SlotOrdered(GetPos(s), Scan(grid, s))
  {
    var p := GetPos(s);
    var rt := Probe(grid, s.col < s.totalRows - 1, Pos(s.row, s.col + 1));
    ThreeOrdered(grid, s);
    ProbeSlots(grid, p, s.col < s.totalRows - 1, Pos(s.row, s.col + 1), 3);
    AppendSlotOrdered(p, ThreeProbes(grid, s), rt, 3);
  }

  /** The neighbour scan of `update_neighbors`: the in-bounds non-wall spots
      below, above, left of and right of `s`, in that order. */
  function Neighbors(grid: Grid, s: Spot): (r: seq<Pos>)
    requires OnGrid(grid, s)
    ensures forall q :: q in r <==> Adjacent(grid, GetPos(s), q)
    ensures SlotOrdered(GetPos(s), r)
    ensures |r| <= 4
  {
    ScanFindsAdjacent(grid, s);
    ScanInSlotOrder(grid, s);
    Scan(grid, s)
  }

  lemma ProbeReadsColor(a: Grid, b: Grid, inside: bool, q: Pos)
    requires WellFormed(a) && WellFormed(b) && |a| == |b| && (inside ==> InBounds(q, |a|))
    requires inside ==> At(a, q).color == At(b, q).color
    ensures Probe(a, inside, q) == Probe(b, inside, q)
  {
  }

  lemma VerticalReadsColors(a: Grid, b: Grid, s: Spot, t: Spot)
    requires OnGrid(a, s) && OnGrid(b, t)
    requires s.row == t.row && s.col == t.col && s.totalRows == t.totalRows
    requires forall p :: InBounds(p, |a|) ==> At(a, p).color == At(b, p).color
    ensures Vertical(a, s) == Vertical(b, t)
  {
    var n := s.totalRows;
    var i: int, j: int := s.row, s.col;
    ProbeReadsColor(a, b, i < n - 1, Pos(i + 1, j));
    ProbeReadsColor(a, b, i > 0, Pos(i - 1, j));
  }

  lemma ScanReadsColors(a: Grid, b: Grid, s: Spot, t: Spot)
    requires OnGrid(a, s) && OnGrid(b, t)
    requires s.row == t.row && s.col == t.col && s.totalRows == t.totalRows
    requires forall p :: InBounds(p, |a|) ==> At(a, p).color == At(b, p).color
    ensures Scan(a, s) == Scan(b, t)
  {
    var n := s.totalRows;
    var i: int, j: int := s.row, s.col;
    VerticalReadsColors(a, b, s, t);
    ProbeReadsColor(a, b, j > 0, Pos(i, j - 1));
    ProbeReadsColor(a, b, j < n - 1, Pos(i, j + 1));
  }

  /** The scan reads only the colours of the grid and the identity of the spot. */
  lemma NeighborsReadColors(a: Grid, b: Grid, s: Spot, t: Spot)
    requires OnGrid(a, s) && OnGrid(b, t)
    requires GetPos(s) == GetPos(t) && s.totalRows == t.totalRows
    requires forall p :: InBounds(p, |a|) ==> At(a, p).color == At(b, p).color
    ensures Neighbors(a, s) == Neighbors(b, t)
  {
    ScanReadsColors(a, b, s, t);
  }

  /** `Spot.update_neighbors`: replaces the neighbour list of `s` and nothing else. */
  function UpdateNeighbors(grid: Grid, s: Spot): (r: Spot)
    requires OnGrid(grid, s)
    ensures GetPos(r) == GetPos(s) && r.color == s.color && r.totalRows == s.totalRows
    ensures forall q :: q in r.neighbors <==> Adjacent(grid, GetPos(s), q)
  {
    s.(neighbors := Neighbors(grid, s))
  }

  /** Every spot's neighbour list is the scan of the grid as it now stands. */
  ghost predicate Refreshed(grid: Grid)
    requires WellFormed(grid)
  {
    forall p :: InBounds(p, |grid|) ==> At(grid, p).neighbors == Neighbors(grid, At(grid, p))
  }

  /** The refresh pass run before a search: `update_neighbors` on every spot.
      The scan reads colours only, so running it spot by spot in place gives
      the same lists as running it on an unchanged copy. */
  function RefreshAll(grid: Grid): (r: Grid)
    requires WellFormed(grid)
    ensures WellFormed(r) && |r| == |grid|
    ensures forall p :: InBounds(p, |grid|) ==> At(r, p) == UpdateNeighbors(grid, At(grid, p))
  {
    var n := |grid|;
    seq(n, i requires 0 <= i < n => seq(n, j requires 0 <= j < n => UpdateNeighbors(grid, grid[i][j])))
  }

  /** After the refresh pass only neighbour lists have changed, and each is
      the scan of the refreshed grid. */
  lemma RefreshAllRefreshes(grid: Grid)
    requires WellFormed(grid)
    ensures forall p :: InBounds(p, |grid|) ==> At(RefreshAll(grid), p).color == At(grid, p).color
    ensures Refreshed(RefreshAll(grid))
  {
    var r := RefreshAll(grid);
    assert forall p :: InBounds(p, |grid|) ==> At(r, p).color == At(grid, p).color;
    forall p | InBounds(p, |grid|)
      ensures At(r, p).neighbors == Neighbors(r, At(r, p))
    {
      NeighborsReadColors(grid, r, At(grid, p), At(r, p));
    }
  }

  /** Refreshing twice with no edit in between changes nothing. */
  lemma RefreshIdempotent(grid: Grid)
    requires WellFormed(grid)
    ensures RefreshAll(RefreshAll(grid)) == RefreshAll(grid)
  {
    var r := RefreshAll(grid);
    var rr := RefreshAll(r);
    var n := |r|;
    RefreshAllRefreshes(grid);
    RefreshAllRefreshes(r);
    forall p | InBounds(p, n)
      ensures At(rr, p) == At(r, p)
    {
      assert At(rr, p).(neighbors := At(r, p).neighbors) == At(r, p);
      assert forall q :: InBounds(q, n) ==> At(rr, q).color == At(r, q).color;
      NeighborsReadColors(rr, r, At(rr, p), At(r, p));
    }
    forall i | 0 <= i < n
      ensures rr[i] == r[i]
    {
      forall j | 0 <= j < n
        ensures rr[i][j] == r[i][j]
      {
        assert At(rr, Pos(i, j)) == At(r, Pos(i, j));
      }
    }
  }

  /** In a refreshed grid every neighbour is an in-bounds, non-wall spot at
      Manhattan distance one. */
  lemma RefreshedNeighbors(grid: Grid, p: Pos, q: Pos)
    requires WellFormed(grid) && Refreshed(grid) && InBounds(p, |grid|)
    requires q in At(grid, p).neighbors
    ensures InBounds(q, |grid|) && H(p, q) == 1 && !IsState(At(grid, q), Black)
  {
    assert Adjacent(grid, GetPos(At(grid, p)), q);
  }

  lemma RefreshedNeighborsInBounds(grid: Grid)
    requires WellFormed(grid) && Refreshed(grid)
    ensures NeighborsInBounds(grid)
  {
    forall p, q | InBounds(p, |grid|) && q in At(grid, p).neighbors
      ensures InBounds(q, |grid|)
    {
      RefreshedNeighbors(grid, p, q);
    }
  }
}
