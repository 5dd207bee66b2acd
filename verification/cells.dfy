/**
  The cell model of the A* visualiser. A spot is identified by its (row, col)
  position; its colour is at the same time its search state. Pixel geometry
  (x, y, width) belongs to the renderer and is not modelled.
 */
module Cells {

  /** The colour names of the `COLOR` palette of Astar.py. The comment gives the search
      state each one stands for. */
  datatype Color =
    | White      // free
    | Black      // wall
    | Green      // open: queued in the frontier
    | Red        // closed: expanded
    | Blue       // on the reconstructed path
    | Purple     // goal, once reached
    | Orange     // start, as placed by the user
    | Turquoise  // goal, as placed by the user
    | Yellow     // unused by the search
    | Grey       // grid lines

  /** A (row, col) pair, as returned by `get_pos`. */
  datatype Pos = Pos(row: int, col: int)

  /** A grid cell: identity, colour, the neighbour list last computed for it,
      and the side length of the grid it lives in. */
  datatype Spot = Spot(row: nat, col: nat, color: Color, neighbors: seq<Pos>, totalRows: nat)

  function GetPos(s: Spot): Pos
  {
    Pos(s.row, s.col)
  }

  predicate IsState(s: Spot, c: Color)
  {
    s.color == c
  }

  /** Overwrites the colour; identity and neighbour list are untouched. */
  function SetState(s: Spot, c: Color): (r: Spot)
    ensures IsState(r, c)
    ensures forall d :: IsState(r, d) <==> d == c
    ensures GetPos(r) == GetPos(s) && r.neighbors == s.neighbors && r.totalRows == s.totalRows
  {
    s.(color := c)
  }

  /** Makes the spot free again. */
  function Reset(s: Spot): (r: Spot)
    ensures IsState(r, White)
    ensures GetPos(r) == GetPos(s) && r.neighbors == s.neighbors && r.totalRows == s.totalRows
  {
    SetState(s, White)
  }

  /** `Spot.__lt__`: no spot is ever smaller than another. It is the last
      tie-break of the frontier's tuple order, and the spot is named by its
      position. */
  predicate SpotLess(a: Pos, b: Pos)
  {
    false
  }

  function Abs(x: int): nat
  {
    if x < 0 then -x else x
  }

  /** The heuristic `h`: Manhattan distance between two positions. */
  function H(p1: Pos, p2: Pos): (d: int)
    ensures d >= 0
    ensures d == 0 <==> p1 == p2
  {
    Abs(p1.row - p2.row) + Abs(p1.col - p2.col)
  }

  lemma HSymmetric(a: Pos, b: Pos)
    ensures H(a, b) == H(b, a)
  {
  }

  /** The heuristic is consistent for unit steps: moving to an orthogonal
      neighbour changes the estimate by at most one. */
  lemma HConsistent(a: Pos, b: Pos, goal: Pos)
    requires H(a, b) == 1
    ensures H(a, goal) <= H(b, goal) + 1
    ensures H(b, goal) <= H(a, goal) + 1
  {
  }

  /** The rank of `q` among the four neighbour slots of `p`, in the order the
      neighbour scan probes them: down, up, left, right; 4 when `q` is not an
      orthogonal neighbour of `p`. */
  function Slot(p: Pos, q: Pos): nat
  {
    if q == Pos(p.row + 1, p.col) then 0
    else if q == Pos(p.row - 1, p.col) then 1
    else if q == Pos(p.row, p.col - 1) then 2
    else if q == Pos(p.row, p.col + 1) then 3
    else 4
  }

  /** The four slots are exactly the positions at Manhattan distance one. */
  lemma SlotIsUnitDistance(p: Pos, q: Pos)
    ensures Slot(p, q) < 4 <==> H(p, q) == 1
  {
    if H(p, q) == 1 {
      if q.row == p.row + 1 {
        assert q == Pos(p.row + 1, p.col);
      } else if q.row == p.row - 1 {
        assert q == Pos(p.row - 1, p.col);
      } else if q.col == p.col - 1 {
        assert q == Pos(p.row, p.col - 1);
      } else {
        assert q == Pos(p.row, p.col + 1);
      }
    }
  }
}
