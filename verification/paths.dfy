/**
  Path reconstruction: following `came_from` back from the goal and
  colouring every predecessor met on the way.
 */
module Paths {
  import opened Cells
  import opened Grids

  /** Every `came_from` link leads to a spot with a strictly smaller score. */
  ghost predicate Descending(cameFrom: map<Pos, Pos>, g: map<Pos, nat>)
  {
    forall p :: p in cameFrom ==> p in g && cameFrom[p] in g && g[cameFrom[p]] < g[p]
  }

  /** The predecessors of `p`, nearest first, up to the first spot that has
      none. Scores fall along the chain, so it is finite. */
  ghost function Chain(cameFrom: map<Pos, Pos>, g: map<Pos, nat>, p: Pos): (c: seq<Pos>)
    requires Descending(cameFrom, g)
    ensures c == [] <==> p !in cameFrom
    ensures c != [] ==> c[0] == cameFrom[p] && c[|c| - 1] !in cameFrom
    decreases if p in g then g[p] else 0
  {
    if p in cameFrom then [cameFrom[p]] + Chain(cameFrom, g, cameFrom[p]) else []
  }

  /** Every spot of the chain carries a score, lower than that of `p`. */
  lemma {:induction false} ChainDescends(cameFrom: map<Pos, Pos>, g: map<Pos, nat>, p: Pos)
    requires Descending(cameFrom, g)
    ensures forall x :: x in Chain(cameFrom, g, p) ==> x in g && (p in g ==> g[x] < g[p])
    decreases if p in g then g[p] else 0
  {
    if p in cameFrom {
      ChainDescends(cameFrom, g, cameFrom[p]);
    }
  }

  /** Colouring one more spot blue extends the marked set by that spot. */
  lemma MarkStep(grid: Grid, grid': Grid, grid'': Grid, marked: seq<Pos>, next: Pos)
    requires SameLayout(grid, grid') && InBounds(next, |grid|)
    requires forall p :: InBounds(p, |grid|) ==>
               At(grid', p).color == if p in marked then Blue else At(grid, p).color
    requires grid'' == Recolor(grid', next, Blue)
    ensures SameLayout(grid, grid'')
    ensures forall p :: InBounds(p, |grid|) ==>
              At(grid'', p).color == if p in marked + [next] then Blue else At(grid, p).color
  {
    SameLayoutTrans(grid, grid', grid'');
    forall p | InBounds(p, |grid|)
      ensures At(grid'', p).color == if p in marked + [next] then Blue else At(grid, p).color
    {
      assert p in marked + [next] <==> p in marked || p == next;
    }
  }

  /** The state of `reconstruct_path` after walking from `end` to `current`:
      `marked` is the part of the chain walked so far, and exactly those spots
      have been coloured blue. */
  ghost predicate Walked(grid: Grid, grid': Grid, cameFrom: map<Pos, Pos>, g: map<Pos, nat>,
                         end: Pos, current: Pos, marked: seq<Pos>)
    requires Descending(cameFrom, g)
  {
    && marked + Chain(cameFrom, g, current) == Chain(cameFrom, g, end)
    && SameLayout(grid, grid')
    && forall p :: InBounds(p, |grid|) ==>
         At(grid', p).color == if p in marked then Blue else At(grid, p).color
  }

  /** One iteration of the walk: step to the predecessor and colour it. */
  lemma WalkStep(grid: Grid, grid': Grid, cameFrom: map<Pos, Pos>, g: map<Pos, nat>,
                 end: Pos, current: Pos, marked: seq<Pos>)
    requires Descending(cameFrom, g) && current in cameFrom
    requires InBounds(cameFrom[current], |grid|)
    requires Walked(grid, grid', cameFrom, g, end, current, marked)
    ensures Walked(grid, Recolor(grid', cameFrom[current], Blue), cameFrom, g, end,
                   cameFrom[current], marked + [cameFrom[current]])
  {
    var next := cameFrom[current];
    assert Chain(cameFrom, g, current) == [next] + Chain(cameFrom, g, next);
    assert (marked + [next]) + Chain(cameFrom, g, next) == marked + ([next] + Chain(cameFrom, g, next));
    MarkStep(grid, grid', Recolor(grid', next, Blue), marked, next);
  }

  /** `reconstruct_path`: from `end`, step to the predecessor and colour it
      blue while there is one. The loop ends because scores fall along the
      links; `g` is the scores the caller's search recorded. */
  method ReconstructPath(grid: Grid, cameFrom: map<Pos, Pos>, ghost g: map<Pos, nat>, end: Pos)
    returns (grid': Grid, marked: seq<Pos>)
    requires WellFormed(grid) && Descending(cameFrom, g)
    requires forall p :: p in cameFrom ==> InBounds(cameFrom[p], |grid|)
    ensures marked == Chain(cameFrom, g, end)
    ensures SameLayout(grid, grid')
    ensures forall p :: InBounds(p, |grid|) ==>
              At(grid', p).color == if p in marked then Blue else At(grid, p).color
  {
    var current := end;
    grid' := grid;
    marked := [];
    while current in cameFrom
      invariant Walked(grid, grid', cameFrom, g, end, current, marked)
      decreases if current in g then g[current] + 1 else 0
    {
      var next := cameFrom[current];
      WalkStep(grid, grid', cameFrom, g, end, current, marked);
      current, grid', marked := next, Recolor(grid', next, Blue), marked + [next];
    }
    assert Chain(cameFrom, g, current) == [];
    assert marked + [] == marked;
  }

  /** `b` runs backwards through neighbour links: each entry is in the
      neighbour list of the entry after it. */
  ghost predicate BackWalk(grid: Grid, b: seq<Pos>)
    requires WellFormed(grid)
  {
    && (forall i :: 0 <= i < |b| ==> InBounds(b[i], |grid|))
    && (forall i :: 0 <= i < |b| - 1 ==> b[i] in At(grid, b[i + 1]).neighbors)
  }

  /** A backward walk extends by a spot found in its first entry's neighbour list. */
  lemma BackWalkCons(grid: Grid, p: Pos, b: seq<Pos>)
    requires WellFormed(grid) && BackWalk(grid, b) && |b| > 0
    requires InBounds(p, |grid|) && p in At(grid, b[0]).neighbors
    ensures BackWalk(grid, [p] + b)
  {
    var w := [p] + b;
    forall i | 0 <= i < |w| - 1
      ensures w[i] in At(grid, w[i + 1]).neighbors
    {
      if i > 0 {
        assert w[i] == b[i - 1] && w[i + 1] == b[i];
      }
    }
  }

  /** In a refreshed grid a backward walk moves one orthogonal step at a time
      and never enters a wall. */
  lemma BackWalkSteps(grid: Grid, b: seq<Pos>)
    requires WellFormed(grid) && Refreshed(grid) && BackWalk(grid, b)
    ensures forall i :: 0 <= i < |b| - 1 ==> H(b[i], b[i + 1]) == 1
    ensures forall i :: 0 <= i < |b| - 1 ==> !IsState(At(grid, b[i]), Black)
  {
    forall i | 0 <= i < |b| - 1
      ensures H(b[i], b[i + 1]) == 1 && !IsState(At(grid, b[i]), Black)
    {
      RefreshedNeighbors(grid, b[i + 1], b[i]);
      HSymmetric(b[i], b[i + 1]);
    }
  }
}
